/** The three route loaders that gate on identity: the admin area, the
    post-login callback, and the site root. All three resolve the caller the same
    way (session, identity-provider account, provisioned database user) and then
    decide where to send them; they disagree on where an ADMIN lands. */
module Routes {
  import opened Basics
  import opened Store
  import Provisioning

  /** What the identity provider's session lookup yields for a request. */
  datatype AuthState = AuthState(userId: Option<ClerkId>, sessionId: Option<string>)

  /** A loader's answer: a redirect, or the admin area's data. */
  datatype Reply = Redirect(location: string) | AdminData(email: Email, role: Role)

  datatype LoaderResult = LoaderResult(reply: Reply, db: Db)

  const SignIn: string := "/sign-in"
  const Unauthorized: string := "/unauthorized-access"
  const ProductsPage: string := "/products"
  const AdminHome: string := "/admin"
  const AdminDashboard: string := "/admin/dashboard"

  /** How far resolving the caller got. */
  datatype Resolution = NoSession | NoAccount | NoDbUser | DbUser(user: User)

  datatype Resolved = Resolved(resolution: Resolution, db: Db)

  predicate SignedIn(auth: AuthState) {
    Truthy(auth.userId) && Truthy(auth.sessionId)
  }

  /** The steps the three loaders share: both session ids must be present, the
      identity provider must know the user (`accounts` stands for its user
      directory), and provisioning must yield a database user. */
  function Resolve(db: Db, auth: AuthState, accounts: map<ClerkId, Provisioning.ClerkUser>, createFails: bool): (r: Resolved)
    ensures !SignedIn(auth) ==> r == Resolved(NoSession, db)
    ensures SignedIn(auth) && auth.userId.value !in accounts ==> r == Resolved(NoAccount, db)
    ensures SignedIn(auth) && auth.userId.value in accounts ==>
      var p := Provisioning.GetOrCreateDbUser(db, accounts[auth.userId.value], createFails);
      r.db == p.db && (if p.user.None? then r.resolution == NoDbUser else r.resolution == DbUser(p.user.value))
  {
    if !SignedIn(auth) then Resolved(NoSession, db)
    else if auth.userId.value !in accounts then Resolved(NoAccount, db)
    else
      var p := Provisioning.GetOrCreateDbUser(db, accounts[auth.userId.value], createFails);
      match p.user
      case None => Resolved(NoDbUser, p.db)
      case Some(u) => Resolved(DbUser(u), p.db)
  }

  /** The admin area's loader (`pathname` is the requested path). */
  function AdminLoader(db: Db, auth: AuthState, accounts: map<ClerkId, Provisioning.ClerkUser>, createFails: bool, pathname: string): (r: LoaderResult)
    ensures !SignedIn(auth) ==> r == LoaderResult(Redirect(SignIn + "?redirect_url=" + pathname), db)
    ensures SignedIn(auth) && auth.userId.value !in accounts ==> r == LoaderResult(Redirect(SignIn), db)
    ensures r.db == Resolve(db, auth, accounts, createFails).db
    ensures r.reply.AdminData? <==>
      Resolve(db, auth, accounts, createFails).resolution.DbUser? &&
      Resolve(db, auth, accounts, createFails).resolution.user.role == ADMIN
    ensures r.reply.AdminData? ==>
      var u := Resolve(db, auth, accounts, createFails).resolution.user;
      r.reply == AdminData(u.email, ADMIN)
    ensures r.reply == Redirect(Unauthorized) <==>
      Resolve(db, auth, accounts, createFails).resolution.NoDbUser? ||
      (Resolve(db, auth, accounts, createFails).resolution.DbUser? &&
       Resolve(db, auth, accounts, createFails).resolution.user.role != ADMIN)
  {
    var resolved := Resolve(db, auth, accounts, createFails);
    match resolved.resolution
    case NoSession => LoaderResult(Redirect(SignIn + "?redirect_url=" + pathname), resolved.db)
    case NoAccount => LoaderResult(Redirect(SignIn), resolved.db)
    case NoDbUser => LoaderResult(Redirect(Unauthorized), resolved.db)
    case DbUser(u) =>
      if u.role != ADMIN then LoaderResult(Redirect(Unauthorized), resolved.db)
      else LoaderResult(AdminData(u.email, u.role), resolved.db)
  }

  /** The post-login callback's loader. */
  function CallbackLoader(db: Db, auth: AuthState, accounts: map<ClerkId, Provisioning.ClerkUser>, createFails: bool): (r: LoaderResult)
    ensures r.reply.Redirect?
    ensures r.db == Resolve(db, auth, accounts, createFails).db
    ensures !SignedIn(auth) || auth.userId.value !in accounts ==> r == LoaderResult(Redirect(SignIn), db)
    ensures Resolve(db, auth, accounts, createFails).resolution.NoDbUser? ==> r.reply == Redirect(Unauthorized)
    ensures Resolve(db, auth, accounts, createFails).resolution.DbUser? ==>
      r.reply == Redirect(if Resolve(db, auth, accounts, createFails).resolution.user.role == ADMIN then AdminHome else ProductsPage)
  {
    var resolved := Resolve(db, auth, accounts, createFails);
    match resolved.resolution
    case NoSession => LoaderResult(Redirect(SignIn), resolved.db)
    case NoAccount => LoaderResult(Redirect(SignIn), resolved.db)
    case NoDbUser => LoaderResult(Redirect(Unauthorized), resolved.db)
    case DbUser(u) =>
      if u.role == ADMIN then LoaderResult(Redirect(AdminHome), resolved.db)
      else if u.role == CUSTOMER then LoaderResult(Redirect(ProductsPage), resolved.db)
      else LoaderResult(Redirect(ProductsPage), resolved.db)
  }

  /** The site root's loader. */
  function IndexLoader(db: Db, auth: AuthState, accounts: map<ClerkId, Provisioning.ClerkUser>, createFails: bool): (r: LoaderResult)
    ensures r.reply.Redirect?
    ensures r.db == Resolve(db, auth, accounts, createFails).db
    ensures !SignedIn(auth) || auth.userId.value !in accounts ==> r == LoaderResult(Redirect(SignIn), db)
    ensures Resolve(db, auth, accounts, createFails).resolution.NoDbUser? ==> r.reply == Redirect(Unauthorized)
    ensures Resolve(db, auth, accounts, createFails).resolution.DbUser? ==>
      r.reply == Redirect(if Resolve(db, auth, accounts, createFails).resolution.user.role == ADMIN then AdminDashboard else ProductsPage)
  {
    var resolved := Resolve(db, auth, accounts, createFails);
    match resolved.resolution
    case NoSession => LoaderResult(Redirect(SignIn), resolved.db)
    case NoAccount => LoaderResult(Redirect(SignIn), resolved.db)
    case NoDbUser => LoaderResult(Redirect(Unauthorized), resolved.db)
    case DbUser(u) =>
      if u.role == ADMIN then LoaderResult(Redirect(AdminDashboard), resolved.db)
      else if u.role == CUSTOMER then LoaderResult(Redirect(ProductsPage), resolved.db)
      else LoaderResult(Redirect(ProductsPage), resolved.db)
  }

  /** The admin area hands out data only to an ADMIN, and that data is the
      provisioned user's own email with the role ADMIN. */
  lemma AdminDataOnlyForAdmins(db: Db, auth: AuthState, accounts: map<ClerkId, Provisioning.ClerkUser>, createFails: bool, pathname: string)
    ensures var r := AdminLoader(db, auth, accounts, createFails, pathname);
      r.reply.AdminData? ==>
        && SignedIn(auth) && auth.userId.value in accounts
        && var c := accounts[auth.userId.value];
           var email := Provisioning.PrimaryEmail(c);
           && email.Some? && email.value in db.approved && db.approved[email.value] == ADMIN
           && c.id in r.db.users && r.db.users[c.id].email == r.reply.email
           && r.reply.role == ADMIN
  {
  }

  /** For the same caller and state, the callback sends an ADMIN to "/admin"
      while the site root sends them to "/admin/dashboard"; every other
      provisioned role lands on "/products" in both. */
  lemma AdminLandingDiffers(db: Db, auth: AuthState, accounts: map<ClerkId, Provisioning.ClerkUser>, createFails: bool)
    requires Resolve(db, auth, accounts, createFails).resolution.DbUser?
    ensures var role := Resolve(db, auth, accounts, createFails).resolution.user.role;
      var callback := CallbackLoader(db, auth, accounts, createFails).reply;
      var root := IndexLoader(db, auth, accounts, createFails).reply;
      (role == ADMIN <==> callback != root) &&
      (role == ADMIN ==> callback == Redirect("/admin") && root == Redirect("/admin/dashboard")) &&
      (role != ADMIN ==> callback == root == Redirect("/products"))
  {
  }
}
