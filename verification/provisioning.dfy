/** Provisioning of database users from identity-provider accounts: a user is
    created or kept in step only when the account's primary email address is on
    the approved-email list, and always with the role that list assigns. */
module Provisioning {
  import opened Basics
  import opened Store

  datatype EmailAddress = EmailAddress(id: string, emailAddress: string)

  /** The parts of an identity-provider account that provisioning reads. */
  datatype ClerkUser = ClerkUser(id: ClerkId, primaryEmailAddressId: Option<string>, emailAddresses: seq<EmailAddress>)

  /** What provisioning returns (a user, or null) and the database afterwards. */
  datatype Provisioned = Provisioned(user: Option<User>, db: Db)

  /** `Array.prototype.find` on the address ids: the index of the first address
      whose id is the primary one. A missing primary id matches nothing. */
  function FindPrimary(addresses: seq<EmailAddress>, primary: Option<string>): (r: Option<nat>)
    ensures r.Some? ==>
      && r.value < |addresses| && primary == Some(addresses[r.value].id)
      && forall j :: 0 <= j < r.value ==> Some(addresses[j].id) != primary
    ensures r.None? ==> forall j :: 0 <= j < |addresses| ==> Some(addresses[j].id) != primary
    decreases |addresses|
  {
    if addresses == [] then None
    else if primary == Some(addresses[0].id) then Some(0)
    else
      match FindPrimary(addresses[1..], primary)
      case None => None
      case Some(k) => Some(k + 1)
  }

  /** The account's primary email address: the address of the first entry whose
      id is the primary one, provided that address is non-empty. A later entry
      with the same id is never consulted. */
  function PrimaryEmail(c: ClerkUser): (r: Option<Email>)
    ensures r.Some? ==>
      && r.value != ""
      && exists i :: 0 <= i < |c.emailAddresses| && c.emailAddresses[i].emailAddress == r.value &&
           Some(c.emailAddresses[i].id) == c.primaryEmailAddressId &&
           forall j :: 0 <= j < i ==> Some(c.emailAddresses[j].id) != c.primaryEmailAddressId
    ensures r.None? ==>
      || (forall j :: 0 <= j < |c.emailAddresses| ==> Some(c.emailAddresses[j].id) != c.primaryEmailAddressId)
      || exists i :: 0 <= i < |c.emailAddresses| && c.emailAddresses[i].emailAddress == "" &&
           Some(c.emailAddresses[i].id) == c.primaryEmailAddressId &&
           forall j :: 0 <= j < i ==> Some(c.emailAddresses[j].id) != c.primaryEmailAddressId
  {
    match FindPrimary(c.emailAddresses, c.primaryEmailAddressId)
    case None => None
    case Some(i) =>
      if c.emailAddresses[i].emailAddress == "" then None else Some(c.emailAddresses[i].emailAddress)
  }

  /** `getOrCreateDbUser`. `createFails` says the database rejects the insert
      (the source catches that and returns null). */
  function GetOrCreateDbUser(db: Db, c: ClerkUser, createFails: bool): (r: Provisioned)
    // Guard clauses: no id, no primary email, or an email not approved.
    ensures c.id == "" ==> r == Provisioned(None, db)
    ensures PrimaryEmail(c).None? ==> r == Provisioned(None, db)
    ensures PrimaryEmail(c).Some? && PrimaryEmail(c).value !in db.approved ==> r == Provisioned(None, db)
    // Only the users table ever changes, and only at this account's key.
    ensures r.db == db.(users := r.db.users)
    ensures r.db.users.Keys == db.users.Keys || r.db.users.Keys == db.users.Keys + {c.id}
    ensures forall k :: k in db.users && k != c.id ==> r.db.users[k] == db.users[k]
    // Every user returned carries the approved role of the current primary email.
    ensures r.user.Some? ==>
      && PrimaryEmail(c).Some? && PrimaryEmail(c).value in db.approved
      && r.user.value.role == db.approved[PrimaryEmail(c).value]
      && c.id in r.db.users && r.db.users[c.id] == r.user.value
    // An approved account that already has a user gets that user back, with its
    // role synced to the approved one and everything else kept.
    ensures c.id != "" && PrimaryEmail(c).Some? && PrimaryEmail(c).value in db.approved && c.id in db.users ==>
      var user := db.users[c.id].(role := db.approved[PrimaryEmail(c).value]);
      r.user == Some(user) && r.db.users == db.users[c.id := user]
  {
    if c.id == "" then Provisioned(None, db)
    else
      match PrimaryEmail(c)
      case None => Provisioned(None, db)
      case Some(email) =>
        if email !in db.approved then Provisioned(None, db)
        else
          var role := db.approved[email];
          if c.id !in db.users then
            if createFails then Provisioned(None, db)
            else
              var user := User(c.id, email, role);
              Provisioned(Some(user), db.(users := db.users[c.id := user]))
          else if db.users[c.id].role != role then
            var user := db.users[c.id].(role := role);
            Provisioned(Some(user), db.(users := db.users[c.id := user]))
          else
            Provisioned(Some(db.users[c.id]), db)
  }

  /** A new account with an approved email gets exactly one new user: its id,
      that email and the approved role. */
  lemma NewUserCreated(db: Db, c: ClerkUser)
    requires c.id != "" && c.id !in db.users
    requires PrimaryEmail(c).Some? && PrimaryEmail(c).value in db.approved
    ensures var r := GetOrCreateDbUser(db, c, false);
      var user := User(c.id, PrimaryEmail(c).value, db.approved[PrimaryEmail(c).value]);
      r.user == Some(user) && r.db.users == db.users[c.id := user]
  {
  }

  /** A failed insert returns null and leaves the database alone. */
  lemma FailedCreateReturnsNull(db: Db, c: ClerkUser)
    requires c.id !in db.users
    ensures GetOrCreateDbUser(db, c, true) == Provisioned(None, db)
  {
  }

  /** An existing user is synced on role only: with an approved primary email
      it is returned with the approved role, whether or not inserts would fail,
      and the stored email is kept even if the account's primary email has
      since changed. */
  lemma ExistingUserKeepsEmail(db: Db, c: ClerkUser, createFails: bool)
    requires c.id in db.users
    ensures var r := GetOrCreateDbUser(db, c, createFails);
      r.user.Some? ==> r.user.value.email == db.users[c.id].email && r.user.value.clerkId == db.users[c.id].clerkId
    ensures c.id != "" && PrimaryEmail(c).Some? && PrimaryEmail(c).value in db.approved ==>
      var r := GetOrCreateDbUser(db, c, createFails);
      var role := db.approved[PrimaryEmail(c).value];
      && r.user.Some? && r.user.value.role == role
      && r.user.value == db.users[c.id].(role := role)
      && r.db == db.(users := db.users[c.id := r.user.value])
  {
  }

  /** Provisioning is idempotent: after one call that did not hit an insert
      failure, a second call with the same account returns the same user and
      changes nothing, whatever happens to inserts the second time. */
  lemma Idempotent(db: Db, c: ClerkUser, createFails: bool, createFailsAgain: bool)
    requires GetOrCreateDbUser(db, c, createFails).user.Some? || !createFails
    ensures var first := GetOrCreateDbUser(db, c, createFails);
      GetOrCreateDbUser(first.db, c, createFailsAgain) == first
  {
  }
}
