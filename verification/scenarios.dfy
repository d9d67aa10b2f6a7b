/** Worked runs of the model on the seeded database: an order that goes
    through, one refused for stock, one refused for a vanished variant, and what
    the seed's missing admin email means at sign-in. */
module Scenarios {
  import opened Basics
  import opened Store
  import opened SessionStore
  import Checkout
  import Provisioning
  import Routes
  import Seed

  function CartSession(lines: seq<CartLine>): Session {
    map[CartKey := CartList(lines)]
  }

  /** Two white controllers at 69.99 each: the order totals 139.98, stock goes
      from 100 to 98, and the cart is emptied. */
  lemma TwoControllers()
    ensures var o := Checkout.PlaceOrder(Seed.SeededDb(), CartSession([CartLine("DS-CTRL-WHT", 2)]), Some("user_1"), "order_1", false);
      && o.response == Checkout.OrderPlaced("order_1")
      && "order_1" in o.db.orders && o.db.orders["order_1"].totalAmount == 13998
      && "DS-CTRL-WHT" in o.db.variants && o.db.variants["DS-CTRL-WHT"].stock == 98
      && GetCart(o.session) == []
  {
  }

  /** Thirty-one digital consoles when thirty are in stock: refused, reporting
      the thirty available; nothing changes and the cart is kept. */
  lemma NotEnoughConsoles()
    ensures var session := CartSession([CartLine("PS5-DIGITAL-WHT", 31)]);
      var o := Checkout.PlaceOrder(Seed.SeededDb(), session, Some("user_1"), "order_1", false);
      o == Checkout.Outcome(Checkout.Rejected(Checkout.InsufficientStock("PS5-DIGITAL-WHT", 30)), Seed.SeededDb(), session)
  {
  }

  /** A cart line naming a variant that is not in the catalog is refused by id. */
  lemma VanishedVariant()
    ensures var session := CartSession([CartLine("DS-CTRL-WHT", 1), CartLine("GONE", 1)]);
      var o := Checkout.PlaceOrder(Seed.SeededDb(), session, Some("user_1"), "order_1", false);
      o == Checkout.Outcome(Checkout.Rejected(Checkout.VariantNotFound("GONE")), Seed.SeededDb(), session)
  {
    var db := Seed.SeededDb();
    var cart := [CartLine("DS-CTRL-WHT", 1), CartLine("GONE", 1)];
    assert Checkout.LineAvailable(db, cart[0]);
    Checkout.FirstFailureAt(db, cart, 1);
  }

  function Account(id: ClerkId, email: Email): Provisioning.ClerkUser {
    Provisioning.ClerkUser(id, Some("idn_1"), [Provisioning.EmailAddress("idn_1", email)])
  }

  /** The seeded customer signs in for the first time: a CUSTOMER user is
      created and the site root sends them to the product list. */
  lemma SeededCustomerSignsIn()
    ensures var r := Routes.IndexLoader(Seed.SeededDb(), Routes.AuthState(Some("user_c"), Some("sess_1")),
        map["user_c" := Account("user_c", Seed.Customer1Email)], false);
      && r.reply == Routes.Redirect("/products")
      && "user_c" in r.db.users && r.db.users["user_c"] == User("user_c", Seed.Customer1Email, CUSTOMER)
  {
    Seed.SeededApprovedEmails();
  }

  /** The second admin address the seed meant to approve is not approved, so
      that person is turned away from the admin area. */
  lemma SecondAdminLockedOut()
    ensures var r := Routes.AdminLoader(Seed.SeededDb(), Routes.AuthState(Some("user_v"), Some("sess_1")),
        map["user_v" := Account("user_v", Seed.AdminEmail1)], false, "/admin");
      r == Routes.LoaderResult(Routes.Redirect("/unauthorized-access"), Seed.SeededDb())
  {
    Seed.SeededApprovedEmails();
  }
}
