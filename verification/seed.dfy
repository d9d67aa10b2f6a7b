/** The seed script: five upserts into the approved-email list, then the
    catalog of five products with nine variants. Prices are in cents. */
module Seed {
  import opened Basics
  import opened Store

  const AdminEmail: Email := "abhishek@zuvees.com"
  const AdminEmail1: Email := "vedbhanushali0@gmail.com"
  const Rider1Email: Email := "rider1@example.com"
  const Rider2Email: Email := "rider2@example.com"
  const Customer1Email: Email := "customer1@example.com"

  /** `approvedEmail.upsert` with an empty update: a row found by `key` is left
      as it is; otherwise the `create` row is inserted under its own email, which
      need not be `key`. Email is unique, so creating an email that is already
      listed violates the constraint: the call throws and the script stops (None). */
  function Upsert(m: map<Email, Role>, key: Email, createEmail: Email, createRole: Role): (r: Option<map<Email, Role>>)
    ensures key in m ==> r == Some(m)
    ensures key !in m && createEmail in m ==> r.None?
    ensures key !in m && createEmail !in m ==>
      && r.Some?
      && r.value.Keys == m.Keys + {createEmail} && r.value[createEmail] == createRole
      && forall e :: e in m ==> r.value[e] == m[e]
  {
    if key in m then Some(m)
    else if createEmail in m then None
    else Some(m[createEmail := createRole])
  }

  /** The approved-email section as written: the second upsert looks up
      `AdminEmail` but would create `AdminEmail1`. None means the script stopped. */
  function SeedApprovedEmails(m: map<Email, Role>): Option<map<Email, Role>> {
    var m1 :- Upsert(m, AdminEmail, AdminEmail, ADMIN);
    var m2 :- Upsert(m1, AdminEmail, AdminEmail1, ADMIN);
    var m3 :- Upsert(m2, Rider1Email, Rider1Email, RIDER);
    var m4 :- Upsert(m3, Rider2Email, Rider2Email, RIDER);
    Upsert(m4, Customer1Email, Customer1Email, CUSTOMER)
  }

  /** The approved-email section as evidently intended: the second upsert
      looks up the email it creates. */
  function SeedApprovedEmailsIntended(m: map<Email, Role>): Option<map<Email, Role>> {
    var m1 :- Upsert(m, AdminEmail, AdminEmail, ADMIN);
    var m2 :- Upsert(m1, AdminEmail1, AdminEmail1, ADMIN);
    var m3 :- Upsert(m2, Rider1Email, Rider1Email, RIDER);
    var m4 :- Upsert(m3, Rider2Email, Rider2Email, RIDER);
    Upsert(m4, Customer1Email, Customer1Email, CUSTOMER)
  }

  /** An upsert whose key is already present changes nothing. */
  lemma UpsertPresentKeyIsNoOp(m: map<Email, Role>, key: Email, createEmail: Email, createRole: Role)
    requires key in m
    ensures Upsert(m, key, createEmail, createRole) == Some(m)
  {
  }

  /** An upsert keyed on an absent email whose create row clashes with a listed
      email stops the script. */
  lemma UpsertCreateClashAborts(m: map<Email, Role>, key: Email, createEmail: Email, createRole: Role)
    requires key !in m && createEmail in m
    ensures Upsert(m, key, createEmail, createRole).None?
  {
  }

  /** Seeding an empty list yields exactly four entries; the second admin is missing. */
  lemma SeededApprovedEmails()
    ensures SeedApprovedEmails(map[]) ==
      Some(map[AdminEmail := ADMIN, Rider1Email := RIDER, Rider2Email := RIDER, Customer1Email := CUSTOMER])
  {
  }

  /** Whatever the list held before, the section as written runs to the end and
      never adds the second admin email: by the time its upsert runs,
      `AdminEmail` is present. */
  lemma SecondAdminNeverInserted(m: map<Email, Role>)
    requires AdminEmail1 !in m
    ensures SeedApprovedEmails(m).Some? && AdminEmail1 !in SeedApprovedEmails(m).value
  {
  }

  /** Seeding never stops early, keeps every entry it finds and guarantees the
      four seeded emails. */
  lemma SeedKeepsAndAdds(m: map<Email, Role>)
    ensures var r := SeedApprovedEmails(m);
      && r.Some?
      && r.value.Keys == m.Keys + {AdminEmail, Rider1Email, Rider2Email, Customer1Email}
      && forall e :: e in m ==> r.value[e] == m[e]
  {
  }

  /** Running the approved-email section again changes nothing. */
  lemma SeedIdempotent(m: map<Email, Role>)
    ensures SeedApprovedEmails(m).Some?
    ensures SeedApprovedEmails(SeedApprovedEmails(m).value) == SeedApprovedEmails(m)
  {
    SeedKeepsAndAdds(m);
  }

  /** The intended section never stops early, keeps what was there and seeds
      both admins. */
  lemma IntendedSeedsBothAdmins(m: map<Email, Role>)
    ensures var r := SeedApprovedEmailsIntended(m);
      && r.Some?
      && r.value.Keys == m.Keys + {AdminEmail, AdminEmail1, Rider1Email, Rider2Email, Customer1Email}
      && (AdminEmail1 !in m ==> r.value[AdminEmail1] == ADMIN)
      && forall e :: e in m ==> r.value[e] == m[e]
  {
    var m1 := Upsert(m, AdminEmail, AdminEmail, ADMIN).value;
    var m2 := Upsert(m1, AdminEmail1, AdminEmail1, ADMIN).value;
    assert AdminEmail1 !in m ==> m2[AdminEmail1] == ADMIN;
    var m3 := Upsert(m2, Rider1Email, Rider1Email, RIDER).value;
    var m4 := Upsert(m3, Rider2Email, Rider2Email, RIDER).value;
    assert SeedApprovedEmailsIntended(m) == Upsert(m4, Customer1Email, Customer1Email, CUSTOMER);
  }

  /** The intended section is idempotent too. */
  lemma IntendedSeedIdempotent(m: map<Email, Role>)
    ensures SeedApprovedEmailsIntended(m).Some?
    ensures SeedApprovedEmailsIntended(SeedApprovedEmailsIntended(m).value) == SeedApprovedEmailsIntended(m)
  {
    IntendedSeedsBothAdmins(m);
  }

  /** On an empty list the intended section yields the five entries. */
  lemma IntendedSeededApprovedEmails()
    ensures SeedApprovedEmailsIntended(map[]) ==
      Some(map[AdminEmail := ADMIN, AdminEmail1 := ADMIN, Rider1Email := RIDER, Rider2Email := RIDER, Customer1Email := CUSTOMER])
  {
  }

  /** The seeded product descriptions. */
  const Ps5Description: string := "Experience lightning-fast loading with an ultra-high-speed SSD, deeper immersion with support for haptic feedback, adaptive triggers, and 3D Audio."
  const XboxDescription: string := "The fastest, most powerful Xbox ever. Explore rich new worlds with 12 teraflops of raw graphic processing power."
  const DualSenseDescription: string := "Discover a deeper, highly immersive gaming experience with the innovative PS5 controller, featuring haptic feedback and dynamic adaptive triggers."
  const HeadsetDescription: string := "Immersive sound quality with a comfortable design for long gaming sessions."
  const KeyboardDescription: string := "RGB backlit mechanical keyboard with responsive keys for competitive gaming."

  /** The seeded products, keyed by a readable id (the database assigns its own). */
  function SeededProducts(): map<ProductId, Product> {
    map[
      "ps5" := Product("PlayStation 5 Console", Some(Ps5Description), Some(49999)),
      "xbox-series-x" := Product("Xbox Series X", Some(XboxDescription), Some(49999)),
      "dualsense" := Product("DualSense Wireless Controller", Some(DualSenseDescription), Some(6999)),
      "headset" := Product("Pro Gaming Headset", Some(HeadsetDescription), Some(8999)),
      "keyboard" := Product("Mechanical Gaming Keyboard", Some(KeyboardDescription), Some(12999))
    ]
  }

  /** The seeded variants, keyed by their SKU. */
  function SeededVariants(): map<VariantId, Variant> {
    map[
      "PS5-DISC-WHT" := Variant("ps5", Some("White"), Some("Disc Edition"), Some(49999), 50),
      "PS5-DIGITAL-WHT" := Variant("ps5", Some("White"), Some("Digital Edition"), Some(39999), 30),
      "XSX-STD-BLK" := Variant("xbox-series-x", Some("Black"), Some("Standard"), Some(49999), 40),
      "DS-CTRL-WHT" := Variant("dualsense", Some("White"), Some("Standard"), Some(6999), 100),
      "DS-CTRL-RED" := Variant("dualsense", Some("Cosmic Red"), Some("Standard"), Some(7499), 75),
      "HEADSET-PRO-BLK-W" := Variant("headset", Some("Black"), Some("Wired"), Some(8999), 60),
      "HEADSET-PRO-WHT-WL" := Variant("headset", Some("White"), Some("Wireless"), Some(11999), 40),
      "KEYB-MECH-BLK-FS" := Variant("keyboard", Some("Black"), Some("Full Size"), Some(12999), 50),
      "KEYB-MECH-SIL-TKL" := Variant("keyboard", Some("Silver"), Some("Tenkeyless"), Some(11999), 30)
    ]
  }

  /** The database right after the seed script, with the approved-email list as
      written (on an empty list the section runs to the end: `SeededApprovedEmails`). */
  function SeededDb(): Db {
    Db(SeededProducts(), SeededVariants(), map[], map[], SeedApprovedEmails(map[]).OrElse(map[]))
  }

  /** Five seeded products. */
  lemma SeededProductCount()
    ensures |SeededDb().products| == 5
  {
    var keys := SeededProducts().Keys;
    assert "ps5" in keys && "xbox-series-x" in keys && "dualsense" in keys && "headset" in keys && "keyboard" in keys;
    assert keys == {"ps5", "xbox-series-x", "dualsense", "headset", "keyboard"};
    assert |{"ps5", "xbox-series-x", "dualsense", "headset", "keyboard"}| == 5;
  }

  /** Nine seeded variants. */
  lemma SeededVariantCount()
    ensures |SeededDb().variants| == 9
  {
    SeededSkus();
    SkuCount();
  }

  /** The SKUs that key the seeded variants. */
  const Skus: set<VariantId> := {"PS5-DISC-WHT", "PS5-DIGITAL-WHT", "XSX-STD-BLK", "DS-CTRL-WHT", "DS-CTRL-RED",
      "HEADSET-PRO-BLK-W", "HEADSET-PRO-WHT-WL", "KEYB-MECH-BLK-FS", "KEYB-MECH-SIL-TKL"}

  lemma SeededSkus()
    ensures SeededVariants().Keys == Skus
  {
  }

  lemma SkuCount()
    ensures |Skus| == 9
  {
    var k0: set<VariantId> := {};
    var k1 := k0 + {"PS5-DISC-WHT"};
    assert "PS5-DISC-WHT" !in k0;
    var k2 := k1 + {"PS5-DIGITAL-WHT"};
    assert "PS5-DIGITAL-WHT" !in k1;
    var k3 := k2 + {"XSX-STD-BLK"};
    assert "XSX-STD-BLK" !in k2;
    var k4 := k3 + {"DS-CTRL-WHT"};
    assert "DS-CTRL-WHT" !in k3;
    var k5 := k4 + {"DS-CTRL-RED"};
    assert "DS-CTRL-RED" !in k4;
    var k6 := k5 + {"HEADSET-PRO-BLK-W"};
    assert "HEADSET-PRO-BLK-W" !in k5;
    var k7 := k6 + {"HEADSET-PRO-WHT-WL"};
    assert "HEADSET-PRO-WHT-WL" !in k6;
    var k8 := k7 + {"KEYB-MECH-BLK-FS"};
    assert "KEYB-MECH-BLK-FS" !in k7;
    var k9 := k8 + {"KEYB-MECH-SIL-TKL"};
    assert "KEYB-MECH-SIL-TKL" !in k8;
    assert Skus == k9;
  }

  /** Every seeded variant belongs to a seeded product, has stock >= 0, and has
      a specific price, so the base-price fallback is never reached with seed data. */
  lemma SeededVariantsWellFormed()
    ensures forall id :: id in SeededDb().variants ==>
      var v := SeededDb().variants[id];
      v.productId in SeededDb().products && v.stock >= 0 && v.specificPrice.Some? &&
      UnitPrice(v, SeededDb().products[v.productId]) == v.specificPrice.value
  {
  }
}
