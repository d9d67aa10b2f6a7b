# Zuvees storefront: order placement and its gatekeepers, in Dafny

This project models the server-side logic of the Zuvees storefront, a Remix app
backed by Prisma. It has no I/O: the database is a value (`Store.Db`) of
immutable maps:

- catalog products and variants,
- orders,
- users keyed by their identity-provider (Clerk) id,
- the approved-email list.

The cookie session is a key-value map (`SessionStore.Session`). Each server
operation is a pure function that returns its answer together with the new
database and session.

Modules, one per source file:

- `Checkout` (`front/app/routes/products.cart.tsx`, action). Order placement
  runs in five steps:
  1. Reject a signed-out caller (401) or an empty cart (400).
  2. Re-read every cart line's variant. Reject a missing variant, or one whose
     stock is below the line's quantity, and report the stock on hand.
  3. Price each line from the live catalog as `specificPrice ?? basePrice ?? 0`.
  4. Create the PAID order and decrement stock in one all-or-nothing
     transaction.
  5. Clear the session cart only after that commit.

  `ValidateCart` is the source's accumulate-and-return loop. It is proved equal
  to the reference definition `PriceLines`.
- `CartPage` (the same file, loader). It computes the displayed lines, drops
  lines whose variant has vanished, sums the grand total and flags the first
  over-stock line. `PageAgreesWithPlacement` ties the page to the action.
- `SessionStore` (`front/app/server/session.server.ts`): `getCart`,
  `updateCart` and `unset` on the `"cart"` key.
- `Provisioning` (`front/app/server/auth.server.ts`): `getOrCreateDbUser`.
- `Routes` (`front/app/routes/admin.tsx`, `auth.callback.tsx`, `_index.tsx`).
  These hold the three loaders' decision tables, over one shared resolution step.
- `Listing` (`front/app/routes/products._index.tsx`): normalisation of falsy
  fields and the displayed price.
- `Seed` (`front/prisma/seed.ts`): the approved-email upserts and the seeded
  catalog.
- `Scenarios`: concrete runs on the seeded database.

Money is in integer cents. Stock is an unbounded integer, because the source
lets it go below zero.

Behaviour of the code that the model keeps as it is:

- The session cart is stored as given. Repeated variants are not merged.
- Each line's stock is checked against a read taken before the transaction.
  The transaction then decrements stock unconditionally. A cart that repeats a
  variant can therefore drive stock negative (`Checkout.RepeatedVariantOversells`).
- `stock >= 0` survives placement only for carts whose variants are distinct
  (`Checkout.DistinctCartKeepsStockNonNegative`).

## Model

| member | source | states |
|---|---|---|
| Store.FindVariant | front/app/routes/products.cart.tsx:120-123 | the variant lookup with its product included finds something exactly when the variant and its product exist, and returns those two records |
| Store.UnitPrice | front/app/routes/products.cart.tsx:143-144 | the unit price is the specific price when set (0 included), else the product's base price, else 0 |
| Checkout.Status | front/app/routes/products.cart.tsx:88-212 | a signed-out caller gets 401, a storage failure 500, and every validation refusal 400 |
| Checkout.PriceLines | front/app/routes/products.cart.tsx:119-151 | validation succeeds exactly when every line's variant exists with stock >= its quantity; then there is one item per line, in order, with the same variant and quantity and the catalog price; otherwise the error names the first failing line: not found, or under-stocked with the stock on hand |
| Checkout.ValidateCart | front/app/routes/products.cart.tsx:115-151 | the source's loop (accumulate items and grand total, return at the first bad line) gives the same answer as the reference validation, and its total is the sum of price times quantity |
| Checkout.FirstFailureAt | front/app/routes/products.cart.tsx:119-142 | when all lines before k pass and line k fails, placement reports line k, with the current stock for a stock failure |
| Checkout.PriceLinesSnoc | front/app/routes/products.cart.tsx:143-150 | appending an available line to a valid cart appends exactly one catalog-priced item |
| Checkout.TotalAppend | front/app/routes/products.cart.tsx:145 | adding one item to the running total adds its price times quantity |
| Checkout.QuantityOfItemsMatchesCart | front/app/routes/products.cart.tsx:146-150 | items copying the lines' variants and quantities demand the same per-variant totals as the cart |
| Checkout.DecrementsEffect | front/app/routes/products.cart.tsx:178-184 | when every item names an existing variant, the decrement loop applies in full; each variant's stock drops by the total quantity ordered for it, and no other field or variant changes |
| Checkout.PlaceOrder | front/app/routes/products.cart.tsx:87-212 | signed-out and empty-cart refusals come first; every refusal leaves database and session untouched; placement succeeds exactly when the caller is signed in, the cart is non-empty, every line is available, and the transaction can commit; a valid cart whose transaction cannot commit is refused with the commit failure (the 500 of the catch block), and only such a cart; on success the order id is returned and only the cart key is removed from the session |
| Checkout.PlaceOrderSuccess | front/app/routes/products.cart.tsx:153-190 | a successful placement adds exactly one order: owned by the caller, PAID, one catalog-priced item per cart line in cart order, total equal to the sum of price times quantity; each variant's stock drops by the cart's demand for it; products, users and approved emails are unchanged; the cart reads empty |
| Checkout.DistinctCartKeepsStockNonNegative | front/app/routes/products.cart.tsx:119-184 | with distinct variants in the cart and non-negative stock before, no variant's stock is negative after placement |
| Checkout.RepeatedVariantOversells | front/app/routes/products.cart.tsx:134-184 | a cart naming a one-unit variant twice passes both per-line checks, is placed, and leaves stock at -1 |
| CartPage.ViewOf | front/app/routes/products.cart.tsx:51-66 | a displayed line carries the cart's variant and quantity, the catalog unit price and stock, and subtotal = unit price times quantity |
| CartPage.FirstOverStock | front/app/routes/products.cart.tsx:70-82 | nothing is flagged exactly when no line's quantity exceeds its stock; a flagged line is over stock and every line before it is not |
| CartPage.LoadCartPage | front/app/routes/products.cart.tsx:32-85 | an empty cart gives no lines, total 0 and the empty notice; otherwise the lines are those whose variant exists; the page is ready exactly when no shown line exceeds its stock; a flagged line is one of the shown lines, is over stock, and is the first shown line that is |
| CartPage.PageTotal | front/app/routes/products.cart.tsx:38-69 | the grand total equals price times quantity summed over the lines whose variant exists (0 for an empty cart) |
| CartPage.GrandTotalIsExistingLinesTotal | front/app/routes/products.cart.tsx:41-69 | summing the displayed subtotals equals the reference total over existing lines; missing variants contribute nothing |
| CartPage.DetailLinesKeepsAll | front/app/routes/products.cart.tsx:41-69 | the page never shows more lines than the cart holds, and shows all of them exactly when every variant exists |
| CartPage.DetailLinesAt | front/app/routes/products.cart.tsx:51-66 | with every variant present, displayed line i is the view of cart line i |
| CartPage.KeptPresent | front/app/routes/products.cart.tsx:41-50 | every position the page keeps names a cart line whose variant and product exist |
| CartPage.KeptIncreasing | front/app/routes/products.cart.tsx:41-66 | the kept positions strictly increase, so shown lines follow cart order |
| CartPage.KeptComplete | front/app/routes/products.cart.tsx:41-66 | every cart line whose variant exists is kept; only vanished variants are dropped |
| CartPage.DetailLinesAreKeptViews | front/app/routes/products.cart.tsx:41-66 | whatever vanished, shown line k is the view, built from its catalog variant and product, of the k-th kept cart line |
| CartPage.PageAgreesWithPlacement | front/app/routes/products.cart.tsx:32-151 | for a non-empty cart, the action's validation passes exactly when the page is ready and shows every line, and then the order total equals the page's grand total |
| CartPage.OrderTotalIsExistingLinesTotal | front/app/routes/products.cart.tsx:116-151 | for a valid cart, the order total equals the reference total over existing lines |
| SessionStore.GetCart | front/app/server/session.server.ts:25-28 | no stored cart reads as the empty list; a stored list is returned verbatim |
| SessionStore.UpdateCart | front/app/server/session.server.ts:31-38 | writing the cart adds or replaces only the cart key; every other entry keeps its value |
| SessionStore.Unset | front/app/routes/products.cart.tsx:189-190 | unsetting removes exactly that key and keeps the rest |
| SessionStore.GetAfterUpdate | front/app/server/session.server.ts:27-36 | reading after a write yields exactly the list written, duplicates and non-positive quantities included |
| SessionStore.UpdateOnlyTouchesCart | front/app/server/session.server.ts:35-37 | a write to the cart neither adds, removes nor changes any other key |
| SessionStore.GetAfterUnset | front/app/routes/products.cart.tsx:188-190 | after the cart key is unset the cart reads as empty |
| SessionStore.UpdateReplaces | front/app/server/session.server.ts:36 | a second write replaces the first entirely (no merging) |
| Provisioning.FindPrimary | front/app/server/auth.server.ts:10 | the index found is the first address whose id is the primary id; none is found when no id matches |
| Provisioning.PrimaryEmail | front/app/server/auth.server.ts:10-15 | the primary email is the first matching entry's address when non-empty; otherwise there is none (no match, or the first match is empty) |
| Provisioning.GetOrCreateDbUser | front/app/server/auth.server.ts:4-56 | a missing id, a missing primary email or an unapproved email give null with no change; only the users map changes, and only at the caller's key; every user returned has the approved role of the current primary email and is what is stored; an approved account with an existing user gets that user back with its role set to the approved one, stored as such |
| Provisioning.NewUserCreated | front/app/server/auth.server.ts:29-42 | a new account with an approved email gets exactly one new user with its id, that email and the approved role |
| Provisioning.FailedCreateReturnsNull | front/app/server/auth.server.ts:43-46 | a rejected insert returns null and leaves the database unchanged |
| Provisioning.ExistingUserKeepsEmail | front/app/server/auth.server.ts:29-55 | an existing user keeps its stored email and id; with an approved primary email it is always returned, whether or not inserts would fail, with the approved role, and the database changes only in that user's role |
| Provisioning.Idempotent | front/app/server/auth.server.ts:29-55 | after a call that did not hit an insert failure, calling again returns the same user and changes nothing |
| Routes.Resolve | front/app/routes/admin.tsx:17-40 | a missing user or session id stops at no-session; an account unknown to the identity provider stops at no-account; otherwise the outcome and database are those of provisioning |
| Routes.AdminLoader | front/app/routes/admin.tsx:17-52 | no session: redirect to sign-in with the requested path; unknown account: sign-in; no database user or a non-ADMIN role: unauthorized; data exactly for ADMIN, holding that user's email and role ADMIN |
| Routes.CallbackLoader | front/app/routes/auth.callback.tsx:8-73 | always a redirect: sign-in without session or account, unauthorized without database user, "/admin" for ADMIN and "/products" for every other role |
| Routes.IndexLoader | front/app/routes/_index.tsx:8-49 | always a redirect: sign-in without session or account, unauthorized without database user, "/admin/dashboard" for ADMIN and "/products" for every other role |
| Routes.AdminDataOnlyForAdmins | front/app/routes/admin.tsx:42-51 | admin data implies a signed-in account whose approved role is ADMIN; the data's email is the stored user's and its role is ADMIN |
| Routes.AdminLandingDiffers | front/app/routes/_index.tsx:38-48 | for the same resolved user, the callback and the root disagree exactly for ADMIN ("/admin" vs "/admin/dashboard") and both send any other role to "/products" |
| Listing.NullIfEmpty | front/app/routes/products._index.tsx:31-36 | a falsy string (null or empty) becomes null; a truthy one is kept |
| Listing.NullIfZero | front/app/routes/products._index.tsx:34 | a specific price that is null or 0 becomes null; any other is kept |
| Listing.LoadListing | front/app/routes/products._index.tsx:29-40 | one entry per product in the same order, with id, name and base price kept; each description, color and size is the original with a null or empty string turned into null and a truthy one kept; each specific price is the original with null or 0 turned into null and any other kept; so every such field is null or truthy afterwards |
| Listing.NormalizeIdempotent | front/app/routes/products._index.tsx:29-38 | normalising an already normalised listing changes nothing |
| Listing.DisplayPrice | front/app/routes/products._index.tsx:70 | a card shows the first variant's specific price when set, otherwise the product's base price |
| Listing.ZeroPriceDiverges | front/app/routes/products._index.tsx:34 | a variant priced at 0 is listed at the base price but charged 0 at checkout |
| Listing.ListingMatchesCheckout | front/app/routes/products._index.tsx:70 | for any non-zero specific price, or none with a base price set, the listed price is what checkout charges |
| Seed.Upsert | front/prisma/seed.ts:11-28 | a found key leaves the list unchanged; an absent key whose create email is already listed violates the unique email and stops the script; otherwise exactly the create row is added, possibly under an email other than the key, and other entries keep their roles |
| Seed.UpsertCreateClashAborts | front/prisma/seed.ts:205-208 | an upsert whose key is absent but whose create email is listed stops the script instead of changing the list |
| Seed.UpsertPresentKeyIsNoOp | front/prisma/seed.ts:11-18 | an upsert with an empty update on a present key changes nothing |
| Seed.SeededApprovedEmails | front/prisma/seed.ts:10-57 | seeding an empty list yields exactly abhishek ADMIN, rider1 RIDER, rider2 RIDER, customer1 CUSTOMER |
| Seed.SecondAdminNeverInserted | front/prisma/seed.ts:20-28 | the second upsert is keyed on the first admin's email, so the second admin's email is never inserted, whatever the list held, and the section still runs to the end |
| Seed.SeedKeepsAndAdds | front/prisma/seed.ts:11-57 | seeding never stops early, keeps every existing entry and its role, and adds exactly the four seeded emails' keys |
| Seed.SeedIdempotent | front/prisma/seed.ts:11-57 | running the approved-email section again changes nothing |
| Seed.IntendedSeedsBothAdmins | front/prisma/seed.ts:20-28 | with the second upsert keyed on its own email, the section never stops early, both admin emails are present afterwards, the second as ADMIN when new, and existing entries are kept |
| Seed.IntendedSeedIdempotent | front/prisma/seed.ts:11-57 | the corrected section is idempotent |
| Seed.IntendedSeededApprovedEmails | front/prisma/seed.ts:10-57 | the corrected section seeds an empty list with all five intended entries |
| Seed.SeededProductCount | front/prisma/seed.ts:63-193 | the seeded catalog has five products |
| Seed.SeededVariantCount | front/prisma/seed.ts:63-193 | the seeded catalog has nine variants |
| Seed.SeededVariantsWellFormed | front/prisma/seed.ts:63-193 | every seeded variant belongs to a seeded product, has stock >= 0 and a specific price, so checkout charges the specific price and never the base-price fallback |
| Scenarios.TwoControllers | front/app/routes/products.cart.tsx:119-190 | two seeded controllers at 69.99 become an order of 139.98, stock 100 becomes 98, and the cart is emptied |
| Scenarios.NotEnoughConsoles | front/app/routes/products.cart.tsx:134-142 | asking for 31 of a variant with 30 in stock is refused with the 30 available, and nothing changes |
| Scenarios.VanishedVariant | front/app/routes/products.cart.tsx:125-133 | a line naming an unknown variant is refused by that id after earlier lines pass, and nothing changes |
| Scenarios.SeededCustomerSignsIn | front/app/routes/_index.tsx:30-48 | the seeded customer's first sign-in creates a CUSTOMER user and the root sends them to "/products" |
| Scenarios.SecondAdminLockedOut | front/app/routes/admin.tsx:35-40 | the admin email the seed failed to approve is sent to "/unauthorized-access" by the admin area, with no user created |

## Left out

- User-interface components are not modelled: `CartPage`, `Products`, `AdminDashBoardLayout`, the `AuthCallback` components, `products.tsx` and `unauthorized-access.tsx`. They only render.
- Identity-provider calls are inputs. `getAuth` becomes `Routes.AuthState`, and `users.getUser` becomes a map from user id to account. A thrown lookup error is not modelled.
- The action's customer name and email strings (products.cart.tsx lines 104-113) and the mock shipping address are display data. They are not stored in the model's order.
- Prisma errors (products.cart.tsx lines 196-212) collapse into `CommitFailed`, status 500. Two sources of failure are modelled: a `storageFault` parameter, and an order id that is already taken.
- The database assigns order ids and timestamps. The model takes the order id as a parameter and has no timestamps.
- Cookie configuration, signing and expiry (session.server.ts lines 3-22) are transport details.
- Interleaving of concurrent requests is not modelled. The model is sequential. Validation runs outside the transaction, so concurrent buyers could also oversell.
- Prices are floating-point currency in the source and integer cents here, so `toFixed` rounding is not modelled.
- SessionStore.GetCart: a non-list value stored under `"cart"` reads as the empty cart. The source would hand that raw value on.
- Listing.LoadListing: it takes the listing query's rows as given. The `createdAt` ordering and `take: 1` of the query are not modelled.
- Listing.DisplayPrice: a product with neither a variant price nor a base price yields no price here. In the source, `toFixed` would then throw while rendering.
- Provisioning.GetOrCreateDbUser: an insert failure is the `createFails` parameter, because the schema's constraints are not part of this model. Users are keyed by identity-provider id. The database's internal user id is not modelled.
- The add-to-cart action in `front/app/routes/products.$id.tsx` merges repeated variants into one line. It is not part of this model, so carts here may repeat variants.
- `product.create` in the seed script is not idempotent, which depends on a schema that is not part of this model. `Seed.SeededDb` therefore describes a single run on an empty database. Its product ids are readable names and its variant ids are the SKUs; the database would assign generated ids. Variant images are not part of the model's catalog.

## Findings

| source | as written | input that shows it | evidently intended | confidence | as-written member | corrected member |
|---|---|---|---|---|---|---|
| front/prisma/seed.ts:20-28 | the second upsert looks up `adminEmail` but creates `adminEmail1`; `adminEmail` is already present, so the create never runs | seeding an empty approved-email list: `vedbhanushali0@gmail.com` is absent afterwards, and that person is turned away from the admin area | look up `adminEmail1`, so that both admin emails are approved | high; not executed | Seed.SecondAdminNeverInserted | Seed.IntendedSeedsBothAdmins |

`Seed.SeededDb` keeps the approved-email list that the script as written
produces, because that is what a seeded database holds. The corrected section
is `Seed.SeedApprovedEmailsIntended`, with its properties proved in
`Seed.IntendedSeedsBothAdmins`, `Seed.IntendedSeedIdempotent` and
`Seed.IntendedSeededApprovedEmails`.
