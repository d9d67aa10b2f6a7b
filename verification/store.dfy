/** The database the storefront reads and writes, abstracted as immutable maps:
    products and their variants (the catalog), orders, users keyed by their
    identity-provider id, and the approved-email list. Money is in integer cents. */
module Store {
  import opened Basics

  type ProductId = string
  type VariantId = string
  type OrderId = string
  type ClerkId = string
  type Email = string

  /** An amount of money in cents (the source stores floating-point currency units). */
  type Cents = int

  datatype Product = Product(name: string, description: Option<string>, basePrice: Option<Cents>)

  /** A purchasable unit of a product. `stock` is a plain integer: nothing in the
      schema as used keeps it non-negative. */
  datatype Variant = Variant(
    productId: ProductId,
    color: Option<string>,
    size: Option<string>,
    specificPrice: Option<Cents>,
    stock: int)

  /** The only order status the placement flow ever writes. */
  datatype OrderStatus = PAID

  datatype OrderItem = OrderItem(variantId: VariantId, quantity: int, priceAtPurchase: Cents)

  datatype Order = Order(userId: ClerkId, totalAmount: Cents, status: OrderStatus, items: seq<OrderItem>)

  datatype User = User(clerkId: ClerkId, email: Email, role: Role)

  datatype Db = Db(
    products: map<ProductId, Product>,
    variants: map<VariantId, Variant>,
    orders: map<OrderId, Order>,
    users: map<ClerkId, User>,
    approved: map<Email, Role>)

  /** `findUnique` on a variant with `include: { product: true }`: the variant
      together with the product it belongs to. */
  function FindVariant(db: Db, id: VariantId): (r: Option<(Variant, Product)>)
    ensures r.Some? <==> id in db.variants && db.variants[id].productId in db.products
    ensures r.Some? ==> r.value.0 == db.variants[id] && r.value.1 == db.products[r.value.0.productId]
  {
    if id in db.variants && db.variants[id].productId in db.products then
      Some((db.variants[id], db.products[db.variants[id].productId]))
    else
      None
  }

  /** The price charged for one unit: `specificPrice ?? basePrice ?? 0`.
      A specific price of 0 is a real price here, since `??` only skips null. */
  function UnitPrice(v: Variant, p: Product): (price: Cents)
    ensures v.specificPrice.Some? ==> price == v.specificPrice.value
    ensures v.specificPrice.None? && p.basePrice.Some? ==> price == p.basePrice.value
    ensures v.specificPrice.None? && p.basePrice.None? ==> price == 0
  {
    v.specificPrice.OrElse(p.basePrice.OrElse(0))
  }
}
