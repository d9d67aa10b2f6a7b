/** The product listing: the loader's normalisation of falsy fields to null, and
    the price each card displays. */
module Listing {
  import opened Basics
  import opened Store

  /** A variant as the listing query selects it. */
  datatype VariantRow = VariantRow(id: VariantId, specificPrice: Option<Cents>, color: Option<string>, size: Option<string>)

  /** A product as the listing query returns it: `variants` holds the first
      variant by creation time, or nothing when the product has none. */
  datatype ProductRow = ProductRow(
    id: ProductId,
    name: string,
    description: Option<string>,
    basePrice: Option<Cents>,
    variants: seq<VariantRow>)

  /** `x || null` for an optional string: the empty string becomes null. */
  function NullIfEmpty(s: Option<string>): (r: Option<string>)
    ensures r.None? <==> !Truthy(s)
    ensures r.Some? ==> r == s
  {
    if Truthy(s) then s else None
  }

  /** `x || null` for an optional price: a price of 0 is falsy and becomes null. */
  function NullIfZero(p: Option<Cents>): (r: Option<Cents>)
    ensures r.None? <==> p.None? || p.value == 0
    ensures r.Some? ==> r == p
  {
    if p.Some? && p.value != 0 then p else None
  }

  function NormalizeVariant(v: VariantRow): VariantRow {
    v.(specificPrice := NullIfZero(v.specificPrice), color := NullIfEmpty(v.color), size := NullIfEmpty(v.size))
  }

  function NormalizeProduct(p: ProductRow): ProductRow {
    p.(description := NullIfEmpty(p.description), variants := seq(|p.variants|, i requires 0 <= i < |p.variants| => NormalizeVariant(p.variants[i])))
  }

  /** A field is in normal form when it is null or truthy. */
  predicate NormalString(s: Option<string>) {
    s.None? || s.value != ""
  }

  predicate NormalVariant(v: VariantRow) {
    NormalString(v.color) && NormalString(v.size) && (v.specificPrice.None? || v.specificPrice.value != 0)
  }

  /** The listing loader: one normalised entry per product, in query order. Each
      entry keeps its id, name and base price; falsy fields become null, and
      nothing truthy is altered. */
  function LoadListing(rows: seq<ProductRow>): (r: seq<ProductRow>)
    ensures |r| == |rows|
    ensures forall i :: 0 <= i < |rows| ==>
      && r[i].id == rows[i].id && r[i].name == rows[i].name && r[i].basePrice == rows[i].basePrice
      && r[i].description == NullIfEmpty(rows[i].description) && NormalString(r[i].description)
      && |r[i].variants| == |rows[i].variants|
      && forall j :: 0 <= j < |rows[i].variants| ==>
           && r[i].variants[j].id == rows[i].variants[j].id
           && r[i].variants[j].color == NullIfEmpty(rows[i].variants[j].color)
           && r[i].variants[j].size == NullIfEmpty(rows[i].variants[j].size)
           && r[i].variants[j].specificPrice == NullIfZero(rows[i].variants[j].specificPrice)
           && NormalVariant(r[i].variants[j])
  {
    seq(|rows|, i requires 0 <= i < |rows| => NormalizeProduct(rows[i]))
  }

  /** Normalising twice changes nothing more. */
  lemma NormalizeIdempotent(rows: seq<ProductRow>)
    ensures LoadListing(LoadListing(rows)) == LoadListing(rows)
  {
    var once := LoadListing(rows);
    var twice := LoadListing(once);
    forall i | 0 <= i < |rows| ensures twice[i] == once[i] {
      assert twice[i].variants == once[i].variants;
    }
  }

  /** The price a card shows: the first variant's specific price, falling back
      to the product's base price. */
  function DisplayPrice(p: ProductRow): (price: Option<Cents>)
    ensures |p.variants| > 0 && p.variants[0].specificPrice.Some? ==> price == p.variants[0].specificPrice
    ensures |p.variants| == 0 || p.variants[0].specificPrice.None? ==> price == p.basePrice
  {
    if |p.variants| > 0 && p.variants[0].specificPrice.Some? then p.variants[0].specificPrice else p.basePrice
  }

  /** The listing row for a catalog product whose first variant is `v`. */
  function RowOf(pid: ProductId, p: Product, vid: VariantId, v: Variant): ProductRow {
    ProductRow(pid, p.name, p.description, p.basePrice, [VariantRow(vid, v.specificPrice, v.color, v.size)])
  }

  /** A variant priced at 0: the listing normalises the 0 to null and shows the
      base price, while checkout charges 0 per unit. */
  lemma ZeroPriceDiverges(pid: ProductId, p: Product, vid: VariantId, v: Variant)
    requires v.specificPrice == Some(0)
    ensures DisplayPrice(NormalizeProduct(RowOf(pid, p, vid, v))) == p.basePrice
    ensures UnitPrice(v, p) == 0
  {
  }

  /** For any other specific price, and for a variant without one whose product
      has a base price, the card shows exactly what checkout charges. */
  lemma ListingMatchesCheckout(pid: ProductId, p: Product, vid: VariantId, v: Variant)
    requires v.specificPrice != Some(0)
    requires v.specificPrice.None? ==> p.basePrice.Some?
    ensures DisplayPrice(NormalizeProduct(RowOf(pid, p, vid, v))) == Some(UnitPrice(v, p))
  {
  }
}
