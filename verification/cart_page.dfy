/** The cart page's loader: price every cart line whose variant still exists,
    sum the grand total, and flag the first line asking for more than is in stock. */
module CartPage {
  import opened Basics
  import opened Store
  import opened SessionStore
  import Checkout

  /** One displayed cart line. */
  datatype LineView = LineView(
    variantId: VariantId,
    productId: ProductId,
    quantity: int,
    pricePerUnit: Cents,
    subtotal: Cents,
    stock: int)

  /** The page state: an empty-cart notice, a cart ready to order, or the first
      over-stock line, reported with status 400. */
  datatype Notice = CartIsEmpty | Ready | ExceedsStock(line: LineView)

  datatype Page = Page(items: seq<LineView>, grandTotal: Cents, notice: Notice)

  /** The view of a line whose variant was found. */
  function ViewOf(line: CartLine, v: Variant, p: Product): (view: LineView)
    ensures view.variantId == line.productVariantId && view.quantity == line.quantity
    ensures view.pricePerUnit == UnitPrice(v, p) && view.stock == v.stock
    ensures view.subtotal == view.pricePerUnit * view.quantity
  {
    var price := UnitPrice(v, p);
    LineView(line.productVariantId, v.productId, line.quantity, price, price * line.quantity, v.stock)
  }

  /** The loader's first loop: one view per line whose variant exists, in cart
      order; lines whose variant is gone are dropped without a word. */
  function DetailLines(db: Db, cart: seq<CartLine>): seq<LineView>
    decreases |cart|
  {
    if cart == [] then []
    else
      match FindVariant(db, cart[0].productVariantId)
      case None => DetailLines(db, cart[1..])
      case Some(found) => [ViewOf(cart[0], found.0, found.1)] + DetailLines(db, cart[1..])
  }

  function SumSubtotals(views: seq<LineView>): Cents
    decreases |views|
  {
    if views == [] then 0 else views[0].subtotal + SumSubtotals(views[1..])
  }

  /** The loader's second loop: the first line whose quantity exceeds its stock. */
  function FirstOverStock(views: seq<LineView>): (r: Option<LineView>)
    ensures r.None? <==> forall i :: 0 <= i < |views| ==> views[i].quantity <= views[i].stock
    ensures r.Some? ==>
      && r.value.quantity > r.value.stock
      && exists i :: 0 <= i < |views| && views[i] == r.value &&
           forall j :: 0 <= j < i ==> views[j].quantity <= views[j].stock
    decreases |views|
  {
    if views == [] then None
    else if views[0].quantity > views[0].stock then Some(views[0])
    else
      var r := FirstOverStock(views[1..]);
      assert forall i :: 1 <= i < |views| ==> views[i] == views[1..][i - 1];
      if r.Some? then
        assert exists i :: 1 <= i < |views| && views[i] == r.value && (forall j :: 0 <= j < i ==> views[j].quantity <= views[j].stock) by {
          var i :| 0 <= i < |views[1..]| && views[1..][i] == r.value &&
            forall j :: 0 <= j < i ==> views[1..][j].quantity <= views[1..][j].stock;
          assert views[i + 1] == r.value;
        }
        r
      else r
  }

  /** The cart page loader. */
  function LoadCartPage(db: Db, session: Session): (page: Page)
    ensures GetCart(session) == [] ==> page == Page([], 0, CartIsEmpty)
    ensures GetCart(session) != [] ==> page.items == DetailLines(db, GetCart(session)) && !page.notice.CartIsEmpty?
    ensures page.notice.ExceedsStock? ==>
      page.notice.line in page.items && page.notice.line.quantity > page.notice.line.stock
    ensures page.notice.ExceedsStock? ==> FirstOverStock(page.items) == Some(page.notice.line)
    ensures page.notice.Ready? <==>
      GetCart(session) != [] && forall i :: 0 <= i < |page.items| ==> page.items[i].quantity <= page.items[i].stock
  {
    var cart := GetCart(session);
    if |cart| == 0 then Page([], 0, CartIsEmpty)
    else
      var views := DetailLines(db, cart);
      var total := SumSubtotals(views);
      match FirstOverStock(views)
      case Some(line) => Page(views, total, ExceedsStock(line))
      case None => Page(views, total, Ready)
  }

  /** Reference definition of what the page charges: price times quantity summed
      over the lines whose variant exists. */
  function ExistingLinesTotal(db: Db, cart: seq<CartLine>): Cents
    decreases |cart|
  {
    if cart == [] then 0
    else
      var rest := ExistingLinesTotal(db, cart[1..]);
      match FindVariant(db, cart[0].productVariantId)
      case None => rest
      case Some(found) => UnitPrice(found.0, found.1) * cart[0].quantity + rest
  }

  /** The grand total is the sum over existing lines; missing variants add nothing. */
  lemma {:induction false} GrandTotalIsExistingLinesTotal(db: Db, cart: seq<CartLine>)
    ensures SumSubtotals(DetailLines(db, cart)) == ExistingLinesTotal(db, cart)
    decreases |cart|
  {
    if cart != [] {
      GrandTotalIsExistingLinesTotal(db, cart[1..]);
      match FindVariant(db, cart[0].productVariantId)
      case None =>
      case Some(found) =>
        var v := ViewOf(cart[0], found.0, found.1);
        assert ([v] + DetailLines(db, cart[1..]))[1..] == DetailLines(db, cart[1..]);
    }
  }

  /** The page's grand total: 0 for an empty cart, otherwise price times
      quantity summed over the lines whose variant exists. */
  lemma PageTotal(db: Db, session: Session)
    ensures LoadCartPage(db, session).grandTotal == ExistingLinesTotal(db, GetCart(session))
  {
    GrandTotalIsExistingLinesTotal(db, GetCart(session));
  }

  /** The page shows one line per cart line exactly when every variant exists. */
  lemma {:induction false} DetailLinesKeepsAll(db: Db, cart: seq<CartLine>)
    ensures |DetailLines(db, cart)| <= |cart|
    ensures |DetailLines(db, cart)| == |cart| <==>
      forall i :: 0 <= i < |cart| ==> FindVariant(db, cart[i].productVariantId).Some?
    decreases |cart|
  {
    if cart != [] {
      var tail := cart[1..];
      assert forall i :: 0 <= i < |tail| ==> tail[i] == cart[i + 1];
      DetailLinesKeepsAll(db, tail);
    }
  }

  /** A cart line whose variant (and its product) is in the catalog. */
  predicate Present(db: Db, line: CartLine) {
    FindVariant(db, line.productVariantId).Some?
  }

  /** Every position moved one place to the right. */
  function Shift(idx: seq<nat>): (r: seq<nat>)
    ensures |r| == |idx|
    ensures forall k :: 0 <= k < |idx| ==> r[k] == idx[k] + 1
    decreases |idx|
  {
    if idx == [] then [] else [idx[0] + 1] + Shift(idx[1..])
  }

  /** The positions of the cart lines whose variant is present, in cart order. */
  function Kept(db: Db, cart: seq<CartLine>): seq<nat>
    decreases |cart|
  {
    if cart == [] then []
    else if Present(db, cart[0]) then [0] + Shift(Kept(db, cart[1..]))
    else Shift(Kept(db, cart[1..]))
  }

  /** Every kept position names a present line of the cart. */
  lemma {:induction false} KeptPresent(db: Db, cart: seq<CartLine>)
    ensures forall k :: 0 <= k < |Kept(db, cart)| ==>
      Kept(db, cart)[k] < |cart| && Present(db, cart[Kept(db, cart)[k]])
    decreases |cart|
  {
    if cart != [] {
      var tail := cart[1..];
      KeptPresent(db, tail);
      var rest := Kept(db, tail);
      var shifted := Shift(rest);
      forall k | 0 <= k < |rest| ensures shifted[k] < |cart| && Present(db, cart[shifted[k]]) {
        assert tail[rest[k]] == cart[shifted[k]];
      }
      var idx := Kept(db, cart);
      if Present(db, cart[0]) {
        assert forall k :: 1 <= k < |idx| ==> idx[k] == shifted[k - 1];
      }
    }
  }

  /** The kept positions are strictly increasing, so they follow cart order. */
  lemma {:induction false} KeptIncreasing(db: Db, cart: seq<CartLine>)
    ensures forall k :: 0 <= k < |Kept(db, cart)| ==> Kept(db, cart)[k] < |cart|
    ensures forall k, l :: 0 <= k < l < |Kept(db, cart)| ==> Kept(db, cart)[k] < Kept(db, cart)[l]
    decreases |cart|
  {
    KeptPresent(db, cart);
    if cart != [] {
      var tail := cart[1..];
      KeptIncreasing(db, tail);
      var idx := Kept(db, cart);
      var shifted := Shift(Kept(db, tail));
      if Present(db, cart[0]) {
        assert forall k :: 1 <= k < |idx| ==> idx[k] == shifted[k - 1];
      }
    }
  }

  /** Every present line is kept. */
  lemma {:induction false} KeptComplete(db: Db, cart: seq<CartLine>)
    ensures forall i :: 0 <= i < |cart| && Present(db, cart[i]) ==> i in Kept(db, cart)
    decreases |cart|
  {
    if cart != [] {
      var tail := cart[1..];
      KeptComplete(db, tail);
      var rest := Kept(db, tail);
      var shifted := Shift(rest);
      forall i | 1 <= i < |cart| && Present(db, cart[i]) ensures i in shifted {
        assert tail[i - 1] == cart[i];
        var k :| 0 <= k < |rest| && rest[k] == i - 1;
        assert shifted[k] == i;
      }
    }
  }

  /** `view` is what the page shows for `line`: its variant is present and the
      view is built from that variant and its product. */
  predicate Shows(db: Db, line: CartLine, view: LineView) {
    match FindVariant(db, line.productVariantId)
    case None => false
    case Some(found) => view == ViewOf(line, found.0, found.1)
  }

  /** Whatever vanished, the page's lines are the views of the kept cart lines,
      in cart order. */
  lemma {:induction false} DetailLinesAreKeptViews(db: Db, cart: seq<CartLine>)
    ensures |DetailLines(db, cart)| == |Kept(db, cart)|
    ensures forall k :: 0 <= k < |Kept(db, cart)| ==>
      Kept(db, cart)[k] < |cart| && Shows(db, cart[Kept(db, cart)[k]], DetailLines(db, cart)[k])
    decreases |cart|
  {
    if cart != [] {
      var tail := cart[1..];
      DetailLinesAreKeptViews(db, tail);
      var rest := Kept(db, tail);
      var shifted := Shift(rest);
      var idx := Kept(db, cart);
      var lines := DetailLines(db, cart);
      var tailLines := DetailLines(db, tail);
      if Present(db, cart[0]) {
        assert idx == [0] + shifted;
        assert lines == [lines[0]] + tailLines;
        forall k | 0 <= k < |idx| ensures idx[k] < |cart| && Shows(db, cart[idx[k]], lines[k]) {
          if k > 0 {
            assert idx[k] == rest[k - 1] + 1 && lines[k] == tailLines[k - 1];
            assert tail[rest[k - 1]] == cart[idx[k]];
          }
        }
      } else {
        assert idx == shifted && lines == tailLines;
        forall k | 0 <= k < |idx| ensures idx[k] < |cart| && Shows(db, cart[idx[k]], lines[k]) {
          assert tail[rest[k]] == cart[idx[k]];
        }
      }
    }
  }

  /** With every variant present, line `i` of the page shows cart line `i`. */
  lemma {:induction false} DetailLinesAt(db: Db, cart: seq<CartLine>)
    requires forall i :: 0 <= i < |cart| ==> FindVariant(db, cart[i].productVariantId).Some?
    ensures |DetailLines(db, cart)| == |cart|
    ensures forall i :: 0 <= i < |cart| ==>
      var found := FindVariant(db, cart[i].productVariantId).value;
      DetailLines(db, cart)[i] == ViewOf(cart[i], found.0, found.1)
    decreases |cart|
  {
    DetailLinesKeepsAll(db, cart);
    if cart != [] {
      var tail := cart[1..];
      assert forall i :: 0 <= i < |tail| ==> tail[i] == cart[i + 1];
      DetailLinesAt(db, tail);
    }
  }

  /** The page and the order action agree: for a non-empty cart, the action's
      validation passes exactly when the page is ready and shows every line, and
      then the order total equals the page's grand total. */
  lemma PageAgreesWithPlacement(db: Db, session: Session)
    requires GetCart(session) != []
    ensures var page := LoadCartPage(db, session);
      var cart := GetCart(session);
      Checkout.PriceLines(db, cart).Success? <==> page.notice.Ready? && |page.items| == |cart|
    ensures var page := LoadCartPage(db, session);
      var priced := Checkout.PriceLines(db, GetCart(session));
      priced.Success? ==> Checkout.Total(priced.value) == page.grandTotal
  {
    var cart := GetCart(session);
    var page := LoadCartPage(db, session);
    DetailLinesKeepsAll(db, cart);
    if forall i :: 0 <= i < |cart| ==> FindVariant(db, cart[i].productVariantId).Some? {
      DetailLinesAt(db, cart);
      assert Checkout.CartAvailable(db, cart) <==> page.notice.Ready? by {
        assert forall i :: 0 <= i < |cart| ==>
          (Checkout.LineAvailable(db, cart[i]) <==> page.items[i].quantity <= page.items[i].stock);
      }
    } else {
      assert !Checkout.CartAvailable(db, cart);
    }
    var priced := Checkout.PriceLines(db, cart);
    if priced.Success? {
      GrandTotalIsExistingLinesTotal(db, cart);
      OrderTotalIsExistingLinesTotal(db, cart);
    }
  }

  /** When the cart validates, the order total is the existing-lines total. */
  lemma {:induction false} OrderTotalIsExistingLinesTotal(db: Db, cart: seq<CartLine>)
    requires Checkout.PriceLines(db, cart).Success?
    ensures Checkout.Total(Checkout.PriceLines(db, cart).value) == ExistingLinesTotal(db, cart)
    decreases |cart|
  {
    if cart != [] {
      var items := Checkout.PriceLines(db, cart).value;
      var tail := cart[1..];
      assert Checkout.LineAvailable(db, cart[0]);
      assert forall i :: 0 <= i < |tail| ==> tail[i] == cart[i + 1];
      assert Checkout.CartAvailable(db, tail);
      OrderTotalIsExistingLinesTotal(db, tail);
      assert items[1..] == Checkout.PriceLines(db, tail).value;
    }
  }
}
