/** The cookie session as a key-value store, and the cart kept under its
    "cart" key. Cookie transport, signing and expiry are not modelled. */
module SessionStore {
  import opened Store

  /** One cart line: which variant and how many. The session stores whatever
      list it was given; nothing here checks quantities or repeated variants. */
  datatype CartLine = CartLine(productVariantId: VariantId, quantity: int)

  /** A session entry: either a cart list or some other opaque value. */
  datatype SessionValue = CartList(lines: seq<CartLine>) | Opaque(text: string)

  type Session = map<string, SessionValue>

  const CartKey: string := "cart"

  /** `getCart`: the stored list, or the empty list when nothing is stored. */
  function GetCart(s: Session): (cart: seq<CartLine>)
    ensures CartKey !in s ==> cart == []
    ensures CartKey in s && s[CartKey].CartList? ==> cart == s[CartKey].lines
  {
    if CartKey in s && s[CartKey].CartList? then s[CartKey].lines else []
  }

  /** `updateCart`: replaces the whole stored list, with no merging. */
  function UpdateCart(s: Session, cart: seq<CartLine>): (s': Session)
    ensures s'.Keys == s.Keys + {CartKey}
    ensures forall k :: k in s && k != CartKey ==> s'[k] == s[k]
  {
    s[CartKey := CartList(cart)]
  }

  /** `session.unset(key)`. */
  function Unset(s: Session, key: string): (s': Session)
    ensures s'.Keys == s.Keys - {key}
    ensures forall k :: k in s' ==> s'[k] == s[k]
  {
    s - {key}
  }

  /** Reading the cart after `updateCart` yields exactly the list written:
      duplicates and non-positive quantities included. */
  lemma GetAfterUpdate(s: Session, cart: seq<CartLine>)
    ensures GetCart(UpdateCart(s, cart)) == cart
  {
  }

  /** Writing the cart leaves every other session entry as it was. */
  lemma UpdateOnlyTouchesCart(s: Session, cart: seq<CartLine>, k: string)
    requires k != CartKey
    ensures k in UpdateCart(s, cart) <==> k in s
    ensures k in s ==> UpdateCart(s, cart)[k] == s[k]
  {
  }

  /** After the cart key is unset, the cart reads as empty. */
  lemma GetAfterUnset(s: Session)
    ensures GetCart(Unset(s, CartKey)) == []
  {
  }

  /** A second write replaces the first entirely: nothing of the old list survives. */
  lemma UpdateReplaces(s: Session, first: seq<CartLine>, second: seq<CartLine>)
    ensures UpdateCart(UpdateCart(s, first), second) == UpdateCart(s, second)
  {
  }
}
