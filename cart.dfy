/** The shopping-cart state of a market-place client, as values.

    The cart is an ordered list of line items keyed by product id. Each of the
    three commands (`increment`, `decrement`, `addToCart`) is given here as a
    function from the current list to the next one; the class in
    cart_provider.dfy holds the list and applies these transitions in place.
 */
module Cart {

  datatype Option<T> = None | Some(value: T)

  /** A line item. `title`, `imageUrl` and `price` are carried along and never
      looked at; `price` is a plain number in the source and is kept opaque. */
  datatype Product = Product(id: string, title: string, imageUrl: string, price: int, quantity: int)

  /** What `addToCart` is given: a product without its quantity. */
  datatype ProductInfo = ProductInfo(id: string, title: string, imageUrl: string, price: int)

  predicate HasId(s: seq<Product>, id: string) {
    exists k :: 0 <= k < |s| && s[k].id == id
  }

  /** No two line items share an id. */
  predicate UniqueIds(s: seq<Product>) {
    forall i, j :: 0 <= i < j < |s| ==> s[i].id != s[j].id
  }

  /** No line item has a quantity below 1. */
  predicate PositiveQuantities(s: seq<Product>) {
    forall k :: 0 <= k < |s| ==> s[k].quantity >= 1
  }

  /** The cart's invariant. */
  predicate Valid(s: seq<Product>) {
    UniqueIds(s) && PositiveQuantities(s)
  }

  /** `r` is `s` with the quantity of item `i` changed by `delta`: same length,
      same order, the other fields of item `i` and every other item untouched. */
  predicate QuantityChangedAt(s: seq<Product>, r: seq<Product>, i: nat, delta: int) {
    && |r| == |s| && i < |s|
    && r[i].id == s[i].id && r[i].title == s[i].title
    && r[i].imageUrl == s[i].imageUrl && r[i].price == s[i].price
    && r[i].quantity == s[i].quantity + delta
    && forall k :: 0 <= k < |s| && k != i ==> r[k] == s[k]
  }

  /** `r` is `s` followed by a new line item for `item` with quantity 1. */
  predicate AppendedNew(s: seq<Product>, r: seq<Product>, item: ProductInfo) {
    && |r| == |s| + 1 && r[..|s|] == s
    && r[|s|] == Product(item.id, item.title, item.imageUrl, item.price, 1)
  }

  /** The lookup of src/hooks/cart.tsx:47 and :51 (search by id, then the
      position of the item found): the position of the first line item with
      that id, if any. */
  function Find(s: seq<Product>, id: string): (r: Option<nat>)
    ensures r.None? <==> !HasId(s, id)
    ensures r.Some? ==> r.value < |s| && s[r.value].id == id
    ensures r.Some? ==> forall k :: 0 <= k < r.value ==> s[k].id != id
  {
    if s == [] then None
    else if s[0].id == id then Some(0)
    else
      match Find(s[1..], id)
      case None =>
        assert forall k :: 1 <= k < |s| ==> s[k] == s[1..][k - 1];
        None
      case Some(k) => Some(k + 1)
  }

  /** The removal of src/hooks/cart.tsx:70: every line item with that id is
      dropped, the others keep their order. */
  function Without(s: seq<Product>, id: string): (r: seq<Product>)
    ensures |r| <= |s|
    ensures !HasId(s, id) ==> r == s
    ensures HasId(s, id) ==> |r| < |s|
  {
    if s == [] then []
    else
      assert HasId(s[1..], id) ==> HasId(s, id) by {
        assert forall k :: 1 <= k < |s| ==> s[k] == s[1..][k - 1];
      }
      assert s[0].id != id && HasId(s, id) ==> HasId(s[1..], id) by {
        if s[0].id != id && HasId(s, id) {
          var k :| 0 <= k < |s| && s[k].id == id;
          assert s[1..][k - 1].id == id;
        }
      }
      assert s == [s[0]] + s[1..];
      (if s[0].id == id then [] else [s[0]]) + Without(s[1..], id)
  }

  /** What survives the filter: exactly the items whose id differs. */
  lemma {:induction false} WithoutMembers(s: seq<Product>, id: string)
    ensures forall p :: p in Without(s, id) <==> p in s && p.id != id
  {
    if s != [] {
      WithoutMembers(s[1..], id);
      assert s == [s[0]] + s[1..];
    }
  }

  /** The line item that `addToCart` creates (src/hooks/cart.tsx:97-100): the
      product's fields with quantity 1. */
  function NewEntry(item: ProductInfo): (p: Product) {
    Product(item.id, item.title, item.imageUrl, item.price, 1)
  }

  /** The list `addToCart` builds for a new product (src/hooks/cart.tsx:95-101):
      the old items followed by the new line item. */
  function Append(s: seq<Product>, item: ProductInfo): (r: seq<Product>)
    ensures AppendedNew(s, r, item)
  {
    s + [NewEntry(item)]
  }

  /** The list after `increment(id)`. */
  function AfterIncrement(s: seq<Product>, id: string): (r: seq<Product>)
    ensures match Find(s, id)
      case None => r == s
      case Some(i) => QuantityChangedAt(s, r, i, 1)
  {
    match Find(s, id)
    case None => s
    case Some(i) => s[i := s[i].(quantity := s[i].quantity + 1)]
  }

  /** The list after `decrement(id)`. */
  function AfterDecrement(s: seq<Product>, id: string): (r: seq<Product>)
    ensures match Find(s, id)
      case None => r == s
      case Some(i) =>
        if s[i].quantity == 1 then
          |r| < |s| && forall p :: p in r <==> p in s && p.id != id
        else
          QuantityChangedAt(s, r, i, -1)
  {
    match Find(s, id)
    case None => s
    case Some(i) =>
      if s[i].quantity == 1 then WithoutMembers(s, id); Without(s, id)
      else s[i := s[i].(quantity := s[i].quantity - 1)]
  }

  /** The list after `addToCart(item)`. */
  function AfterAddToCart(s: seq<Product>, item: ProductInfo): (r: seq<Product>)
    ensures match Find(s, item.id)
      case None => AppendedNew(s, r, item)
      case Some(i) => QuantityChangedAt(s, r, i, 1)
    ensures HasId(s, item.id) ==> r == AfterIncrement(s, item.id)
  {
    match Find(s, item.id)
    case None => Append(s, item)
    case Some(_) => AfterIncrement(s, item.id)
  }

  // ----- Removal keeps order -----

  /** With unique ids, dropping the id removes exactly the one item at `i`. */
  lemma {:induction false} WithoutAt(s: seq<Product>, id: string, i: nat)
    requires UniqueIds(s) && i < |s| && s[i].id == id
    ensures Without(s, id) == s[..i] + s[i + 1..]
  {
    var t := s[1..];
    assert Without(s, id) == (if s[0].id == id then [] else [s[0]]) + Without(t, id);
    if i == 0 {
      assert !HasId(t, id) by {
        forall k | 0 <= k < |t| ensures t[k].id != id {
          assert t[k] == s[k + 1];
        }
      }
      assert s[..0] + s[1..] == t;
    } else {
      assert UniqueIds(t) by {
        forall a, b | 0 <= a < b < |t| ensures t[a].id != t[b].id {
          assert t[a] == s[a + 1] && t[b] == s[b + 1];
        }
      }
      assert t[i - 1] == s[i];
      WithoutAt(t, id, i - 1);
      assert s[0].id != id;
      calc {
        Without(s, id);
        [s[0]] + (t[..i - 1] + t[i..]);
        { assert s[..i] == [s[0]] + t[..i - 1]; assert s[i + 1..] == t[i..]; }
        s[..i] + s[i + 1..];
      }
    }
  }

  /** Filtering an appended list filters the prefix and the new item apart. */
  lemma {:induction false} WithoutAppend(s: seq<Product>, x: Product, id: string)
    ensures Without(s + [x], id) == Without(s, id) + (if x.id == id then [] else [x])
  {
    if s == [] {
      assert [] + [x] == [x];
    } else {
      var head := if s[0].id == id then [] else [s[0]];
      var tail := if x.id == id then [] else [x];
      assert (s + [x])[0] == s[0];
      assert (s + [x])[1..] == s[1..] + [x];
      assert Without(s + [x], id) == head + Without(s[1..] + [x], id);
      WithoutAppend(s[1..], x, id);
      assert Without(s, id) == head + Without(s[1..], id);
      assert head + (Without(s[1..], id) + tail) == (head + Without(s[1..], id)) + tail;
    }
  }

  /** Decrementing an item of quantity 1 removes that item: the others keep
      their values and their relative order, and the list is one shorter. */
  lemma DecrementRemoves(s: seq<Product>, id: string, i: nat)
    requires UniqueIds(s) && Find(s, id) == Some(i) && s[i].quantity == 1
    ensures AfterDecrement(s, id) == s[..i] + s[i + 1..]
    ensures |AfterDecrement(s, id)| == |s| - 1
  {
    WithoutAt(s, id, i);
  }

  // ----- The invariant -----

  lemma IncrementPreservesValid(s: seq<Product>, id: string)
    ensures Valid(s) ==> Valid(AfterIncrement(s, id))
  {
    var r := AfterIncrement(s, id);
    if Valid(s) && Find(s, id).Some? {
      assert forall k :: 0 <= k < |s| ==> r[k].id == s[k].id;
    }
  }

  lemma DecrementPreservesValid(s: seq<Product>, id: string)
    ensures Valid(s) ==> Valid(AfterDecrement(s, id))
  {
    var r := AfterDecrement(s, id);
    if Valid(s) && Find(s, id).Some? {
      var i := Find(s, id).value;
      if s[i].quantity == 1 {
        DecrementRemoves(s, id, i);
        forall k | 0 <= k < |r| ensures r[k] == s[if k < i then k else k + 1] {
        }
      } else {
        assert forall k :: 0 <= k < |s| ==> r[k].id == s[k].id;
      }
    }
  }

  lemma AddToCartPreservesValid(s: seq<Product>, item: ProductInfo)
    ensures Valid(s) ==> Valid(AfterAddToCart(s, item))
  {
    if Valid(s) {
      if HasId(s, item.id) {
        IncrementPreservesValid(s, item.id);
      } else {
        var r := AfterAddToCart(s, item);
        assert forall k :: 0 <= k < |s| ==> r[k] == s[k];
      }
    }
  }

  // ----- Sequences of commands -----

  datatype Command = AddToCartCmd(item: ProductInfo) | IncrementCmd(id: string) | DecrementCmd(id: string)

  function Step(s: seq<Product>, c: Command): (r: seq<Product>) {
    match c
    case AddToCartCmd(item) => AfterAddToCart(s, item)
    case IncrementCmd(id) => AfterIncrement(s, id)
    case DecrementCmd(id) => AfterDecrement(s, id)
  }

  function Run(s: seq<Product>, cmds: seq<Command>): (r: seq<Product>)
    decreases |cmds|
  {
    if cmds == [] then s else Run(Step(s, cmds[0]), cmds[1..])
  }

  /** Whatever commands are issued, ids stay unique and quantities stay >= 1. */
  lemma {:induction false} RunPreservesValid(s: seq<Product>, cmds: seq<Command>)
    requires Valid(s)
    ensures Valid(Run(s, cmds))
    decreases |cmds|
  {
    if cmds != [] {
      match cmds[0] {
        case AddToCartCmd(item) => AddToCartPreservesValid(s, item);
        case IncrementCmd(id) => IncrementPreservesValid(s, id);
        case DecrementCmd(id) => DecrementPreservesValid(s, id);
      }
      RunPreservesValid(Step(s, cmds[0]), cmds[1..]);
    }
  }

  /** Every quantity is at most `n`. */
  predicate QuantitiesAtMost(s: seq<Product>, n: int) {
    forall k :: 0 <= k < |s| ==> s[k].quantity <= n
  }

  /** One command raises the largest quantity by at most 1. */
  lemma StepBoundsQuantities(s: seq<Product>, c: Command, n: nat)
    requires QuantitiesAtMost(s, n)
    ensures QuantitiesAtMost(Step(s, c), n + 1)
  {
    if c.DecrementCmd? && Find(s, c.id).Some? && s[Find(s, c.id).value].quantity == 1 {
      var r := Step(s, c);
      WithoutMembers(s, c.id);
      forall k | 0 <= k < |r| ensures r[k].quantity <= n + 1 {
        assert r[k] in s;
      }
    }
  }

  /** After `m` commands no quantity has grown past its old bound plus `m`.
      From the empty cart (bound 0) every quantity the commands build is
      therefore a whole number no larger than the number of commands issued. */
  lemma {:induction false} RunBoundsQuantities(s: seq<Product>, cmds: seq<Command>, n: nat)
    requires QuantitiesAtMost(s, n)
    ensures QuantitiesAtMost(Run(s, cmds), n + |cmds|)
    decreases |cmds|
  {
    if cmds != [] {
      StepBoundsQuantities(s, cmds[0], n);
      RunBoundsQuantities(Step(s, cmds[0]), cmds[1..], n + 1);
    }
  }

  // ----- Commands that undo each other -----

  /** `decrement` undoes `increment` on any cart whose quantities are positive. */
  lemma DecrementUndoesIncrement(s: seq<Product>, id: string)
    requires PositiveQuantities(s)
    ensures AfterDecrement(AfterIncrement(s, id), id) == s
  {
    var r := AfterIncrement(s, id);
    if Find(s, id).Some? {
      var i := Find(s, id).value;
      assert Find(r, id) == Some(i) by {
        assert forall k :: 0 <= k < |s| ==> r[k].id == s[k].id;
      }
      var t := AfterDecrement(r, id);
      assert forall k :: 0 <= k < |s| ==> t[k] == s[k];
    }
  }

  /** `increment` undoes `decrement` when the item is not removed by it. */
  lemma IncrementUndoesDecrement(s: seq<Product>, id: string)
    requires forall k :: 0 <= k < |s| && s[k].id == id ==> s[k].quantity != 1
    ensures AfterIncrement(AfterDecrement(s, id), id) == s
  {
    var r := AfterDecrement(s, id);
    if Find(s, id).Some? {
      var i := Find(s, id).value;
      assert Find(r, id) == Some(i) by {
        assert forall k :: 0 <= k < |s| ==> r[k].id == s[k].id;
      }
      var t := AfterIncrement(r, id);
      assert forall k :: 0 <= k < |s| ==> t[k] == s[k];
    }
  }

  /** Adding a product that is not in the cart and then decrementing it
      gives back the cart it started from. */
  lemma DecrementUndoesAddToCart(s: seq<Product>, item: ProductInfo)
    requires !HasId(s, item.id)
    ensures AfterDecrement(AfterAddToCart(s, item), item.id) == s
  {
    var r := AfterAddToCart(s, item);
    assert r == s + [NewEntry(item)];
    assert Find(r, item.id) == Some(|s|);
    WithoutAppend(s, NewEntry(item), item.id);
  }
}
