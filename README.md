# Shopping cart state machine

A model of the cart hook of a market-place client (`src/hooks/cart.tsx`). The cart is an
ordered list of line items (`Product`: id, title, image URL, price, quantity) keyed by
product id. Three commands change it:

- `increment(id)` raises the quantity of the item with that id by 1; an unknown id does nothing.
- `decrement(id)` removes the item if its quantity is 1 and otherwise lowers it by 1;
  an unknown id does nothing.
- `addToCart(product)` increments a product that is already in the cart and otherwise
  appends it with quantity 1.

`cart.dfy` (module `Cart`) gives each command as a pure next-state function on
`seq<Product>`: `AfterIncrement`, `AfterDecrement`, `AfterAddToCart`. It also gives the
two list expressions of the source: `Without` for the `filter` of `decrement` and `Append`
for the spread-append of `addToCart`. `Find` models `find` followed by `indexOf`. The file
proves the cart invariant and three round trips about these functions. The invariant is
that ids are unique and every quantity is at least 1. The round trips are: decrement
undoes increment, increment undoes a decrement that does not remove, and decrement
undoes adding a new product.

`cart_provider.dfy` (module `CartHook`) holds the state. Class `CartProvider` has a
`products` field. Its methods `Increment`, `Decrement` and `AddToCart` update that field
the way the hook does: they copy the list and change one element, or filter, or append.
Each method is proved to leave exactly the state the matching function computes, and to
keep the invariant. `AddToCart` delegates to `Increment` as the source does. `Session` is
a client scenario that uses only the contracts: add, increment an unknown id, add again,
decrement twice.

Details of the code that the model keeps:

- `filter` drops every item with the id, not only the first one. With unique ids this is
  exactly one item. `DecrementRemoves` proves that case, and `Without` states the
  general one.
- Hydration adopts whatever the store returned, without checking it. So the invariant is
  a conditional guarantee: each command keeps it when it already holds
  (`Valid(old(products)) ==> Valid(products)`). This guarantee assumes that quantities are
  whole numbers, which the model's `int` type enforces. `RunBoundsQuantities` shows that
  from the empty cart, every quantity after `m` commands is a whole number no larger
  than `m`.
- The decision to remove the item is made on the first item with the id.

## Model

| member | source | states |
|---|---|---|
| `Cart.Find` | src/hooks/cart.tsx:47-51 | none exactly when no item has the id; otherwise an index in range whose item has the id, with no earlier item having it |
| `Cart.Without` | src/hooks/cart.tsx:70 | never longer than the input; unchanged when the id is absent; strictly shorter when it is present |
| `Cart.WithoutMembers` | src/hooks/cart.tsx:70 | an item survives the filter exactly when it was in the list and its id differs from the removed id |
| `Cart.WithoutAt` | src/hooks/cart.tsx:70 | with unique ids, the filter removes exactly the one item carrying the id and keeps the rest in order |
| `Cart.WithoutAppend` | src/hooks/cart.tsx:70 | filtering a list with one item appended filters the prefix, then keeps or drops the last item by its own id |
| `Cart.Append` | src/hooks/cart.tsx:95-101 | one item longer; the old items are an unchanged prefix; the last item has the given id, title, image URL and price and quantity 1 |
| `Cart.AfterIncrement` | src/hooks/cart.tsx:45-61 | an absent id leaves the list unchanged; otherwise the first matching item's quantity rises by exactly 1, its other fields stay, and length, order and all other items stay |
| `Cart.AfterDecrement` | src/hooks/cart.tsx:63-84 | an absent id leaves the list unchanged; quantity 1 makes the list shorter and drops exactly the items with that id; any other quantity falls by exactly 1, with everything else unchanged |
| `Cart.AfterAddToCart` | src/hooks/cart.tsx:86-115 | a new id appends an item with quantity 1 after the untouched old items; a present id has the effect of `increment(id)`, so there is no duplicate and the length is unchanged |
| `Cart.DecrementRemoves` | src/hooks/cart.tsx:69-70 | with unique ids, decrementing an item of quantity 1 gives the list without that item, other items in their order, one shorter |
| `Cart.IncrementPreservesValid` | src/hooks/cart.tsx:45-61 | unique ids and quantities of at least 1 still hold after `increment` |
| `Cart.DecrementPreservesValid` | src/hooks/cart.tsx:63-84 | unique ids and quantities of at least 1 still hold after `decrement` (a quantity 1 is removed, never left at 0) |
| `Cart.AddToCartPreservesValid` | src/hooks/cart.tsx:86-115 | unique ids and quantities of at least 1 still hold after `addToCart` |
| `Cart.RunPreservesValid` | src/hooks/cart.tsx:45-115 | from a valid cart, any sequence of the three commands leaves the ids unique and every quantity at least 1 |
| `Cart.StepBoundsQuantities` | src/hooks/cart.tsx:45-115 | if every quantity is at most n, then after any one command every quantity is at most n + 1 (the filter only drops items, a new item has quantity 1) |
| `Cart.RunBoundsQuantities` | src/hooks/cart.tsx:45-115 | after m commands no quantity exceeds its starting bound plus m; from the empty cart every quantity is a whole number at most m |
| `Cart.DecrementUndoesIncrement` | src/hooks/cart.tsx:45-84 | on a cart with positive quantities, decrementing right after incrementing the same id gives the original cart |
| `Cart.IncrementUndoesDecrement` | src/hooks/cart.tsx:45-84 | when the item is not at quantity 1, incrementing right after decrementing gives the original cart |
| `Cart.DecrementUndoesAddToCart` | src/hooks/cart.tsx:63-101 | adding a product whose id is not in the cart and then decrementing it gives the original cart |
| `CartHook.CartProvider.constructor` | src/hooks/cart.tsx:29 | the cart starts empty |
| `CartHook.CartProvider.Load` | src/hooks/cart.tsx:37-39 | a stored snapshot replaces the cart as it is; no snapshot leaves it unchanged |
| `CartHook.CartProvider.Increment` | src/hooks/cart.tsx:45-61 | the new `products` is `AfterIncrement` of the old one; an absent id changes nothing; the invariant is kept |
| `CartHook.CartProvider.Decrement` | src/hooks/cart.tsx:63-84 | the new `products` is `AfterDecrement` of the old one; an absent id changes nothing; the invariant is kept |
| `CartHook.CartProvider.AddToCart` | src/hooks/cart.tsx:86-115 | the new `products` is `AfterAddToCart` of the old one; a present id does not change the length; the invariant is kept |

## Left out

- Persistence through AsyncStorage is not modelled. This covers the `setItem` writes at
  lines 54-57, 77-80 and 103-112 and the `getItem` at lines 33-35. It is asynchronous I/O
  through a foreign library, and `JSON.stringify`/`JSON.parse` are library serialisation.
  The written snapshot is not always the new state. Lines 56 and 79 serialise `products`,
  not `newProducts`. Because of the shallow copy, a quantity change also shows up in
  `products`. A removal does not: after a removal, the stored snapshot is one step behind
  the in-memory cart and still holds the removed item at quantity 1.
- Hydration parsing: `Load` takes the parse result as a parameter. A JSON parse failure
  (an unhandled rejection in the source, which leaves the cart as it was) is the `None`
  case, like an empty or missing snapshot.
- Aliasing: the source mutates line-item objects that the previous state shares with the
  new list (lines 50-51 and 66-72). The model has value semantics. The only visible
  effect of that sharing is on the persisted snapshot described above.
- React plumbing is not modelled: `createContext`, `useState`, `useCallback`, `useMemo`,
  the Provider element, and the `useCart` check that throws outside a provider
  (lines 125-133). It is UI framework wiring, not cart logic.
- Stale closures and the functional update `setProducts(state => ...)` at line 95 are not
  modelled. Commands are atomic and sequential, so the state that `find` reads and the
  state that is updated are the same.
- Quantities are modelled as whole numbers below 2^53. In the source, `quantity` is a JS
  `number` (a double). Every list built from the empty cart by fewer than 2^53 commands meets
  this (`RunBoundsQuantities`). A stored snapshot need not. It may hold a fractional quantity:
  with 1.5, decrement fails the `=== 1` test at line 69 and leaves 0.5. It may also hold a
  quantity of 2^53 or more, where `+= 1` at line 51 can leave the value unchanged.
- `Cart.AfterIncrement`: "rises by exactly 1" holds only for quantities below 2^53. The model
  does not round like a double above that (see the previous line).
- `Cart.DecrementPreservesValid`: holds for whole-number quantities only. A stored
  fractional quantity such as 1.5 can reach 0.5 in the source.
- `CartHook.CartProvider.Load`: its parameter can only be a list of products. A snapshot
  that parses to something else (not an array, or records without these fields) is
  adopted as it is at line 38, and the next `find` then throws. The model does not
  represent that case.
- `price` is a floating-point number in the source and is never computed on. It is an
  opaque `int` here.
