# Shopping cart state manager

A Dafny model of the cart hook of a React Native marketplace app
(`src/hooks/cart.tsx`). The hook holds an ordered list of products, each with
an id, a title, an image URL, a price and a quantity, and offers three
mutators. `addToCart` bumps the quantity of a product already in the cart or
appends it with quantity 1. `increment` raises a product's quantity by one.
`decrement` lowers it by one. Each mutator finds the product's slot with
`findIndex`, copies the list, overwrites at most one slot of the copy and
hands the copy to `updateCart`, which replaces the held state.

The project has three modules:

- `CartModel` (`cart_model.dfy`): the `Product` record and the `Candidate`
  that `addToCart` receives (a product without its quantity). It holds the
  cart invariant `WellFormed` (ids pairwise distinct, every quantity at least
  1), the lookup `FindIndex`, and the pure next-state functions
  `AddToCartNext`, `IncrementNext`, `DecrementNext` and `DecrementIntendedNext`.
- `CartLemmas` (`cart_lemmas.dfy`): the lookup always picks the first match,
  which is the only match when ids are unique. Every operation preserves the
  invariant. Increment and decrement undo each other. The written `decrement`
  never removes an item.
- `CartHook` (`cart_store.dfy`): the `CartStore` class with a `products`
  field. Its methods copy the list into a fresh array (the spread
  `[...products]`), write one slot of it in place and pass it to
  `UpdateCart`. Each method is proved equal to its next-state function and
  to keep the invariant.

Where the code's behaviour differs from what it evidently intends, the model follows the code:

- For `increment` and `decrement`, an id that is not in the cart makes the
  code read `products[-1]`, which is `undefined`, and `product.quantity` then
  throws. There is no NotFound result, so the model requires the id to be
  present.
- `decrement` at quantity 1 does not remove the item (see Findings).
  `DecrementNext` and `CartStore.Decrement` keep this behaviour.
  `DecrementIntendedNext` and `CartStore.DecrementIntended` are the
  corrected variant, kept separate from them.
- The code does not check that a candidate's id is non-empty, so neither does the model.
- A quantity of 0 or below can only come from a restored cart. At such a
  quantity the written `decrement` leaves the cart unchanged, and the model
  does the same.

## Model

| member | source | states |
|---|---|---|
| CartModel.FindIndex | src/hooks/cart.tsx:50 | returns -1 exactly when no product has the id; otherwise returns an index whose product has the id, with no match before it |
| CartModel.AddToCartNext | src/hooks/cart.tsx:48-65 | for a known id: the same length; only the first matching slot changes; its quantity goes up by exactly 1; it keeps its own title, image_url and price. For an unknown id: one product more; the old products form the prefix; the last product carries the candidate's id, title, image_url and price, with quantity 1 |
| CartModel.IncrementNext | src/hooks/cart.tsx:67-78 | requires the id to be present; the same length; only the first matching slot changes; its quantity goes up by exactly 1 and its other fields stay |
| CartModel.DecrementNext | src/hooks/cart.tsx:80-96 | requires the id to be present. Above quantity 1: only the first matching slot changes, its quantity goes down by exactly 1 and its other fields stay. At quantity 1 or below: the result equals the input list |
| CartModel.DecrementIntendedNext | src/hooks/cart.tsx:87-91 | the corrected decrement: the same as DecrementNext above quantity 1. At quantity 1 or below: the matched slot is removed, the list is one shorter and the other products keep their order |
| CartLemmas.FindIndexIsFirstMatch | src/hooks/cart.tsx:50 | a matching index with no match before it is the index the lookup returns |
| CartLemmas.FindIndexOnlyMatch | src/hooks/cart.tsx:69 | with unique ids, the slot the lookup returns is the only slot that carries the id |
| CartLemmas.FindIndexSameIds | src/hooks/cart.tsx:82 | two lists with the same ids position by position give the same lookup result, so rewriting quantities does not move the slot a later operation finds |
| CartLemmas.AddToCartPreservesWellFormed | src/hooks/cart.tsx:54-59 | if ids are unique and every quantity is at least 1 before addToCart, both still hold after it |
| CartLemmas.IncrementPreservesWellFormed | src/hooks/cart.tsx:73 | increment keeps ids unique and every quantity at least 1 |
| CartLemmas.DecrementPreservesWellFormed | src/hooks/cart.tsx:87-91 | decrement, as written, keeps ids unique and every quantity at least 1 |
| CartLemmas.DecrementIntendedPreservesWellFormed | src/hooks/cart.tsx:87-91 | the corrected decrement keeps ids unique and every quantity at least 1 |
| CartLemmas.IncrementThenDecrement | src/hooks/cart.tsx:73-88 | increment then decrement on a present id with quantity at least 1 restores exactly the prior list |
| CartLemmas.DecrementThenIncrement | src/hooks/cart.tsx:73-88 | decrement then increment on a present id with quantity above 1 restores exactly the prior list |
| CartLemmas.IncrementThenDecrementIntended | src/hooks/cart.tsx:73-88 | the corrected decrement also undoes increment exactly |
| CartLemmas.DecrementNeverRemoves | src/hooks/cart.tsx:89-90 | as written, decrement keeps the list length and the id stays in the cart, whatever the quantity |
| CartLemmas.AddThenDecrementKeepsItem | src/hooks/cart.tsx:58-90 | as written, adding a new product and decrementing it leaves the product in the cart with quantity 1, so the prior list is not restored |
| CartLemmas.DecrementIntendedRemoves | src/hooks/cart.tsx:89-90 | with unique ids, the corrected decrement at quantity 1 shortens the list by one and the id is gone from it |
| CartLemmas.AddThenDecrementIntendedRestores | src/hooks/cart.tsx:58-90 | with the corrected decrement, adding a new product and decrementing it restores the prior list |
| CartLemmas.Walkthrough | src/hooks/cart.tsx:48-96 | start with "a" at quantity 1 and add "a": quantity 2. Decrement: quantity 1. Decrement again: the written code still holds "a"; the corrected code holds an empty list |
| CartHook.CopyOf | src/hooks/cart.tsx:52 | the spread copy is a fresh array with the same elements as the list |
| CartHook.CartStore.constructor | src/hooks/cart.tsx:29 | the cart starts empty, and so well formed |
| CartHook.CartStore.UpdateCart | src/hooks/cart.tsx:43-46 | the held list becomes exactly the list passed in |
| CartHook.CartStore.AddToCart | src/hooks/cart.tsx:48-65 | the held list becomes AddToCartNext of the old one, and the invariant is kept |
| CartHook.CartStore.Increment | src/hooks/cart.tsx:67-78 | requires the id to be present; the held list becomes IncrementNext of the old one, and the invariant is kept |
| CartHook.CartStore.Decrement | src/hooks/cart.tsx:80-96 | requires the id to be present; the held list becomes DecrementNext of the old one, and the invariant is kept |
| CartHook.CartStore.DecrementIntended | src/hooks/cart.tsx:87-91 | the corrected decrement on the store: the held list becomes DecrementIntendedNext of the old one, and the invariant is kept |
| CartHook.WalkthroughClient | src/hooks/cart.tsx:48-96 | from an empty store, add "a" twice and decrement twice: the written store holds "a" with quantity 1; the corrected one is empty |

## Left out

- Loading the saved cart and writing it to `AsyncStorage` under `@GoMarketplace:cart` (src/hooks/cart.tsx:31-41, 45). These are asynchronous I/O on a foreign library, and `JSON.parse`/`JSON.stringify` go with them. `UpdateCart` models only the state replacement.
- The React plumbing (`createContext`, `useState`, `useEffect`, `useCallback`, `useMemo`, the provider's JSX; src/hooks/cart.tsx:26-29, 98-103). It is framework code.
- Stale closures and the async ordering of callbacks, which come from the `useCallback` dependency arrays (src/hooks/cart.tsx:64, 77, 95). The model runs the operations one after another, each on the current state.
- `useCart` and its missing-context error (src/hooks/cart.tsx:106-114). It is a thin wrapper over React context.
- Price arithmetic. `price` is a JavaScript number that is only copied, modelled as `real`.
- CartModel.IncrementNext: the quantity is an unbounded integer. A JavaScript number loses precision above 2^53, and the model does not capture that; the same holds for CartModel.AddToCartNext.
- CartLemmas.IncrementThenDecrement: the exact round trip rests on integer quantities. In JavaScript, 2^53 + 1 rounds to 2^53 and the decrement then gives 2^53 - 1, so the prior list is not restored there; the same holds for CartLemmas.DecrementThenIncrement and CartLemmas.IncrementThenDecrementIntended.
- CartModel.IncrementNext: an unknown id is excluded by a precondition. In the source, `products[-1]` is `undefined`, reading its `quantity` throws a TypeError (src/hooks/cart.tsx:70-73), the returned promise rejects and the held state stays as it was. The model does not capture that error path; the same holds for CartModel.DecrementNext (src/hooks/cart.tsx:83-87), CartHook.CartStore.Increment and CartHook.CartStore.Decrement.
- CartHook.CartStore.DecrementIntended: the splice builds the shortened copy as a new list rather than shifting array elements in place.

## Findings

| source | as written | input that shows it | evidently intended | confidence | as-written member | corrected member |
|---|---|---|---|---|---|---|
| src/hooks/cart.tsx:89-90 | at quantity 1, `decrement` calls `newProducts.slice(index, 1)` and discards the result, so the item stays with quantity 1 | cart `[{id: "a", quantity: 1}]`, then `decrement("a")`: the cart is unchanged | remove the item, e.g. `newProducts.splice(index, 1)`, so the cart becomes `[]` | high; not executed | CartLemmas.AddThenDecrementKeepsItem | CartLemmas.DecrementIntendedRemoves |

`CartStore.Decrement` and `DecrementNext` keep the code's behaviour. The
corrected behaviour is `DecrementIntendedNext`, which `CartStore.DecrementIntended`,
`AddThenDecrementIntendedRestores`, `IncrementThenDecrementIntended` and
`WalkthroughClient` use.
