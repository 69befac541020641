# Shopping-cart bookkeeping of the GoMarketplace cart provider

The mobile storefront keeps its cart in a React context provider,
`CartProvider` in `src/hooks/cart.tsx`. The provider holds an ordered list of
products (`id`, `title`, `image_url`, `price`, `quantity`) and offers three
operations that replace that list:

- `addToCart(product)`: a product whose id is already in the cart gets one more
  unit and keeps the fields of the line already there; a new product is
  appended at the end with quantity 1, whatever quantity it came with.
- `increment(id)`: the line with that id gets one more unit.
- `decrement(id)`: if the line with that id already has quantity 0 or less it
  is removed; otherwise the line loses one unit. So decrementing from 1 leaves
  the line in the cart with quantity 0, and only the next decrement removes it.

This project models that bookkeeping in Dafny:

- `cart.dfy`, module `Cart`: the product record and the list transitions as pure
  functions over `seq<Product>`. They follow the JavaScript array operations the
  provider uses: `Find` is `Array.prototype.find` (the first line with the id),
  `Bump` is the `map` with object spread that changes a quantity, `Without` is the
  `filter` that drops an id. `AddToCart`, `Increment` and `Decrement` combine
  them exactly as the provider does, so on a list with a repeated id they too
  behave as the source does (the `map` touches every line with that id, the
  `filter` drops all of them).
- `cart_properties.dfy`, module `CartProperties`: what each transition does to
  the list (on lists with unique ids), that ids stay unique, that quantities
  stay non-negative, and how the transitions undo each other.
- `cart_provider.dfy`, module `CartHook`: the provider as a class whose
  `products` field each method replaces with the result of the matching
  function, keeping the invariant "ids unique, quantities non-negative"; and a
  client method that runs the add, add, decrement, decrement, decrement session.

`price` is a JavaScript number that the cart never computes with; it is
carried as an opaque `Price` value. `quantity` is an unbounded integer.
Fields use Dafny naming (`imageUrl` for `image_url`).

## Model

| member | source | states |
|---|---|---|
| Cart.Find | src/hooks/cart.tsx:48 | the lookup finds nothing exactly when no line has the id; otherwise it yields the first line with that id |
| Cart.Bump | src/hooks/cart.tsx:71-75 | the quantity-changing `map` keeps the length; every line with the target id has its quantity shifted and keeps its other fields, every other line is unchanged |
| Cart.Without | src/hooks/cart.tsx:90 | the `filter` leaves no line with the id, keeps every line with another id, adds nothing and never grows the list |
| Cart.AddToCart | src/hooks/cart.tsx:48-58 | after adding, the id is in the cart; the length stays the same exactly when the id was already there and grows by one exactly when it was not |
| Cart.Increment | src/hooks/cart.tsx:70-76 | increment keeps the ids and their order exactly |
| Cart.Decrement | src/hooks/cart.tsx:88-101 | decrement never grows the list, and leaves it unchanged when the id is absent |
| CartProperties.WithoutAt | src/hooks/cart.tsx:90 | with unique ids, the filter removes exactly the line at the id's index and keeps the others in order |
| CartProperties.AddToCartAbsent | src/hooks/cart.tsx:57-58 | a new id is appended as one line at the end with the incoming title, image and price and quantity 1; the earlier lines are unchanged |
| CartProperties.AddToCartPresent | src/hooks/cart.tsx:48-56 | an id already present keeps its place, its line keeps its own fields (not the incoming ones) with quantity + 1, and every other line is unchanged |
| CartProperties.IncrementAt | src/hooks/cart.tsx:70-76 | only the line with the id changes, and only its quantity, by + 1 |
| CartProperties.IncrementAbsent | src/hooks/cart.tsx:70-76 | incrementing an absent id leaves the list unchanged |
| CartProperties.DecrementRemoves | src/hooks/cart.tsx:88-92 | a line whose quantity is already at most 0 is removed; the other lines keep their contents and relative order |
| CartProperties.DecrementLowers | src/hooks/cart.tsx:95-101 | a line whose quantity is positive loses one unit in place; every other line is unchanged |
| CartProperties.DecrementFromOne | src/hooks/cart.tsx:89-101 | decrementing from 1 leaves the line in the cart with quantity 0, and the next decrement removes it |
| CartProperties.AddToCartKeepsUnique | src/hooks/cart.tsx:48-58 | adding keeps ids unique |
| CartProperties.IncrementKeepsUnique | src/hooks/cart.tsx:70-76 | incrementing keeps ids unique |
| CartProperties.DecrementKeepsUnique | src/hooks/cart.tsx:88-101 | decrementing keeps ids unique |
| CartProperties.AddToCartKeepsNonNegative | src/hooks/cart.tsx:48-58 | adding keeps every quantity non-negative |
| CartProperties.IncrementKeepsNonNegative | src/hooks/cart.tsx:70-76 | incrementing keeps every quantity non-negative |
| CartProperties.DecrementKeepsNonNegative | src/hooks/cart.tsx:89-101 | with unique ids, decrementing keeps every quantity non-negative, since it subtracts only from a positive quantity |
| CartProperties.DecrementUndoesIncrement | src/hooks/cart.tsx:68-109 | with unique ids and non-negative quantities, a decrement takes back an increment of the same id, whether or not the id is present |
| CartProperties.AddThenDecrementTwice | src/hooks/cart.tsx:46-109 | adding a new product and decrementing once leaves it with quantity 0 at the end; a second decrement gives back the original cart |
| CartProperties.AddTwiceDecrementThriceTrace | src/hooks/cart.tsx:46-109 | starting from the empty list, add, add, decrement, decrement, decrement yield the product with quantity 1, 2, 1, 0 and then the empty list |
| CartHook.CartProvider.constructor | src/hooks/cart.tsx:29 | the provider starts with an empty cart, which satisfies the invariant |
| CartHook.CartProvider.AddToCart | src/hooks/cart.tsx:46-66 | the new list is the add transition of the old one, and the invariant is kept |
| CartHook.CartProvider.Increment | src/hooks/cart.tsx:68-84 | the new list is the increment transition of the old one, and the invariant is kept |
| CartHook.CartProvider.Decrement | src/hooks/cart.tsx:86-109 | the new list is the decrement transition of the old one, and the invariant is kept |
| CartHook.AddTwiceDecrementThrice | src/hooks/cart.tsx:46-109 | starting empty, add, add, decrement, decrement, decrement shows quantities 1, 2, 1, 0 and then an empty cart |

## Left out

- Persistence through `AsyncStorage` (`src/hooks/cart.tsx:32-43`, `60-63`, `78-81`, `91`, `103-106`): foreign asynchronous I/O. With it go its quirks: the provider writes the list as it was before the update, uses two different storage keys, clears storage at startup and removes a storage entry keyed by the product id.
- Loading the cart at startup (`src/hooks/cart.tsx:33-43`): it parses whatever JSON storage holds, so the model cannot promise the invariant for a loaded list; that is why the provider's methods state `old(Valid()) ==> Valid()` rather than requiring it.
- `JSON.stringify` / `JSON.parse`: serialisation belongs to a library outside this model.
- React plumbing: `createContext`, `useState`, `useEffect`, `useCallback`, `useMemo`, the provider element and `useCart`'s "must be used within a CartProvider" error (`src/hooks/cart.tsx:119-127`). The difference between the functional state update at line 90 and the closure-based updates only shows under React's batching of updates, which is not modelled: each operation reads the current list.
- Floating-point `price`: carried as an opaque value, never computed on. Quantities are unbounded integers; JavaScript numbers lose precision past 2^53, which is not modelled.
