# Checkout core of an e-commerce microservice app, modelled in Dafny

This project models three parts of the shop's services and proves properties about them:

- **Money arithmetic** (`src/checkoutservice/money/money.go`, module `Money` in `money.dfy`).
  A `Money` value is an int64 `units` plus an int32 `nanos` fraction in billionths.
  The model covers `IsValid` and its two halves `signMatches` and `validNanos`, `Must`, and `Sum`.
  `Sum` is written with Go's two's-complement wrap-around and Go's truncating `/` and `%`.
  The constants `nanosMin`, `nanosMax` and `nanosMod` are `NanosMin`, `NanosMax` and `NanosMod`.
- **Product catalog** (`src/productservice/server.go`, module `ProductCatalog` in `catalog.dfy`).
  The package variables `products` and `reloadProducts` are the fields of the class `ProductService`.
  Its methods are `ParseProducts`, `ListProducts`, `GetProduct` and `SearchProducts`.
  The product file is an abstract source, `CatalogFile`, which either parses to a list of products (`Loaded`) or fails (`Malformed`).
  `GetProduct` calls `parseProducts` again at every use of the list, as the Go code does.
  It is proved against the pure `Lookup`, and `SearchProducts` against `Search`.
- **Order placement** (`src/checkoutservice/main.go`, module `Checkout` in `checkout.dfy`).
  The collaborators are one `Backends` value: the order-id generator, the cart and product connections, and the cart and product services' replies.
  Each of these gives a value or an error.
  Every operation also returns the list of collaborator calls it made (`seq<Call>`).
  That list is how the model states which calls happen, in what order, and which never happen.
  `PrepOrderItems` fills an array by index, as the Go function fills `out`.
  It is proved against the reference function `PrepOrderItemsOutcome`.

`wrappers.dfy` (module `Wrappers`) holds `Option`, `Result`, Go's `int32` and `int64`, and the wrap-around functions.

### Behaviour of the code a reader might not expect

- An order item costs the product's unit price. The quantity is never multiplied in.
- `PlaceOrder` computes no total: the loop at main.go:124-126 has an empty body and `total` is never read.
  It charges nothing, ships nothing, sends no e-mail and never empties the cart.
  The result has no shipping cost and an empty tracking id.
- A successful `Sum` always returns currency `"USD"`, whatever the operands' currency codes are; an invalid operand gives the zero Money, whose currency code is empty.
- `Sum` never borrows from an operand whose units and nanos have opposite signs, such as `{1, -5e8}`: `IsValid` rejects it, so `{1, -5e8} + {0, 7e8}` returns `ErrInValidValue` (`Money.SumRejectsMixedSignExample`).
  The borrowing branch on lines 67-75 only sees the raw sums of two valid operands.
- Adding zero is the identity only when the operand's units are non-zero or its nanos are zero.
  Adding zero to `{0, 5e8}` gives `{1, -5e8}` (`Money.SumZeroRightCounterexample`, see Findings).
- `Sum` is not associative: `({0,5e8} + {0,3e8}) + {1,0}` is rejected, while `{0,5e8} + ({0,3e8} + {1,0})` gives `{1,8e8}` (`Money.SumNotAssociative`).
- `main.go` does not compile as written. The model follows its evident intent:
  - the log line 105 reads `req.userId` where the parameter is `request`;
  - `total` (line 118) and `it` (line 124) are unused;
  - the file declares `package checkoutservice` with a `func main`.

## Model

| member | source | states |
|---|---|---|
| `Money.SignMatches` | src/checkoutservice/money/money.go:40-42 | units and nanos agree in sign exactly when their product is non-negative |
| `Money.ValidNanos` | src/checkoutservice/money/money.go:44-46 | nanos is valid exactly when it lies strictly within one unit, i.e. its magnitude is below 10^9 |
| `Money.IsValid` | src/checkoutservice/money/money.go:36-38 | valid exactly when nanos is in [-999999999, 999999999] and units and nanos are not of strictly opposite signs |
| `Money.ValidIsCanonical` | src/checkoutservice/money/money.go:36-46 | a Money is valid exactly when its units and nanos are the truncated quotient and remainder of its value by 10^9 |
| `Money.ValidUnique` | src/checkoutservice/money/money.go:36-46 | two valid Money values with the same amount have the same units and nanos |
| `Wrappers.Wrap32` | src/checkoutservice/money/money.go:61 | Go's int32 assignment: the result lies in the int32 range, equals the exact value when it fits, and differs from it by a multiple of 2^32 |
| `Wrappers.Wrap64` | src/checkoutservice/money/money.go:60 | Go's int64 assignment: the result lies in the int64 range, equals the exact value when it fits, and differs from it by a multiple of 2^64 |
| `Money.NanosQuot` | src/checkoutservice/money/money.go:65 | Go's `/` by nanosMod truncates toward zero: the quotient times 10^9 is the largest multiple not exceeding the dividend in magnitude, with the dividend's sign |
| `Money.NanosRem` | src/checkoutservice/money/money.go:65-66 | Go's `%` by nanosMod: the value splits into quotient times 10^9 plus a remainder of magnitude below 10^9 that takes the sign of the dividend |
| `Money.Must` | src/checkoutservice/money/money.go:48-53 | with no error the value is returned unchanged; with an error there is no value, only a panic carrying that error |
| `Money.MustSum` | src/checkoutservice/money/money.go:48-58 | `Must(Sum(l, r))` returns a USD value exactly when both operands are valid, and otherwise panics with ErrInValidValue |
| `Money.Sum` | src/checkoutservice/money/money.go:55-83 | an invalid operand gives ErrInValidValue and the zero Money; valid operands give no error and currency "USD" |
| `Money.SumExactIff` | src/checkoutservice/money/money.go:60-76 | for any valid operands (overflow included), the result is valid and preserves the value exactly when the exact total is representable (its whole-unit part fits int64) and the unit sum is non-zero, the nanos sum is zero, or the nanos sum is at least 10^9 |
| `Money.SumValueIff` | src/checkoutservice/money/money.go:60-76 | the value is preserved in both branches, except when the unit sum is 0 and the int32 subtraction on line 74 wraps |
| `Money.SumZeroUnits` | src/checkoutservice/money/money.go:71-75 | a zero unit sum with non-zero nanos gives units 1 and nanos = the int32-wrapped value of (nanos sum - 10^9), which wraps when the nanos sum is below -1147483648; the result is valid exactly when the nanos sum is at least 10^9 |
| `Money.SumZeroUnitsCounterexample` | src/checkoutservice/money/money.go:71-75 | `{0,5e8} + {0,3e8}` gives `{1,-2e8}` with no error, and the result is not valid |
| `Money.SumCarryExample` | src/checkoutservice/money/money.go:63-66 | `{0,9e8} + {0,9e8}` gives `{1,8e8}` |
| `Money.SumRejectsMixedSignExample` | src/checkoutservice/money/money.go:56-58 | `{1,-5e8} + {0,7e8}` is rejected with ErrInValidValue and the zero Money |
| `Money.SumZeroRight` | src/checkoutservice/money/money.go:63-66 | adding a zero amount keeps the units and nanos of a valid operand whose units are non-zero or whose nanos are zero |
| `Money.SumNotAssociative` | src/checkoutservice/money/money.go:63-75 | `({0,5e8} + {0,3e8}) + {1,0}` is rejected with ErrInValidValue, while `{0,5e8} + ({0,3e8} + {1,0})` gives `{1,8e8}` |
| `Money.SumZeroRightCounterexample` | src/checkoutservice/money/money.go:63-75 | adding zero to `{0,5e8}` gives `{1,-5e8}` with no error, so zero is not an identity as written |
| `Money.SumCommutes` | src/checkoutservice/money/money.go:60-61 | the order of the operands never changes the result |
| `Money.SumCorrected` | src/checkoutservice/money/money.go:63-76 | corrected Sum: valid operands give no error and USD, and the result is valid and exactly the sum of the values if and only if that sum is representable (its whole-unit part fits int64); invalid operands give ErrInValidValue |
| `Money.CorrectedFields` | src/checkoutservice/money/money.go:63-76 | the corrected branches keep both fields within their Go widths, and give a valid, value-preserving pair if and only if the exact total is representable, overflowing unit sums included |
| `Money.SumAgreesWithCorrected` | src/checkoutservice/money/money.go:63 | whenever the wrapped unit sum is non-zero or the nanos sum is zero, overflow included, the code as written and the corrected version give the same result |
| `Money.SumCorrectedZeroRight` | src/checkoutservice/money/money.go:63-66 | with the correction, adding a zero amount keeps the units and nanos of every valid operand |
| `Money.SumCorrectedAssociative` | src/checkoutservice/money/money.go:55-83 | with the correction, summation of three valid amounts is associative when their units are below 2^61 in magnitude |
| `ProductCatalog.CacheAfter` | src/productservice/server.go:147-155 | the cache after one `parseProducts`: kept without a read when reloading is off and the cache is non-empty (`NeedsReload` false), kept when the read fails, replaced by the file's products after a successful triggered read |
| `ProductCatalog.Listing` | src/productservice/server.go:147-155 | returns the cache unchanged when reloading is off and the cache is non-empty; returns the file's products after a successful triggered read and an empty list after a failed one |
| `ProductCatalog.ParseProductsStable` | src/productservice/server.go:147-155 | with the flag and the file fixed, a second reload leaves the cache where the first left it and returns the same list |
| `ProductCatalog.LastIndexOf` | src/productservice/server.go:164-169 | finds the last entry with the id, or reports that no entry has it |
| `ProductCatalog.Lookup` | src/productservice/server.go:164-174 | finds a product exactly when some entry has the id; the product has that id and is the last such entry; otherwise NotFound for that id |
| `ProductCatalog.LowerChar` | src/productservice/server.go:181-182 | an ASCII upper-case letter becomes the lower-case letter at the same alphabet position; every other character is unchanged; no upper-case letter comes out |
| `ProductCatalog.ToLower` | src/productservice/server.go:181-182 | keeps the length, leaves no ASCII upper-case letter, keeps every other character in place and turns each upper-case letter into its lower-case counterpart |
| `ProductCatalog.ToLowerIdempotent` | src/productservice/server.go:181-182 | lower-casing twice is lower-casing once |
| `ProductCatalog.ToLowerKeepsLowerCase` | src/productservice/server.go:181-182 | a string with no upper-case letter, such as the empty query, is its own lower-case form |
| `ProductCatalog.Contains` | src/productservice/server.go:181-182 | `strings.Contains`: the empty string is contained in every string, and a contained string is never longer than the string containing it (`ContainsIffOccurs` gives its meaning) |
| `ProductCatalog.ContainsIffOccurs` | src/productservice/server.go:181-182 | `strings.Contains(s, sub)` holds exactly when `sub` occurs in `s` at some offset |
| `ProductCatalog.Search` | src/productservice/server.go:180-187 | the reference for `SearchProducts`: never longer than the catalog, and holds only catalog products that match (`SearchIsOrderedFilter` and `SearchMembership` give order and completeness) |
| `ProductCatalog.Matches` | src/productservice/server.go:181-182 | the filter condition: the lower-cased name or description contains the lower-cased query; the empty query matches every product |
| `ProductCatalog.MatchIndices` | src/productservice/server.go:180-185 | lists, in increasing order, exactly the catalog positions whose name or description contains the query, ignoring case |
| `ProductCatalog.SearchIsOrderedFilter` | src/productservice/server.go:180-187 | the search result is the entries at the matching positions, in catalog order, and is never longer than the catalog |
| `ProductCatalog.SearchMembership` | src/productservice/server.go:180-185 | a product is in the result exactly when it is in the catalog and matches the query |
| `ProductCatalog.SearchEmptyQuery` | src/productservice/server.go:180-187 | the empty query returns the whole catalog |
| `ProductCatalog.ProductService.constructor` | src/productservice/server.go:62-65 | start-up loads the product file when it parses and otherwise starts with an empty cache; reloading starts off |
| `ProductCatalog.ProductService.ReadProductFile` | src/productservice/server.go:129-145 | a successful parse replaces the cache; a failure reports false and leaves the cache as it was |
| `ProductCatalog.ProductService.ParseProducts` | src/productservice/server.go:147-155 | returns `Listing` of the old state and stores `CacheAfter` of it; the reload flag is unchanged |
| `ProductCatalog.ProductService.ListProducts` | src/productservice/server.go:157-160 | returns exactly what `parseProducts` returns |
| `ProductCatalog.ProductService.GetProduct` | src/productservice/server.go:162-175 | the scan, which re-reads the list at every use, answers `Lookup` of the list the first reload gives |
| `ProductCatalog.ProductService.SearchProducts` | src/productservice/server.go:177-188 | the appending loop answers `Search` of the reloaded list |
| `Checkout.GetUserCart` | src/checkoutservice/main.go:161-174 | a dial failure is reported before any fetch; otherwise the fetched items or the fetch error, after one GetCart call |
| `Checkout.EmptyUserCart` | src/checkoutservice/main.go:176-188 | a dial failure is reported first; otherwise one EmptyCart call, which succeeds exactly when the cart service accepts it, and a refusal is reported as CartEmptyFailed carrying the service's error |
| `Checkout.FirstFailedLookup` | src/checkoutservice/main.go:200-204 | every lookup before the returned position succeeds, and the lookup at it fails |
| `Checkout.PrepOrderItemsOutcome` | src/checkoutservice/main.go:190-214 | the reference for `prepOrderItems`: the first call is the connect, at most one lookup per item is made, success prices every item after every lookup, and the only errors are a connect failure and a lookup failure (`PricingSucceedsIff`, `PricingStopsAtFirstFailure` give the rest) |
| `Checkout.PricingSucceedsIff` | src/checkoutservice/main.go:190-213 | pricing succeeds exactly when the product service is reachable and every lookup succeeds; then there is one order item per cart item, at the same index, holding that cart item and costing the product's unit price (not multiplied by quantity) |
| `Checkout.PricingStopsAtFirstFailure` | src/checkoutservice/main.go:200-204 | a failed lookup aborts with an error naming that product and no items, even when earlier lookups succeeded, and no later item is looked up |
| `Checkout.PricingUnreachable` | src/checkoutservice/main.go:193-196 | if the product service cannot be reached, the error comes before any lookup and does not depend on the lookup answers |
| `Checkout.PricingCallsOnlyCatalog` | src/checkoutservice/main.go:190-213 | pricing calls only the product service |
| `Checkout.PrepOrderItems` | src/checkoutservice/main.go:190-214 | the loop filling `out` by index computes exactly `PrepOrderItemsOutcome`, both its result and its calls |
| `Checkout.PrepareOrderItemsFromCart` | src/checkoutservice/main.go:144-159 | a cart failure is wrapped as a cart failure and the catalog is never consulted; a pricing failure is wrapped; on success both the cart items and the order items are set |
| `Checkout.PlaceOrder` | src/checkoutservice/main.go:104-137 | a failed id generation or preparation gives an Internal status and no response; on success the result holds the id, exactly the prepared items and the user's address, with no shipping cost or tracking id; no call ever empties the cart |
| `Checkout.FromCatalog` | src/productservice/server.go:162-175 | the product service's GetProduct answer as the checkout receives it: a product exactly when the catalog lookup finds one, and then the last catalog entry with that id; otherwise the NotFound answer "no product with ID" followed by the id |
| `Checkout.PricingFromCatalog` | src/checkoutservice/main.go:200-211 | with the product service as collaborator, pricing fails exactly when some id is missing from the catalog, and each cost is the price of the last catalog entry with that id |

## Left out

- `Money.SumValueIff`: `Sum` wraps int64 units as Go does, but this lemma requires the raw unit sum to lie strictly inside the int64 range; it says nothing about the value of a result whose unit sum or carry overflows.
- `Money.SumCorrectedAssociative`: it is stated only for units below 2^61 in magnitude, a simple bound under which no intermediate sum can overflow.
- `Money.Sum`: the associativity and zero-identity laws fail for the code as written; `Money.SumNotAssociative` and `Money.SumZeroRightCounterexample` each exhibit an input, and the laws are proved only for `Money.SumCorrected`.
- `Money.Must`: a panic is modelled as a `Panicked` outcome, because Dafny has no non-returning call.
- `Checkout.PlaceOrder`: it assumes `request.User` is present; a nil user, which would make the Go code panic, is not modelled.
- `readProductFile` (file reading and JSON decoding) is the abstract `CatalogFile`.
  An unreadable file makes `readProductFile` call `log.Fatalf` and exit the process; this is not modelled.
  A file that fails to decode is modelled as leaving the cache unchanged; the state a partially decoded file leaves behind is not modelled.
- `productMutex`, the signal-handling goroutine that toggles `reloadProducts`, and concurrent requests are left out because they are locking and concurrency; the reload flag is a plain field.
  `GetProduct`'s repeated `parseProducts` calls therefore all see the same flag and the same file.
- `ProductCatalog.Product`: `priceUsd` is always present; a product without a price, for which `GetPriceUsd()` returns nil and the order item gets a nil cost (main.go:206), is not modelled.
- `Checkout.Backends`: `getProduct` is one function, so every lookup of the same id within one order gets the same answer; a product service that reloads its file between two lookups of one checkout (server.go:148) is not modelled.
- `time.Sleep(extraLatency)` is left out because it only adds latency.
- `main` and `mustMapEnv` in both Go files, environment variables, listening, serving and stats handlers are left out because they are start-up configuration.
- gRPC dialing, `defer conn.Close()` and the client stubs are abstract replies in `Backends`.
- `uuid.NewUUID` and its identifier's text are the abstract `newUuid: Option<string>`.
- `strings.ToLower` is restricted to ASCII letters because Unicode case folding is not modelled.
- Logging throughout is left out.
- The JavaScript cart and user services are not part of this model: their client scripts only fire RPCs, the cart server registers no handlers, and the user server is file I/O with callbacks.

## Findings

| source | as written | input that shows it | evidently intended | confidence | as-written member | corrected member |
|---|---|---|---|---|---|---|
| src/checkoutservice/money/money.go:63-75 | when the raw unit sum is 0 and the raw nanos sum is non-zero, the pair counts as "different sign": units becomes 1 and nanos drops by 10^9 | `{0, 5e8} + {0, 3e8}` gives `{1, -2e8}`, which is invalid (the exact value is `{0, 8e8}`) | a zero unit sum agrees in sign with any nanos sum and is normalised like the same-sign case | not executed; high (the verifier exhibits the input) | `Money.SumZeroUnitsCounterexample` | `Money.SumCorrected` |

Nothing else in the core calls `Sum`, since `PlaceOrder` never totals the order.
The money laws (the identity, associativity, and exactness for all sign combinations) are proved about `Money.SumCorrected`.
