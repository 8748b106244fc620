# Product registry — a Dafny model

This project models the in-memory product registry of a small Express
service (`server.js`). Each product has a server-assigned `id`, a `name`, a
`description`, a `price`, a `category` and an `inStock` flag. The service keeps
its products in one module-level array. Its handlers:

- **Store** (`registry.dfy`). The array becomes the `seq<Product>` field of the
  class `Registry.Store`. GET by id, POST (append), PUT (replace in place) and
  DELETE (splice) are methods on it. GET, PUT and DELETE share a
  front-to-back scan by id, `FindIndex`, proved against the specification
  function `FirstIndex`.
  Every method's contract gives the whole new store in terms of the old one,
  including the not-found and validation-failure paths that leave it
  unchanged. The object invariant `Valid()` says that ids are unique and that
  every stored product passed validation.
- **Validation** (`products.dfy`). `validateProduct` runs before the POST and
  PUT handlers. Request-body properties are JavaScript values (`json.dfy`), so
  "truthy" and "typeof" mean what they mean in JavaScript.
- **List query** (`query.dfy`). The list endpoint applies an exact category
  filter, then a case-insensitive substring search on `name`, then `slice`
  pagination. It reports the count before pagination. The functions follow
  JavaScript's `slice`, so negative offsets count from the end, and the
  `page <= 0` behaviour is captured rather than excluded.
- **Stats** (`stats.dfy`). The stats endpoint uses a `reduce` into a fresh
  object and counts products per category property key. Converting a
  category to a property key throws when the category is an object with its
  own `toString`, or an array holding one. The stats are then a 500, and
  the model gives `Err(Internal)`.

List and stats are functions of the store's sequence, so they cannot change
the store.

Two facts about the code that the model keeps:

- The code checks name, description and category for truthiness only. A
  number, `true` or an object passes as a name.
- Validation runs before the id lookup, so a PUT with an invalid body and an
  unknown id gets 400, not 404.

## Model

| member | source | states |
|---|---|---|
| `Json.StringConversions` | server.js:32 | A string is truthy exactly when it is non-empty, and a string is its own property key. |
| `Json.PropertyKeyFails` | server.js:90 | Converting a value to a property key throws exactly when the value is an object with its own `toString`, or an array holding one at any depth. |
| `Products.AcceptsStrings` | server.js:30-36 | For string name, description and category, a body is accepted iff those three are non-empty, `price` is a number and `inStock` is a boolean. The string "true" is not accepted for `inStock`. |
| `Products.BodyIdWins` | server.js:68 | As written, whenever a POST or PUT body carries an `id`, the record's id is the body's, not the server's (generated or path) id. |
| `Products.PostWithExistingIdDuplicates` | server.js:68 | As written, for example: a valid POST body carrying the id "a" of a stored product makes the created record take "a" instead of the generated id. |
| `Products.PutWithOtherIdRenames` | server.js:76 | As written, for example: a valid PUT to path id "a" whose body carries id "z" gives the replaced record the id "z". |
| `Registry.FirstIndex` | server.js:74 | findIndex by id returns the first position holding that id, and it returns None iff no product has the id. |
| `Registry.FindIndex` | server.js:74 | The front-to-back scan returns exactly `FirstIndex`. |
| `Registry.Store.constructor` | server.js:9 | The store starts empty and valid. |
| `Registry.Store.Get` | server.js:61-65 | Returns NotFound iff no stored product has the id. Otherwise it returns the product at the first position with that id. |
| `Registry.Store.Insert` | server.js:67-71 | A rejected body gives ValidationFailed and leaves the store unchanged. Otherwise exactly one product is appended, carrying the generated id and the body's fields. Earlier products are unchanged and ids stay unique. |
| `Registry.Store.Replace` | server.js:73-78 | A rejected body gives ValidationFailed and an absent id gives NotFound; both leave the store unchanged. Otherwise only the first matching position changes, to the new fields under the same id. Length, the other positions and unique ids are kept. |
| `Registry.Store.Delete` | server.js:80-85 | An absent id gives NotFound and leaves the store unchanged. Otherwise the store equals the old one with the first matching position removed, the rest in their order, and ids stay unique. |
| `Registry.GetAfterInsert` | server.js:68-69 | After an append under a fresh id, a lookup of that id finds the new product at the end, and ids stay unique. |
| `Registry.ReplaceKeepsLookups` | server.js:74-76 | Replacing a product by one with the same id leaves every lookup's position unchanged, so GET by that id returns the new fields. Ids stay unique. |
| `Registry.SameIdsSameIndex` | server.js:74 | findIndex depends only on the ids at each position. |
| `Registry.RemoveKeepsUnique` | server.js:83 | Splicing out one position keeps ids unique. |
| `Registry.GetAfterDelete` | server.js:81-83 | After a delete, a GET for the deleted id is NotFound. |
| `Registry.DeleteKeepsOtherLookups` | server.js:81-83 | After a delete, every other id is found exactly when it was found before, and it finds the same product. |
| `Seqs.Keep` | server.js:49 | `filter` keeps only elements that pass the test, keeps every element that passes, and never grows the sequence. |
| `Seqs.KeepAppend` | server.js:49 | Filtering distributes over concatenation, so the result keeps the original order. |
| `Query.ListIsOnePassFilter` | server.js:44-58 | The list fails with `Internal` (500) iff a search is given and some product in the category has a non-string name. Otherwise the selection is exactly the one-pass filter "category matches (if given) and lower-cased name contains lower-cased term (if given)", in store order. `total` is its length and the page is cut from it with `page` and `limit` (defaults 1 and 10). |
| `Query.NoFilterSelectsAll` | server.js:46-58 | With no category and no search, the whole store is selected and `total` is its size. |
| `Query.LowerTwice` | server.js:53 | Lower-casing is idempotent and keeps the length. |
| `Query.SearchIgnoresCase` | server.js:52-54 | Searching for a term or for its lower-case form selects the same products. |
| `Query.PageWindow` | server.js:56-58 | For page >= 1 and limit >= 0, the page is the selection from `(page-1)*limit` to `(page-1)*limit + limit`, clamped to the length, and has at most `limit` products. |
| `Query.PagesReassemble` | server.js:56-58 | For limit >= 1, pages 1..n concatenated are the first `n*limit` selected products. Once `n*limit` reaches `total`, they are the whole selection. |
| `Query.PagesApart` | server.js:56 | For limit >= 0 and pages numbered 1 or more, a later page starts no earlier than an earlier page ends. |
| `Query.PagesDisjoint` | server.js:56-58 | In a selection without repeats, two different pages numbered 1 or more share no product (for limit >= 0). |
| `Query.SelectionDistinct` | server.js:48-54 | A selection from a store with unique ids has no repeated product. |
| `Query.PageZeroIsEmpty` | server.js:56-58 | Page 0 is empty for every limit, and limit 0 gives an empty page for every page number. |
| `Query.NegativePageCountsFromEnd` | server.js:56-58 | For limit >= 1 and at least `2 * limit` selected products, page -1 is the window of `limit` products that ends `limit` before the end, because slice counts negative offsets from the end. |
| `Stats.TallyFails` | server.js:89-92 | Stats fail with a 500 exactly when some stored category has no property key, as `Json.PropertyKeyFails` describes. |
| `Stats.TextCategoriesCount` | server.js:89-92 | When every stored category is text, the stats never fail, and their keys are exactly the stored categories. |
| `Stats.TallyCounts` | server.js:88-94 | When the stats succeed, they have an entry for a key iff some product has that category key, and the entry is the number of such products. |
| `Stats.TallyKeys` | server.js:89-92 | When the stats succeed, the keys of the stats are exactly the categories present in the store. |
| `Stats.CategoriesAreKeys` | server.js:89-92 | The categories in first-seen order are listed once each. When the stats succeed, they are exactly the stats' keys. |
| `Stats.CountsSumToSize` | server.js:89-92 | When the stats succeed, the counts sum to the number of stored products. |
| `Stats.AsWrittenAgreesOffPrototype` | server.js:89-92 | The reduce as written, into `{}`, fails on exactly the stores where the plain count fails. Otherwise it agrees with the plain count on every key that is not a name inherited from Object.prototype. |
| `Stats.ProtoNeverKey` | server.js:89-92 | As written, "__proto__" is never a key of successful stats, whatever the store holds. |
| `Stats.ProtoCategoryDropped` | server.js:90 | As written, for example: a one-product store in category "__proto__" has no stats entry, while the corrected tally counts 1. |
| `Stats.OwnToStringFailsStats` | server.js:90 | For example: a category `{"toString": 1}`, alone or inside an array, passes validation, and the stats of a store holding it fail with a 500. |
| `Stats.InheritedNameGarbled` | server.js:90 | As written, for example: a one-product store in category "toString" reports its entry as the string "function toString() { [native code] }1" instead of 1. |

## Findings

| source | as written | input that shows it | evidently intended | confidence | as-written member | corrected member |
|---|---|---|---|---|---|---|
| server.js:68 | The record `{ id: uuidv4(), ...req.body }` lets a body property `id` override the generated id. | POST a valid body with `"id": "a"` while product `a` is stored: two records then have id `a`. | The server assigns the id, so ids stay unique. | high, not executed | `Products.BodyIdWins` | `Registry.Store.Insert` |
| server.js:76 | The record `{ id: req.params.id, ...req.body }` lets a body property `id` override the path id. | PUT `/api/products/a` with a valid body holding `"id": "z"`: the record is renamed to `z`, and GET `a` then gives 404. | The id is immutable, and the record keeps the path id. | high, not executed | `Products.PutWithOtherIdRenames` | `Registry.Store.Replace` |
| server.js:89-92 | The reduce counts into `{}`, which inherits Object.prototype. A category such as "toString" reads a built-in function, and `+ 1` turns it into a string. Assigning to "__proto__" is ignored. | A product with category "__proto__" is missing from the stats. With category "toString", the entry is `"function toString() { [native code] }1"`. | One numeric count per category. | high, not executed | `Stats.ProtoNeverKey` | `Stats.TallyCounts` |
| server.js:90 | Validation (server.js:32) accepts any truthy category. `acc[p.category]` converts the category to a property key, and that throws for an object with its own `toString`. | POST a valid body with `"category": {"toString": 1}`. Every later GET `/api/stats/products` answers 500 until that product is deleted or replaced. | Categories are text, so the stats always answer with counts. | high, not executed | `Stats.TallyFails` | `Stats.TextCategoriesCount` |

The corrected store ignores a body's `id`: `Insert` uses the generated id and
`Replace` uses the path id. The corrected stats count into a plain
dictionary (`Stats.Tally`). `Stats.StatsAsWritten` keeps the reduce as
written, and `Stats.AsWrittenAgreesOffPrototype` shows that the two differ
only on the twelve inherited names. The store keeps the validation as
written, so its stats can still fail. `Stats.TextCategoriesCount` states
what validation that demands text categories would guarantee.

## Left out

- Express plumbing is not modelled. This covers route registration, JSON body parsing, `res.status(...).json(...)`, `app.listen`, the request logger and the global error handler. Handler outcomes are the `Result` values `Ok`, `Err(NotFound)`, `Err(ValidationFailed)` and `Err(Internal)`, which map to 404, 400 and 500.
- The API-key middleware (server.js:21-27) and the "Hello, World!" route (server.js:39-41) are not modelled. The first is a string comparison against configuration and the second a constant reply.
- `uuidv4()` is foreign and random. `Registry.Store.Insert` takes the generated id as a parameter and requires that no stored product already has it.
- A body property other than `id` and the five product fields is not modelled. The spread copies such properties into the record too.
- Numbers are opaque, kept as the text JavaScript prints for them. The model does no arithmetic on `price`. A truthy number is any number whose text is not "0" or "NaN".
- Query parameters are modelled as strings for `category` and `search` and as integers for `page` and `limit`. Non-numeric, fractional or out-of-double-range `page`/`limit` text is not modelled. For non-numeric text the code computes `slice(NaN, NaN)` and returns an empty page instead of using the defaults. Also not modelled are array-valued parameters from repeated keys or object-valued parameters such as `?search[a]=b`. An object-valued search makes `search.toLowerCase()` throw, so the request gets a 500 once a product reaches the search step.
- `toLowerCase` is modelled on ASCII letters only. Full Unicode case mapping is not modelled.
- The response's JSON key order for the stats object is not modelled. JavaScript puts integer-like keys first.
- Responses are values. The handlers return references to the stored objects, and that aliasing is not modelled.
- Concurrency is not modelled. Each handler runs to completion within one event-loop turn, so the store is updated serially.
