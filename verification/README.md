# Beeceptor demo panel: a verified model

The demo panel (`src/App.jsx`) fetches one mock order from a configured endpoint, shows it,
and offers two demo actions that transform the fetched record in memory: "Populate Fields"
builds a `{custom_order_id, custom_item_codes}` object and "Add Internal Note" builds a
one-line note with `formatInternalNote`. This project models that component in Dafny.

- `wrappers.dfy` (`Wrappers`): `Option`, for `null` slots and for the normaliser's thrown error.
- `text.dfy` (`Text`): joining with a separator, splitting on a character, and JavaScript's
  decimal text for integers, each with its inverse and a round-trip lemma.
- `js_values.dfy` (`JsValues`): the values a parsed JSON body can hold (numbers restricted to
  integers) plus `undefined`, property access with and without `?.`, `String(v)` and
  `Array.prototype.join`. Note that `join` writes a `null` or `undefined` element as empty text,
  while `String` writes `"null"` and `"undefined"`. `Converts` says when `String` returns
  rather than throws. A parsed object with its own `toString` key has no callable
  `toString`. The conversion then falls back to `valueOf`, which returns the object itself,
  so a TypeError is thrown. An array throws when one of its elements does.
- `orders.dfy` (`Orders`): the normalised `Order`, the `safe` normaliser, `formatInternalNote`,
  the mapped fields and the panel's display rules. A thrown conversion is `None`.
- `panel.dfy` (`Panel`): the component as a class `App` with its five slots (`data`, `state`,
  `mappedFields`, `note`, `errorMsg`) and the handlers `fetchData`, `populateTicketFields`
  and `addInternalNote`. The endpoint is a constructor argument. An empty endpoint means
  "not configured", as `!ENDPOINT` does. The network call is an `Outcome` argument: either a
  transport failure, or a status code with the body parsed as JSON (`None` when the body is
  not JSON). `res.ok` is the predicate `IsOkStatus`: a status from 200 to 299, as the Fetch
  standard defines it. `fetchData` awaits twice: once for the response and once for its parsed body.
  No slot is written between the two awaits, so they are merged. `BeginFetch` is the part
  before the first `await`, and `SettleFetch` is everything after it. `FetchData` runs the
  two back to back. The invariant `Valid()` holds after every handler, in any order, including a
  `SettleFetch` that arrives while the panel is not loading. It says:
  - `data` is the last record stored.
  - The mapped fields and the note, once present, were built from a record stored earlier.
  - `error` always carries one of the two fixed messages.
  - Nothing has been set while the panel is `idle`.

Details of the code the model keeps:
- The note tests only `Array.isArray` on `items`, so an empty item list gives empty items text,
  not `none` (`NoteKeepsEmptyValues`).
- A body that parses to JSON `null` makes `json.orderId` throw. So does a field or item that
  `String` cannot convert. Such a request fails with the retry message (`Resolve`, `Normalize`).
- `mappedFields` starts as `null`.

Every transform is a Dafny function, so it is deterministic and calling it twice gives the
same result.

## Model

| member | source | states |
|---|---|---|
| `JsValues.Member` | src/App.jsx:31-33 | `json.key` is the object's own value for `key` when it has one, and `undefined` otherwise |
| `JsValues.OptMember` | src/App.jsx:6-7 | `order?.key` is `undefined` whenever `order` is null or undefined, and `order.key` (`Member`) for any other `order` |
| `JsValues.ToStr` | src/App.jsx:31-33 | `String` returns a string unchanged. An integer gives its canonical numeral (optional minus sign, no leading zero, never `-0`), which reads back as that integer. An array gives its `,`-join. An object without its own `toString` key gives `[object Object]`; with one, `String` throws, which `Converts` states and every caller checks first |
| `JsValues.ArrayJoin` | src/App.jsx:7 | `join` of no element is empty. Of one element it is that element's text. Otherwise it begins with the first element's text and the separator |
| `JsValues.ArrayJoinStep` | src/App.jsx:7 | `join` of two or more elements is the first element's text, the separator, then the `join` of the rest, so every element appears in order |
| `JsValues.JoinSkipsLeadingNullish` | src/App.jsx:7 | for every array of two or more elements, a leading null or undefined element contributes only its separator |
| `JsValues.ArrayJoinOfStrings` | src/App.jsx:53 | on an array of strings, `join` is the plain join of those strings |
| `JsValues.JoinSkipsNullish` | src/App.jsx:7 | `join` writes null and undefined elements as empty text, unlike mapping `String` first |
| `Text.SplitJoin` | src/App.jsx:53 | splitting a `,`-join on `,` gives the parts back when there is at least one part and no part holds a comma |
| `Text.JoinSplit` | src/App.jsx:53 | joining the pieces of a split with the same character gives the string back, for every string |
| `Text.JoinHoldsSeparator` | src/App.jsx:87 | a join of two or more parts holds the separator right after the first part |
| `Text.NatToDecimalCanonical` | src/App.jsx:31 | the decimal text of a natural number is a non-empty digit run, has no leading zero and reads back as the number |
| `Text.IntToDecimalRoundTrip` | src/App.jsx:31 | parsing the text `String` gives an integer returns the integer, so distinct ids give distinct text |
| `Text.IntToDecimalCanonical` | src/App.jsx:31 | the text printed for any integer has an optional minus sign and digits without leading zero, and zero prints as `0`, never `-0` |
| `Orders.Normalize` | src/App.jsx:29-34 | there is no record exactly when the body is null, or when `orderId`, `customer` or an array of `items` does not convert. Otherwise `orderId` and `customer` are `""` when missing or nullish and their `String` otherwise. `items` is `[]` unless an array; otherwise it has the same length and order, with each element converted by `String` |
| `Orders.OrderToJs` | src/App.jsx:30-35 | the stored record is an object whose `orderId` and `items` are the record's strings |
| `Orders.NormalizeRoundTrip` | src/App.jsx:30-34 | a record that is already normal passes through the normaliser unchanged |
| `Orders.NormalizeIdempotent` | src/App.jsx:30-34 | normalising the normalised record changes nothing |
| `Orders.NormalizeSamplePayload` | src/App.test.jsx:11-14 | the sample payload `{orderId: 43, customer: "Alex Smith", items: [4, 9, 17]}` becomes `("43", "Alex Smith", ["4","9","17"])` |
| `Orders.NoteIdText` | src/App.jsx:6 | the id text is `N/A` exactly when `order?.orderId` is null or undefined. Any other id, `0` and `""` included, is `String(id)`. It throws when the id does not convert |
| `Orders.NoteItemsText` | src/App.jsx:7 | the items text is `none` when `order?.items` is not an array. Otherwise it is the array's `,`-join, which throws when an element does not convert |
| `Orders.FormatInternalNote` | src/App.jsx:5-9 | the note is `Customer requested help with order <id>, items <items>.` with the id text and items text above. It throws exactly when one of them throws |
| `Orders.NoteForMissingOrder` | src/App.jsx:5-9 | a null or undefined order gives `... order N/A, items none.` |
| `Orders.NoteKeepsZeroId` | src/App.jsx:6 | the id `0` is kept: `... order 0, items none.` |
| `Orders.NoteKeepsEmptyValues` | src/App.jsx:6-7 | the id `""` is kept, and an empty items array gives empty text, not `none` |
| `Orders.NoteNullIdStringItems` | src/App.jsx:6-7 | a null id gives `N/A`, and a string for items gives `none` |
| `Orders.NoteForSampleInput` | src/App.test.jsx:22-26 | `{orderId: 43, items: [4, 9, 17]}` gives `Customer requested help with order 43, items 4,9,17.` |
| `Orders.OwnToStringThrows` | src/App.jsx:6-8 | an object with its own `toString` key, as the id or among the items, makes both the normaliser and the note throw |
| `Orders.MapFields` | src/App.jsx:51-54 | `custom_order_id` is the record's id, and `custom_item_codes` is the `,`-join of its items, the same text the note uses |
| `Orders.MappedFieldsRecoverOrder` | src/App.jsx:51-54 | the mapped fields keep the order id. For a non-empty item list with no commas, the item codes split back into the items |
| `Orders.NoteOfStoredOrder` | src/App.jsx:49-60 | the note for a stored record never throws. It is the template filled with exactly the two mapped fields: its id text is the record's id and its items text is the item codes, with neither placeholder substituted |
| `Orders.FieldText` | src/App.jsx:85-86 | a displayed field is never empty. A non-empty value is shown as is, and an empty one as `—` |
| `Orders.ItemsText` | src/App.jsx:87 | a non-empty list is shown as its `", "`-join. The text is `none` exactly for the empty list and for the list `["none"]` |
| `Orders.ItemsTextForSample` | src/App.test.jsx:45 | the sample items are shown as `4, 9, 17` |
| `Panel.Resolve` | src/App.jsx:26-40 | a request yields a record exactly when it got a response with status 200 to 299 and a JSON body the normaliser accepts. The record is then the normalised body |
| `Panel.App.constructor` | src/App.jsx:12-16 | the initial slots are: no record, `idle`, no mapped fields, empty note, empty message |
| `Panel.App.BeginFetch` | src/App.jsx:18-25 | without an endpoint: `error` with the configuration message and no request. With one: `loading` with the message cleared. Record, mapped fields and note are unchanged either way |
| `Panel.App.SettleFetch` | src/App.jsx:26-40 | on success the record is replaced and the state is `ok`. On any failure the state is `error` with the retry message and the previous record is kept. The mapped fields and note never change |
| `Panel.App.FetchData` | src/App.jsx:18-41 | the number of requests issued is 0 without an endpoint and 1 with one. The resulting state is `ok` with an empty message, or `error` with the right fixed message. A failure keeps the previous record, mapped fields and note |
| `Panel.App.PopulateTicketFields` | src/App.jsx:49-55 | does nothing without a record. Otherwise it sets the mapped fields from the record. Record, state, note and message are unchanged |
| `Panel.App.AddInternalNote` | src/App.jsx:57-60 | does nothing without a record. Otherwise it sets the note to `formatInternalNote` of the record. Record, state, mapped fields and message are unchanged |
| `Panel.SampleNote` | src/App.jsx:49-60 | for the sample record the mapped fields are `("43", "4,9,17")` and the note is `... order 43, items 4,9,17.` |
| `Panel.SampleSession` | src/App.test.jsx:29-63 | with an endpoint and a 200 answer carrying the sample payload, the panel is `ok` and shows `4, 9, 17`, and the demo actions give the expected fields and note. A later 500 answer gives `error` with the retry message and keeps the order and the note. Two requests are issued |
| `Panel.UnconfiguredSession` | src/App.jsx:19-23 | without an endpoint, whatever the network would answer: no request, `error` with the configuration message, no record. The demo actions then leave note and fields empty |

## Left out

- The request itself (`fetch`, the `Accept` header, awaiting the body) is not modelled. What it
  ended with is an `Outcome` argument. The error text `HTTP <status>` is never shown, so it is
  not modelled either.
- The automatic fetch on mount (`useEffect`) and React's scheduling of overlapping fetches are
  not modelled. `SettleFetch` may be applied in any state and keeps the invariant, but no
  interleaving of several fetches is stated as a property.
- The endpoint is not read from the environment. It is a constructor argument. The test
  harness's `window.__APP_ENDPOINT__` and `src/main.jsx` are not part of this model.
- Rendering is not modelled, except the order panel's text rules (lines 85-87). The status
  badge's upper-casing, the loading and alert regions and the `JSON.stringify` preview are left out.
- JsValues.ToStr: numbers are integers only. Fractions, `-0`, and integers that JavaScript
  prints in exponent form (magnitude 10^21 and above) or cannot hold exactly (beyond 2^53)
  are not modelled.
- JsValues.Member: only a parsed object's own properties are seen. Inherited properties and a
  `__proto__` key in the body are not modelled.
