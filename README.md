# Canna-Kool admin API: reconciliation and listing core

A Dafny model of the logic inside `app.js` of the Canna-Kool admin backend,
a service that lists the payment processor's payments not yet recorded in a
handled-purchase ledger, and pages through the lab-results bucket of an
object store. The model covers four pieces:

- `AddressNormalizer` (`address.dfy`): `getShippingAddressOrNone`. Address
  fields are optional strings. A field counts when it is present and not empty
  (JavaScript truthiness). The region falls back to `"CA"`. The fields that
  count are joined with one space.
- `Reconciliation` (`reconciliation.dfy`): the `forEach` loop of
  `/api/purchases`. It is a method over two plain sequences, the payments and
  the handled ids, proved equal to the filter/map function `Unhandled`. The
  model proves what `Unhandled` keeps, drops and preserves.
- `HandledLedger` (`ledger.dfy`): `addHandledPurchase` and
  `getHandledPurchases`. The Mongo collection is an in-memory class holding a
  sequence of `{purchaseId}` documents. The model proves that wrapping ids and
  reading them back is a round trip.
- `LabResults` (`lab_results.dfy`): the `while (truncated)` loop of `run()`.
  The object store is a script of responses: the n-th request sent gets the
  n-th response. A response is a failure, or a listing whose `Contents` may be
  absent. The loop's observable behaviour is the keys it logs, the marker each
  request carries, and the final `bucketParams.Marker`.
- `Options` (`options.dfy`): the `Option` datatype used for absent values.

Three behaviours of the code are worth stating outright:
- The normalised address is never empty. The `|| "CA"` default at app.js:98
  always survives the filter at app.js:100.
- `run()` (app.js:137-163) only logs the keys it lists and returns nothing.
  No handler calls it. The logged keys are the model's output for the loop.
- `/api/purchases` (app.js:103-126) does not catch a failing payment or
  ledger fetch, so it has no error reply of its own.

## Model

| member | source | states |
|---|---|---|
| `AddressNormalizer.Region` | app.js:98 | the region is never empty, and a truthy `administrativeDistrictLevel1` is used as given |
| `AddressNormalizer.KeepTruthy` | app.js:100 | `filter(Boolean)` keeps no empty string and never lengthens the array |
| `AddressNormalizer.KeepTruthyAppend` | app.js:100 | filtering a concatenation is the concatenation of the filtered parts, so order is kept |
| `AddressNormalizer.KeepTruthySingle` | app.js:100 | a single value is kept exactly when it is present and non-empty |
| `AddressNormalizer.FilteredFields` | app.js:100 | filtering the five-element array gives the truthy elements in array order |
| `AddressNormalizer.Join` | app.js:100 | the joined string starts with the first part, and its length is the parts' total length plus one separator between each pair of neighbours |
| `AddressNormalizer.Normalize` | app.js:94-101 | `getShippingAddressOrNone` never returns the empty string |
| `AddressNormalizer.NormalizeJoinsFields` | app.js:94-101 | the address is the join, with one space, of the present fields in the order line1, line2, city, region, zip; every one of them is non-empty and there is at least one |
| `AddressNormalizer.NormalizeSplitsIntoFields` | app.js:95-100 | when no field contains a space, splitting the address on spaces gives back exactly the present fields in fixed order: no empty gaps and one separator between neighbours |
| `AddressNormalizer.RegionFallsBack` | app.js:98 | an absent or empty region appears as "CA" right after the city |
| `AddressNormalizer.SplitJoin` | app.js:100 | `join` with a one-character separator is undone by `split` when no part contains the separator |
| `Reconciliation.Pending` | app.js:114 | a payment is kept when its id is not in the handled list and it has a shipping address |
| `Reconciliation.ToPurchase` | app.js:115-120 | the pushed record has the payment's id, `date = createdAt`, a price that is exactly the cents divided by 100, and a non-empty address |
| `Reconciliation.Unhandled` | app.js:113-122 | the filter/map never lists more records than there are payments |
| `Reconciliation.Price` | app.js:118 | the price times 100 is exactly the amount in cents |
| `Reconciliation.ListPurchases` | app.js:111-124 | the loop's `finalResult` is the filter/map `Unhandled` of the payments, and `X-Total-Count` is its length |
| `Reconciliation.UnhandledAppend` | app.js:113-122 | the output for a concatenation of payments is the concatenation of the outputs, so source order is kept |
| `Reconciliation.UnhandledSingle` | app.js:114-121 | one payment is listed, as `{id, date, Price, Address}`, exactly when its id is not handled and it has an address |
| `Reconciliation.UnhandledSound` | app.js:113-121 | every output record is the mapping of some pending payment, and no output id is in the handled list |
| `Reconciliation.UnhandledComplete` | app.js:113-121 | every pending payment's mapped record is in the output |
| `Reconciliation.NoAddressNeverListed` | app.js:114 | a payment without a shipping address can be removed from anywhere in the input without changing the output, whether or not it was handled |
| `Reconciliation.OnlyMembershipMatters` | app.js:112-114 | two handled lists with the same members give the same output |
| `Reconciliation.DuplicateHandledIgnored` | app.js:114 | adding a duplicate entry to the handled list does not change the output |
| `Reconciliation.WorkedAddress` | app.js:94-101 | "1 Main St" with postal code "90001" and no region normalises to "1 Main St CA 90001" |
| `Reconciliation.WorkedExample` | app.js:113-124 | with an empty ledger, 1000 cents at "1 Main St" / "90001" lists as 10.0 at "1 Main St CA 90001", and a payment without an address is dropped |
| `HandledLedger.Wrap` | app.js:30-33 | the batch has one document per id |
| `HandledLedger.Unwrap` | app.js:47-50 | the read-back has one id per document |
| `HandledLedger.UnwrapWrap` | app.js:30-50 | reading back the documents built from a batch of ids gives that batch |
| `HandledLedger.WrapUnwrap` | app.js:30-50 | wrapping the ids read from documents rebuilds those documents |
| `HandledLedger.UnwrapAppend` | app.js:47-50 | unwrapping two runs of documents together gives the ids of the first run, then those of the second |
| `HandledLedger.WrapPointwise` | app.js:30-33 | one document per id, at the same position, with `purchaseId` equal to the id |
| `HandledLedger.HandledPurchaseCollection.InsertMany` | app.js:34 | the inserted documents are appended after the existing ones |
| `HandledLedger.HandledPurchaseCollection.Find` | app.js:46 | the cursor yields every stored document, in the order the in-memory store keeps them (insertion order) |
| `HandledLedger.AddHandledPurchase` | app.js:22-37 | the collection gains the batch's documents at its end, so its ids become the old ids followed by the batch |
| `HandledLedger.GetHandledPurchases` | app.js:38-53 | the result holds the `purchaseId` of every document in collection order, one per document |
| `HandledLedger.AddThenGet` | app.js:22-53 | inserting a batch into an empty in-memory collection and reading it back returns the batch, in insertion order |
| `LabResults.BucketParams.constructor` | app.js:132 | the parameters start with the bucket name and no `Marker` |
| `LabResults.RunSpec` | app.js:143-162 | the loop only appends to the log and to the requests sent, and a loop entered with `truncated` set sends at least one request |
| `LabResults.Step` | app.js:144-161 | one pass sends the current marker, logs the page's keys, and continues exactly when the page is truncated and its last key is readable; then the marker becomes that key, otherwise it is unchanged |
| `LabResults.FirstStop` | app.js:143-161 | the index of the first response that ends the loop: every earlier response continues it |
| `LabResults.RunStopsAtFirstStop` | app.js:143-162 | the loop ends right after the first stopping response, having logged the keys of every page up to it and sent one request per page |
| `LabResults.RunRequestsFollowMarkers` | app.js:145-155 | the first request carries the initial marker, and each later request carries the last key of the page before it |
| `LabResults.NextMarkersAt` | app.js:152-155 | after a continuing page, the next request's marker is that page's last key |
| `LabResults.RunFinalMarker` | app.js:150-160 | at the end, `Marker` and `pageMarker` hold the last key of the last continuing page, or their initial value when no page continued |
| `LabResults.Run` | app.js:137-163 | the loop logs the keys of the pages up to the first stopping response, sends no marker first and then each continuing page's last key, and leaves `Marker` at the last such key |
| `LabResults.ThreePages` | app.js:143-162 | three pages, the last not truncated, log all keys in page order |
| `LabResults.SecondPageFails` | app.js:158-160 | a failure on the second request leaves exactly the first page's keys and ends the loop |
| `LabResults.EmptyTruncatedPageStops` | app.js:150-160 | a truncated page with no object ends the loop through the catch, and the marker stays unchanged |

## Left out

- Express setup, CORS, helmet, `app.listen` and dotenv loading (app.js:11-15, 55-63, 189-193): process wiring with no logic.
- The OAuth flow, the `qbToken` and `oauthClient` globals, and `/api/createitem` (app.js:17-18, 65-92, 167-187): thin calls into the accounting vendor's SDK.
- Mongo connect and close, Square `listPayments`, and `s3.send` are not modelled as calls. Their results are the model's inputs: the payments sequence, the collection object and the response script.
- Reconciliation.ListPurchases: takes the payments and handled ids as plain sequences. A rejected `listPayments` or `getHandledPurchases` is not caught by the handler, and that path is not modelled.
- Reconciliation.ListPurchases: assumes `result.payments` is present. A reply without a `payments` field would throw in the source; that case is not modelled.
- Reconciliation.Price: `Number(amount) / 100` is modelled as exact decimal division, not as an IEEE double.
- LabResults.Run: requires the script to contain a response that ends the loop. The source trusts the truncation flag, so an endlessly truncating store makes it loop forever. The model does not capture that non-terminating run.
- LabResults.Run: the request's marker does not influence the scripted response; the model records which marker each request carried instead.
- The reply of `/api/labresults` (app.js:164) reads a `response` that is not in scope there, and `run()` is never called. Only the loop of `run()` is modelled.
- Console logging is modelled only as the sequence of logged keys. The error log in the catch is not modelled.
- Concurrent requests racing on the ledger are not modelled. Each method works on one collection object in isolation.
- HandledLedger.HandledPurchaseCollection.Find: the in-memory store returns documents in insertion order. MongoDB's unsorted `find` returns natural order, which it does not guarantee. So the in-order round trip of `AddThenGet` and `AddHandledPurchase` holds for this store only. The reconciliation uses only membership in the handled list (`Reconciliation.OnlyMembershipMatters`), so it does not depend on that order.
- HandledLedger.HandledPurchaseCollection.InsertMany: accepts an empty batch; the driver's own checks on `insertMany` are not modelled.
