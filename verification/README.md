# Gym back-office core, modelled in Dafny

This project models the back-office API of a gym in Dafny. The API is an Express and Mongoose service. The model covers only the parts that compute something:

- **Member-identifier allocation of the gym-bill routes.** `generateSequentialId` and the `/last-member-id` preview.
- **The gym-bill document.** Its create, update and renew routes, seen as record transformations. This includes the status sanitising.
- **The `clientId` hook of the client document.** "H" followed by 4000 plus a counter.
- **The invoice-number hook of the subscription document.** `INV-<clientId>-<NN>`.
- **The subscription routes.** The trainer snapshot, the payments report (a window plus two totals) and the month-by-month report.
- **The bulk create and list of memberships.**
- **The package routes.** Create, update and delete.

Every collection is a sequence of documents in insertion order. Every operation is a pure function from the collection and the request to the answer and the new collection. These become parameters:

- the new document's `_id`;
- the current time and year;
- the local-time month of an instant.

JavaScript's own behaviour is modelled where the routes depend on it:

- `parseInt(s, 10)` reads leading digits after white space and an optional sign, and gives NaN when there are none;
- `parseInt(s)` without a radix does the same, except that a "0x" or "0X" after the sign switches to hexadecimal;
- `padStart` never truncates;
- `Math.max` gives NaN as soon as one argument is NaN;
- `String(NaN)` is `"NaN"`;
- a falsy value is `null`, `false`, `0` or `""`, and a string that may be missing is truthy when it is present and not empty;
- `{ ...v }` copies an object's own properties.

Modules:

| file | module | what it holds |
|---|---|---|
| wrappers.dfy | `Wrappers` | `Option`, `Result` |
| collections.dfy | `Collections` | a stored document and its `_id`, lookup by `_id`, the order-keeping filter |
| text.dfy | `Text` | digits, `toString`, `padStart`, `trim`, `parseInt` with and without a radix |
| json.dfy | `JsonValues` | JSON values, truthiness, object spread |
| dates.dfy | `Dates` | the first millisecond of a UTC year |
| member_ids.dfy | `MemberIds` | `generateSequentialId`, the `/last-member-id` preview |
| gym_bill.dfy | `GymBill` | the bill schema, its defaults, the `$set` overlay |
| gym_bill_routes.dfy | `GymBillRoutes` | create, update, renew |
| client_model.dfy | `ClientModel` | the client schema and its `clientId` hook |
| subscription_model.dfy | `SubscriptionModel` | the subscription schema and its invoice hook |
| subscription_routes.dfy | `SubscriptionRoutes` | create, update, payments, monthly report |
| membership_routes.dfy | `MembershipRoutes` | bulk create, list |
| package_routes.dfy | `PackageRoutes` | create, update, delete |

### Behaviour of the code worth knowing

- **memberId is not unique.** The schema declares memberId as a plain `String`, with no unique index (models/GymBill.js:5). The update route writes a memberId from the body unchecked; `GymBillRoutes.UpdateCanDuplicateMemberId` shows two bills ending up with the same one.
- **No billing arithmetic.** The gym-bill routes store what the body carries. They compute no discount or tax, record no payment deltas and take no renewal snapshots. Renew overwrites four paths and the status, and keeps every history as it is.
- **Preview prefix.** The create route allocates under "MEM". The preview route reads "H40", so the preview never describes the identifier create will hand out.
- **Routes not mounted.** server.js mounts neither routes/gymBillRoutes.js nor routes/packageRoutes.js, so their routes are not reachable through it. routes/gymBillRoutes.js is also written as a CommonJS module that `require`s models/GymBill.js, which is an ES module. The model describes the route handlers as written.

## Model

| member | source | states |
|---|---|---|
| `Collections.FindById` | routes/packageRoutes.js:31-41 | `findByIdAnd…` finds the first document with the `_id`, or reports that no document has it |
| `Collections.Filter` | routes/subscriptionRoutes.js:105-109 | a query with a condition returns only documents that meet it, never more than were stored |
| `Collections.FilterAppend` | routes/subscriptionRoutes.js:105-109 | the query keeps store order: filtering a concatenation concatenates the filtered parts |
| `Collections.FilterCounts` | routes/subscriptionRoutes.js:105-109 | each document meeting the condition is returned as often as it is stored, and no other document is returned |
| `Collections.FilterMembers` | routes/subscriptionRoutes.js:105-109 | a document is returned exactly when it is stored and meets the condition |
| `Collections.Reverse` | routes/membershipRoutes.js:37 | sorting by creation time, newest first, puts the last stored document at position 0 and so on |
| `Collections.ReverseMultiset` | routes/membershipRoutes.js:37 | the descending sort returns every document as often as it was stored |
| `Text.PadStart` | routes/gymBillRoutes.js:34 | the result is `max(len, width)` long: fill characters, then the whole input; padding never truncates |
| `Text.ParseIntOfPadded` | routes/gymBillRoutes.js:28-34 | the zero-padded rendering of a number parses back to that number under `parseInt`, whatever the width |
| `Text.ParseIntNoRadixOfDigits` | routes/subscriptionRoutes.js:128 | without a radix, a string of decimal digits still parses to its decimal value |
| `Text.HexYear` | routes/subscriptionRoutes.js:128 | without a radix "0x7E8" parses to 2024; with radix 10 it parses to 0 |
| `MemberIds.QueryByPrefix` | routes/gymBillRoutes.js:22-24 | the `^prefix` query selects exactly the stored ids that start with the prefix |
| `MemberIds.Positives` | routes/gymBillRoutes.js:31 | the `n > 0` filter keeps every positive value and nothing else |
| `MemberIds.MathMax` | routes/gymBillRoutes.js:33 | the maximum is one of the values and bounds them all |
| `MemberIds.NextNumber` | routes/gymBillRoutes.js:33-34 | `lastId + 1` exceeds every parsed value and is 1 or one more than some value |
| `MemberIds.NextNumberUnique` | routes/gymBillRoutes.js:33-34 | that characterisation determines the next number |
| `MemberIds.AllocatedNumber` | routes/gymBillRoutes.js:26-34 | the allocated number exceeds the suffix of every stored id and is one past the largest positive one, or 1 |
| `MemberIds.NextSequentialId` | routes/gymBillRoutes.js:21-35 | the identifier starts with the prefix, its suffix parses to the allocated number, and it equals no stored memberId |
| `MemberIds.FirstIdIs001` | routes/gymBillRoutes.js:33-34 | with no positive suffix, an empty collection included, the identifier is prefix + "001" |
| `MemberIds.LargeNumbersUnpadded` | routes/gymBillRoutes.js:34 | from 100 on, the number appears in full, unpadded |
| `MemberIds.IgnoredSuffixDoesNotMatter` | routes/gymBillRoutes.js:27-31 | an id whose suffix is malformed, 0 or negative changes nothing in the allocation |
| `MemberIds.AllocationAdvances` | routes/gymBillRoutes.js:26-34 | storing the allocated id and allocating again yields the next number |
| `MemberIds.JsMathMax` | routes/gymBillRoutes.js:98 | `Math.max` is NaN exactly when one argument is NaN, and is otherwise the largest argument |
| `MemberIds.PreviewPoisonedByMalformedSuffix` | routes/gymBillRoutes.js:96-103 | one selected id whose suffix does not parse makes the preview "H40NaN", whatever the others are |
| `MemberIds.PreviewMalformedExample` | routes/gymBillRoutes.js:96-103 | the preview of the memberIds "H40001" and "H40abc" is "H40NaN" |
| `MemberIds.PreviewAgreesWhenWellFormed` | routes/gymBillRoutes.js:88-110 | when every selected suffix parses to a positive number, the preview equals the allocator run on "H40" |
| `MemberIds.PreviewNextMemberId` | routes/gymBillRoutes.js:101-103 | the intended preview starts with "H40", carries a positive number and collides with no stored id |
| `GymBill.ParseStatus` | models/GymBill.js:49-52 | a string is accepted as a status exactly when it is "Active" or "Inactive", and reads back as itself |
| `GymBill.StatusRoundTrip` | models/GymBill.js:49-52 | every status survives being written out and validated again |
| `GymBill.NewBill` | models/GymBill.js:32-53 | a new document is "Active" with discount 0 and empty histories |
| `GymBill.StampDates` | models/GymBill.js:60-96 | history entries keep their order and content; every entry ends up dated, with the given date or the insertion time |
| `GymBill.Overlay` | routes/gymBillRoutes.js:155-157 | each given path replaces the stored one and each absent one is kept; a given history replaces the stored one whole, with its undated entries dated now; a fully dated document stays fully dated |
| `GymBillRoutes.CreateStatus` | routes/gymBillRoutes.js:48-51 | create stores "Inactive" exactly when the trimmed input is "Inactive"; a trimmed input naming a status is kept |
| `GymBillRoutes.UpdateStatus` | routes/gymBillRoutes.js:150-153 | update stores "Inactive" exactly when the untrimmed input is "Inactive"; a padded " Inactive" becomes "Active" |
| `GymBillRoutes.SanitisingIsIdempotent` | routes/gymBillRoutes.js:48-153 | sanitising an already sanitised status changes nothing, in both routes |
| `GymBillRoutes.CreateBill` | routes/gymBillRoutes.js:40-71 | 400 and no change exactly for an empty body; otherwise one document appended, holding the generated "MEM" id whatever the body says |
| `GymBillRoutes.NewDocument` | routes/gymBillRoutes.js:53-58 | the new document holds the given memberId and the sanitised status; its strings and numbers are the body's over the schema defaults (a discount of 0 unless given); absent histories are empty, given ones are stored in order with undated entries dated now, so every entry is dated |
| `GymBillRoutes.CreatedDocument` | routes/gymBillRoutes.js:53-58 | the created document holds the generated id, the sanitised status, the body's paths over the defaults, and the body's histories (empty when absent) with undated entries dated now |
| `GymBillRoutes.CreateKeepsMemberIdsDistinct` | routes/gymBillRoutes.js:45-58 | create never introduces a second bill with an existing memberId |
| `GymBillRoutes.CreateKeepsIdsDistinct` | routes/gymBillRoutes.js:53-60 | create keeps the `_id`s distinct |
| `GymBillRoutes.UpdateBill` | routes/gymBillRoutes.js:143-164 | an unknown id answers null and changes nothing; otherwise only the first document with that id is replaced, with the sanitised status |
| `GymBillRoutes.UpdatedDocument` | routes/gymBillRoutes.js:145-157 | update writes the body's memberId, strings and numbers where given and keeps the rest; the stored document afterwards has exactly the stored paths plus the body's; a given history replaces the stored one, with undated entries dated now |
| `GymBillRoutes.UpdateWithoutStatusActivates` | routes/gymBillRoutes.js:151-153 | an update without a status reactivates the member |
| `GymBillRoutes.UpdateCanDuplicateMemberId` | models/GymBill.js:5 | nothing stops an update from giving a bill another bill's memberId |
| `GymBillRoutes.RenewBill` | routes/gymBillRoutes.js:116-138 | an unknown id answers null and changes nothing; otherwise the first document with that id is replaced by its renewed form (status "Active", given fields written, absent ones kept) and nothing else changes |
| `GymBillRoutes.Renewed` | routes/gymBillRoutes.js:118-131 | the renewed bill has status "Active", the body's joiningDate, endDate, package and amountPaid where given, keeps the stored value (or absence) of each one not given, and changes no other path |
| `GymBillRoutes.RenewedDocument` | routes/gymBillRoutes.js:118-131 | renew sets the status to "Active" and writes joiningDate, endDate, package and amountPaid where given, keeping each stored one the body leaves out; it changes no other path, the memberId, balance, price and all three histories included |
| `ClientModel.NewClient` | models/Client.js:19 | `isActive` is true unless the body says false |
| `ClientModel.ClientIdFor` | models/Client.js:32-33 | the identifier is "H" followed by the decimal digits of 4000 + counter |
| `ClientModel.SaveNew` | models/Client.js:25-36 | validation failure is reported first and leaves the counter alone; once validation passes the counter goes up by 1 whether or not the insert succeeds; a saved client gets the id of the incremented counter and is appended; the insert fails exactly when that id is taken, and then stores nothing |
| `ClientModel.RetryAfterDuplicate` | models/Client.js:27-33 | after a save refused as a duplicate, saving the same client again asks for the id of the counter plus 2 |
| `ClientModel.SaveExisting` | models/Client.js:26 | re-saving a stored client leaves the counter alone and writes the document with the clientId it has |
| `ClientModel.ClientIdInjective` | models/Client.js:33 | distinct counter values give distinct clientIds |
| `ClientModel.FirstClientId` | models/Client.js:27-33 | the first client, with no counter document yet, is "H4001" |
| `ClientModel.NextIdIsFree` | models/Client.js:6 | when every stored id came from a counter value already handed out, the next id is free and a valid client is always saved |
| `ClientModel.SaveNewKeepsNumbered` | models/Client.js:25-36 | any save of a new client, failed or not, keeps every stored id tied to a handed-out counter value |
| `ClientModel.ResaveKeepsClientId` | models/Client.js:26 | a later save never changes the clientId or the counter |
| `ClientModel.BodyClientIdIgnored` | models/Client.js:32-33 | a clientId in the body is replaced by the generated one |
| `SubscriptionModel.WithDefaults` | models/Subscription.js:24 | `amountPaid` is 0 unless given, and nothing else changes |
| `SubscriptionModel.Pad2Spec` | models/Subscription.js:37 | the padded count is the count's decimal text padded to two characters with "0", all digits, and parses back to the count |
| `SubscriptionModel.PreSave` | models/Subscription.js:31-40 | a non-new document passes unchanged; a missing client fails with "Client not found"; otherwise the id is numbered one past the client's count |
| `SubscriptionModel.SaveNew` | models/Subscription.js:5-40 | validation, then the hook, then the unique index: the save fails exactly when the computed invoice id is already taken |
| `SubscriptionModel.Delete` | routes/subscriptionRoutes.js:76-83 | `findByIdAndDelete` leaves the collection unchanged when no document has the `_id`, and otherwise removes the first document with it, keeping the others in their order |
| `SubscriptionModel.DeleteKeepsOthers` | routes/subscriptionRoutes.js:76-83 | with unique `_id`s, after the delete no document has the `_id`, every other document is kept as often as it was stored, and the `_id`s stay unique |
| `SubscriptionModel.InvoiceIdInjective` | models/Subscription.js:37 | the client text and the number can be read back from an invoice id |
| `SubscriptionModel.InvoiceIdShapes` | models/Subscription.js:37 | the first invoice ends in "-01" and the hundredth in "-100" |
| `SubscriptionModel.NextInvoiceIsFree` | models/Subscription.js:35-37 | while every invoice is numbered within its client's count and clients print distinctly, a valid subscription of a known client is always stored |
| `SubscriptionModel.SaveNewKeepsNumbered` | models/Subscription.js:31-40 | a successful save keeps every invoice numbered within its client's count |
| `SubscriptionModel.DeletionReusesNumber` | models/Subscription.js:35-37 | after a deletion the count reproduces an existing invoice id and the save is refused |
| `Dates.KnownYearStarts` | routes/subscriptionRoutes.js:137 | the window start matches known instants: 1970 at 0, 2000 and 2024 at their epoch milliseconds |
| `Dates.YearLength` | routes/subscriptionRoutes.js:137-138 | a year window spans 365 or 366 days, as the Gregorian leap rule says |
| `Dates.YearWindowsDisjoint` | routes/subscriptionRoutes.js:136-139 | an instant lies in at most one year window |
| `Dates.YearWindowsCover` | routes/subscriptionRoutes.js:136-139 | every instant lies in some year window |
| `SubscriptionRoutes.Snapshot` | routes/subscriptionRoutes.js:10-26 | null exactly when trainerId is missing, empty or unknown; otherwise the `_id`, name, specialization, contactNumber and email of that trainer |
| `SubscriptionRoutes.SnapshotIgnoresExperience` | routes/subscriptionRoutes.js:16-22 | no path beyond the five copied ones reaches the snapshot |
| `SubscriptionRoutes.CreateSubscription` | routes/subscriptionRoutes.js:8-32 | a failed save stores nothing; an invalid body is refused by validation and an unknown client gives "Client not found"; a valid body of a known client is created exactly when the invoice id the hook computes (client number and the client's count plus one) is free, and the created subscription has that id, the body's clientId, package, dates, price and payment mode, the trainer snapshot and a default `amountPaid` of 0 |
| `SubscriptionRoutes.UpdateSubscription` | routes/subscriptionRoutes.js:45-73 | an unknown id answers null and changes nothing; a body whose subscriptionId another subscription holds is refused by the unique index with the duplicate-key message and changes nothing (exactly then); otherwise only the first document with the id changes, and its trainer is always the snapshot |
| `SubscriptionRoutes.UpdateKeepsInvoicesUnique` | models/Subscription.js:7 | an update never leaves two subscriptions with the same invoice id when there were none before |
| `SubscriptionRoutes.UpdateRefusesTakenInvoice` | routes/subscriptionRoutes.js:63-72 | giving "INV-H4001-02"'s subscription the id "INV-H4001-01" held by another answers 400 and leaves the store as it was |
| `SubscriptionRoutes.UpdatedSubscription` | routes/subscriptionRoutes.js:63-66 | when the body's invoice id is not held by another subscription, update writes each given path (invoice id, client, package type and name, dates, price, amount paid, payment mode), keeps the others, and clears the trainer when trainerId is absent |
| `SubscriptionRoutes.SelectOverlapping` | routes/subscriptionRoutes.js:105-109 | a subscription is selected exactly when its period meets the window, as often as it is stored |
| `SubscriptionRoutes.SelectOverlappingInOrder` | routes/subscriptionRoutes.js:105-109 | the selection keeps store order and keeps a single subscription exactly when it meets the window |
| `SubscriptionRoutes.PaidPlusPending` | routes/subscriptionRoutes.js:111-115 | total paid plus total pending is the sum of the prices, missing values counting 0 |
| `SubscriptionRoutes.Payments` | routes/subscriptionRoutes.js:99-122 | the report holds exactly the subscriptions meeting the window (default 0 to now), each as often as it is stored, and their two totals |
| `SubscriptionRoutes.PaymentsTotalsAddUp` | routes/subscriptionRoutes.js:111-117 | the report's totals add up to the prices of the reported subscriptions |
| `SubscriptionRoutes.ReportYear` | routes/subscriptionRoutes.js:128 | the year is the query parsed without a radix when that is a number other than 0, else the current year |
| `SubscriptionRoutes.ReportYearReadsDigitsAndHex` | routes/subscriptionRoutes.js:128 | a year in decimal digits is that year; "0x7E8" asks for 2024 |
| `SubscriptionRoutes.InitialRows` | routes/subscriptionRoutes.js:131-132 | twelve rows, Jan to Dec, all at 0 |
| `SubscriptionRoutes.StartingIn` | routes/subscriptionRoutes.js:135-140 | exactly the subscriptions starting inside the year's UTC window are counted, each as often as it is stored |
| `SubscriptionRoutes.StartingInInOrder` | routes/subscriptionRoutes.js:135-140 | the year's selection keeps store order and keeps a single subscription exactly when it starts in the year |
| `SubscriptionRoutes.Monthly` | routes/subscriptionRoutes.js:126-153 | the report always has twelve rows named Jan to Dec in order |
| `SubscriptionRoutes.RowIsMonthTotal` | routes/subscriptionRoutes.js:143-151 | each row holds the paid and pending totals of exactly the subscriptions of its month |
| `SubscriptionRoutes.RowsAddUpToTotals` | routes/subscriptionRoutes.js:143-151 | the rows together add up to the totals of every counted subscription |
| `SubscriptionRoutes.MonthlyTotals` | routes/subscriptionRoutes.js:126-153 | per row and in all, the monthly report equals the totals of the year's subscriptions |
| `JsonValues.Indexed` | routes/membershipRoutes.js:24 | a sequence spread into an object has each index as a key, holding the element at that index, and no other key |
| `JsonValues.Spread` | routes/membershipRoutes.js:24 | an object spreads to its own fields, an array to its elements by index, a string to its one-character strings by index, and `null`, a boolean or a number to nothing |
| `JsonValues.SpreadIndices` | routes/membershipRoutes.js:24 | spreading an array or a string gives exactly its indices as keys, holding the element or the character at each index |
| `MembershipRoutes.Stamp` | routes/membershipRoutes.js:24 | the stamped item holds the request's clientId and otherwise exactly the item's own properties |
| `MembershipRoutes.BulkDocs` | routes/membershipRoutes.js:24 | the mapped array has the input's length and order, item by item |
| `MembershipRoutes.BulkDocsKeepItems` | routes/membershipRoutes.js:24 | each produced document has the request's clientId, the item's keys plus clientId, and the item's values |
| `MembershipRoutes.Project` | models/Membership.js:3-23 | strict mode keeps exactly the schema's paths, with their values |
| `MembershipRoutes.Bulk` | routes/membershipRoutes.js:18-30 | 400 exactly when clientId is falsy or memberships is not an array; one invalid item inserts none; otherwise every item is inserted in order |
| `MembershipRoutes.BulkOverridesItemClient` | routes/membershipRoutes.js:24 | every inserted document belongs to the request's client, whatever clientId the item carried |
| `MembershipRoutes.List` | routes/membershipRoutes.js:33-42 | the list is no longer than the collection and every listed membership matches the filter |
| `MembershipRoutes.ListMembers` | routes/membershipRoutes.js:33-42 | a membership is listed exactly when it is stored and matches the filter |
| `MembershipRoutes.ListWithoutFilter` | routes/membershipRoutes.js:35-37 | without a clientId the list is the whole collection, newest first |
| `MembershipRoutes.ListIsNewestFirstFilter` | routes/membershipRoutes.js:35-37 | the list is the memberships matching the filter in storage order, reversed: newest first |
| `MembershipRoutes.ListCounts` | routes/membershipRoutes.js:35-37 | a matching membership is listed as often as it is stored, any other not at all |
| `PackageRoutes.CreatePackage` | routes/packageRoutes.js:6-18 | 400 exactly when a field is falsy; 500 exactly when the trimmed package fails the schema; otherwise one package of the three fields is appended |
| `PackageRoutes.CreateKeepsSchemaValid` | models/Package.js:5-7 | create never stores a package that breaks the schema |
| `PackageRoutes.OtherKeysDropped` | routes/packageRoutes.js:8-12 | body keys besides the three never change the outcome |
| `PackageRoutes.ZeroPriceRefused` | routes/packageRoutes.js:9 | a price of 0 is admitted by the schema but refused with 400 |
| `PackageRoutes.BlankNameFailsValidation` | models/Package.js:5 | a name of white space passes the falsiness check but fails the schema once trimmed: 500 |
| `PackageRoutes.UpdatePackage` | routes/packageRoutes.js:29-37 | 404 exactly for an unknown id, with no change; otherwise only the first package with that id is replaced |
| `PackageRoutes.UpdatedPackage` | routes/packageRoutes.js:31 | update writes each given field (the name trimmed) and keeps the others |
| `PackageRoutes.UpdateSkipsValidation` | routes/packageRoutes.js:31 | update can store a package that create would refuse |
| `PackageRoutes.DeletePackage` | routes/packageRoutes.js:39-47 | 404 exactly for an unknown id, with no change; otherwise exactly the first package with that id is removed, the rest in order |
| `PackageRoutes.DeleteThenNotFound` | routes/packageRoutes.js:41-42 | with distinct `_id`s, a second delete of the same id answers 404 |

## Left out

- **Multer and the profile picture** (routes/gymBillRoutes.js:10-16, 57, 147). These are file-system I/O.
- **Mongoose and MongoDB mechanics.**
  - Each collection is a sequence and each query a filter over it.
  - Regular-expression queries are modelled as "starts with" for prefixes without metacharacters.
  - `populate`, `lean`, `sort` by `_id` and the JSON shape of answers are not modelled.
  - The `createdAt` and `updatedAt` timestamps are not modelled.
  - The `_id` of a new document is a parameter.
  - A malformed ObjectId is treated as an unknown one. The source would answer 400 or 500 for it, after a cast error.
- **Casting.** Body values already have the schema's types, and `null` values are not modelled. A status or a name sent as a non-string, and a number sent as a string, are not modelled.
- MembershipRoutes.ValidMembership: checks that `membershipType` is an admitted string and that `clientId` is present and not null. It does not model the cast of `clientId` to an ObjectId or the casts of the numeric and string paths, which would reject further items.
- GymBillRoutes.RenewBill: relies on Mongoose removing keys whose value is `undefined` from a `findByIdAndUpdate` update, as Mongoose 6 and later do. With an older Mongoose and its `omitUndefined` option off, the absent paths would be written as `null` instead of being kept.
- **Races.** Read-max-then-write and count-then-write can race between concurrent requests. Requests are modelled one at a time.
- **Counter document.** models/Counter.js is not part of this model. Its document is the number it holds, with 0 for "no document yet".
- **Numbers.** JavaScript numbers are unbounded integers here. Floating-point amounts, `parseInt` beyond 2^53 and exponent notation are not modelled.
- **Dates.**
  - Dates are milliseconds since the epoch.
  - `new Date(string)` for the payments window is not modelled: the parameters arrive already parsed.
  - The local-time `getMonth` is a parameter.
  - For a year that does not print as four digits, the route builds date strings that are not ISO dates. The model still uses the UTC window for every year.
- **Error messages.** Only "Client not found" and the 400/404 texts are given verbatim. Validation and duplicate-key messages are placeholders.
- **List ordering on ties.** `ListWithoutFilter` orders newest first by insertion. Memberships created in one bulk request can share a `createdAt`, and MongoDB orders such ties arbitrarily.
- **Pass-through routes.** These call the database and do nothing else:
  - the gym-bill list and delete;
  - the subscription list and list by client;
  - the single membership create, list by client and update;
  - the package list;
  - every inquiry, trainer, group-class, personal-training, follow-up and client route;
  - server.js.
- JsonValues.Chars: takes a string as a sequence of Unicode characters, one key per character, where JavaScript's `{...str}` gives one key per UTF-16 code unit, so a character outside the Basic Multilingual Plane gives two keys there and one here. No route's result changes, because strict mode drops index keys in both cases.
- SubscriptionModel.Delete: removes only the first document with the `_id`, as `findByIdAndDelete` does; that no document with the `_id` remains is stated by `SubscriptionModel.DeleteKeepsOthers` under the assumption that `_id`s are unique, which MongoDB's unique `_id` index guarantees and the model does not enforce.
- MembershipRoutes.List: its own contract states only that the list is no longer than the collection and that every entry matches the filter. Which documents are listed is stated by `MembershipRoutes.ListMembers` and `MembershipRoutes.ListCounts`, and their order by `MembershipRoutes.ListIsNewestFirstFilter` and, without a filter, `MembershipRoutes.ListWithoutFilter`.
- SubscriptionRoutes.Monthly: its own contract states only the row shape. The amounts are stated by `SubscriptionRoutes.MonthlyTotals`.

## Findings

| source | as written | input that shows it | evidently intended | confidence | as-written member | corrected member |
|---|---|---|---|---|---|---|
| routes/gymBillRoutes.js:96-103 | the preview takes `Math.max` over `parseInt` of every selected suffix with no NaN filter, so one malformed suffix makes the maximum NaN | memberIds "H40001" and "H40abc" give "H40NaN" | skip unparseable suffixes as `generateSequentialId` does and answer "H40002" | not executed | `MemberIds.LastMemberIdPreview`, shown by `MemberIds.PreviewMalformedExample` | `MemberIds.PreviewNextMemberId` |
