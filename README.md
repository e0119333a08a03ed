# Qupr invoicing core in Dafny

This project models the invoicing core of the Qupr Digital website, a Flask and MongoDB
application for issuing GST invoices to clients, and proves properties of that model.
It covers five parts:

- **The catalogue.** Products and clients are collections keyed by id. `create`, `update` and
  `deactivate` change them in place. GSTINs are upper-cased and contact e-mails lower-cased.
- **Invoice building.**
  - Snapshots copy a product, a client or the company settings by value.
  - The tax calculator computes line totals, an invoice's subtotal, its per-rate tax breakup
    and its total, and splits GST into central and state halves.
  - The invoice store has a unique invoice number and the allocator for the next number.
- **The invoice lifecycle service.** It creates drafts, edits them, issues them with a frozen
  snapshot, marks them paid and deletes drafts.
- **Discount coupons.** Lookup by code, a validator that rejects in a fixed order, and
  redemption.
- **Magic login links and access rules.** Links go from unused to used and expire. The
  access rules say who may view, edit or delete an invoice and which invoices a user is shown.

Each module follows one source file:

| module | file |
|---|---|
| `Common`, `Text` | shared vocabulary: options, results, instants, ASCII case mapping, Python's `int()` and `:05d` |
| `AppConfig` | config.py |
| `ProductModel`, `ClientModel` | app/models/product.py, app/models/client.py |
| `SnapshotService` | app/services/snapshot_service.py |
| `TaxService` | app/services/tax_service.py |
| `InvoiceModel` | app/models/invoice.py |
| `InvoiceService` | app/services/invoice_service.py |
| `CouponModel` | app/models/coupon.py |
| `MagicLinkModel` | app/models/magic_link.py |
| `Permissions` | app/utils/permissions.py |

How the model represents the source:

- **Collections.** A MongoDB collection that the source changes in place is a class with a
  `records` field.
  - Invoices, clients and products are `map`s keyed by id.
  - Coupons and magic links are `seq`s in insertion order, because `find_one` by code or by
    token returns the first match and neither field has a unique index.
- **Money and rounding.** Money is `real`. `round(x, 2)` is a parameter `round: real -> real`,
  applied exactly where the source applies it.
- **Values the database or the environment supplies.** Instants are whole seconds, and every
  operation that reads the clock takes `now`. A new ObjectId is the parameter `freshId`, and
  the random link token is a parameter too.

## Model

| member | source | states |
|---|---|---|
| Text.UpperIdempotent | app/models/client.py:15 | upper-casing an already upper-cased code or GSTIN changes nothing |
| Text.Greatest | app/models/invoice.py:114-117 | the greatest string of a non-empty set exists, is in the set and is at or above every element in code-point order (the `sort=[('invoice_no', -1)]` pick) |
| Text.SortedBy | app/models/product.py:42 | the listed records, each exactly once, in ascending order of the sort key |
| Text.RemoveAllLeading | app/models/invoice.py:120 | `replace(prefix, '')` on prefix + digits removes the leading prefix and carries on in the digits |
| Text.FormatPaddedRoundTrip | app/models/invoice.py:122-128 | `int(f"{n:05d}")` reads back `n` for every integer, negative ones included |
| ProductModel.ApplyUpdate | app/models/product.py:45-64 | each whitelisted field passed is set to the new value; every other field is unchanged |
| ProductModel.EmptyUpdateIsIdentity | app/models/product.py:59-64 | an update passing none of the whitelisted keys leaves the product unchanged |
| ProductModel.UpdateIdempotent | app/models/product.py:45-64 | applying the same edit twice gives the same product as applying it once |
| ProductModel.GetAll | app/models/product.py:37-42 | exactly the (active, when asked) products, each once, ascending by name |
| ProductModel.Products.Create | app/models/product.py:9-24 | adds one active product under the fresh id with the given fields; nothing else changes |
| ProductModel.Products.Update | app/models/product.py:45-64 | writes only when a whitelisted key was passed, and then only the named product |
| ProductModel.Products.Deactivate | app/models/product.py:66-73 | clears `is_active` of the named product and nothing else |
| ClientModel.NormalizeGstin | app/models/client.py:15 | a stored GSTIN is present iff a non-empty one was given, and is then its upper-cased form |
| ClientModel.NormalizeEmail | app/models/client.py:18 | a stored e-mail is present iff a non-empty one was given, and is then its lower-cased form |
| ClientModel.NormalizeGstinIdempotent | app/models/client.py:15 | normalising a stored GSTIN again changes nothing |
| ClientModel.NormalizeEmailIdempotent | app/models/client.py:18 | normalising a stored e-mail again changes nothing |
| ClientModel.NewClient | app/models/client.py:10-26 | the inserted client is active, created now, with normalised GSTIN and e-mail and the other fields as given |
| ClientModel.UpdatedGstin | app/models/client.py:50-51 | a passed non-empty GSTIN is upper-cased; an empty one is stored as given |
| ClientModel.UpdatedEmail | app/models/client.py:52-53 | a passed non-empty e-mail is lower-cased; an empty one is stored as given |
| ClientModel.ApplyUpdate | app/models/client.py:47-59 | each of the six editable keywords that is not `None` is set (GSTIN and e-mail normalised, an empty value kept as is); id, activity and creation time are kept |
| ClientModel.NoneUpdateIsIdentity | app/models/client.py:49 | an update whose keywords are all `None` leaves the client unchanged |
| ClientModel.UpdateNormalizesLikeCreate | app/models/client.py:15-18 | on non-empty values, `update` stores GSTIN and e-mail exactly as `create` does |
| ClientModel.UpdateIdempotent | app/models/client.py:47-59 | applying the same edit twice gives the same client as applying it once |
| Common.GetById | app/models/client.py:28-37 | found iff the id is non-empty and stored, and then it is the stored record; `get_by_id` of products (product.py:26-35) and invoices (invoice.py:38-47) is the same lookup |
| ClientModel.GetAll | app/models/client.py:39-44 | exactly the (active, when asked) clients, each once, ascending by company name |
| ClientModel.Clients.Create | app/models/client.py:10-26 | adds the new client under the fresh id; nothing else changes |
| ClientModel.Clients.Update | app/models/client.py:47-59 | replaces the named client by its updated form; nothing else changes |
| ClientModel.Clients.Deactivate | app/models/client.py:61-68 | clears `is_active` of the named client and nothing else |
| SnapshotService.CreateSnapshot | app/services/snapshot_service.py:8-19 | the company name, GSTIN, address, e-mail, phone and template version of the settings, and the time; no client yet |
| SnapshotService.CreateItemSnapshot | app/services/snapshot_service.py:21-32 | the line copies the product's id, name, description, HSN, rate and tax rate, with the quantity |
| SnapshotService.CreateClientSnapshot | app/services/snapshot_service.py:34-45 | the snapshot copies the client's id, name, address and optional fields as they are |
| SnapshotService.ItemSnapshotIgnoresDeactivation | app/services/snapshot_service.py:21-32 | deactivating a product does not change the line built from it |
| SnapshotService.ItemSnapshotAfterUpdate | app/services/snapshot_service.py:21-32 | a line built after a product edit shows the edited name, rate and tax rate exactly where the edit set them |
| SnapshotService.ClientSnapshotIgnoresDeactivation | app/services/snapshot_service.py:34-45 | deactivating a client does not change its snapshot |
| SnapshotService.ClientSnapshotAfterUpdate | app/services/snapshot_service.py:34-45 | a client snapshot built after an edit carries every edited value (GSTIN and e-mail normalised), and every field the edit left out is as in the earlier snapshot |
| TaxService.CalculateItemTax | app/services/tax_service.py:8-19 | subtotal, tax and total are each rounded from the exact rate x quantity, its tax at the rate, and their sum |
| TaxService.SplitGst | app/services/tax_service.py:53-64 | central and state GST get equal rates and equal amounts, each the rounded half |
| TaxService.SplitGstRecombines | app/services/tax_service.py:53-64 | when rounding leaves the halves alone, the two halves add back up to the rate and the amount |
| TaxService.RateTaxAbsent | app/services/tax_service.py:27-36 | a positive rate no line uses carries no tax |
| TaxService.BreakupIsPerRateTax | app/services/tax_service.py:27-36 | the accumulated breakup has one key per distinct positive rate, holding the tax of exactly the lines at that rate |
| TaxService.BreakupSumsToTotalTax | app/services/tax_service.py:38 | the breakup's values add up to the tax of all positively taxed lines |
| TaxService.SumOfValues | app/services/tax_service.py:38 | `sum(tax_breakup.values())` is the sum of the map's values |
| TaxService.ExpectedTotals | app/services/tax_service.py:21-51 | the totals described below exist for every list of lines |
| TaxService.TotalsOfUnique | app/services/tax_service.py:21-51 | those totals are determined: any result meeting the description is this one |
| TaxService.AccumulateLines | app/services/tax_service.py:23-35 | the loop leaves the subtotal and the per-rate tax breakup equal to the reference sums over all the lines |
| TaxService.CalculateInvoiceTotals | app/services/tax_service.py:21-51 | subtotal, per-rate breakup, total tax and total are the exact sums over the lines, each rounded once; the breakup's keys are exactly the positive rates used |
| TaxService.SingleLineAgreesWithItemTax | app/services/tax_service.py:8-36 | for a line with a non-negative rate, the one-line invoice and the item calculator agree on subtotal, tax and total |
| TaxService.EmptyInvoiceTotals | app/services/tax_service.py:24-25 | no lines: zero subtotal, zero tax, empty breakup |
| TaxService.ExampleInvoice | app/services/tax_service.py:21-51 | 100 x 2 at 18% plus 50 x 1 untaxed: subtotal 250, breakup {18: 36}, total 286 |
| InvoiceModel.ApplyUpdate | app/models/invoice.py:67-83 | each passed keyword is set and `updated_at` becomes now; id, number, client and creation time are kept |
| InvoiceModel.EmptyUpdateOnlyTouches | app/models/invoice.py:70-71 | an update passing nothing only refreshes `updated_at` |
| InvoiceModel.WithStatus | app/models/invoice.py:85-99 | sets the status and `updated_at`; `paid_on` changes only for PAID with a date given; nothing else changes |
| InvoiceModel.NewInvoice | app/models/invoice.py:13-36 | the inserted invoice is unpaid, created and updated now, DRAFT unless another status is given, other fields as given |
| InvoiceModel.Invoices.Create | app/models/invoice.py:13-36 | inserts under the fresh id unless the number is taken (the unique index of app/__init__.py:181), keeping numbers unique |
| InvoiceModel.Invoices.Update | app/models/invoice.py:67-83 | replaces the named invoice by its updated form; nothing else changes |
| InvoiceModel.Invoices.UpdateStatus | app/models/invoice.py:85-99 | replaces the named invoice by its form with the new status; nothing else changes |
| InvoiceModel.Invoices.Delete | app/models/invoice.py:101-108 | removes the named invoice only if it is a draft; every non-draft survives unchanged |
| InvoiceModel.NextNumberAsWritten | app/models/invoice.py:110-126 | one more than the number read from the lexicographically greatest matching number; 1 when none matches or it cannot be read |
| InvoiceModel.NextInvoiceNoAsWritten | app/models/invoice.py:110-128 | the prefix followed by that number padded to five digits |
| InvoiceModel.AsWrittenRepeatsNumber | app/models/invoice.py:114-122 | with INV99999 and INV100000 stored, the allocator hands out INV100000 again |
| InvoiceModel.AsWrittenRestartsAfterUnreadable | app/models/invoice.py:119-124 | with INV00001 and INVX stored, the allocator hands out INV00001 again |
| InvoiceModel.NextNumber | app/models/invoice.py:110-128 | above every number in use under the prefix, and one above the largest of them (1 when there is none) |
| InvoiceModel.NextInvoiceNo | app/models/invoice.py:110-128 | the prefix followed by the corrected next number padded to five digits |
| InvoiceModel.ReadBack | app/models/invoice.py:120-128 | a formatted number starts with the prefix and reads back as the number |
| InvoiceModel.NextInvoiceNoIsFresh | app/models/invoice.py:110-128 | the corrected allocator never hands out a number already stored |
| InvoiceModel.NextInvoiceNoReadsBack | app/models/invoice.py:110-128 | the allocated number matches the prefix query and reads back as the next number |
| InvoiceModel.FirstInvoiceNo | app/models/invoice.py:125-128 | on an empty store both allocators give prefix + "00001" |
| InvoiceModel.NextInvoiceNoAdvances | app/models/invoice.py:110-128 | once the allocated number is stored, the next allocation is one higher |
| InvoiceService.FirstMissing | app/services/invoice_service.py:26-29 | the first request whose product does not exist |
| InvoiceService.Items | app/services/invoice_service.py:25-35 | one line per request, in order, each copied from its product |
| InvoiceService.BuildItems | app/services/invoice_service.py:25-35 | succeeds iff every product exists, with the lines in request order; otherwise fails naming the first missing product |
| InvoiceService.NewDraft | app/services/invoice_service.py:38-54 | the draft has no snapshot, dates or payment, and carries the exact totals of its lines, rounded |
| InvoiceService.IssueSnapshot | app/services/invoice_service.py:69-73 | the company snapshot with the client snapshot added |
| InvoiceService.IssueRecord | app/services/invoice_service.py:68-88 | ISSUED with the snapshot, the issue date (now by default) and the due date (30 days after issue by default); nothing else changes |
| InvoiceService.DefaultDates | app/services/invoice_service.py:76-79 | without dates, issued now and due 30 days from now |
| InvoiceService.RedraftRecord | app/services/invoice_service.py:131-141 | new lines and their exact totals; status, snapshot, dates, number and client are kept |
| InvoiceService.SafeStepTransitive | app/services/invoice_service.py:14-156 | a sequence of service operations never moves a status back, never deletes or alters an issued invoice, and keeps the lifecycle invariant |
| InvoiceService.InsertDraft | app/services/invoice_service.py:36-53 | the draft with the computed totals is inserted under the fresh id exactly when its number is not stored yet; otherwise `InvoiceNoTaken` and nothing is written |
| InvoiceService.CreateDraftInvoice | app/services/invoice_service.py:14-56 | fails on a missing client, then on the first missing product, and writes nothing then; otherwise takes the number from `get_next_invoice_no` as written and fails with `InvoiceNoTaken` exactly when that number is already stored, else it succeeds and inserts one draft under that number |
| InvoiceService.CreateDraftInvoiceCorrected | app/services/invoice_service.py:14-56 | the same steps with the corrected number allocator; for a separable prefix the insert always succeeds |
| InvoiceService.IssueInvoice | app/services/invoice_service.py:59-90 | fails on a missing invoice, a non-draft or a missing client; otherwise it succeeds and issues exactly that invoice; it succeeds exactly when all three checks pass |
| InvoiceService.MarkAsPaid | app/services/invoice_service.py:93-106 | fails on a missing or non-issued invoice; otherwise it succeeds and marks it PAID on the given date or now |
| InvoiceService.UpdateDraftInvoice | app/services/invoice_service.py:109-143 | fails on a missing invoice, a non-draft or the first missing product; otherwise it succeeds and replaces the lines and totals |
| InvoiceService.DeleteDraftInvoice | app/services/invoice_service.py:146-156 | fails on a missing invoice or a non-draft; otherwise it succeeds and removes exactly that draft |
| InvoiceService.SnapshotOutlivesClientEdit | app/services/invoice_service.py:69-73 | a draft whose client exists is issued, and its client snapshot survives the later edit of the client record |
| CouponModel.StoredMinimum | app/models/coupon.py:27 | a minimum is stored iff one was given and it is not zero |
| CouponModel.NewCoupon | app/models/coupon.py:12-35 | the code is upper-cased, no user has redeemed it, the other fields are as given |
| CouponModel.FindActive | app/models/coupon.py:48-52 | the first active coupon with that code, in insertion order |
| CouponModel.GetByCode | app/models/coupon.py:48-52 | the found coupon is active and its code is the upper-cased query; none iff no active coupon has that code |
| CouponModel.LookupIgnoresCase | app/models/coupon.py:52 | lookup does not depend on the case of the query |
| CouponModel.Rejection | app/models/coupon.py:68-100 | each rejection holds exactly when every earlier check passed and its own fails, in source order: inactive, already used by this user, limit reached, not yet valid (with `valid_from`), expired (with `valid_until`), below minimum (with `min_amount`); none iff all pass |
| CouponModel.Accept | app/models/coupon.py:102-117 | the discount is the raw discount capped at the amount, and the amount left to pay is never negative |
| CouponModel.ValidateCoupon | app/models/coupon.py:60-117 | not found iff no active coupon has the code; accepted iff no check fails with `times_used` as the count |
| CouponModel.ValidateCouponCorrected | app/models/coupon.py:60-117 | the same, with `used_count` as the count |
| CouponModel.InactiveIsNeverReported | app/models/coupon.py:65-69 | "inactive" is never the answer, since lookup only finds active coupons |
| CouponModel.WindowBoundsAccepted | app/models/coupon.py:82-96 | the date checks pass at the first and the last instant of the window and at every instant between |
| CouponModel.PercentageNotClamped | app/models/coupon.py:103-109 | a percentage of at most 100 on a non-negative amount is never capped |
| CouponModel.AddToSet | app/models/coupon.py:138-139 | the user list gains the user once and keeps having no duplicates |
| CouponModel.Redeemed | app/models/coupon.py:131-145 | one more use, the user recorded when given, `updated_at` now, nothing else changed |
| CouponModel.RedeemerRejected | app/models/coupon.py:72-73 | a user who has redeemed a coupon is refused it the next time |
| CouponModel.AsWrittenIgnoresRedemptions | app/models/coupon.py:76-77 | a coupon limited to one use, once redeemed, still validates |
| CouponModel.CorrectedEnforcesLimit | app/models/coupon.py:76-77 | with the corrected count, a coupon redeemed `max_uses` times is refused |
| CouponModel.ValidatorsAgreeBelowLimit | app/models/coupon.py:76-77 | below the limit, with `times_used` absent and a non-negative `used_count`, the two validators agree |
| CouponModel.Coupons.Create | app/models/coupon.py:12-35 | appends the new coupon under the fresh id; ids stay distinct |
| CouponModel.Coupons.IncrementUse | app/models/coupon.py:131-145 | redeems exactly the coupon with that id, reports whether one was found, and changes no other coupon |
| MagicLinkModel.NewLink | app/models/magic_link.py:30-43 | the link is unused, for the given client, and expires the given number of hours after now |
| MagicLinkModel.Find | app/models/magic_link.py:52-55 | the first link, in insertion order, carrying the token |
| MagicLinkModel.ValidateToken | app/models/magic_link.py:58-89 | unknown iff no link has the token; otherwise used before expired, expired only strictly after `expires_at`, and a valid result carries the link's client and id |
| MagicLinkModel.FreshLinkValidUntilExpiry | app/models/magic_link.py:17-89 | a new link with an unused token validates for its client from creation up to and including its expiry, and is expired after |
| MagicLinkModel.DefaultLifetime | app/models/magic_link.py:18-32 | with the default 24 hours, valid at 86400 seconds and expired at 86401 |
| MagicLinkModel.ExpiryIsFinal | app/models/magic_link.py:82-83 | an expired token stays expired later, and a valid one was valid earlier |
| MagicLinkModel.MarkedUsed | app/models/magic_link.py:95-104 | used now from the given address, nothing else changed |
| MagicLinkModel.Revoked | app/models/magic_link.py:125-133 | used now, the recorded address untouched, nothing else changed |
| MagicLinkModel.SpentLinkIsRefused | app/models/magic_link.py:70-72 | once the first link with a token is used, that token is refused as already used at every instant |
| MagicLinkModel.Unexpired | app/models/magic_link.py:114-119 | what remains is exactly the links with `expires_at` not before now |
| MagicLinkModel.ExpiredLinks | app/models/magic_link.py:118 | what is deleted is exactly the links with `expires_at` before now |
| MagicLinkModel.ExpiryPartitions | app/models/magic_link.py:118-119 | every link is either kept or deleted, exactly once, so the count is the number deleted |
| MagicLinkModel.PruningKeepsValidLinks | app/models/magic_link.py:114-119 | pruning at an instant never removes a token valid at that instant, nor changes what it grants |
| MagicLinkModel.MagicLinks.Create | app/models/magic_link.py:17-49 | appends the new link and returns it |
| MagicLinkModel.MagicLinks.MarkAsUsed | app/models/magic_link.py:92-105 | marks only the first link with the token, reports whether it changed, and afterwards the token is refused as used |
| MagicLinkModel.MagicLinks.Revoke | app/models/magic_link.py:122-134 | like marking as used but keeping the address; afterwards the token is refused as used |
| MagicLinkModel.MagicLinks.DeleteExpired | app/models/magic_link.py:114-119 | keeps the unexpired links in order and returns how many expired ones went; no used link becomes unused |
| Permissions.ViewRule | app/utils/permissions.py:6-15 | an owner views every invoice, a client exactly its own, anyone else none |
| Permissions.EditIsDelete | app/utils/permissions.py:18-36 | with three statuses, the edit rule and the delete rule grant the same invoices |
| Permissions.ChangesAreOwnerOnly | app/utils/permissions.py:18-46 | no one but an owner may edit, delete, manage clients or manage products |
| Permissions.RequireInvoiceAccess | app/utils/permissions.py:49-56 | edit access is granted only to an owner on a draft, view access by the view rule; every granted access includes viewing |
| Permissions.OfClient | app/utils/permissions.py:66 | exactly the invoices of that client |
| Permissions.FilterClientInvoices | app/utils/permissions.py:59-68 | the list unchanged for an owner, empty for anyone but an owner or a client, and exactly the viewable invoices |
| Permissions.OfClientIsVisible | app/utils/permissions.py:66 | for a client, the comprehension keeps exactly the viewable invoices, in order |
| Permissions.VisibleIsSubsequence | app/utils/permissions.py:59-68 | the viewable invoices keep their original order |
| Permissions.FilterIsVisible | app/utils/permissions.py:59-68 | the filter is exactly the invoices the user may view, in the original order |

## Left out

- Routes, templates, sessions, the dashboard and authentication (bcrypt hashing, login) are not part of this model. So are the MongoDB connection and BSON encoding. Storing `tax_breakup` with float keys, which BSON does not accept as document keys, is not modelled.
- Floating point: money is exact `real`, and `round(x, 2)` is an uninterpreted parameter. Every sum is exact before rounding.
- TaxService.CalculateInvoiceTotals: does not model that the source adds the unrounded per-rate sums in dictionary order in floating point. The exact total tax is the same in any order.
- The clock, ObjectId generation and `secrets`-based token generation are parameters (`now`, `freshId`, `token`). A malformed ObjectId string is treated as an absent id, which is what `get_by_id` returns for it. Each operation reads the clock once, where the source calls `datetime.now` separately for `created_at` and `updated_at`.
- Timezone handling (naive datetimes made UTC-aware in `validate_coupon` and `validate_token`) is not modelled: instants are already UTC seconds.
- Case mapping covers ASCII letters only. `int()` accepts ASCII whitespace, an optional sign and digits with single underscores; other Unicode digits and spaces are not modelled.
- The `$regex` query of `get_next_invoice_no` is modelled as a plain prefix test. Regex metacharacters in the prefix are not modelled.
- `search` (client and product), `Invoice.get_all`, `Invoice.get_by_invoice_no`, `Coupon.get_by_id`, `Coupon.get_all`, `Coupon.update`, `Coupon.delete` and `MagicLink.get_all_for_client` are plain queries or writes with no logic of their own, and are not modelled.
- InvoiceModel.ApplyUpdate: covers the keywords the service passes. `invoice_no`, `client_id` and `created_at`, which no caller passes to `update`, are kept unchanged.
- ClientModel.ApplyUpdate: covers the six keywords the client form passes (company name, GSTIN, billing address, contact person, e-mail, phone). `update` would also `$set` any other keyword, `is_active` included, but no caller passes one, so activity, id and creation time are kept unchanged.
- CouponModel.DiscountType: any stored discount type other than PERCENTAGE is treated as a flat amount, which is what the validator's `else` branch does.
- MagicLinkModel.NewLink: `expires_in_hours` is a whole number of hours. A fractional `timedelta(hours=...)` is not modelled.
- Permissions.User: a stored role other than owner or client is one value, `OtherRole`, and an empty user document is `None`. Both are refused everything, as in the source.
- InvoiceService.IssueInvoice: when the invoice's client record is gone, the source passes `None` to `create_client_snapshot` and fails there. The model returns `ClientOfInvoiceMissing` and writes nothing.
- InvoiceService.CreateDraftInvoice: an insert refused by the unique index is `InvoiceNoTaken` rather than an uncaught `DuplicateKeyError`. With the as-written allocator this happens, for example, with INV99999 and INV100000 stored. With the corrected allocator (CreateDraftInvoiceCorrected) and a prefix that neither is empty nor starts with a digit or '-', it cannot happen.

## Findings

| source | as written | input that shows it | evidently intended | confidence | as-written member | corrected member |
|---|---|---|---|---|---|---|
| app/models/invoice.py:114-122 | the last number is the lexicographically greatest `invoice_no`, and an unreadable suffix restarts at 1 | stored INV99999 and INV100000 give INV100000 again; stored INV00001 and INVX give INV00001 again; the unique index then refuses the new draft | one more than the numerically greatest readable number, so a fresh number every time | not executed | InvoiceModel.AsWrittenRepeatsNumber | InvoiceModel.NextInvoiceNoIsFresh |
| app/models/coupon.py:76-77 | the usage limit is checked against `times_used`, a key no operation writes, so it reads as 0 | a coupon with `max_uses` 1 that `increment_use` redeemed once still validates | check against `used_count`, the counter `increment_use` advances | not executed | CouponModel.AsWrittenIgnoresRedemptions | CouponModel.CorrectedEnforcesLimit |
