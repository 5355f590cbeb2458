# donately-sync-tools core, in Dafny

This project models three pieces of the donor-sync tools for the Donately
fundraising platform.

- **The collection-report parser** (`donately/donations.go`). It reads the
  report's header row and data rows into typed records. Thousands separators
  are dropped and blank amounts read as zero. A blank email becomes a
  `first.last@gmail.com` placeholder. Every column after the sixth is an
  adjustment type with a slug.
- **The backfill run** (`BackfillCmd.Run` in `cli/cli.go`). It walks the
  platform's people and donations lists page by page. It indexes people by
  lower-cased email and groups donations by person id. Then it reconciles the
  report record by record:
  - an unknown email creates the person;
  - a known one first syncs the person's adjustments by count;
  - it then decides from the donation history whether a catch-up donation is
    owed, and creates it.

  Every failed create is filed in a failure ledger under its error message,
  and the run goes on.
- **The campaign-overview handler** (the closure returned by
  `CampaignOverviewHandler` in `donately/http/handlers.go`). It repeats the
  walk and the grouping and selects the pledging donors. It sorts them by last
  name and answers with the campaign's overview or an internal error.

Modules, following the program's structure:

- `Results`: option and result values.
- `Text`: Go's `ToLower`, `ReplaceAll` and string `<`.
- `Decimal`: the decimal subset of `strconv.ParseFloat`.
- `Domain`: the entities.
- `Report`: `donations.go`.
- `Remote`: the platform client and the adjustment store.
  - They are classes that answer from fixed data and log every call in a
    ghost field.
  - A paginated list is a fixed sequence served in offset/limit slices. An
    outage function names the offsets at which a request fails.
- `Fetch`: the pagination loops and their specification, shared by both
  callers.
- `Index`: the maps built in list order.
- `Backfill`: `cli.go`.
- `Overview`: `handlers.go`.

Each loop of the source is a method proved against a specification function.
The properties that matter are lemmas about those functions.

Points where the model follows the code and says what the code does:

- **Pagination skips items.** After a non-empty page the offset grows by the
  page's length plus one. With plain offset semantics, the item after every
  full page is never fetched: item `i` of the result is server item
  `i + i / 100`, and one item in every 101 is lost. `Fetch.WalkPositions` and
  `Fetch.WalkLosesItems` prove this. A list of at most 100 items is fetched
  whole. The model assumes plain offset semantics (`Remote.Listing.Page`);
  whether the platform's offsets behave so is not known, so this is stated as
  a property and not as a defect.
- **Nothing due means nothing to do.** A record whose amount due is 0 is
  skipped even when the report shows more than the history: it counts as a
  met pledge and no donation is created (`cli/cli.go:169`,
  `Backfill.NothingDueExample`).
- **Store errors are not filed.** Adjustment read and save failures are only
  printed. The failure ledger holds only failed person and donation creates
  (`cli/cli.go:149-158`, `Backfill.ReconcileContract`, `Backfill.LedgerSpec`).
- **A second run can repeat a donation.** After a recorded catch-up donation
  the history holds its own sub-unit cents plus the reported amount, and the
  history counts in whole units truncated. Let `b` be the reported amount's
  cents. A second run owes nothing when `b` is below one half
  (`Backfill.RerunOwesNothing`). When the history's sub-unit cents and `b`
  stay below one unit and `b` is at least one half, a second run that does not
  find the pledge met owes `b` cents again; when they reach a whole unit it
  owes nothing (`Backfill.RerunOwes`). With a history in whole units, 150.75
  reported owes 15075 cents and then 75 again (`Backfill.RerunOwesAgain`); a
  history of 10060 cents finds the pledge met on the second run
  (`Backfill.RerunHistoryCentsExample`).

## Model

| member | source | states |
|---|---|---|
| Text.Remove | donately/donations.go:113-117 | dropping the commas leaves no comma, never lengthens the text, and leaves a comma-free text unchanged |
| Text.LowerProperties | cli/cli.go:78 | lower-casing keeps the length, leaves no upper-case letter and is idempotent |
| Text.LessIrreflexive | donately/http/handlers.go:123-125 | no last name sorts before itself |
| Text.LessTransitive | donately/http/handlers.go:123-125 | the order of last names is transitive |
| Text.LessTotal | donately/http/handlers.go:123-125 | two names neither of which sorts before the other are equal, so the order is total |
| Decimal.ParseDecimal | donately/donations.go:123-127 | an empty text is a syntax error; a run of digits reads as its decimal value |
| Decimal.NoSeparatorsAccepted | donately/donations.go:176 | a text containing a comma or any other non-numeric character never parses |
| Report.Sluggify | donately/donations.go:191-194 | a slug has the name's length, no space and no upper-case letter |
| Report.SluggifyIdempotent | donately/donations.go:191-194 | the slug of a slug is itself |
| Report.ParseAmount | donately/donations.go:112-146 | a cell that is blank once its commas are dropped reads as 0; a cell fails exactly when it is non-blank and its comma-free text does not parse |
| Report.AmountIgnoresCommas | donately/donations.go:112-117 | commas anywhere in an amount cell do not change what it parses to |
| Report.ThousandsSeparatorExample | donately/donations.go:112-127 | the cell "1,234.50" reads as 1234.5 |
| Report.AmountCell | donately/donations.go:119-146 | substituting "0" for a blank cell before parsing agrees with reading blank as zero, and the error carries the comma-free text |
| Report.AdjustmentAmount | donately/donations.go:172-178 | a cell contributes an amount exactly when it is non-blank and parses to a positive amount, and the amount is the parsed value |
| Report.SpringFormalExample | donately/donations.go:171-184 | a "Spring Formal" column holding 25 gives one adjustment with slug "spring-formal" and amount 25 |
| Report.AdjustmentsValid | donately/donations.go:168-189 | a row has no more adjustments than trailing cells; each has a positive amount and the slug of its own name |
| Report.ColumnInPlace | donately/donations.go:171-186 | column i contributes exactly its own adjustment, after those of the columns before it and before those after it |
| Report.AdjustmentOrigin | donately/donations.go:171-186 | every adjustment comes from a non-blank cell that parses to its amount, under that column's header |
| Report.DroppedCells | donately/donations.go:172-178 | a cell with a thousands separator, or with a zero or negative amount, contributes no adjustment |
| Report.AdjustmentsNamesPrefix | donately/donations.go:168-173 | header names beyond the row's cells play no part |
| Report.RowContents | donately/donations.go:108-162 | a row fails exactly when one of its three amount cells does, with the first such error; otherwise it keeps the names, keeps the email unless blank, substitutes the placeholder address when blank, has each amount as its cell parses (0 when blank), and has the trailing columns' adjustments |
| Report.ReportShape | donately/donations.go:106-165 | a report parses exactly when every row does, into one record per row in row order; otherwise it fails with the first bad row's error |
| Report.ParseAdjustments | donately/donations.go:168-189 | the adjustment loop returns the columns' contributions in column order |
| Report.AppendColumn | donately/donations.go:172-185 | one pass of the adjustment loop appends exactly that column's contribution |
| Report.ReadAmount | donately/donations.go:112-127 | the per-cell steps (drop commas, blank becomes "0", parse) compute the cell's amount or error |
| Report.ParseCollectionReport | donately/donations.go:90-166 | the record loop returns the report's records, or the first error |
| Remote.Listing.Page | donately/http/client.go:185-208 | a page fails exactly on an outage, holds at most `limit` items, and is the slice of the list starting at the offset |
| Fetch.Offsets | cli/cli.go:57-72 | the walk makes at least one request, and the first is at the starting offset |
| Fetch.WalkStep | cli/cli.go:60-72 | a non-empty page is kept and the next request starts its length plus one further on, within the list |
| Fetch.WalkEnd | cli/cli.go:60-68 | a failed request ends the walk with its error; an empty page ends it with nothing more |
| Fetch.OffsetsSteps | cli/cli.go:60-72 | every request but the last got a non-empty page, and the next starts that page's length plus one further on |
| Fetch.OffsetsEnd | cli/cli.go:60-68 | the last request failed or was empty; the walk fails exactly when that request failed, with its error |
| Fetch.WalkPositions | cli/cli.go:57-72 | item i of a successful walk is server item offset + i + i/100, and one item in every 101 is not fetched |
| Fetch.WalkLosesItems | cli/cli.go:57-72 | a list of at most 100 items is fetched whole; a longer one loses items |
| Fetch.GatherWalk | cli/cli.go:55-72 | resuming with the items fetched so far ends with them before the rest of the walk |
| Fetch.RequestedOffsets | cli/cli.go:57-72 | resuming with the offsets requested so far ends with them before the rest of the walk's requests |
| Fetch.WalkStart | cli/cli.go:55-58 | from offset 0 with nothing fetched, the loop's specifications are the walk's |
| Fetch.FetchPeople | cli/cli.go:55-72 | the people loop returns the walk's result and issues exactly the walk's requests, in order |
| Fetch.FetchDonations | cli/cli.go:82-99 | the donations loop returns the walk's result and issues exactly the walk's requests, in order |
| Index.LastWinsLookup | cli/cli.go:77-79 | a key is in the index exactly when some entry has it, and maps to the last such entry's value |
| Index.EmailMatch | cli/cli.go:120 | a report email finds a person exactly when some person's email is the same up to case |
| Index.EmailMatchExample | cli/cli.go:120 | "Jane.DOE@x.com" finds the person registered as "jane.doe@x.com" |
| Index.IndexByEmail | cli/cli.go:74-80 | the email index is the last-wins map of the people by lower-cased email |
| Index.PledgeLookup | donately/http/handlers.go:44-109 | the pledge found for a lower-cased email is that of the last record with the email, or 0 when no record has it |
| Index.PledgeIndex | donately/http/handlers.go:44-48 | the pledge index is the last-wins map of the records' pledges by lower-cased email |
| Index.HavingMembers | cli/cli.go:101-109 | a group holds exactly the donations with that person id |
| Index.GroupSpec | cli/cli.go:101-109 | a person id has a group exactly when some donation has it; the group is those donations in list order and is never empty |
| Index.GroupedTotal | cli/cli.go:101-109 | grouping loses and duplicates no donation |
| Index.GroupByPerson | cli/cli.go:101-109 | the grouping loop builds the grouping of the donations by person id |
| Backfill.QuotRemainder | cli/cli.go:166 | integer division truncates toward zero: the remainder has the dividend's sign and is smaller than the divisor |
| Backfill.TotalCentsAppend | cli/cli.go:160-164 | the history of two lists of donations is the sum of their histories |
| Backfill.SumCents | cli/cli.go:160-164 | the summing loop returns the history in cents |
| Backfill.AssessSpec | cli/cli.go:166-188 | the pledge counts as met exactly when the balance exceeds the amount due by less than the tolerance or nothing is due; otherwise a donation is owed exactly when the report shows at least half a unit more than the whole-unit history, and it is that difference in cents rounded down, at least 50 |
| Backfill.CatchUpExample | cli/cli.go:160-188 | a 10000-cent history against 150 donated, 50 due and 200 pledged owes 5000 cents |
| Backfill.NothingDueExample | cli/cli.go:169-172 | the same record with nothing due owes nothing |
| Backfill.RerunOwesNothing | cli/cli.go:160-188 | once the catch-up donation is in the history, a second run owes nothing when the reported cents are below one half |
| Backfill.RerunOwes | cli/cli.go:160-188 | after the catch-up donation, a second run owes the reported cents `b` again when the history's sub-unit cents plus `b` stay below one unit, `b` is at least one half and the pledge is not met; it owes nothing when they reach a whole unit |
| Backfill.RerunHistoryCentsExample | cli/cli.go:160-188 | a 10060-cent history against 150.75 donated owes 5075 cents, and the second run finds the pledge met |
| Backfill.RerunOwesAgain | cli/cli.go:160-188 | 150.75 reported (exact in binary) owes 15075 cents, then 75 cents again on the second run |
| Backfill.NewcomerAccepted | donately/http/client.go:252-254 | the person the run creates names the run's account, so the client refuses it with "missing account information" exactly when that account has no id, and otherwise the platform answers |
| Backfill.CatchUpAccepted | donately/http/client.go:372-374 | the catch-up donation names the run's account, so the client refuses it with "missing account information" exactly when that account has no id, and otherwise the platform answers |
| Backfill.ReconcileContract | cli/cli.go:119-203 | an unknown email creates the person and touches nothing else; the created person has no id, the record's names and email, and the run's account; a known one reads the adjustments, overwrites them only when the read succeeded with a different count, and creates the catch-up donation exactly when one is owed, a processed cash donation of the owed cents to the run's account and campaign for the matched person; a record is filed exactly when its create failed, under that error |
| Backfill.CallsAppend | cli/cli.go:119 | records are reconciled one after another: a longer report's requests extend those of its prefix |
| Backfill.LedgerSpec | cli/cli.go:117-203 | a reason is in the ledger exactly when some record's create failed with it, and lists every such record in report order |
| Backfill.ReconcileRecord | cli/cli.go:119-202 | one pass of the record loop issues the record's requests and files it when its create fails |
| Backfill.AddMissingPerson | cli/cli.go:120-142 | an unknown email issues one create of the newcomer and files the record when it fails |
| Backfill.SyncAdjustments | cli/cli.go:149-158 | the adjustment sync reads, then overwrites when the read succeeded with a different count |
| Backfill.Settle | cli/cli.go:143-201 | a known email syncs adjustments, then creates the catch-up donation exactly when one is owed, filing the record when that fails |
| Backfill.ReconcileAll | cli/cli.go:117-203 | the record loop issues every record's requests in report order and returns the failure ledger |
| Backfill.Run | cli/cli.go:55-203 | a failed list request ends the run with its error before the report is read; a bad report ends it before any write; otherwise the result is the ledger, after exactly the walks' and the records' requests |
| Overview.SelectedFails | donately/http/handlers.go:85-103 | the selection fails exactly when some non-test person's adjustment read fails, with the first such error |
| Overview.SelectedSound | donately/http/handlers.go:83-121 | every donor kept is a listed non-test person with a non-zero pledge, carrying that pledge, their donations and their stored adjustments |
| Overview.SelectedComplete | donately/http/handlers.go:83-121 | every listed non-test person with a non-zero pledge is kept |
| Overview.LookupsSpec | donately/http/handlers.go:85-103 | the reads are of non-test listed people only, reach every one when none fails, and stop at the first failure |
| Overview.SelectDonors | donately/http/handlers.go:83-121 | the selection loop returns the selection and issues exactly its reads |
| Overview.NotAfterTransitive | donately/http/handlers.go:123-125 | the last-name order chains |
| Overview.NotAfterSwapped | donately/http/handlers.go:123-125 | two donors out of order are in order once swapped |
| Overview.SortByLastName | donately/http/handlers.go:123-125 | the sort leaves the donors ordered by last name and a permutation of the input |
| Overview.InsertInPlace | donately/http/handlers.go:123-125 | one insertion pass extends the sorted prefix by one and permutes the array |
| Overview.OverviewOf | donately/http/handlers.go:127-145 | the overview copies every campaign field unchanged and lists the given donors |
| Overview.CampaignOverviewHandler | donately/http/handlers.go:14-148 | a failed list request or adjustment read answers with an internal error carrying its message; otherwise the answer is the campaign's overview listing the selection, sorted by last name |

## Left out

- Reading the report file: CSV tokenising, quoting and the errors of reading a malformed or empty file (`donately/donations.go:93-104`). The parser starts from the header row and the data rows already split into cells.
- Report.Rectangular: Go's CSV reader rejects rows of unequal width by default, and a row shorter than six cells would panic on index. The model requires every row to have the header's width and at least six cells.
- Decimal.ParseDecimal: only the plain decimal forms of `strconv.ParseFloat` are read, as exact rationals. Exponents, `Inf`, `NaN`, hexadecimal forms, underscores and float64 rounding are not modelled.
- Backfill.AssessSpec: the amounts are exact rationals, not float64. Rounding in `delta * 100` and in the comparisons is not modelled; in float64 `int64(delta * 100)` can come out one cent short (150.70 gives 15069 cents where the model gives 15070).
- Backfill.SumCents: the int64 sum and the int64 conversion of the cents are unbounded integers here. Overflow is not modelled.
- Text.Lower: only ASCII letters are lower-cased. Go's `strings.ToLower` also folds non-ASCII letters.
- Account and campaign lookup (`FindAccount`, `FindCampaign`), opening the report file, and the panics on their errors happen before the modelled lines. The account and campaign are inputs.
- Printing: the progress messages and the final grouped ledger report (`cli/cli.go:205-221`). The run returns the ledger, and Go's random map iteration order does not arise.
- The `donorsByPersonID` and `peopleById` maps are built but never read (`cli/cli.go:75-79`, `donately/http/handlers.go:38-42`). They are not modelled.
- The platform and the store are fixed functions of their arguments, so a reply does not depend on earlier writes. The id of a created person or donation is not modelled.
- The HTTP request, response decoding and transport retries of the client (`donately/http/client.go`) are not part of this model. Only the client's own refusal of a missing account is.
- Go's distinction between a nil and an empty slice is not modelled (`donately/http/handlers.go:92-94`, `105-107`).
- Overview.CampaignOverviewHandler: the gin JSON response shape is not modelled. An error response keeps only its details message.
- Overview.SortByLastName: `sort.Slice` is not stable and its algorithm is not specified. The model sorts by insertion and promises only the order and the permutation, which is all the source promises.
- `ServeCmd`, the process entry point, the web front end, the SQL-backed adjustment store (`donately/donors.go`) and the other platform operations are not part of this model.
