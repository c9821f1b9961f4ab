# Farm records: a verified model of the record-keeping core

The farm tool keeps three tables for a small sheep and goat farm:
animals, transactions (sales, purchases, expenses) and health records. The
browser page stores them in SQLite. Every handler reads a whole table back,
edits the array it got, and saves the array again. The save empties the
table and re-inserts the rows one by one under the primary key `id`.

This project models that core in Dafny:

- `common.dfy` (`Common`): optional values, calendar dates, and JavaScript's
  truthiness of strings and numbers (`x || default`).
- `schema.dfy` (`Schema`): the enumerations and the three entities. Each
  entity comes twice. The *object* the page passes around may carry a field
  under its snake_case name, its camelCase name, or neither. The *row* is
  what a table holds.
- `tables.dfy` (`Tables`): a table of rows with unique ids, and its view as
  a map from id to row. It also has the generic operations the store and
  handlers use: stable sort by date descending, filtering by id, the
  replace-all insert loop (`InsertAll`) and `INSERT OR REPLACE`.
- `mapping.dfy` (`Mapping`): the mapping from object to row done by the
  save functions, and from row to object done by the get functions. It also
  has the defaults of the legacy `migrate*` helpers and the `animalType`
  fill of the fallback reader.
- `database.dfy` (`Database`): the store as a class with three table
  fields. Its methods are the get, save and migrate functions of
  `database.js`.
- `handlers.dfy` (`Handlers`): the three form handlers, the three deletes
  and the three inline-edit saves of `script.js`. Each is a method over the
  store and states the new contents of every table.
- `queries.dfy` (`Queries`): the type and period filters, the dashboard
  and financial-summary aggregates, the five most recent transactions, and
  the age of an animal.

Behaviour of the code worth knowing, as the model states it:

- Recording a death does not make an animal permanently dead. Deleting a
  sale that names the animal makes it active again, whatever its status
  (`Handlers.DeleteTransaction`), and so does editing its status
  (`Handlers.EditAnimal`).
- A save is not atomic. When the save meets a duplicate id, the rows
  inserted before it stay and the rest are lost (`Database.Store.SaveSheepData`).
- Editing an animal stores it as a purchase even when it was born on the
  farm (`Handlers.EditForgetsBirth`). The read-back object carries
  `addition_type`, but the edit reads `additionType`.
- Editing a sale marks its animal sold whatever the animal's status was.
  Only adding a sale requires the animal to be active.

## Model

| member | source | states |
|---|---|---|
| Tables.Keyed | database.js:25 | a table with unique ids stands for the map from each id to its row: the keys are exactly the ids and each key maps to the row carrying it |
| Tables.Without | script.js:541 | `filter(x => x.id !== id)` keeps every row with another id as many times as it occurs, and no row with that id; nothing is dropped when the id is absent |
| Tables.WithoutAppend | script.js:541 | the filter keeps the order: filtering a concatenation filters each part |
| Tables.KeyedWithout | script.js:541-542 | filtering out one id and saving removes exactly that key from the table's map |
| Tables.KeyedUpdate | script.js:682-686 | replacing the row at an index keeps the ids unique and updates exactly that key in the map |
| Tables.KeyedAppend | script.js:141-143 | appending a row with a new id keeps the ids unique and adds exactly that key |
| Tables.UniquePermutation | database.js:257 | a reordering of a table with unique ids still has unique ids |
| Tables.KeyedPermutation | database.js:255-274 | reordering a table (the `ORDER BY` of a read) leaves its map unchanged |
| Tables.SortDesc | database.js:257 | `ORDER BY ... DESC` returns a permutation of the table, sorted latest first |
| Tables.SortDescOfSorted | script.js:474-476 | sorting an already sorted table with the stable sort changes nothing |
| Tables.InsertAll | database.js:288-300 | the insert loop stores every row, in order, exactly when the ids are distinct; otherwise it stops at the first repeated id with the earlier rows stored |
| Tables.UpsertedLookup | database.js:138 | after a run of `INSERT OR REPLACE`, a key maps to the last row given for it, or keeps its old row when no row names it |
| Tables.KeyedUpsert | database.js:142-154 | one `INSERT OR REPLACE` sets exactly that key of the map to the new row |
| Mapping.NormaliseAnimal | database.js:288-300 | the saved animal row takes each field under its snake_case name, then its camelCase name, then a default: type sheep, cost 0, notes empty, status active, addition purchase, date added today |
| Mapping.ResaveAnimal | database.js:264-270 | saving an animal read back from the table stores the same row, whatever the day |
| Mapping.NormaliseAnimalIdempotent | database.js:264-300 | saving, reading and saving again stores the row of the first save |
| Mapping.NormaliseTransaction | database.js:337-346 | the saved transaction row takes `sheep_id` before `sheepId` and `date_added` before `dateAdded` before today; type, amount, date and description are stored verbatim |
| Mapping.ResaveTransaction | database.js:314-318 | saving a transaction read back from the table stores the same row |
| Mapping.NormaliseHealth | database.js:383-393 | the saved health row takes `sheep_id` before `sheepId`, empty medication and notes by default, and `date_added` before `dateAdded` before today |
| Mapping.ResaveHealth | database.js:360-364 | saving a health record read back from the table stores the same row |
| Mapping.ResaveTables | database.js:255-396 | reading a whole table and saving the array back stores the same rows, in the same order |
| Mapping.MigrationAgreesWithSave | database.js:136-200 | for legacy objects with camelCase names only, the migration's defaults are the save's defaults; an object that also carries `animal_type` migrates to a different type |
| Mapping.FallbackAnimals | database.js:235-242 | the fallback reader returns every stored animal in order, with a missing `animalType` set to sheep and nothing else changed |
| Mapping.FallbackIdempotent | database.js:235-242 | reading through the fallback twice gives the same animals as once |
| Mapping.NormaliseAnimalsWithout | script.js:541-542 | normalising the filtered array gives the normalised array filtered by the same id |
| Database.Store.constructor | database.js:23-26 | a store opens over tables with unique ids, and is empty without a database handle |
| Database.Store.GetSheepData | database.js:255-274 | every stored animal comes back exactly once, renamed, latest `date_added` first; nothing comes back without a handle |
| Database.Store.GetTransactionData | database.js:305-322 | every stored transaction comes back exactly once, renamed, latest `date` first; nothing comes back without a handle |
| Database.Store.GetHealthData | database.js:351-368 | every stored health record comes back exactly once, renamed, latest `date` first; nothing comes back without a handle |
| Database.Store.SaveSheepData | database.js:276-303 | without a handle nothing changes; otherwise the animals table is replaced by the normalised array, completely exactly when its ids are distinct, and the other tables are untouched |
| Database.Store.SaveTransactionData | database.js:324-349 | as for animals, on the transactions table |
| Database.Store.SaveHealthData | database.js:370-396 | as for animals, on the health_records table |
| Database.Store.MigrateSheepData | database.js:136-157 | the animals map becomes the old map upserted with each migrated legacy object in order; the other tables are untouched |
| Database.Store.MigrateTransactionData | database.js:159-178 | as for animals, on transactions |
| Database.Store.MigrateHealthData | database.js:180-200 | as for animals, on health records |
| Database.Store.ResaveSheepData | database.js:255-303 | the array `getSheepData` returns has exactly the stored ids, and saving it back stores the same map from id to row |
| Database.Store.ResaveTransactionData | database.js:305-349 | the same round trip for transactions |
| Database.Store.ResaveHealthData | database.js:351-396 | the same round trip for health records |
| Handlers.IndexOfActive | script.js:187-190 | the index found names an active animal with that id, and -1 means no stored animal is both that id and active |
| Handlers.NewAnimalRow | script.js:128-138 | a new animal is stored active, with the form's fields, and costs 0 when it was born on the farm |
| Handlers.FindAnimal | script.js:187-190 | an animal with that id is found in the read-back array exactly when the table holds it, and it is that row read back |
| Handlers.FindActiveAnimal | script.js:187-190 | an active animal with that id is found exactly when the table holds that id with status active |
| Handlers.AddAnimal | script.js:95-162 | not ready: nothing happens; an id already stored: rejected with nothing changed; otherwise exactly that animal is added and the other tables are untouched |
| Handlers.AddTransaction | script.js:170-231 | not ready: nothing happens; a sale naming an animal that is not stored and active: rejected with nothing changed; otherwise the sale makes the animal sold, and the outcome is Ok exactly when the fresh id is not taken, with exactly that transaction added, or Failed with the transactions as they were |
| Handlers.AddHealthRecord | script.js:234-296 | not ready: nothing happens; an animal not stored: rejected with nothing changed; otherwise a death record makes the animal dead, and the outcome is Ok exactly when the fresh id is not taken, with exactly that record added, or Failed with the records as they were |
| Handlers.DeleteSheep | script.js:537-552 | exactly that animal is removed; its transactions and health records stay |
| Handlers.DeleteTransaction | script.js:555-583 | exactly that transaction is removed; an unknown id then fails; deleting a sale of a stored animal makes it active again and otherwise no animal changes |
| Handlers.DeleteHealthRecord | script.js:586-600 | exactly that record is removed and nothing else changes |
| Handlers.EditAnimal | script.js:654-698 | the animal with that id is replaced by the edited one and every other animal stays; an id no longer stored changes nothing |
| Handlers.EditTransaction | script.js:738-810 | invalid fields change nothing; a sale naming an animal not stored is rejected with nothing changed; otherwise a sale makes its animal sold, and the outcome is Ok exactly when the transaction is stored, with exactly it replaced, or RecordNotFound with the transactions as they were |
| Handlers.EditHealthRecord | script.js:852-926 | an empty animal id or date changes nothing; an animal not stored is rejected with nothing changed; otherwise a death record makes the animal dead, and the outcome is Ok exactly when the record is stored, with exactly it replaced (one text in both medication and notes), or RecordNotFound with the records as they were |
| Handlers.EditForgetsBirth | script.js:666-676 | an animal born on the farm is stored as a purchase once edited |
| Handlers.EditKeepsUntouchedFields | script.js:666-676 | the edit keeps the stored birth date, date added and notes, and stores the type, gender and status chosen |
| Queries.Keep | script.js:978-981 | `filter` keeps exactly the elements that pass, each as many times as it occurs, and never more elements than given |
| Queries.KeepAppend | script.js:978-981 | filtering a concatenation filters each part |
| Queries.FilterAnimalsByType | script.js:978-981 | with a type: exactly the animals of that type; with 'all': every animal |
| Queries.IdsOfType | script.js:967-970 | the ids collected are exactly the ids of the animals of that type |
| Queries.FilterTransactionsByAnimal | script.js:964-976 | with a type: exactly the transactions that name an animal of that type; with 'all': every transaction |
| Queries.FilterTransactionsByPeriod | script.js:933-962 | exactly the transactions dated within the period, both ends included; every transaction when the period does not filter |
| Queries.ThisMonthIsTheMonth | script.js:938-941 | 'thisMonth' covers exactly the days of the current month |
| Queries.ThisYearIsTheYear | script.js:942-945 | 'thisYear' covers exactly the days of the current year |
| Queries.FilteredTransactions | script.js:421-429 | a transaction is kept exactly when it passes both the type filter and the period filter |
| Queries.NetProfitIsLedger | script.js:445-457 | sales minus purchases minus expenses equals the running ledger, with a sale in and every other transaction out |
| Queries.KindTotalAppend | script.js:445-455 | each kind's total adds up over a split of the transactions |
| Queries.NetProfitOfPush | script.js:202-214 | recording one more transaction moves the net profit by its signed amount |
| Queries.TotalValueUpdate | script.js:440-442 | replacing one animal moves the total value by the difference between what the two count for: an active animal counts its cost and any other counts nothing |
| Queries.YoungAreLambsAndKids | script.js:437 | the lamb count is the number of lambs plus the number of kids |
| Queries.SheepAndGoatsAreAll | script.js:432-434 | when every animal has a type, the sheep and the goats add up to all the animals |
| Queries.Recent | script.js:474-476 | at most five transactions are shown, latest first, all from the selection, and none left out is later than one shown |
| Queries.RecentOfSorted | script.js:474-476 | transactions already read latest first are shown as their first five |
| Queries.DashboardOf | script.js:415-494 | each count is the number of the type-filtered animals passing its filter (no more than were read), the total value is the cost of the active ones, the net profit is the ledger of the selected transactions, and the recent list is the latest min(5, selected) of them |
| Queries.DashboardCountsAddUp | script.js:431-437 | on animals read from the store, sheep plus goats equals the animal count, and the lamb count is lambs plus kids |
| Queries.FinancialSummary | script.js:497-534 | each total sums the selected transactions of its kind, and the net profit is sales minus purchases minus expenses, which equals the ledger of the selected transactions |
| Queries.CalculateAge | script.js:4-17 | no birth date gives 'Unknown'; otherwise the age is the number of birthdays reached: birthday `age` has come and birthday `age + 1` has not |
| Queries.AgeNeverDecreases | script.js:4-17 | on a later day the age is never smaller |

## Left out

- The sql.js engine, its loading from a CDN, `CREATE TABLE`/`ALTER TABLE` and the periodic `db.export` to localStorage are not modelled. The store is three sequences of rows behind a `connected` flag.
- `migrateFromLocalStorage` (database.js:110-134) is localStorage I/O and is not modelled. As written, its keys start with `kayanet_farm_` but are compared with names starting `sheep_farm_`. So no `migrate*` helper ever runs, yet every non-empty blob is removed.
- The localStorage fallback store is modelled only for its animal reader (`Mapping.FallbackAnimals`). The handlers run against the SQLite store.
- The page is replaced by parameters and an `Outcome`: form fields, `confirm` dialogs, alerts, table rendering, `formatDate` and `formatCurrency`. The `dbReady` flag is the `ready` parameter. The `data-original` snapshot of an edited row is the `original` parameter. `Date.now()` ids are the `freshId` parameter, and the current day is `today`.
- Dates are year, month and day. An empty or unparseable date string is `None`. Time zones and the time part of `new Date(...)` are not modelled.
- Money is an `int`. Floating point and `parseFloat` are not modelled. Where the code tests a parsed number (the purchase cost `|| 0`, the edited amount, the weight `|| null`), a NaN is `None` and is defaulted or rejected as the code does.
- Handlers.AddTransaction: the amount is an `int`, so the path where `parseFloat` gives NaN is not modelled. The code does not test that amount. SQLite stores NaN as NULL, so the insert breaks `amount REAL NOT NULL` (database.js:72). `saveTransactionData` then throws part-way, after the named animal was already saved as sold.
- The `NOT NULL` constraints other than on the amount are not modelled. The model cannot produce a NULL in those columns: an empty form field is an empty string, which SQLite accepts.
- `ORDER BY` with equal dates: the model breaks ties by keeping the stored order, which SQLite does not promise.
- The comparator `new Date(b.date) - new Date(a.date)` with an empty date gives NaN and an unspecified order. The model orders by `DayLe`, which puts an empty date last.
- Animal types other than 'sheep' and 'goat' are not modelled: `Species` has those two values.
- Each handler reads the animals once. The model reads them through `Handlers.LookUpAnimal` and then changes them through `Handlers.SetAnimalStatus`, which re-reads the same unchanged state.
- The `await`s do not interleave other work in this single-page tool, so concurrency is not modelled.
