/** The SQLite store of database.js: the `animals`, `transactions` and
    `health_records` tables behind the global `db` handle, their get
    functions (read, sort, rename), their save functions (delete everything,
    then insert row by row under the primary key) and the legacy
    `INSERT OR REPLACE` migrations. */
module Database {
  import opened Common
  import opened Schema
  import opened Tables
  import opened Mapping

  class Store {
    /** Whether the global `db` handle is set. */
    const connected: bool
    var animals: seq<AnimalRow>
    var transactions: seq<TransactionRow>
    var healthRecords: seq<HealthRow>

    /** Ids are primary keys, and without a handle there is nothing stored. */
    ghost predicate Valid()
      reads this
    {
      && UniqueIds(animals, AnimalRowId)
      && UniqueIds(transactions, TransactionRowId)
      && UniqueIds(healthRecords, HealthRowId)
      && (!connected ==> animals == [] && transactions == [] && healthRecords == [])
    }

    /** The animals table as the collection it stands for, by id. */
    ghost function Animals(): map<string, AnimalRow>
      reads this
      requires Valid()
    {
      Keyed(animals, AnimalRowId)
    }

    ghost function Transactions(): map<string, TransactionRow>
      reads this
      requires Valid()
    {
      Keyed(transactions, TransactionRowId)
    }

    ghost function HealthRecords(): map<string, HealthRow>
      reads this
      requires Valid()
    {
      Keyed(healthRecords, HealthRowId)
    }

    /** A store over tables that already hold rows (a database restored from
        its saved copy), or an empty store when there is no handle. */
    constructor (connected: bool, animals: seq<AnimalRow>, transactions: seq<TransactionRow>, healthRecords: seq<HealthRow>)
      requires UniqueIds(animals, AnimalRowId) && UniqueIds(transactions, TransactionRowId) && UniqueIds(healthRecords, HealthRowId)
      requires !connected ==> animals == [] && transactions == [] && healthRecords == []
      ensures Valid() && this.connected == connected
      ensures this.animals == animals && this.transactions == transactions && this.healthRecords == healthRecords
    {
      this.connected := connected;
      this.animals := animals;
      this.transactions := transactions;
      this.healthRecords := healthRecords;
    }

    /** `getSheepData`: every stored animal once, latest `date_added` first,
        under the read-back names; nothing without a handle. */
    function GetSheepData(): (r: seq<AnimalObject>)
      reads this
      ensures !connected ==> r == []
      ensures connected ==> |r| == |animals|
      ensures forall i, j :: 0 <= i < j < |r| ==> DayLe(r[j].dateAdded, r[i].dateAdded)
      ensures forall i :: 0 <= i < |r| ==> exists k :: 0 <= k < |animals| && r[i] == ReadAnimal(animals[k])
      ensures connected ==> forall k :: 0 <= k < |animals| ==> ReadAnimal(animals[k]) in r
    {
      if !connected then []
      else
        var sorted := SortDesc(animals, AnimalRowAdded);
        var r := ReadAnimals(sorted);
        assert forall i :: 0 <= i < |r| ==> sorted[i] in multiset(animals);
        assert forall k :: 0 <= k < |animals| ==> animals[k] in multiset(sorted);
        r
    }

    /** `getTransactionData`: every stored transaction once, latest `date`
        first; nothing without a handle. */
    function GetTransactionData(): (r: seq<TransactionObject>)
      reads this
      ensures !connected ==> r == []
      ensures connected ==> |r| == |transactions|
      ensures forall i, j :: 0 <= i < j < |r| ==> DayLe(r[j].date, r[i].date)
      ensures forall i :: 0 <= i < |r| ==> exists k :: 0 <= k < |transactions| && r[i] == ReadTransaction(transactions[k])
      ensures connected ==> forall k :: 0 <= k < |transactions| ==> ReadTransaction(transactions[k]) in r
    {
      if !connected then []
      else
        var sorted := SortDesc(transactions, TransactionRowDate);
        var r := ReadTransactions(sorted);
        assert forall i :: 0 <= i < |r| ==> sorted[i] in multiset(transactions);
        assert forall k :: 0 <= k < |transactions| ==> transactions[k] in multiset(sorted);
        r
    }

    /** `getHealthData`: every stored health record once, latest `date`
        first; nothing without a handle. */
    function GetHealthData(): (r: seq<HealthObject>)
      reads this
      ensures !connected ==> r == []
      ensures connected ==> |r| == |healthRecords|
      ensures forall i, j :: 0 <= i < j < |r| ==> DayLe(r[j].date, r[i].date)
      ensures forall i :: 0 <= i < |r| ==> exists k :: 0 <= k < |healthRecords| && r[i] == ReadHealth(healthRecords[k])
      ensures connected ==> forall k :: 0 <= k < |healthRecords| ==> ReadHealth(healthRecords[k]) in r
    {
      if !connected then []
      else
        var sorted := SortDesc(healthRecords, HealthRowDate);
        var r := ReadHealthRecords(sorted);
        assert forall i :: 0 <= i < |r| ==> sorted[i] in multiset(healthRecords);
        assert forall k :: 0 <= k < |healthRecords| ==> healthRecords[k] in multiset(sorted);
        r
    }

    /** `saveSheepData`: without a handle nothing happens. Otherwise the
        table is emptied and the normalised objects are inserted in order;
        the first one whose id is already in the table stops the save, and
        the rows inserted before it stay. The save completes exactly when the
        normalised ids are distinct. */
    method SaveSheepData(input: seq<AnimalObject>, today: Date) returns (outcome: SaveOutcome)
      requires Valid()
      modifies this
      ensures Valid()
      ensures transactions == old(transactions) && healthRecords == old(healthRecords)
      ensures !connected ==> outcome == Saved && animals == old(animals)
      ensures connected ==> ReplacedBy(animals, NormaliseAnimals(input, today), outcome, AnimalRowId)
      ensures connected ==> (outcome == Saved <==> UniqueIds(NormaliseAnimals(input, today), AnimalRowId))
    {
      if !connected {
        return Saved;
      }
      animals, outcome := InsertAll(NormaliseAnimals(input, today), AnimalRowId);
    }

    /** `saveTransactionData`, as `SaveSheepData` for the transactions table. */
    method SaveTransactionData(input: seq<TransactionObject>, today: Date) returns (outcome: SaveOutcome)
      requires Valid()
      modifies this
      ensures Valid()
      ensures animals == old(animals) && healthRecords == old(healthRecords)
      ensures !connected ==> outcome == Saved && transactions == old(transactions)
      ensures connected ==> ReplacedBy(transactions, NormaliseTransactions(input, today), outcome, TransactionRowId)
      ensures connected ==> (outcome == Saved <==> UniqueIds(NormaliseTransactions(input, today), TransactionRowId))
    {
      if !connected {
        return Saved;
      }
      transactions, outcome := InsertAll(NormaliseTransactions(input, today), TransactionRowId);
    }

    /** `saveHealthData`, as `SaveSheepData` for the health_records table. */
    method SaveHealthData(input: seq<HealthObject>, today: Date) returns (outcome: SaveOutcome)
      requires Valid()
      modifies this
      ensures Valid()
      ensures animals == old(animals) && transactions == old(transactions)
      ensures !connected ==> outcome == Saved && healthRecords == old(healthRecords)
      ensures connected ==> ReplacedBy(healthRecords, NormaliseHealthRecords(input, today), outcome, HealthRowId)
      ensures connected ==> (outcome == Saved <==> UniqueIds(NormaliseHealthRecords(input, today), HealthRowId))
    {
      if !connected {
        return Saved;
      }
      healthRecords, outcome := InsertAll(NormaliseHealthRecords(input, today), HealthRowId);
    }

    /** `migrateSheepData`: each legacy object, in order, replaces the row
        with its id or is added; the other tables are untouched. */
    method MigrateSheepData(data: seq<AnimalObject>, today: Date)
      requires Valid() && connected
      modifies this
      ensures Valid()
      ensures transactions == old(transactions) && healthRecords == old(healthRecords)
      ensures Animals() == Upserted(old(Animals()), MigratedAnimals(data, today), AnimalRowId)
    {
      ghost var rows := MigratedAnimals(data, today);
      var i := 0;
      while i < |data|
        invariant 0 <= i <= |data|
        invariant UniqueIds(animals, AnimalRowId) && UniqueIds(transactions, TransactionRowId) && UniqueIds(healthRecords, HealthRowId)
        invariant transactions == old(transactions) && healthRecords == old(healthRecords)
        invariant Keyed(animals, AnimalRowId) == Upserted(old(Animals()), rows[..i], AnimalRowId)
      {
        var row := MigratedAnimal(data[i], today);
        KeyedUpsert(animals, row, AnimalRowId);
        UpsertedSnoc(old(Animals()), rows, i, AnimalRowId);
        animals := Without(animals, AnimalRowId, row.id) + [row];
        i := i + 1;
      }
      assert rows[..|data|] == rows;
    }

    /** `migrateTransactionData`, as `MigrateSheepData` for transactions. */
    method MigrateTransactionData(data: seq<TransactionObject>, today: Date)
      requires Valid() && connected
      modifies this
      ensures Valid()
      ensures animals == old(animals) && healthRecords == old(healthRecords)
      ensures Transactions() == Upserted(old(Transactions()), MigratedTransactions(data, today), TransactionRowId)
    {
      ghost var rows := MigratedTransactions(data, today);
      var i := 0;
      while i < |data|
        invariant 0 <= i <= |data|
        invariant UniqueIds(animals, AnimalRowId) && UniqueIds(transactions, TransactionRowId) && UniqueIds(healthRecords, HealthRowId)
        invariant animals == old(animals) && healthRecords == old(healthRecords)
        invariant Keyed(transactions, TransactionRowId) == Upserted(old(Transactions()), rows[..i], TransactionRowId)
      {
        var row := MigratedTransaction(data[i], today);
        KeyedUpsert(transactions, row, TransactionRowId);
        UpsertedSnoc(old(Transactions()), rows, i, TransactionRowId);
        transactions := Without(transactions, TransactionRowId, row.id) + [row];
        i := i + 1;
      }
      assert rows[..|data|] == rows;
    }

    /** `migrateHealthData`, as `MigrateSheepData` for health records. */
    method MigrateHealthData(data: seq<HealthObject>, today: Date)
      requires Valid() && connected
      modifies this
      ensures Valid()
      ensures animals == old(animals) && transactions == old(transactions)
      ensures HealthRecords() == Upserted(old(HealthRecords()), MigratedHealthRecords(data, today), HealthRowId)
    {
      ghost var rows := MigratedHealthRecords(data, today);
      var i := 0;
      while i < |data|
        invariant 0 <= i <= |data|
        invariant UniqueIds(animals, AnimalRowId) && UniqueIds(transactions, TransactionRowId) && UniqueIds(healthRecords, HealthRowId)
        invariant animals == old(animals) && transactions == old(transactions)
        invariant Keyed(healthRecords, HealthRowId) == Upserted(old(HealthRecords()), rows[..i], HealthRowId)
      {
        var row := MigratedHealth(data[i], today);
        KeyedUpsert(healthRecords, row, HealthRowId);
        UpsertedSnoc(old(HealthRecords()), rows, i, HealthRowId);
        healthRecords := Without(healthRecords, HealthRowId, row.id) + [row];
        i := i + 1;
      }
      assert rows[..|data|] == rows;
    }

    /** Saving back what `getSheepData` returned stores the same collection:
        the read-back objects carry exactly the stored ids, and their rows
        are the stored rows in another order. */
    lemma ResaveSheepData(today: Date)
      requires Valid()
      ensures Ids(GetSheepData(), AnimalObjectId) == Animals().Keys
      ensures UniqueIds(NormaliseAnimals(GetSheepData(), today), AnimalRowId)
      ensures Keyed(NormaliseAnimals(GetSheepData(), today), AnimalRowId) == Animals()
    {
      if connected {
        var sorted := SortDesc(animals, AnimalRowAdded);
        ResaveTables(sorted, [], [], today);
        KeyedPermutation(animals, sorted, AnimalRowId);
      }
      NormaliseAnimalsIds(GetSheepData(), today);
    }

    /** As `ResaveSheepData`, for `getTransactionData`. */
    lemma ResaveTransactionData(today: Date)
      requires Valid()
      ensures Ids(GetTransactionData(), TransactionObjectId) == Transactions().Keys
      ensures UniqueIds(NormaliseTransactions(GetTransactionData(), today), TransactionRowId)
      ensures Keyed(NormaliseTransactions(GetTransactionData(), today), TransactionRowId) == Transactions()
    {
      if connected {
        var sorted := SortDesc(transactions, TransactionRowDate);
        ResaveTables([], sorted, [], today);
        KeyedPermutation(transactions, sorted, TransactionRowId);
      }
      NormaliseTransactionsIds(GetTransactionData(), today);
    }

    /** As `ResaveSheepData`, for `getHealthData`. */
    lemma ResaveHealthData(today: Date)
      requires Valid()
      ensures Ids(GetHealthData(), HealthObjectId) == HealthRecords().Keys
      ensures UniqueIds(NormaliseHealthRecords(GetHealthData(), today), HealthRowId)
      ensures Keyed(NormaliseHealthRecords(GetHealthData(), today), HealthRowId) == HealthRecords()
    {
      if connected {
        var sorted := SortDesc(healthRecords, HealthRowDate);
        ResaveTables([], [], sorted, today);
        KeyedPermutation(healthRecords, sorted, HealthRowId);
      }
      NormaliseHealthRecordsIds(GetHealthData(), today);
    }
  }
}
