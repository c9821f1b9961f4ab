/** The consistency rules of script.js: the three form handlers, the three
    deletes and the three inline-edit saves. Each one reads whole
    collections from the store, checks them, edits the read-back array in
    place and saves it back; the page itself (form fields, alerts, tables)
    is replaced by parameters and an outcome. */
module Handlers {
  import opened Common
  import opened Schema
  import opened Tables
  import opened Mapping
  import opened Database

  /** What the handler reported: success, one of its alerts, or the
      exception its `catch` turned into a failure alert. */
  datatype Outcome = Ok | NotReady | DuplicateId | AnimalNotFound | ValidationError | RecordNotFound | Failed

  /** `animals.find(a => a.id === id && a.status === 'active')`, as an index or -1. */
  function IndexOfActive(s: seq<AnimalObject>, id: string): (r: int)
    ensures -1 <= r < |s|
    ensures r >= 0 ==> s[r].id == id && s[r].status == Some(Active)
    ensures r < 0 <==> forall k :: 0 <= k < |s| ==> s[k].id != id || s[k].status != Some(Active)
  {
    if |s| == 0 then -1
    else if s[0].id == id && s[0].status == Some(Active) then 0
    else
      var r := IndexOfActive(s[1..], id);
      assert forall k :: 1 <= k < |s| ==> s[1..][k - 1] == s[k];
      if r < 0 then -1 else r + 1
  }

  /** The animal the add form builds: purchases keep their cost, births cost nothing. */
  function NewAnimal(animalType: Species, id: string, additionType: Addition, gender: Gender,
                     birthDate: Option<Date>, purchaseCost: int, notes: string, today: Date): AnimalObject
  {
    AnimalObject(
      id, gender, Some(notes), Some(Active),
      None, Some(animalType),
      None, birthDate,
      None, Some(if additionType == Birth then 0 else purchaseCost),
      None, Some(additionType),
      None, Some(today))
  }

  /** The row stored for a new animal: active, with the form's fields, and
      a purchase cost of 0 for a birth. */
  lemma NewAnimalRow(animalType: Species, id: string, additionType: Addition, gender: Gender,
                     birthDate: Option<Date>, purchaseCost: int, notes: string, today: Date)
    ensures NormaliseAnimal(NewAnimal(animalType, id, additionType, gender, birthDate, purchaseCost, notes, today), today)
         == AnimalRow(id, animalType, gender, birthDate, if additionType == Birth then 0 else purchaseCost,
                      notes, Active, additionType, today)
  {
  }

  /** The row stored for a health record the forms build: the animal id and
      both texts verbatim, the date added kept or else today. */
  lemma HealthFormRow(id: string, kind: HealthType, sheepId: string, weight: Option<int>, medication: string,
                      date: Option<Date>, notes: string, added: Option<Date>, today: Date)
    ensures NormaliseHealth(HealthObject(id, kind, None, sheepId, weight, Some(medication), date, Some(notes), None, added), today)
         == HealthRow(id, sheepId, kind, weight, medication, date, notes, ValueOr(added, today))
  {
  }

  /** The row stored for a transaction the forms build: the animal id as
      given (`null` when empty), the date added kept or else today. */
  lemma TransactionFormRow(id: string, kind: TxType, sheepId: string, amount: int, date: Option<Date>,
                           description: string, added: Option<Date>, today: Date)
    ensures NormaliseTransaction(TransactionObject(id, kind, None, OptionalId(sheepId), amount, date, description, None, added), today)
         == TransactionRow(id, kind, OptionalId(sheepId), amount, date, description, ValueOr(added, today))
  {
  }

  /** The animal `saveEditSheep` builds from the edited cells and the
      object kept when the edit started. That object came from
      `getSheepData`, so its addition type sits under `addition_type`; the
      builder reads `additionType`. */
  function EditedAnimal(id: string, original: AnimalObject, animalType: Species, gender: Gender,
                        purchaseCost: Option<int>, status: Status): AnimalObject
  {
    AnimalObject(
      id, gender, Some(TextOr(original.notes, "")), Some(status),
      None, Some(animalType),
      None, original.birthDate,
      None, Some(NumberOr(purchaseCost, 0)),
      None, Some(ValueOr(original.additionType, Purchase)),
      None, original.dateAdded)
  }

  /** `sheepId || null`. */
  function OptionalId(sheepId: string): Option<string>
  {
    if sheepId != "" then Some(sheepId) else None
  }

  // How one in-place edit of a read-back array shows in the keyed table.

  lemma SetStatus(animals: seq<AnimalObject>, k: int, status: Status, today: Date, m: map<string, AnimalRow>)
    requires 0 <= k < |animals|
    requires UniqueIds(NormaliseAnimals(animals, today), AnimalRowId)
    requires Keyed(NormaliseAnimals(animals, today), AnimalRowId) == m
    ensures animals[k].id in m
    ensures UniqueIds(NormaliseAnimals(animals[k := animals[k].(status := Some(status))], today), AnimalRowId)
    ensures Keyed(NormaliseAnimals(animals[k := animals[k].(status := Some(status))], today), AnimalRowId)
         == m[animals[k].id := m[animals[k].id].(status := status)]
  {
    var rows := NormaliseAnimals(animals, today);
    var o := animals[k].(status := Some(status));
    NormaliseAnimalsEdits(animals, today, k, o);
    KeyedUpdate(rows, k, NormaliseAnimal(o, today), AnimalRowId);
  }

  lemma AppendAnimal(animals: seq<AnimalObject>, o: AnimalObject, today: Date, m: map<string, AnimalRow>)
    requires UniqueIds(NormaliseAnimals(animals, today), AnimalRowId)
    requires Keyed(NormaliseAnimals(animals, today), AnimalRowId) == m
    requires o.id !in m
    ensures UniqueIds(NormaliseAnimals(animals + [o], today), AnimalRowId)
    ensures Keyed(NormaliseAnimals(animals + [o], today), AnimalRowId) == m[o.id := NormaliseAnimal(o, today)]
  {
    var rows := NormaliseAnimals(animals, today);
    var row := NormaliseAnimal(o, today);
    NormaliseAnimalsEdits(animals, today, 0, o);
    KeyedAppend(rows, row, AnimalRowId);
  }

  lemma AppendTransaction(ts: seq<TransactionObject>, o: TransactionObject, today: Date, m: map<string, TransactionRow>)
    requires UniqueIds(NormaliseTransactions(ts, today), TransactionRowId)
    requires Keyed(NormaliseTransactions(ts, today), TransactionRowId) == m
    ensures NormaliseTransactions(ts + [o], today) == NormaliseTransactions(ts, today) + [NormaliseTransaction(o, today)]
    ensures o.id !in m ==> UniqueIds(NormaliseTransactions(ts + [o], today), TransactionRowId)
    ensures o.id !in m ==> Keyed(NormaliseTransactions(ts + [o], today), TransactionRowId) == m[o.id := NormaliseTransaction(o, today)]
    ensures o.id in m ==> !UniqueIds(NormaliseTransactions(ts + [o], today), TransactionRowId)
  {
    var rows := NormaliseTransactions(ts, today);
    var row := NormaliseTransaction(o, today);
    NormaliseTransactionsEdits(ts, today, 0, o);
    if o.id !in m {
      KeyedAppend(rows, row, TransactionRowId);
    } else {
      assert TransactionRowId(row) in Ids(rows, TransactionRowId);
      var p :| 0 <= p < |rows| && TransactionRowId(rows[p]) == TransactionRowId(row);
      var after := rows + [row];
      assert after[p] == rows[p] && after[|rows|] == row;
    }
  }

  lemma AppendHealth(hs: seq<HealthObject>, o: HealthObject, today: Date, m: map<string, HealthRow>)
    requires UniqueIds(NormaliseHealthRecords(hs, today), HealthRowId)
    requires Keyed(NormaliseHealthRecords(hs, today), HealthRowId) == m
    ensures NormaliseHealthRecords(hs + [o], today) == NormaliseHealthRecords(hs, today) + [NormaliseHealth(o, today)]
    ensures o.id !in m ==> UniqueIds(NormaliseHealthRecords(hs + [o], today), HealthRowId)
    ensures o.id !in m ==> Keyed(NormaliseHealthRecords(hs + [o], today), HealthRowId) == m[o.id := NormaliseHealth(o, today)]
    ensures o.id in m ==> !UniqueIds(NormaliseHealthRecords(hs + [o], today), HealthRowId)
  {
    var rows := NormaliseHealthRecords(hs, today);
    var row := NormaliseHealth(o, today);
    NormaliseHealthRecordsEdits(hs, today, 0, o);
    if o.id !in m {
      KeyedAppend(rows, row, HealthRowId);
    } else {
      assert HealthRowId(row) in Ids(rows, HealthRowId);
      var p :| 0 <= p < |rows| && HealthRowId(rows[p]) == HealthRowId(row);
      var after := rows + [row];
      assert after[p] == rows[p] && after[|rows|] == row;
    }
  }

  /** What a fresh `getSheepData` shows of one id: `find` by id succeeds
      exactly for a stored animal, and finds that animal as read back. */
  lemma FindAnimal(store: Store, id: string, today: Date)
    requires store.Valid()
    ensures var read := store.GetSheepData();
      var k := IndexOfId(read, AnimalObjectId, id);
      && (k >= 0 <==> id in store.Animals())
      && (k >= 0 ==> read[k] == ReadAnimal(store.Animals()[id]))
      && (id in store.Animals() ==> store.connected)
  {
    var read := store.GetSheepData();
    store.ResaveSheepData(today);
    var k := IndexOfId(read, AnimalObjectId, id);
    if k >= 0 {
      var rows := NormaliseAnimals(read, today);
      var sorted := SortDesc(store.animals, AnimalRowAdded);
      assert read[k] == ReadAnimal(sorted[k]);
      ResaveAnimal(sorted[k], today);
      assert rows[k] == sorted[k];
    }
  }

  /** `find` of an active animal with that id, on a fresh `getSheepData`,
      succeeds exactly for a stored animal that is active. */
  lemma FindActiveAnimal(store: Store, id: string, today: Date)
    requires store.Valid()
    ensures var read := store.GetSheepData();
      IndexOfActive(read, id) >= 0 <==> id in store.Animals() && store.Animals()[id].status == Active
  {
    var read := store.GetSheepData();
    FindAnimal(store, id, today);
    var k := IndexOfId(read, AnimalObjectId, id);
    var r := IndexOfActive(read, id);
    if r >= 0 {
      store.ResaveSheepData(today);
      var rows := NormaliseAnimals(read, today);
      assert AnimalRowId(rows[r]) == id && AnimalRowId(rows[k]) == id;
      assert r == k;
    } else if k >= 0 {
      assert read[k].id == id;
    }
  }

  /** `getSheepData()`, as the handlers rely on it: saving what it returns
      unchanged would store exactly the animals there are. */
  method LoadAnimals(store: Store, today: Date) returns (animals: seq<AnimalObject>)
    requires store.Valid()
    ensures Ids(animals, AnimalObjectId) == store.Animals().Keys
    ensures UniqueIds(NormaliseAnimals(animals, today), AnimalRowId)
    ensures Keyed(NormaliseAnimals(animals, today), AnimalRowId) == store.Animals()
  {
    animals := store.GetSheepData();
    store.ResaveSheepData(today);
  }

  /** `getTransactionData()`, as the handlers rely on it. */
  method LoadTransactions(store: Store, today: Date) returns (transactions: seq<TransactionObject>)
    requires store.Valid()
    ensures Ids(transactions, TransactionObjectId) == store.Transactions().Keys
    ensures UniqueIds(NormaliseTransactions(transactions, today), TransactionRowId)
    ensures Keyed(NormaliseTransactions(transactions, today), TransactionRowId) == store.Transactions()
  {
    transactions := store.GetTransactionData();
    store.ResaveTransactionData(today);
  }

  /** `getHealthData()`, as the handlers rely on it. */
  method LoadHealthRecords(store: Store, today: Date) returns (healthRecords: seq<HealthObject>)
    requires store.Valid()
    ensures Ids(healthRecords, HealthObjectId) == store.HealthRecords().Keys
    ensures UniqueIds(NormaliseHealthRecords(healthRecords, today), HealthRowId)
    ensures Keyed(NormaliseHealthRecords(healthRecords, today), HealthRowId) == store.HealthRecords()
  {
    healthRecords := store.GetHealthData();
    store.ResaveHealthData(today);
  }

  /** `animalRecord.status = status; saveSheepData(animals)`, on the array
      just read: only that animal changes, and only in its status. */
  method SaveWithStatus(store: Store, animals: seq<AnimalObject>, k: int, status: Status, today: Date)
    requires store.Valid() && animals == store.GetSheepData() && 0 <= k < |animals|
    modifies store
    ensures store.Valid()
    ensures store.transactions == old(store.transactions) && store.healthRecords == old(store.healthRecords)
    ensures animals[k].id in old(store.Animals())
    ensures store.Animals() == old(store.Animals())[animals[k].id := old(store.Animals())[animals[k].id].(status := status)]
  {
    store.ResaveSheepData(today);
    SetStatus(animals, k, status, today, store.Animals());
    var edited := animals[k := animals[k].(status := Some(status))];
    var saved := store.SaveSheepData(edited, today);
  }

  /** `getSheepData().find(a => a.id === id)`, and whether what it finds is
      active. */
  method LookUpAnimal(store: Store, id: string, today: Date) returns (found: bool, active: bool)
    requires store.Valid()
    ensures found <==> id in store.Animals()
    ensures active <==> found && store.Animals()[id].status == Active
    ensures found ==> store.connected
  {
    var animals := store.GetSheepData();
    FindAnimal(store, id, today);
    FindActiveAnimal(store, id, today);
    found := IndexOfId(animals, AnimalObjectId, id) >= 0;
    active := IndexOfActive(animals, id) >= 0;
  }

  /** Read the animals, find the one with that id, set its status and save
      them all back: only that animal changes, and only in its status. */
  method SetAnimalStatus(store: Store, id: string, status: Status, today: Date)
    requires store.Valid() && id in store.Animals()
    modifies store
    ensures store.Valid()
    ensures store.transactions == old(store.transactions) && store.healthRecords == old(store.healthRecords)
    ensures store.Animals() == old(store.Animals())[id := old(store.Animals())[id].(status := status)]
  {
    var animals := store.GetSheepData();
    FindAnimal(store, id, today);
    var k := IndexOfId(animals, AnimalObjectId, id);
    SaveWithStatus(store, animals, k, status, today);
  }

  /** `transactions.push(o); saveTransactionData(transactions)` on a fresh
      read: the transaction is added unless its id is taken, in which case
      the save fails on it and the transactions stay as they were. */
  method PushTransaction(store: Store, o: TransactionObject, today: Date) returns (saved: bool)
    requires store.Valid()
    modifies store
    ensures store.Valid()
    ensures store.animals == old(store.animals) && store.healthRecords == old(store.healthRecords)
    ensures saved <==> o.id !in old(store.Transactions())
    ensures saved && store.connected ==> store.Transactions() == old(store.Transactions())[o.id := NormaliseTransaction(o, today)]
    ensures !saved ==> store.Transactions() == old(store.Transactions())
  {
    var transactions := LoadTransactions(store, today);
    AppendTransaction(transactions, o, today, store.Transactions());
    var outcome := store.SaveTransactionData(transactions + [o], today);
    if outcome.ConstraintViolation? {
      ReplaceFailsOnLast(store.transactions, NormaliseTransactions(transactions, today), NormaliseTransaction(o, today), outcome.at, TransactionRowId);
      return false;
    }
    return true;
  }

  /** `healthRecords.push(o); saveHealthData(healthRecords)`, as `PushTransaction`. */
  method PushHealthRecord(store: Store, o: HealthObject, today: Date) returns (saved: bool)
    requires store.Valid()
    modifies store
    ensures store.Valid()
    ensures store.animals == old(store.animals) && store.transactions == old(store.transactions)
    ensures saved <==> o.id !in old(store.HealthRecords())
    ensures saved && store.connected ==> store.HealthRecords() == old(store.HealthRecords())[o.id := NormaliseHealth(o, today)]
    ensures !saved ==> store.HealthRecords() == old(store.HealthRecords())
  {
    var healthRecords := LoadHealthRecords(store, today);
    AppendHealth(healthRecords, o, today, store.HealthRecords());
    var outcome := store.SaveHealthData(healthRecords + [o], today);
    if outcome.ConstraintViolation? {
      ReplaceFailsOnLast(store.healthRecords, NormaliseHealthRecords(healthRecords, today), NormaliseHealth(o, today), outcome.at, HealthRowId);
      return false;
    }
    return true;
  }

  /** `index = findIndex(id); if found, replace at index and save`, on a
      fresh read of the transactions. */
  method ReplaceTransaction(store: Store, updated: TransactionObject, today: Date) returns (found: bool)
    requires store.Valid()
    modifies store
    ensures store.Valid()
    ensures store.animals == old(store.animals) && store.healthRecords == old(store.healthRecords)
    ensures found <==> updated.id in old(store.Transactions())
    ensures found ==> store.Transactions() == old(store.Transactions())[updated.id := NormaliseTransaction(updated, today)]
    ensures !found ==> store.transactions == old(store.transactions)
  {
    var transactions := LoadTransactions(store, today);
    var index := IndexOfId(transactions, TransactionObjectId, updated.id);
    if index < 0 {
      return false;
    }
    NormaliseTransactionsEdits(transactions, today, index, updated);
    KeyedUpdate(NormaliseTransactions(transactions, today), index, NormaliseTransaction(updated, today), TransactionRowId);
    transactions := transactions[index := updated];
    var saved := store.SaveTransactionData(transactions, today);
    return true;
  }

  /** As `ReplaceTransaction`, for the health records. */
  method ReplaceHealthRecord(store: Store, updated: HealthObject, today: Date) returns (found: bool)
    requires store.Valid()
    modifies store
    ensures store.Valid()
    ensures store.animals == old(store.animals) && store.transactions == old(store.transactions)
    ensures found <==> updated.id in old(store.HealthRecords())
    ensures found ==> store.HealthRecords() == old(store.HealthRecords())[updated.id := NormaliseHealth(updated, today)]
    ensures !found ==> store.healthRecords == old(store.healthRecords)
  {
    var healthRecords := LoadHealthRecords(store, today);
    var index := IndexOfId(healthRecords, HealthObjectId, updated.id);
    if index < 0 {
      return false;
    }
    NormaliseHealthRecordsEdits(healthRecords, today, index, updated);
    KeyedUpdate(NormaliseHealthRecords(healthRecords, today), index, NormaliseHealth(updated, today), HealthRowId);
    healthRecords := healthRecords[index := updated];
    var saved := store.SaveHealthData(healthRecords, today);
    return true;
  }

  /** The animal form. Not ready: nothing happens. An id already in use:
      rejected, nothing changes. Otherwise exactly one animal is added,
      active, costing nothing when it was born on the farm. */
  method AddAnimal(store: Store, ready: bool, animalType: Species, id: string, additionType: Addition,
                   gender: Gender, birthDate: Option<Date>, purchaseCost: int, notes: string, today: Date)
    returns (outcome: Outcome)
    requires store.Valid()
    modifies store
    ensures store.Valid()
    ensures store.transactions == old(store.transactions) && store.healthRecords == old(store.healthRecords)
    ensures !ready ==> outcome == NotReady
    ensures ready && id in old(store.Animals()) ==> outcome == DuplicateId
    ensures ready && id !in old(store.Animals()) ==> outcome == Ok
    ensures outcome != Ok ==> store.animals == old(store.animals)
    ensures outcome == Ok && store.connected ==>
      store.Animals() == old(store.Animals())[id := AnimalRow(id, animalType, gender, birthDate,
        if additionType == Birth then 0 else purchaseCost, notes, Active, additionType, today)]
  {
    if !ready {
      return NotReady;
    }
    var animals := LoadAnimals(store, today);
    if IndexOfId(animals, AnimalObjectId, id) >= 0 {
      return DuplicateId;
    }
    var newAnimal := NewAnimal(animalType, id, additionType, gender, birthDate, purchaseCost, notes, today);
    NewAnimalRow(animalType, id, additionType, gender, birthDate, purchaseCost, notes, today);
    AppendAnimal(animals, newAnimal, today, store.Animals());
    animals := animals + [newAnimal];
    var saved := store.SaveSheepData(animals, today);
    return Ok;
  }

  /** Whether the financial form records the sale of a named animal. */
  predicate SaleOfAnimal(kind: TxType, sheepId: string)
  {
    kind == Sale && sheepId != ""
  }

  /** The financial form. Not ready: nothing happens. A sale naming an
      animal needs that animal to be active, else nothing changes; the
      animal becomes sold. Then one transaction is added under the fresh
      id; should that id be taken, the save fails with the transactions as
      they were (and the sold animal stays sold). */
  method AddTransaction(store: Store, ready: bool, kind: TxType, sheepId: string, amount: int,
                        date: Option<Date>, description: string, freshId: string, today: Date)
    returns (outcome: Outcome)
    requires store.Valid()
    modifies store
    ensures store.Valid()
    ensures store.healthRecords == old(store.healthRecords)
    ensures !ready ==> outcome == NotReady
    ensures ready && SaleOfAnimal(kind, sheepId) && !(sheepId in old(store.Animals()) && old(store.Animals())[sheepId].status == Active)
      ==> outcome == AnimalNotFound
    ensures ready && !(SaleOfAnimal(kind, sheepId) && !(sheepId in old(store.Animals()) && old(store.Animals())[sheepId].status == Active))
      ==> outcome == Ok || outcome == Failed
    ensures (outcome == NotReady || outcome == AnimalNotFound) ==>
      store.animals == old(store.animals) && store.transactions == old(store.transactions)
    ensures (outcome == Ok || outcome == Failed) && !SaleOfAnimal(kind, sheepId) ==> store.animals == old(store.animals)
    ensures (outcome == Ok || outcome == Failed) && SaleOfAnimal(kind, sheepId) ==>
      sheepId in old(store.Animals()) && old(store.Animals())[sheepId].status == Active &&
      store.Animals() == old(store.Animals())[sheepId := old(store.Animals())[sheepId].(status := Sold)]
    ensures (outcome == Ok || outcome == Failed) ==> (outcome == Ok <==> freshId !in old(store.Transactions()))
    ensures outcome == Ok && store.connected ==>
      store.Transactions() == old(store.Transactions())[freshId :=
        TransactionRow(freshId, kind, OptionalId(sheepId), amount, date, description, today)]
    ensures outcome == Ok && !store.connected ==> store.transactions == old(store.transactions) == []
    ensures outcome == Failed ==> store.Transactions() == old(store.Transactions())
  {
    if !ready {
      return NotReady;
    }
    if kind == Sale && sheepId != "" {
      var found, active := LookUpAnimal(store, sheepId, today);
      if !active {
        return AnimalNotFound;
      }
      SetAnimalStatus(store, sheepId, Sold, today);
    }
    var newTransaction := TransactionObject(freshId, kind, None, OptionalId(sheepId), amount, date, description, None, Some(today));
    TransactionFormRow(freshId, kind, sheepId, amount, date, description, Some(today), today);
    var saved := PushTransaction(store, newTransaction, today);
    return if saved then Ok else Failed;
  }

  /** The health form. Not ready: nothing happens. The animal must exist,
      whatever its status, else nothing changes. A death record makes it
      dead. Then one record is added under the fresh id; should that id be
      taken, the save fails with the records as they were. */
  method AddHealthRecord(store: Store, ready: bool, sheepId: string, kind: HealthType, weight: Option<int>,
                         medication: string, date: Option<Date>, notes: string, freshId: string, today: Date)
    returns (outcome: Outcome)
    requires store.Valid()
    modifies store
    ensures store.Valid()
    ensures store.transactions == old(store.transactions)
    ensures !ready ==> outcome == NotReady
    ensures ready && sheepId !in old(store.Animals()) ==> outcome == AnimalNotFound
    ensures ready && sheepId in old(store.Animals()) ==> outcome == Ok || outcome == Failed
    ensures (outcome == NotReady || outcome == AnimalNotFound) ==>
      store.animals == old(store.animals) && store.healthRecords == old(store.healthRecords)
    ensures (outcome == Ok || outcome == Failed) ==> sheepId in old(store.Animals())
    ensures (outcome == Ok || outcome == Failed) && kind != Death ==> store.animals == old(store.animals)
    ensures (outcome == Ok || outcome == Failed) && kind == Death ==>
      store.Animals() == old(store.Animals())[sheepId := old(store.Animals())[sheepId].(status := Dead)]
    ensures (outcome == Ok || outcome == Failed) ==> (outcome == Ok <==> freshId !in old(store.HealthRecords()))
    ensures outcome == Ok ==>
      store.HealthRecords() == old(store.HealthRecords())[freshId :=
        HealthRow(freshId, sheepId, kind, weight, medication, date, notes, today)]
    ensures outcome == Failed ==> store.HealthRecords() == old(store.HealthRecords())
  {
    if !ready {
      return NotReady;
    }
    var found, active := LookUpAnimal(store, sheepId, today);
    if !found {
      return AnimalNotFound;
    }
    if kind == Death {
      SetAnimalStatus(store, sheepId, Dead, today);
    }
    var newRecord := HealthObject(freshId, kind, None, sheepId, weight, Some(medication), date, Some(notes), None, Some(today));
    HealthFormRow(freshId, kind, sheepId, weight, medication, date, notes, Some(today), today);
    var saved := PushHealthRecord(store, newRecord, today);
    return if saved then Ok else Failed;
  }

  /** `deleteSheep` (once confirmed): exactly the animal with that id goes;
      its transactions and health records stay. */
  method DeleteSheep(store: Store, id: string, today: Date) returns (outcome: Outcome)
    requires store.Valid()
    modifies store
    ensures store.Valid()
    ensures outcome == Ok
    ensures store.transactions == old(store.transactions) && store.healthRecords == old(store.healthRecords)
    ensures store.Animals() == old(store.Animals()) - {id}
  {
    var animals := LoadAnimals(store, today);
    NormaliseAnimalsWithout(animals, today, id);
    KeyedWithout(NormaliseAnimals(animals, today), AnimalRowId, id);
    var saved := store.SaveSheepData(Without(animals, AnimalObjectId, id), today);
    return Ok;
  }

  /** `deleteHealthRecord` (once confirmed): exactly the record with that id
      goes; nothing else changes. */
  method DeleteHealthRecord(store: Store, id: string, today: Date) returns (outcome: Outcome)
    requires store.Valid()
    modifies store
    ensures store.Valid()
    ensures outcome == Ok
    ensures store.animals == old(store.animals) && store.transactions == old(store.transactions)
    ensures store.HealthRecords() == old(store.HealthRecords()) - {id}
  {
    var healthRecords := LoadHealthRecords(store, today);
    NormaliseHealthRecordsWithout(healthRecords, today, id);
    KeyedWithout(NormaliseHealthRecords(healthRecords, today), HealthRowId, id);
    var saved := store.SaveHealthData(Without(healthRecords, HealthObjectId, id), today);
    return Ok;
  }

  /** Whether deleting `t` revives an animal: it is a sale naming an animal. */
  predicate RevivesAnimal(t: TransactionRow)
  {
    t.kind == Sale && TruthyText(t.sheep_id)
  }

  /** `transactions.filter(t => t.id !== id); saveTransactionData(...)`,
      returning the transaction `find` saw before the filter. */
  method RemoveTransaction(store: Store, id: string, today: Date) returns (removed: Option<TransactionObject>)
    requires store.Valid()
    modifies store
    ensures store.Valid()
    ensures store.animals == old(store.animals) && store.healthRecords == old(store.healthRecords)
    ensures store.Transactions() == old(store.Transactions()) - {id}
    ensures removed.Some? <==> id in old(store.Transactions())
    ensures removed.Some? ==> removed.value == ReadTransaction(old(store.Transactions())[id])
  {
    var transactions := store.GetTransactionData();
    store.ResaveTransactionData(today);
    var k := IndexOfId(transactions, TransactionObjectId, id);
    NormaliseTransactionsWithout(transactions, today, id);
    KeyedWithout(NormaliseTransactions(transactions, today), TransactionRowId, id);
    var saved := store.SaveTransactionData(Without(transactions, TransactionObjectId, id), today);
    if k < 0 {
      return None;
    }
    assert NormaliseTransaction(transactions[k], today) == NormaliseTransactions(transactions, today)[k];
    ResaveTransaction(SortDesc(old(store.transactions), TransactionRowDate)[k], today);
    return Some(transactions[k]);
  }

  /** `deleteTransaction` (once confirmed): exactly the transaction with
      that id goes. An unknown id then fails (the handler reads the type of
      the missing transaction) with the animals untouched. Deleting a sale
      that names an existing animal makes that animal active again,
      whatever its status was. */
  method DeleteTransaction(store: Store, id: string, today: Date) returns (outcome: Outcome)
    requires store.Valid()
    modifies store
    ensures store.Valid()
    ensures store.healthRecords == old(store.healthRecords)
    ensures store.Transactions() == old(store.Transactions()) - {id}
    ensures outcome == (if id in old(store.Transactions()) then Ok else Failed)
    ensures id in old(store.Transactions()) && RevivesAnimal(old(store.Transactions())[id])
            && old(store.Transactions())[id].sheep_id.value in old(store.Animals()) ==>
      var animal := old(store.Transactions())[id].sheep_id.value;
      store.Animals() == old(store.Animals())[animal := old(store.Animals())[animal].(status := Active)]
    ensures !(id in old(store.Transactions()) && RevivesAnimal(old(store.Transactions())[id])
              && old(store.Transactions())[id].sheep_id.value in old(store.Animals())) ==>
      store.animals == old(store.animals)
  {
    var transaction := RemoveTransaction(store, id, today);
    if transaction.None? {
      return Failed;
    }
    if transaction.value.kind == Sale && TruthyText(transaction.value.sheepId) {
      var found, active := LookUpAnimal(store, transaction.value.sheepId.value, today);
      if found {
        SetAnimalStatus(store, transaction.value.sheepId.value, Active, today);
      }
    }
    return Ok;
  }

  /** `saveEditSheep`: the animal with that id is replaced by the edited one
      and every other animal stays; an id no longer stored changes nothing. */
  method EditAnimal(store: Store, id: string, original: AnimalObject, animalType: Species, gender: Gender,
                    purchaseCost: Option<int>, status: Status, today: Date)
    returns (outcome: Outcome)
    requires store.Valid()
    modifies store
    ensures store.Valid()
    ensures store.transactions == old(store.transactions) && store.healthRecords == old(store.healthRecords)
    ensures outcome == (if id in old(store.Animals()) then Ok else RecordNotFound)
    ensures outcome == RecordNotFound ==> store.animals == old(store.animals)
    ensures outcome == Ok ==>
      store.Animals() == old(store.Animals())[id := NormaliseAnimal(EditedAnimal(id, original, animalType, gender, purchaseCost, status), today)]
  {
    var updated := EditedAnimal(id, original, animalType, gender, purchaseCost, status);
    var animals := LoadAnimals(store, today);
    var index := IndexOfId(animals, AnimalObjectId, id);
    if index < 0 {
      return RecordNotFound;
    }
    NormaliseAnimalsEdits(animals, today, index, updated);
    KeyedUpdate(NormaliseAnimals(animals, today), index, NormaliseAnimal(updated, today), AnimalRowId);
    animals := animals[index := updated];
    var saved := store.SaveSheepData(animals, today);
    return Ok;
  }

  /** Whether `saveEditTransaction` rejects the edited fields: an amount of
      0 or NaN, or an empty date or description. */
  predicate InvalidTransactionEdit(amount: Option<int>, date: Option<Date>, description: string)
  {
    !TruthyNumber(amount) || date.None? || description == ""
  }

  /** `saveEditTransaction`. Invalid fields: nothing changes. A sale naming
      an animal needs that animal to exist (whatever its status), else
      nothing changes, and makes it sold. The transaction with that id is
      then replaced and every other one stays; an id no longer stored
      leaves the transactions alone, after the sale has been applied. */
  method EditTransaction(store: Store, id: string, kind: TxType, sheepId: string, amount: Option<int>,
                         date: Option<Date>, description: string, originalAdded: Option<Date>, today: Date)
    returns (outcome: Outcome)
    requires store.Valid()
    modifies store
    ensures store.Valid()
    ensures store.healthRecords == old(store.healthRecords)
    ensures InvalidTransactionEdit(amount, date, description) ==> outcome == ValidationError
    ensures !InvalidTransactionEdit(amount, date, description) && SaleOfAnimal(kind, sheepId) && sheepId !in old(store.Animals())
      ==> outcome == AnimalNotFound
    ensures !InvalidTransactionEdit(amount, date, description) && !(SaleOfAnimal(kind, sheepId) && sheepId !in old(store.Animals()))
      ==> outcome == Ok || outcome == RecordNotFound
    ensures (outcome == ValidationError || outcome == AnimalNotFound) ==>
      store.animals == old(store.animals) && store.transactions == old(store.transactions)
    ensures (outcome == Ok || outcome == RecordNotFound) && !SaleOfAnimal(kind, sheepId) ==> store.animals == old(store.animals)
    ensures (outcome == Ok || outcome == RecordNotFound) && SaleOfAnimal(kind, sheepId) ==>
      sheepId in old(store.Animals()) &&
      store.Animals() == old(store.Animals())[sheepId := old(store.Animals())[sheepId].(status := Sold)]
    ensures (outcome == Ok || outcome == RecordNotFound) ==> (outcome == Ok <==> id in old(store.Transactions()))
    ensures outcome == RecordNotFound ==> store.transactions == old(store.transactions)
    ensures outcome == Ok ==>
      amount.Some? && store.Transactions() == old(store.Transactions())[id :=
        TransactionRow(id, kind, OptionalId(sheepId), amount.value, date, description, ValueOr(originalAdded, today))]
  {
    if !TruthyNumber(amount) || date.None? || description == "" {
      return ValidationError;
    }
    var updated := TransactionObject(id, kind, None, OptionalId(sheepId), amount.value, date, description, None, originalAdded);
    TransactionFormRow(id, kind, sheepId, amount.value, date, description, originalAdded, today);
    if kind == Sale && sheepId != "" {
      var found, active := LookUpAnimal(store, sheepId, today);
      if !found {
        return AnimalNotFound;
      }
      SetAnimalStatus(store, sheepId, Sold, today);
    }
    var replaced := ReplaceTransaction(store, updated, today);
    return if replaced then Ok else RecordNotFound;
  }

  /** `saveEditHealthRecord`. An empty animal id or date: nothing changes.
      The animal must exist, whatever its status, else nothing changes; a
      death record makes it dead. The record with that id is then replaced
      (one text box fills both medication and notes) and every other one
      stays; an id no longer stored leaves the records alone. */
  method EditHealthRecord(store: Store, id: string, sheepId: string, kind: HealthType, weight: Option<int>,
                          text: string, date: Option<Date>, originalAdded: Option<Date>, today: Date)
    returns (outcome: Outcome)
    requires store.Valid()
    modifies store
    ensures store.Valid()
    ensures store.transactions == old(store.transactions)
    ensures sheepId == "" || date.None? ==> outcome == ValidationError
    ensures sheepId != "" && date.Some? && sheepId !in old(store.Animals()) ==> outcome == AnimalNotFound
    ensures sheepId != "" && date.Some? && sheepId in old(store.Animals()) ==> outcome == Ok || outcome == RecordNotFound
    ensures (outcome == ValidationError || outcome == AnimalNotFound) ==>
      store.animals == old(store.animals) && store.healthRecords == old(store.healthRecords)
    ensures (outcome == Ok || outcome == RecordNotFound) ==> sheepId in old(store.Animals())
    ensures (outcome == Ok || outcome == RecordNotFound) && kind != Death ==> store.animals == old(store.animals)
    ensures (outcome == Ok || outcome == RecordNotFound) && kind == Death ==>
      store.Animals() == old(store.Animals())[sheepId := old(store.Animals())[sheepId].(status := Dead)]
    ensures (outcome == Ok || outcome == RecordNotFound) ==> (outcome == Ok <==> id in old(store.HealthRecords()))
    ensures outcome == RecordNotFound ==> store.healthRecords == old(store.healthRecords)
    ensures outcome == Ok ==>
      store.HealthRecords() == old(store.HealthRecords())[id :=
        HealthRow(id, sheepId, kind, weight, text, date, text, ValueOr(originalAdded, today))]
  {
    if sheepId == "" || date.None? {
      return ValidationError;
    }
    var updated := HealthObject(id, kind, None, sheepId, weight, Some(text), date, Some(text), None, originalAdded);
    HealthFormRow(id, kind, sheepId, weight, text, date, text, originalAdded, today);
    var found, active := LookUpAnimal(store, sheepId, today);
    if !found {
      return AnimalNotFound;
    }
    if kind == Death {
      SetAnimalStatus(store, sheepId, Dead, today);
    }
    found := ReplaceHealthRecord(store, updated, today);
    return if found then Ok else RecordNotFound;
  }

  /** An animal added by birth, once edited, is stored as a purchase: the
      edit builder looks for `additionType` on an object that carries
      `addition_type`. */
  lemma EditForgetsBirth(r: AnimalRow, animalType: Species, gender: Gender, purchaseCost: Option<int>,
                         status: Status, today: Date)
    requires r.addition_type == Birth
    ensures NormaliseAnimal(EditedAnimal(r.id, ReadAnimal(r), animalType, gender, purchaseCost, status), today).addition_type == Purchase
  {
  }

  /** Everything else the edit did not touch is kept: birth date, date
      added and notes of the stored row. */
  lemma EditKeepsUntouchedFields(r: AnimalRow, animalType: Species, gender: Gender, purchaseCost: Option<int>,
                                 status: Status, today: Date)
    ensures var e := NormaliseAnimal(EditedAnimal(r.id, ReadAnimal(r), animalType, gender, purchaseCost, status), today);
      e.birth_date == r.birth_date && e.date_added == r.date_added && e.notes == r.notes &&
      e.animal_type == animalType && e.gender == gender && e.status == status
  {
  }
}
