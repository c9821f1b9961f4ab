/** How database.js turns objects into rows and rows back into objects:
    the defaults and the snake_case-over-camelCase choice of the save
    functions, the column renaming of the get functions, the defaults of the
    legacy `migrate*` helpers, and the animal type fill of the fallback
    reader. */
module Mapping {
  import opened Common
  import opened Schema
  import opened Tables

  /** The row `saveSheepData` inserts for one object: each renamed column is
      read under its snake_case name first, then its camelCase name, then a
      default; `notes` and `status` get defaults too. */
  function NormaliseAnimal(o: AnimalObject, today: Date): (r: AnimalRow)
    ensures r.id == o.id && r.gender == o.gender
    ensures r.animal_type == (if o.animal_type.Some? then o.animal_type.value
                              else if o.animalType.Some? then o.animalType.value else Sheep)
    ensures r.birth_date == (if o.birth_date.Some? then o.birth_date else o.birthDate)
    ensures TruthyNumber(o.purchase_cost) ==> r.purchase_cost == o.purchase_cost.value
    ensures !TruthyNumber(o.purchase_cost) && TruthyNumber(o.purchaseCost) ==> r.purchase_cost == o.purchaseCost.value
    ensures !TruthyNumber(o.purchase_cost) && !TruthyNumber(o.purchaseCost) ==> r.purchase_cost == 0
    ensures r.notes == (if TruthyText(o.notes) then o.notes.value else "")
    ensures r.status == (if o.status.Some? then o.status.value else Active)
    ensures r.addition_type == (if o.addition_type.Some? then o.addition_type.value
                                else if o.additionType.Some? then o.additionType.value else Purchase)
    ensures r.date_added == (if o.date_added.Some? then o.date_added.value
                             else if o.dateAdded.Some? then o.dateAdded.value else today)
  {
    AnimalRow(
      o.id,
      ValueOr(Either(o.animal_type, o.animalType), Sheep),
      o.gender,
      Either(o.birth_date, o.birthDate),
      if TruthyNumber(o.purchase_cost) then o.purchase_cost.value else NumberOr(o.purchaseCost, 0),
      TextOr(o.notes, ""),
      ValueOr(o.status, Active),
      ValueOr(Either(o.addition_type, o.additionType), Purchase),
      ValueOr(Either(o.date_added, o.dateAdded), today))
  }

  /** The object `getSheepData` builds from a row: `birth_date`,
      `purchase_cost`, `date_added` and `animal_type` come back under their
      camelCase names; every other column, `addition_type` included, keeps
      its own name. */
  function ReadAnimal(r: AnimalRow): AnimalObject
  {
    AnimalObject(
      r.id, r.gender, Some(r.notes), Some(r.status),
      None, Some(r.animal_type),
      None, r.birth_date,
      None, Some(r.purchase_cost),
      Some(r.addition_type), None,
      None, Some(r.date_added))
  }

  /** Saving what was read stores the same row, whatever day it is. */
  lemma ResaveAnimal(r: AnimalRow, today: Date)
    ensures NormaliseAnimal(ReadAnimal(r), today) == r
  {
  }

  /** Normalising is idempotent: a saved row read back and saved again is unchanged. */
  lemma NormaliseAnimalIdempotent(o: AnimalObject, today: Date, later: Date)
    ensures NormaliseAnimal(ReadAnimal(NormaliseAnimal(o, today)), later) == NormaliseAnimal(o, today)
  {
    ResaveAnimal(NormaliseAnimal(o, today), later);
  }

  function NormaliseAnimals(s: seq<AnimalObject>, today: Date): (r: seq<AnimalRow>)
    ensures |r| == |s| && forall i :: 0 <= i < |s| ==> r[i] == NormaliseAnimal(s[i], today)
  {
    seq(|s|, i requires 0 <= i < |s| => NormaliseAnimal(s[i], today))
  }

  function ReadAnimals(rows: seq<AnimalRow>): (r: seq<AnimalObject>)
    ensures |r| == |rows| && forall i :: 0 <= i < |rows| ==> r[i] == ReadAnimal(rows[i])
  {
    seq(|rows|, i requires 0 <= i < |rows| => ReadAnimal(rows[i]))
  }

  /** The row `saveTransactionData` inserts: `sheep_id` before `sheepId`,
      `date_added` before `dateAdded`, then today; the other fields verbatim. */
  function NormaliseTransaction(o: TransactionObject, today: Date): (r: TransactionRow)
    ensures r.id == o.id && r.kind == o.kind && r.amount == o.amount
    ensures r.date == o.date && r.description == o.description
    ensures TruthyText(o.sheep_id) ==> r.sheep_id == o.sheep_id
    ensures !TruthyText(o.sheep_id) ==> r.sheep_id == o.sheepId
    ensures r.date_added == (if o.date_added.Some? then o.date_added.value
                             else if o.dateAdded.Some? then o.dateAdded.value else today)
  {
    TransactionRow(
      o.id, o.kind, EitherText(o.sheep_id, o.sheepId), o.amount, o.date, o.description,
      ValueOr(Either(o.date_added, o.dateAdded), today))
  }

  /** The object `getTransactionData` builds: only `sheep_id` and
      `date_added` are renamed. */
  function ReadTransaction(r: TransactionRow): TransactionObject
  {
    TransactionObject(r.id, r.kind, None, r.sheep_id, r.amount, r.date, r.description, None, Some(r.date_added))
  }

  lemma ResaveTransaction(r: TransactionRow, today: Date)
    ensures NormaliseTransaction(ReadTransaction(r), today) == r
  {
  }

  function NormaliseTransactions(s: seq<TransactionObject>, today: Date): (r: seq<TransactionRow>)
    ensures |r| == |s| && forall i :: 0 <= i < |s| ==> r[i] == NormaliseTransaction(s[i], today)
  {
    seq(|s|, i requires 0 <= i < |s| => NormaliseTransaction(s[i], today))
  }

  function ReadTransactions(rows: seq<TransactionRow>): (r: seq<TransactionObject>)
    ensures |r| == |rows| && forall i :: 0 <= i < |rows| ==> r[i] == ReadTransaction(rows[i])
  {
    seq(|rows|, i requires 0 <= i < |rows| => ReadTransaction(rows[i]))
  }

  /** The row `saveHealthData` inserts: `sheep_id` before `sheepId`,
      empty `medication` and `notes` by default, `date_added` before
      `dateAdded` before today; the other fields verbatim. */
  function NormaliseHealth(o: HealthObject, today: Date): (r: HealthRow)
    ensures r.id == o.id && r.kind == o.kind && r.weight == o.weight && r.date == o.date
    ensures r.sheep_id == (if TruthyText(o.sheep_id) then o.sheep_id.value else o.sheepId)
    ensures r.medication == (if TruthyText(o.medication) then o.medication.value else "")
    ensures r.notes == (if TruthyText(o.notes) then o.notes.value else "")
    ensures r.date_added == (if o.date_added.Some? then o.date_added.value
                             else if o.dateAdded.Some? then o.dateAdded.value else today)
  {
    HealthRow(
      o.id, TextOr(o.sheep_id, o.sheepId), o.kind, o.weight,
      TextOr(o.medication, ""), o.date, TextOr(o.notes, ""),
      ValueOr(Either(o.date_added, o.dateAdded), today))
  }

  /** The object `getHealthData` builds: only `sheep_id` and `date_added`
      are renamed. */
  function ReadHealth(r: HealthRow): HealthObject
  {
    HealthObject(r.id, r.kind, None, r.sheep_id, r.weight, Some(r.medication), r.date, Some(r.notes), None, Some(r.date_added))
  }

  lemma ResaveHealth(r: HealthRow, today: Date)
    ensures NormaliseHealth(ReadHealth(r), today) == r
  {
  }

  function NormaliseHealthRecords(s: seq<HealthObject>, today: Date): (r: seq<HealthRow>)
    ensures |r| == |s| && forall i :: 0 <= i < |s| ==> r[i] == NormaliseHealth(s[i], today)
  {
    seq(|s|, i requires 0 <= i < |s| => NormaliseHealth(s[i], today))
  }

  function ReadHealthRecords(rows: seq<HealthRow>): (r: seq<HealthObject>)
    ensures |r| == |rows| && forall i :: 0 <= i < |rows| ==> r[i] == ReadHealth(rows[i])
  {
    seq(|rows|, i requires 0 <= i < |rows| => ReadHealth(rows[i]))
  }

  /** Reading a whole table and saving the result back stores the same rows. */
  lemma ResaveTables(a: seq<AnimalRow>, t: seq<TransactionRow>, h: seq<HealthRow>, today: Date)
    ensures NormaliseAnimals(ReadAnimals(a), today) == a
    ensures NormaliseTransactions(ReadTransactions(t), today) == t
    ensures NormaliseHealthRecords(ReadHealthRecords(h), today) == h
  {
  }

  // The legacy import of localStorage arrays (migrateSheepData and its two
  // siblings) reads camelCase names only.

  /** The row `migrateSheepData` writes for one legacy object. */
  function MigratedAnimal(o: AnimalObject, today: Date): AnimalRow
  {
    AnimalRow(
      o.id, ValueOr(o.animalType, Sheep), o.gender, o.birthDate, NumberOr(o.purchaseCost, 0),
      TextOr(o.notes, ""), ValueOr(o.status, Active), ValueOr(o.additionType, Purchase),
      ValueOr(o.dateAdded, today))
  }

  /** The row `migrateTransactionData` writes for one legacy object. */
  function MigratedTransaction(o: TransactionObject, today: Date): TransactionRow
  {
    TransactionRow(o.id, o.kind, o.sheepId, o.amount, o.date, o.description, ValueOr(o.dateAdded, today))
  }

  /** The row `migrateHealthData` writes for one legacy object. */
  function MigratedHealth(o: HealthObject, today: Date): HealthRow
  {
    HealthRow(
      o.id, o.sheepId, o.kind, o.weight, TextOr(o.medication, ""), o.date, TextOr(o.notes, ""),
      ValueOr(o.dateAdded, today))
  }

  predicate AnimalCamelOnly(o: AnimalObject)
  {
    o.animal_type.None? && o.birth_date.None? && o.purchase_cost.None? && o.addition_type.None? && o.date_added.None?
  }

  /** For legacy objects, which carry camelCase names only, the migration
      defaults are exactly the save defaults; an object that also carries a
      snake_case value can migrate differently. */
  lemma MigrationAgreesWithSave(a: AnimalObject, t: TransactionObject, h: HealthObject, today: Date)
    ensures AnimalCamelOnly(a) ==> MigratedAnimal(a, today) == NormaliseAnimal(a, today)
    ensures t.sheep_id.None? && t.date_added.None? ==> MigratedTransaction(t, today) == NormaliseTransaction(t, today)
    ensures h.sheep_id.None? && h.date_added.None? ==> MigratedHealth(h, today) == NormaliseHealth(h, today)
    ensures var o := a.(animal_type := Some(Goat), animalType := None);
            MigratedAnimal(o, today).animal_type == Sheep && NormaliseAnimal(o, today).animal_type == Goat
  {
  }

  function MigratedAnimals(s: seq<AnimalObject>, today: Date): (r: seq<AnimalRow>)
    ensures |r| == |s| && forall i :: 0 <= i < |s| ==> r[i] == MigratedAnimal(s[i], today)
  {
    seq(|s|, i requires 0 <= i < |s| => MigratedAnimal(s[i], today))
  }

  function MigratedTransactions(s: seq<TransactionObject>, today: Date): (r: seq<TransactionRow>)
    ensures |r| == |s| && forall i :: 0 <= i < |s| ==> r[i] == MigratedTransaction(s[i], today)
  {
    seq(|s|, i requires 0 <= i < |s| => MigratedTransaction(s[i], today))
  }

  function MigratedHealthRecords(s: seq<HealthObject>, today: Date): (r: seq<HealthRow>)
    ensures |r| == |s| && forall i :: 0 <= i < |s| ==> r[i] == MigratedHealth(s[i], today)
  {
    seq(|s|, i requires 0 <= i < |s| => MigratedHealth(s[i], today))
  }

  /** The localStorage fallback's `getSheepData`: every stored object, in
      stored order, with `animalType` defaulted to sheep and nothing else
      changed. */
  function FallbackAnimals(data: seq<AnimalObject>): (r: seq<AnimalObject>)
    ensures |r| == |data|
    ensures forall i :: 0 <= i < |r| ==> r[i].animalType == (if data[i].animalType.Some? then data[i].animalType else Some(Sheep))
    ensures forall i :: 0 <= i < |r| ==> data[i].animalType.Some? ==> r[i] == data[i]
    ensures forall i :: 0 <= i < |r| ==> r[i].(animalType := None) == data[i].(animalType := None)
  {
    seq(|data|, i requires 0 <= i < |data| => data[i].(animalType := Some(ValueOr(data[i].animalType, Sheep))))
  }

  /** Reading through the fallback twice adds nothing the first read did not. */
  lemma FallbackIdempotent(data: seq<AnimalObject>)
    ensures FallbackAnimals(FallbackAnimals(data)) == FallbackAnimals(data)
  {
  }

  // How the handlers' edits of a read-back array carry over to the rows a
  // save inserts: appending, replacing at an index and filtering by id
  // commute with normalising, and normalising keeps every id.

  lemma NormaliseAnimalsIds(s: seq<AnimalObject>, today: Date)
    ensures Ids(NormaliseAnimals(s, today), AnimalRowId) == Ids(s, AnimalObjectId)
  {
    var r := NormaliseAnimals(s, today);
    assert Ids(r, AnimalRowId) == Ids(s, AnimalObjectId) by {
      forall k | k in Ids(s, AnimalObjectId) ensures k in Ids(r, AnimalRowId) {
        var p :| 0 <= p < |s| && s[p].id == k;
        assert r[p].id == k;
      }
    }
  }

  lemma NormaliseAnimalsEdits(s: seq<AnimalObject>, today: Date, i: nat, o: AnimalObject)
    ensures NormaliseAnimals(s + [o], today) == NormaliseAnimals(s, today) + [NormaliseAnimal(o, today)]
    ensures i < |s| ==> NormaliseAnimals(s[i := o], today) == NormaliseAnimals(s, today)[i := NormaliseAnimal(o, today)]
  {
  }

  lemma NormaliseAnimalsCons(s: seq<AnimalObject>, today: Date)
    requires |s| > 0
    ensures NormaliseAnimals(s, today) == [NormaliseAnimal(s[0], today)] + NormaliseAnimals(s[1..], today)
  {
    var r, t := NormaliseAnimals(s, today), NormaliseAnimals(s[1..], today);
    assert r[1..] == t;
    assert r == [r[0]] + r[1..];
  }

  lemma {:induction false} NormaliseAnimalsWithout(s: seq<AnimalObject>, today: Date, id: string)
    ensures NormaliseAnimals(Without(s, AnimalObjectId, id), today) == Without(NormaliseAnimals(s, today), AnimalRowId, id)
  {
    if |s| > 0 {
      var rows := NormaliseAnimals(s, today);
      var w := Without(s[1..], AnimalObjectId, id);
      NormaliseAnimalsCons(s, today);
      assert rows[0] == NormaliseAnimal(s[0], today) && rows[1..] == NormaliseAnimals(s[1..], today);
      NormaliseAnimalsWithout(s[1..], today, id);
      if s[0].id != id {
        var kept := [s[0]] + w;
        assert kept[0] == s[0] && kept[1..] == w;
        NormaliseAnimalsCons(kept, today);
      }
    }
  }

  lemma NormaliseTransactionsIds(s: seq<TransactionObject>, today: Date)
    ensures Ids(NormaliseTransactions(s, today), TransactionRowId) == Ids(s, TransactionObjectId)
  {
    var r := NormaliseTransactions(s, today);
    assert Ids(r, TransactionRowId) == Ids(s, TransactionObjectId) by {
      forall k | k in Ids(s, TransactionObjectId) ensures k in Ids(r, TransactionRowId) {
        var p :| 0 <= p < |s| && s[p].id == k;
        assert r[p].id == k;
      }
    }
  }

  lemma NormaliseTransactionsEdits(s: seq<TransactionObject>, today: Date, i: nat, o: TransactionObject)
    ensures NormaliseTransactions(s + [o], today) == NormaliseTransactions(s, today) + [NormaliseTransaction(o, today)]
    ensures i < |s| ==> NormaliseTransactions(s[i := o], today) == NormaliseTransactions(s, today)[i := NormaliseTransaction(o, today)]
  {
  }

  lemma NormaliseTransactionsCons(s: seq<TransactionObject>, today: Date)
    requires |s| > 0
    ensures NormaliseTransactions(s, today) == [NormaliseTransaction(s[0], today)] + NormaliseTransactions(s[1..], today)
  {
    var r, t := NormaliseTransactions(s, today), NormaliseTransactions(s[1..], today);
    assert r[1..] == t;
    assert r == [r[0]] + r[1..];
  }

  lemma {:induction false} NormaliseTransactionsWithout(s: seq<TransactionObject>, today: Date, id: string)
    ensures NormaliseTransactions(Without(s, TransactionObjectId, id), today) == Without(NormaliseTransactions(s, today), TransactionRowId, id)
  {
    if |s| > 0 {
      var rows := NormaliseTransactions(s, today);
      var w := Without(s[1..], TransactionObjectId, id);
      NormaliseTransactionsCons(s, today);
      assert rows[0] == NormaliseTransaction(s[0], today) && rows[1..] == NormaliseTransactions(s[1..], today);
      NormaliseTransactionsWithout(s[1..], today, id);
      if s[0].id != id {
        var kept := [s[0]] + w;
        assert kept[0] == s[0] && kept[1..] == w;
        NormaliseTransactionsCons(kept, today);
      }
    }
  }

  lemma NormaliseHealthRecordsIds(s: seq<HealthObject>, today: Date)
    ensures Ids(NormaliseHealthRecords(s, today), HealthRowId) == Ids(s, HealthObjectId)
  {
    var r := NormaliseHealthRecords(s, today);
    assert Ids(r, HealthRowId) == Ids(s, HealthObjectId) by {
      forall k | k in Ids(s, HealthObjectId) ensures k in Ids(r, HealthRowId) {
        var p :| 0 <= p < |s| && s[p].id == k;
        assert r[p].id == k;
      }
    }
  }

  lemma NormaliseHealthRecordsEdits(s: seq<HealthObject>, today: Date, i: nat, o: HealthObject)
    ensures NormaliseHealthRecords(s + [o], today) == NormaliseHealthRecords(s, today) + [NormaliseHealth(o, today)]
    ensures i < |s| ==> NormaliseHealthRecords(s[i := o], today) == NormaliseHealthRecords(s, today)[i := NormaliseHealth(o, today)]
  {
  }

  lemma NormaliseHealthRecordsCons(s: seq<HealthObject>, today: Date)
    requires |s| > 0
    ensures NormaliseHealthRecords(s, today) == [NormaliseHealth(s[0], today)] + NormaliseHealthRecords(s[1..], today)
  {
    var r, t := NormaliseHealthRecords(s, today), NormaliseHealthRecords(s[1..], today);
    assert r[1..] == t;
    assert r == [r[0]] + r[1..];
  }

  lemma {:induction false} NormaliseHealthRecordsWithout(s: seq<HealthObject>, today: Date, id: string)
    ensures NormaliseHealthRecords(Without(s, HealthObjectId, id), today) == Without(NormaliseHealthRecords(s, today), HealthRowId, id)
  {
    if |s| > 0 {
      var rows := NormaliseHealthRecords(s, today);
      var w := Without(s[1..], HealthObjectId, id);
      NormaliseHealthRecordsCons(s, today);
      assert rows[0] == NormaliseHealth(s[0], today) && rows[1..] == NormaliseHealthRecords(s[1..], today);
      NormaliseHealthRecordsWithout(s[1..], today, id);
      if s[0].id != id {
        var kept := [s[0]] + w;
        assert kept[0] == s[0] && kept[1..] == w;
        NormaliseHealthRecordsCons(kept, today);
      }
    }
  }
}
