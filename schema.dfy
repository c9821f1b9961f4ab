/** The three collections of the farm store. Each entity appears twice:
    as the JavaScript object the page code builds or reads back, whose
    renamed columns may be present under their snake_case name, their
    camelCase name, both or neither; and as the row the `animals`,
    `transactions` and `health_records` tables hold. */
module Schema {
  import opened Common

  datatype Species = Sheep | Goat
  datatype Gender = Ewe | Ram | Lamb | Wether | Doe | Buck | Kid
  datatype Status = Active | Sold | Dead
  datatype Addition = Purchase | Birth
  datatype TxType = Sale | PurchaseTx | Expense
  datatype HealthType = Weight | Medication | Vaccination | Death | OtherCheck

  /** An animal as a JavaScript object. `None` is a key that is absent (or
      null); for the text field `notes` an empty string is falsy as well. */
  datatype AnimalObject = AnimalObject(
    id: string,
    gender: Gender,
    notes: Option<string>,
    status: Option<Status>,
    animal_type: Option<Species>, animalType: Option<Species>,
    birth_date: Option<Date>, birthDate: Option<Date>,
    purchase_cost: Option<int>, purchaseCost: Option<int>,
    addition_type: Option<Addition>, additionType: Option<Addition>,
    date_added: Option<Date>, dateAdded: Option<Date>)

  /** A row of the `animals` table. */
  datatype AnimalRow = AnimalRow(
    id: string,
    animal_type: Species,
    gender: Gender,
    birth_date: Option<Date>,
    purchase_cost: int,
    notes: string,
    status: Status,
    addition_type: Addition,
    date_added: Date)

  /** A transaction as a JavaScript object; `sheepId` is null for a
      transaction that names no animal. */
  datatype TransactionObject = TransactionObject(
    id: string,
    kind: TxType,
    sheep_id: Option<string>, sheepId: Option<string>,
    amount: int,
    date: Option<Date>,
    description: string,
    date_added: Option<Date>, dateAdded: Option<Date>)

  /** A row of the `transactions` table. */
  datatype TransactionRow = TransactionRow(
    id: string,
    kind: TxType,
    sheep_id: Option<string>,
    amount: int,
    date: Option<Date>,
    description: string,
    date_added: Date)

  /** A health record as a JavaScript object. The camelCase `sheepId` is
      always set by the code that builds these objects. */
  datatype HealthObject = HealthObject(
    id: string,
    kind: HealthType,
    sheep_id: Option<string>, sheepId: string,
    weight: Option<int>,
    medication: Option<string>,
    date: Option<Date>,
    notes: Option<string>,
    date_added: Option<Date>, dateAdded: Option<Date>)

  /** A row of the `health_records` table. */
  datatype HealthRow = HealthRow(
    id: string,
    sheep_id: string,
    kind: HealthType,
    weight: Option<int>,
    medication: string,
    date: Option<Date>,
    notes: string,
    date_added: Date)

  // Primary keys and sort keys, as function values for the generic tables.

  function AnimalRowId(r: AnimalRow): string { r.id }
  function AnimalObjectId(o: AnimalObject): string { o.id }
  function TransactionRowId(r: TransactionRow): string { r.id }
  function TransactionObjectId(o: TransactionObject): string { o.id }
  function HealthRowId(r: HealthRow): string { r.id }
  function HealthObjectId(o: HealthObject): string { o.id }

  function AnimalRowAdded(r: AnimalRow): Option<Date> { Some(r.date_added) }
  function TransactionRowDate(r: TransactionRow): Option<Date> { r.date }
  function TransactionObjectDate(o: TransactionObject): Option<Date> { o.date }
  function HealthRowDate(r: HealthRow): Option<Date> { r.date }
}
