/** The read-only side of the page (script.js): the animal-type and period
    filters, the dashboard and financial-summary figures, the five most
    recent transactions and an animal's age. Each is a `filter`, `map` or
    `reduce` expression over the objects the store returns. */
module Queries {
  import opened Common
  import opened Schema
  import opened Tables

  /** `s.filter(p)`: every element that satisfies `p`, as often as in `s`. */
  function Keep<T(!new)>(s: seq<T>, p: T -> bool): (r: seq<T>)
    ensures |r| <= |s|
    ensures forall x :: multiset(r)[x] == if p(x) then multiset(s)[x] else 0
    ensures forall x :: x in r <==> x in s && p(x)
  {
    if |s| == 0 then []
    else
      var t := Keep(s[1..], p);
      assert s == [s[0]] + s[1..];
      assert multiset(s) == multiset{s[0]} + multiset(s[1..]);
      if p(s[0]) then [s[0]] + t else t
  }

  /** `filter` keeps the order: filtering a concatenation filters each part. */
  lemma {:induction false} KeepAppend<T(!new)>(a: seq<T>, b: seq<T>, p: T -> bool)
    ensures Keep(a + b, p) == Keep(a, p) + Keep(b, p)
  {
    if |a| > 0 {
      assert (a + b)[0] == a[0] && (a + b)[1..] == a[1..] + b;
      KeepAppend(a[1..], b, p);
      if p(a[0]) {
        assert [a[0]] + (Keep(a[1..], p) + Keep(b, p)) == ([a[0]] + Keep(a[1..], p)) + Keep(b, p);
      }
    } else {
      assert a + b == b;
    }
  }

  /** What `filter` makes of a single element. */
  lemma KeepOne<T(!new)>(x: T, p: T -> bool)
    ensures Keep([x], p) == if p(x) then [x] else []
  {
    assert [x][1..] == [];
  }

  // The callbacks of the `filter` calls, as named function values.

  function HasSpecies(species: Species): AnimalObject -> bool
  {
    (a: AnimalObject) => a.animalType == Some(species)
  }

  function HasGender(gender: Gender): AnimalObject -> bool
  {
    (a: AnimalObject) => a.gender == gender
  }

  /** `a.gender === 'Lamb' || a.gender === 'Kid'`. */
  function IsYoung(): AnimalObject -> bool
  {
    (a: AnimalObject) => a.gender == Lamb || a.gender == Kid
  }

  function IsActive(): AnimalObject -> bool
  {
    (a: AnimalObject) => a.status == Some(Active)
  }

  function KindIs(kind: TxType): TransactionObject -> bool
  {
    (t: TransactionObject) => t.kind == kind
  }

  /** `t => t.sheepId && ids.includes(t.sheepId)`. */
  function NamesOneOf(ids: seq<string>): TransactionObject -> bool
  {
    (t: TransactionObject) => TruthyText(t.sheepId) && t.sheepId.value in ids
  }

  // ---------------------------------------------------------------------
  // Filters

  /** The animal-type select: 'all' (or nothing chosen), 'sheep' or 'goat'. */
  datatype TypeFilter = AllTypes | OnlyType(species: Species)

  /** `filterAnimalsByType`: the animals of that type, in order. */
  function FilterAnimalsByType(animals: seq<AnimalObject>, filter: TypeFilter): (r: seq<AnimalObject>)
    ensures filter.AllTypes? ==> r == animals
    ensures filter.OnlyType? ==> forall a ::
      multiset(r)[a] == if a.animalType == Some(filter.species) then multiset(animals)[a] else 0
  {
    match filter
    case AllTypes => animals
    case OnlyType(species) => Keep(animals, HasSpecies(species))
  }

  /** `animals.filter(a => a.animalType === type).map(a => a.id)`. */
  function IdsOfType(animals: seq<AnimalObject>, species: Species): (ids: seq<string>)
    ensures forall id :: id in ids <==> exists a :: a in animals && a.animalType == Some(species) && a.id == id
  {
    var kept := Keep(animals, HasSpecies(species));
    var ids := seq(|kept|, i requires 0 <= i < |kept| => kept[i].id);
    IdsOfKept(animals, species, kept, ids);
    ids
  }

  /** The ids mapped from the animals kept are the ids of the animals of
      that type. */
  lemma IdsOfKept(animals: seq<AnimalObject>, species: Species, kept: seq<AnimalObject>, ids: seq<string>)
    requires forall a :: a in kept <==> a in animals && a.animalType == Some(species)
    requires |ids| == |kept| && forall i :: 0 <= i < |kept| ==> ids[i] == kept[i].id
    ensures forall id :: id in ids <==> exists a :: a in animals && a.animalType == Some(species) && a.id == id
  {
    forall id | id in ids ensures exists a :: a in animals && a.animalType == Some(species) && a.id == id {
      var i :| 0 <= i < |ids| && ids[i] == id;
      assert kept[i] in kept;
    }
    forall a | a in animals && a.animalType == Some(species) ensures a.id in ids {
      var i :| 0 <= i < |kept| && kept[i] == a;
      assert ids[i] == a.id;
    }
  }

  /** Whether a transaction names one of the given animals of that type. */
  ghost predicate NamesAnimalOfType(t: TransactionObject, animals: seq<AnimalObject>, species: Species)
  {
    TruthyText(t.sheepId) && exists a :: a in animals && a.animalType == Some(species) && a.id == t.sheepId.value
  }

  /** `filterTransactionsByAnimal`: with a type, the transactions that name
      an animal of that type (among all the animals read), in order; those
      naming no animal go. With 'all', every transaction. */
  function FilterTransactionsByAnimal(transactions: seq<TransactionObject>, animals: seq<AnimalObject>,
                                     filter: TypeFilter): (r: seq<TransactionObject>)
    ensures filter.AllTypes? ==> r == transactions
    ensures filter.OnlyType? ==> forall t ::
      multiset(r)[t] == if NamesAnimalOfType(t, animals, filter.species) then multiset(transactions)[t] else 0
  {
    match filter
    case AllTypes => transactions
    case OnlyType(species) =>
      var ids := IdsOfType(animals, species);
      var r := Keep(transactions, NamesOneOf(ids));
      assert forall t :: NamesOneOf(ids)(t) <==> NamesAnimalOfType(t, animals, species);
      r
  }

  /** The period select. `Custom` carries the two date inputs, `None` when
      left empty; `Unrecognised` is any other value. */
  datatype Period = AllTime | ThisMonth | ThisYear | Custom(start: Option<Date>, end: Option<Date>) | Unrecognised

  /** The first and last day the period covers, or `None` when the period
      does not filter: 'all', an unknown value, or a custom range with a
      bound missing. */
  function PeriodBounds(period: Period, today: Date): Option<(Date, Date)>
  {
    match period
    case ThisMonth => Some((Date(today.year, today.month, 1), Date(today.year, today.month, DaysInMonth(today.year, today.month))))
    case ThisYear => Some((Date(today.year, 1, 1), Date(today.year, 12, 31)))
    case Custom(start, end) => if start.Some? && end.Some? then Some((start.value, end.value)) else None
    case _ => None
  }

  /** `date >= start && date <= end`; an empty date compares false. */
  predicate Within(date: Option<Date>, first: Date, last: Date)
  {
    date.Some? && DateLe(first, date.value) && DateLe(date.value, last)
  }

  function InWindow(first: Date, last: Date): TransactionObject -> bool
  {
    (t: TransactionObject) => Within(t.date, first, last)
  }

  /** `filterTransactionsByPeriod`: the transactions dated within the
      period's bounds, both included, in order; every transaction when the
      period does not filter. */
  function FilterTransactionsByPeriod(transactions: seq<TransactionObject>, period: Period, today: Date): (r: seq<TransactionObject>)
    ensures PeriodBounds(period, today).None? ==> r == transactions
    ensures PeriodBounds(period, today).Some? ==> forall t ::
      var (first, last) := PeriodBounds(period, today).value;
      multiset(r)[t] == if Within(t.date, first, last) then multiset(transactions)[t] else 0
  {
    match PeriodBounds(period, today)
    case None => transactions
    case Some((first, last)) => Keep(transactions, InWindow(first, last))
  }

  /** 'thisMonth' covers exactly the days of the current month. */
  lemma ThisMonthIsTheMonth(today: Date, d: Date)
    requires ValidDate(today) && ValidDate(d)
    ensures var (first, last) := PeriodBounds(ThisMonth, today).value;
      Within(Some(d), first, last) <==> d.year == today.year && d.month == today.month
  {
  }

  /** 'thisYear' covers exactly the days of the current year. */
  lemma ThisYearIsTheYear(today: Date, d: Date)
    requires ValidDate(d)
    ensures var (first, last) := PeriodBounds(ThisYear, today).value;
      Within(Some(d), first, last) <==> d.year == today.year
  {
  }

  /** The dashboard and summary filters; an empty select counts as 'all'. */
  datatype Filters = Filters(animalType: TypeFilter, period: Period)

  /** Whether a transaction survives both filters. */
  ghost predicate Selected(t: TransactionObject, animals: seq<AnimalObject>, filters: Filters, today: Date)
  {
    && (filters.animalType.OnlyType? ==> NamesAnimalOfType(t, animals, filters.animalType.species))
    && (PeriodBounds(filters.period, today).Some? ==>
          Within(t.date, PeriodBounds(filters.period, today).value.0, PeriodBounds(filters.period, today).value.1))
  }

  /** The type filter, then the period filter, as `updateDashboard` and
      `updateFinancialSummary` apply them. */
  function FilteredTransactions(transactions: seq<TransactionObject>, animals: seq<AnimalObject>,
                                filters: Filters, today: Date): (r: seq<TransactionObject>)
    ensures forall t :: multiset(r)[t] == if Selected(t, animals, filters, today) then multiset(transactions)[t] else 0
  {
    var byType := FilterTransactionsByAnimal(transactions, animals, filters.animalType);
    FilterTransactionsByPeriod(byType, filters.period, today)
  }

  // ---------------------------------------------------------------------
  // Totals

  /** `.reduce((sum, t) => sum + t.amount, 0)`. */
  function Amounts(s: seq<TransactionObject>): int
  {
    if |s| == 0 then 0 else s[0].amount + Amounts(s[1..])
  }

  lemma {:induction false} AmountsAppend(a: seq<TransactionObject>, b: seq<TransactionObject>)
    ensures Amounts(a + b) == Amounts(a) + Amounts(b)
  {
    if |a| > 0 {
      assert (a + b)[0] == a[0] && (a + b)[1..] == a[1..] + b;
      AmountsAppend(a[1..], b);
    } else {
      assert a + b == b;
    }
  }

  /** `totalSales`, `totalPurchases` or `totalExpenses`. */
  function KindTotal(transactions: seq<TransactionObject>, kind: TxType): int
  {
    Amounts(Keep(transactions, KindIs(kind)))
  }

  function NetProfit(transactions: seq<TransactionObject>): int
  {
    KindTotal(transactions, Sale) - KindTotal(transactions, PurchaseTx) - KindTotal(transactions, Expense)
  }

  /** What one transaction does to the farm's balance: a sale brings its
      amount in, a purchase or an expense takes it out. */
  function Signed(t: TransactionObject): int
  {
    if t.kind == Sale then t.amount else -t.amount
  }

  /** The balance kept as a running ledger, one transaction at a time. */
  function Ledger(transactions: seq<TransactionObject>): int
  {
    if |transactions| == 0 then 0 else Signed(transactions[0]) + Ledger(transactions[1..])
  }

  /** Totals over one more transaction: only its own kind's total grows, by its amount. */
  lemma KindTotalCons(t: TransactionObject, rest: seq<TransactionObject>, kind: TxType)
    ensures KindTotal([t] + rest, kind) == (if t.kind == kind then t.amount else 0) + KindTotal(rest, kind)
  {
    KeepAppend([t], rest, KindIs(kind));
    KeepOne(t, KindIs(kind));
    AmountsAppend(Keep([t], KindIs(kind)), Keep(rest, KindIs(kind)));
    assert Amounts([t]) == t.amount;
  }

  /** The net profit of three separate sums is the running ledger. */
  lemma {:induction false} NetProfitIsLedger(transactions: seq<TransactionObject>)
    ensures NetProfit(transactions) == Ledger(transactions)
  {
    if |transactions| > 0 {
      var t, rest := transactions[0], transactions[1..];
      assert transactions == [t] + rest;
      KindTotalCons(t, rest, Sale);
      KindTotalCons(t, rest, PurchaseTx);
      KindTotalCons(t, rest, Expense);
      NetProfitIsLedger(rest);
    }
  }

  /** Every total adds up over a split of the transactions. */
  lemma KindTotalAppend(a: seq<TransactionObject>, b: seq<TransactionObject>, kind: TxType)
    ensures KindTotal(a + b, kind) == KindTotal(a, kind) + KindTotal(b, kind)
  {
    KeepAppend(a, b, KindIs(kind));
    AmountsAppend(Keep(a, KindIs(kind)), Keep(b, KindIs(kind)));
  }

  /** Recording one more transaction moves the net profit by its signed amount. */
  lemma NetProfitOfPush(transactions: seq<TransactionObject>, t: TransactionObject)
    ensures NetProfit(transactions + [t]) == NetProfit(transactions) + Signed(t)
  {
    KindTotalAppend(transactions, [t], Sale);
    KindTotalAppend(transactions, [t], PurchaseTx);
    KindTotalAppend(transactions, [t], Expense);
    NetProfitIsLedger([t]);
    assert Ledger([t]) == Signed(t) + Ledger([t][1..]);
  }

  /** `.reduce((sum, a) => sum + (a.purchaseCost || 0), 0)`. */
  function Costs(animals: seq<AnimalObject>): int
  {
    if |animals| == 0 then 0 else NumberOr(animals[0].purchaseCost, 0) + Costs(animals[1..])
  }

  lemma {:induction false} CostsAppend(a: seq<AnimalObject>, b: seq<AnimalObject>)
    ensures Costs(a + b) == Costs(a) + Costs(b)
  {
    if |a| > 0 {
      assert (a + b)[0] == a[0] && (a + b)[1..] == a[1..] + b;
      CostsAppend(a[1..], b);
    } else {
      assert a + b == b;
    }
  }

  /** `totalValue`: the purchase cost of the active animals. */
  function TotalValue(animals: seq<AnimalObject>): int
  {
    Costs(Keep(animals, IsActive()))
  }

  /** What one animal adds to the total value. */
  function ValueOf(a: AnimalObject): int
  {
    if a.status == Some(Active) then NumberOr(a.purchaseCost, 0) else 0
  }

  lemma TotalValueOfOne(a: AnimalObject)
    ensures TotalValue([a]) == ValueOf(a)
  {
    KeepOne(a, IsActive());
    assert Costs([a]) == NumberOr(a.purchaseCost, 0) + Costs([a][1..]);
  }

  /** Replacing one animal (a status change, say) moves the total value by
      the difference of what the two count for: selling or losing an active
      animal takes its cost off, reviving it puts the cost back. */
  lemma TotalValueUpdate(animals: seq<AnimalObject>, k: int, a: AnimalObject)
    requires 0 <= k < |animals|
    ensures TotalValue(animals[k := a]) == TotalValue(animals) - ValueOf(animals[k]) + ValueOf(a)
  {
    var before, after := animals[..k], animals[k + 1..];
    assert animals == before + [animals[k]] + after;
    assert animals[k := a] == before + [a] + after;
    forall x | x == animals[k] || x == a
      ensures TotalValue(before + [x] + after) == TotalValue(before) + ValueOf(x) + TotalValue(after)
    {
      KeepAppend(before + [x], after, IsActive());
      KeepAppend(before, [x], IsActive());
      CostsAppend(Keep(before, IsActive()) + Keep([x], IsActive()), Keep(after, IsActive()));
      CostsAppend(Keep(before, IsActive()), Keep([x], IsActive()));
      TotalValueOfOne(x);
    }
  }

  // ---------------------------------------------------------------------
  // Counts

  /** `totalLambs` counts the lambs and the kids. */
  lemma {:induction false} YoungAreLambsAndKids(animals: seq<AnimalObject>)
    ensures |Keep(animals, IsYoung())| == |Keep(animals, HasGender(Lamb))| + |Keep(animals, HasGender(Kid))|
  {
    if |animals| > 0 {
      var rest := animals[1..];
      YoungAreLambsAndKids(rest);
      var young, lambs, kids := Keep(rest, IsYoung()), Keep(rest, HasGender(Lamb)), Keep(rest, HasGender(Kid));
      if animals[0].gender == Lamb {
        assert Keep(animals, IsYoung()) == [animals[0]] + young;
        assert Keep(animals, HasGender(Lamb)) == [animals[0]] + lambs;
        assert Keep(animals, HasGender(Kid)) == kids;
      } else if animals[0].gender == Kid {
        assert Keep(animals, IsYoung()) == [animals[0]] + young;
        assert Keep(animals, HasGender(Lamb)) == lambs;
        assert Keep(animals, HasGender(Kid)) == [animals[0]] + kids;
      } else {
        assert Keep(animals, IsYoung()) == young;
        assert Keep(animals, HasGender(Lamb)) == lambs;
        assert Keep(animals, HasGender(Kid)) == kids;
      }
    }
  }

  /** Every stored animal has a type, so the sheep and the goats add up to
      the animals shown. */
  lemma {:induction false} SheepAndGoatsAreAll(animals: seq<AnimalObject>)
    requires forall i :: 0 <= i < |animals| ==> animals[i].animalType.Some?
    ensures |Keep(animals, HasSpecies(Sheep))| + |Keep(animals, HasSpecies(Goat))| == |animals|
  {
    if |animals| > 0 {
      var first, rest := animals[0], animals[1..];
      assert first.animalType.Some?;
      assert forall i :: 0 <= i < |rest| ==> rest[i] == animals[i + 1];
      SheepAndGoatsAreAll(rest);
      var sheep, goats := Keep(rest, HasSpecies(Sheep)), Keep(rest, HasSpecies(Goat));
      if first.animalType.value == Sheep {
        assert HasSpecies(Sheep)(first) && !HasSpecies(Goat)(first);
        assert Keep(animals, HasSpecies(Sheep)) == [first] + sheep;
        assert Keep(animals, HasSpecies(Goat)) == goats;
      } else {
        assert HasSpecies(Goat)(first) && !HasSpecies(Sheep)(first);
        assert Keep(animals, HasSpecies(Sheep)) == sheep;
        assert Keep(animals, HasSpecies(Goat)) == [first] + goats;
      }
    }
  }

  // ---------------------------------------------------------------------
  // Most recent transactions

  function Min(a: int, b: int): int
  {
    if a < b then a else b
  }

  /** `.sort((a, b) => new Date(b.date) - new Date(a.date)).slice(0, 5)`:
      at most five transactions, latest first, and none left out is later
      than one shown. */
  function Recent(transactions: seq<TransactionObject>): (r: seq<TransactionObject>)
    ensures |r| == Min(5, |transactions|)
    ensures SortedDesc(r, TransactionObjectDate)
    ensures multiset(r) <= multiset(transactions)
    ensures forall t, i :: t in multiset(transactions) - multiset(r) && 0 <= i < |r| ==> DayLe(t.date, r[i].date)
  {
    var sorted := SortDesc(transactions, TransactionObjectDate);
    TopOfSorted(sorted, Min(5, |transactions|));
    sorted[..Min(5, |transactions|)]
  }

  /** The first `n` of a sorted sequence are sorted, and no later element
      is after any of them. */
  lemma TopOfSorted(sorted: seq<TransactionObject>, n: int)
    requires SortedDesc(sorted, TransactionObjectDate) && 0 <= n <= |sorted|
    ensures SortedDesc(sorted[..n], TransactionObjectDate)
    ensures multiset(sorted) == multiset(sorted[..n]) + multiset(sorted[n..])
    ensures forall t, i :: t in multiset(sorted[n..]) && 0 <= i < n ==> DayLe(t.date, sorted[i].date)
  {
    assert sorted == sorted[..n] + sorted[n..];
    forall t, i | t in multiset(sorted[n..]) && 0 <= i < n ensures DayLe(t.date, sorted[i].date) {
      assert t in sorted[n..];
      var j :| 0 <= j < |sorted| - n && sorted[n..][j] == t;
      assert sorted[n + j] == t;
    }
  }

  /** The transactions come from the store latest first, so the dashboard
      shows the first five as read. */
  lemma RecentOfSorted(transactions: seq<TransactionObject>)
    requires SortedDesc(transactions, TransactionObjectDate)
    ensures Recent(transactions) == transactions[..Min(5, |transactions|)]
  {
    SortDescOfSorted(transactions, TransactionObjectDate);
  }

  // ---------------------------------------------------------------------
  // Dashboard and financial summary

  datatype Dashboard = Dashboard(
    totalAnimals: int, totalSheep: int, totalGoats: int,
    totalEwes: int, totalRams: int, totalLambs: int,
    totalValue: int, netProfit: int,
    recent: seq<TransactionObject>)

  /** `updateDashboard` without the page: the figures it shows for the
      animals and transactions read from the store. */
  function DashboardOf(animals: seq<AnimalObject>, transactions: seq<TransactionObject>,
                       filters: Filters, today: Date): (d: Dashboard)
    ensures d.totalAnimals == |FilterAnimalsByType(animals, filters.animalType)| <= |animals|
    ensures d.totalSheep == |Keep(FilterAnimalsByType(animals, filters.animalType), HasSpecies(Sheep))|
    ensures d.totalGoats == |Keep(FilterAnimalsByType(animals, filters.animalType), HasSpecies(Goat))|
    ensures d.totalEwes == |Keep(FilterAnimalsByType(animals, filters.animalType), HasGender(Ewe))|
    ensures d.totalRams == |Keep(FilterAnimalsByType(animals, filters.animalType), HasGender(Ram))|
    ensures d.totalLambs == |Keep(FilterAnimalsByType(animals, filters.animalType), IsYoung())|
    ensures d.totalValue == TotalValue(FilterAnimalsByType(animals, filters.animalType))
    ensures d.netProfit == Ledger(FilteredTransactions(transactions, animals, filters, today))
    ensures d.recent == Recent(FilteredTransactions(transactions, animals, filters, today))
    ensures |d.recent| == Min(5, |FilteredTransactions(transactions, animals, filters, today)|)
  {
    var shown := FilterAnimalsByType(animals, filters.animalType);
    var selected := FilteredTransactions(transactions, animals, filters, today);
    assert |shown| <= |animals| by {
      if filters.animalType.OnlyType? {
        assert shown == Keep(animals, HasSpecies(filters.animalType.species));
      }
    }
    NetProfitIsLedger(selected);
    Dashboard(
      |shown|,
      |Keep(shown, HasSpecies(Sheep))|, |Keep(shown, HasSpecies(Goat))|,
      |Keep(shown, HasGender(Ewe))|, |Keep(shown, HasGender(Ram))|, |Keep(shown, IsYoung())|,
      TotalValue(shown), NetProfit(selected),
      Recent(selected))
  }

  /** On animals read from the store, which all have a type, the sheep and
      goat counts add up to the animal count, and the lamb count is the
      lambs plus the kids. */
  lemma DashboardCountsAddUp(animals: seq<AnimalObject>, transactions: seq<TransactionObject>,
                             filters: Filters, today: Date)
    requires forall i :: 0 <= i < |animals| ==> animals[i].animalType.Some?
    ensures var d := DashboardOf(animals, transactions, filters, today);
      var shown := FilterAnimalsByType(animals, filters.animalType);
      && d.totalSheep + d.totalGoats == d.totalAnimals
      && d.totalLambs == |Keep(shown, HasGender(Lamb))| + |Keep(shown, HasGender(Kid))|
  {
    var shown := FilterAnimalsByType(animals, filters.animalType);
    forall i | 0 <= i < |shown| ensures shown[i].animalType.Some? {
      assert shown[i] in multiset(shown);
      assert shown[i] in animals;
    }
    SheepAndGoatsAreAll(shown);
    YoungAreLambsAndKids(shown);
  }

  datatype Summary = Summary(totalSales: int, totalPurchases: int, totalExpenses: int, netProfit: int)

  /** `updateFinancialSummary` without the page. */
  function FinancialSummary(transactions: seq<TransactionObject>, animals: seq<AnimalObject>,
                            filters: Filters, today: Date): (s: Summary)
    ensures s.totalSales == KindTotal(FilteredTransactions(transactions, animals, filters, today), Sale)
    ensures s.totalPurchases == KindTotal(FilteredTransactions(transactions, animals, filters, today), PurchaseTx)
    ensures s.totalExpenses == KindTotal(FilteredTransactions(transactions, animals, filters, today), Expense)
    ensures s.netProfit == s.totalSales - s.totalPurchases - s.totalExpenses
    ensures s.netProfit == Ledger(FilteredTransactions(transactions, animals, filters, today))
  {
    var selected := FilteredTransactions(transactions, animals, filters, today);
    NetProfitIsLedger(selected);
    Summary(KindTotal(selected, Sale), KindTotal(selected, PurchaseTx), KindTotal(selected, Expense), NetProfit(selected))
  }

  // ---------------------------------------------------------------------
  // Age

  /** Whether the `years`-th birthday has come by `today`. */
  predicate BirthdayReached(birth: Date, years: int, today: Date)
  {
    DateLe(Date(birth.year + years, birth.month, birth.day), today)
  }

  /** `calculateAge`: 'Unknown' without a birth date; otherwise the number
      of birthdays reached, counted on year, month and day of month. */
  function CalculateAge(birth: Option<Date>, today: Date): (age: Option<int>)
    ensures age.None? <==> birth.None?
    ensures age.Some? ==> BirthdayReached(birth.value, age.value, today)
    ensures age.Some? ==> !BirthdayReached(birth.value, age.value + 1, today)
  {
    match birth
    case None => None
    case Some(b) =>
      var age := today.year - b.year;
      var monthDiff := today.month - b.month;
      if monthDiff < 0 || (monthDiff == 0 && today.day < b.day) then Some(age - 1) else Some(age)
  }

  /** An animal does not get younger. */
  lemma AgeNeverDecreases(birth: Date, earlier: Date, later: Date)
    requires DateLe(earlier, later)
    ensures CalculateAge(Some(birth), earlier).value <= CalculateAge(Some(birth), later).value
  {
    var a := CalculateAge(Some(birth), earlier).value;
    assert BirthdayReached(birth, a, later);
  }
}
