/** The rows of the synthetic bank-transaction table and the three
    fraud-injection passes, as functions from the table before a pass to the
    table after it.

    The random draws of one run are inputs: `RowDraw` holds what the base
    synthesis draws for one row, and each pass receives the row indices its
    `sample` call returned.  An amount is kept as the exact product it denotes:
    the base amount (the exponential draw plus 5), possibly multiplied by the
    one factor the high-amount pass draws from [5, 10). */
module BankData {
  import opened Ids
  import opened FirstSeen

  const Categories: seq<string> := ["Groceries", "Electronics", "Travel", "Entertainment", "Health", "Restaurant"]
  const Cities: seq<string> := ["Paris", "Lyon", "Marseille", "London", "New York", "Tokyo", "Berlin"]
  const Sources: seq<string> := ["Online", "POS", "ATM"]

  /** The location written over the rows picked by the suspect-customer pass. */
  const TaxHaven: string := "Unknown/Tax Haven"

  /** Dates are the 180 consecutive days starting 2024-01-01, kept as a day offset. */
  const WindowDays: nat := 180

  /** `int(n_rows * 0.02)` is `n_rows / 50` rounded down. */
  const HighAmountDivisor: nat := 50

  /** `unique()[:5]`. */
  const SuspectCount: nat := 5

  /** Hours of the late-night pattern, `isin([2, 3, 4])`. */
  predicate LateHour(h: int) { h == 2 || h == 3 || h == 4 }

  /** An amount as an exact expression: a drawn amount, or an amount
      multiplied by a factor. */
  datatype Amount = Drawn(base: real) | Scaled(before: Amount, factor: real)

  /** The number an amount denotes. */
  function AmountValue(a: Amount): real
  {
    match a
    case Drawn(b) => b
    case Scaled(x, f) => AmountValue(x) * f
  }

  datatype Txn = Txn(
    id: string,
    customer: string,
    day: nat,
    amount: Amount,
    category: string,
    location: string,
    source: string,
    isFraud: bool)

  /** What the base synthesis draws for one row: the customer number from
      `randint(100, 500)`, a day of the window, the exponential sample, and
      indices into the category, city and source lists. */
  datatype RowDraw = RowDraw(customer: int, day: int, excess: real, category: int, location: int, source: int)

  predicate ValidDraw(d: RowDraw)
  {
    && 100 <= d.customer < 500
    && 0 <= d.day < WindowDays
    && d.excess >= 0.0
    && 0 <= d.category < |Categories|
    && 0 <= d.location < |Cities|
    && 0 <= d.source < |Sources|
  }

  predicate ValidDraws(draws: seq<RowDraw>)
  {
    forall k :: 0 <= k < |draws| ==> ValidDraw(draws[k])
  }

  /** No city of the list is the sentinel: every city name is shorter. */
  lemma CitiesAreNotTaxHaven()
    ensures TaxHaven !in Cities
  {
    assert |TaxHaven| == 17;
    assert forall k :: 0 <= k < |Cities| ==> |Cities[k]| <= 9;
  }

  /** Row `i` of the base table. */
  function BaseRow(i: nat, d: RowDraw): Txn
    requires ValidDraw(d)
  {
    Txn(TransactionId(i), CustomerId(d.customer), d.day, Drawn(d.excess + 5.0),
        Categories[d.category], Cities[d.location], Sources[d.source], false)
  }

  /** A row as the base synthesis leaves it: not fraud, a city location (never
      the sentinel), a listed category and source, a date of the window and an
      amount of at least 5. */
  predicate IsBaseRow(t: Txn)
  {
    && !t.isFraud
    && t.location in Cities && t.location != TaxHaven
    && t.category in Categories && t.source in Sources
    && t.day < WindowDays && t.amount.Drawn? && AmountValue(t.amount) >= 5.0
  }

  /** Lines 13-31: the base table, one row per draw, none of them fraud. */
  function BaseRows(draws: seq<RowDraw>): (rows: seq<Txn>)
    requires ValidDraws(draws)
    ensures |rows| == |draws|
    ensures forall i :: 0 <= i < |rows| ==> IsBaseRow(rows[i])
  {
    CitiesAreNotTaxHaven();
    seq(|draws|, i requires 0 <= i < |draws| => BaseRow(i, draws[i]))
  }

  /** Every customer identifier of the base table is `CUST` and the three
      digits of a number in [100, 500). */
  lemma BaseCustomerShape(draws: seq<RowDraw>, i: int)
    requires ValidDraws(draws) && 0 <= i < |draws|
    ensures var c := BaseRows(draws)[i].customer;
      && |c| == 7 && c[..4] == "CUST"
      && AllDigits(c[4..]) && 100 <= Value(c[4..]) < 500
  {
    CustomerIdShape(draws[i].customer);
  }

  /** Transaction identifiers of the base table are pairwise distinct. */
  lemma BaseIdsDistinct(draws: seq<RowDraw>, i: int, j: int)
    requires ValidDraws(draws) && 0 <= i < j < |draws|
    ensures BaseRows(draws)[i].id != BaseRows(draws)[j].id
  {
    var rows := BaseRows(draws);
    assert rows[i].id == TransactionId(i) && rows[j].id == TransactionId(j);
    assert Value(rows[i].id[2..]) == i;
  }

  /** Transaction identifiers follow row order for tables of at most 100000 rows. */
  lemma BaseIdsInRowOrder(draws: seq<RowDraw>, i: int, j: int)
    requires ValidDraws(draws) && |draws| <= 100000
    requires 0 <= i < j < |draws|
    ensures LexLess(BaseRows(draws)[i].id, BaseRows(draws)[j].id)
  {
    assert BaseRows(draws)[i].id == TransactionId(i);
    assert BaseRows(draws)[j].id == TransactionId(j);
    TransactionIdsInRowOrder(i, j);
  }

  /** The index set a `sample(...).index` call returns: distinct row positions. */
  predicate IsSelection(sel: seq<int>, n: nat)
  {
    NoDuplicates(sel) && forall k :: 0 <= k < |sel| ==> 0 <= sel[k] < n
  }

  function FraudRows(rows: seq<Txn>): set<int>
  {
    set i | 0 <= i < |rows| && rows[i].isFraud
  }

  /** The table keeps its rows and no fraud flag goes back from 1 to 0. */
  predicate FlagsOnlyRise(before: seq<Txn>, after: seq<Txn>)
  {
    |before| == |after| && forall i :: 0 <= i < |before| && before[i].isFraud ==> after[i].isFraud
  }

  /** Lines 35-37: the sampled rows become fraud and their amount is multiplied
      by the single factor drawn for the whole pass. */
  function HighAmountPass(rows: seq<Txn>, sel: seq<int>, factor: real): (r: seq<Txn>)
    requires IsSelection(sel, |rows|) && |sel| == |rows| / HighAmountDivisor
    requires 5.0 <= factor < 10.0
    ensures FlagsOnlyRise(rows, r)
    ensures forall i :: 0 <= i < |r| ==> (r[i].isFraud <==> rows[i].isFraud || i in sel)
    ensures forall i :: 0 <= i < |r| ==>
              r[i].amount == if i in sel then Scaled(rows[i].amount, factor) else rows[i].amount
    ensures forall i :: 0 <= i < |r| ==> r[i] == rows[i].(isFraud := r[i].isFraud, amount := r[i].amount)
  {
    seq(|rows|, i requires 0 <= i < |rows| =>
      if i in sel then rows[i].(isFraud := true, amount := Scaled(rows[i].amount, factor)) else rows[i])
  }

  /** On a table with no fraud yet, pass 1 flags exactly `floor(n / 50)` rows. */
  lemma HighAmountFlagsExactly(rows: seq<Txn>, sel: seq<int>, factor: real)
    requires IsSelection(sel, |rows|) && |sel| == |rows| / HighAmountDivisor
    requires 5.0 <= factor < 10.0
    requires FraudRows(rows) == {}
    ensures |FraudRows(HighAmountPass(rows, sel, factor))| == |rows| / HighAmountDivisor
  {
    var r := HighAmountPass(rows, sel, factor);
    assert FraudRows(r) == Elems(sel) by {
      forall i | i in Elems(sel) ensures i in FraudRows(r) {
        var k :| 0 <= k < |sel| && sel[k] == i;
      }
      forall i | i in FraudRows(r) ensures i in Elems(sel) {
        assert !rows[i].isFraud by { assert i !in FraudRows(rows); }
      }
    }
    DistinctCount(sel);
  }

  /** A positive amount picked by pass 1 grows by a factor in [5, 10). */
  lemma HighAmountScale(rows: seq<Txn>, sel: seq<int>, factor: real, i: int)
    requires IsSelection(sel, |rows|) && |sel| == |rows| / HighAmountDivisor
    requires 5.0 <= factor < 10.0
    requires i in sel && AmountValue(rows[i].amount) > 0.0
    ensures 5.0 * AmountValue(rows[i].amount) <= AmountValue(HighAmountPass(rows, sel, factor)[i].amount)
    ensures AmountValue(HighAmountPass(rows, sel, factor)[i].amount) < 10.0 * AmountValue(rows[i].amount)
  {
    var a := AmountValue(rows[i].amount);
    var after := AmountValue(HighAmountPass(rows, sel, factor)[i].amount);
    ProductBounds(a, factor, after);
  }

  lemma ProductBounds(a: real, f: real, p: real)
    requires a > 0.0 && 5.0 <= f < 10.0 && p == a * f
    ensures 5.0 * a <= p < 10.0 * a
  {
    var low, high := f - 5.0, 10.0 - f;
    assert a * low >= 0.0;
    assert a * high > 0.0;
    assert a * f == 5.0 * a + a * low;
    assert a * f == 10.0 * a - a * high;
  }

  function Customers(rows: seq<Txn>): (c: seq<string>)
    ensures |c| == |rows| && forall i :: 0 <= i < |rows| ==> c[i] == rows[i].customer
  {
    seq(|rows|, i requires 0 <= i < |rows| => rows[i].customer)
  }

  /** Line 40: the first five distinct customer identifiers in row order. */
  function Suspects(rows: seq<Txn>): (s: seq<string>)
    ensures NoDuplicates(s)
    ensures |s| == Min(SuspectCount, |Elems(Customers(rows))|)
    ensures forall x :: x in s ==> x in Customers(rows)
  {
    FirstDistinct(Customers(rows), SuspectCount)
  }

  /** The customers whose rows are sampled. */
  function SampledCustomers(rows: seq<Txn>, sel: seq<int>): set<string>
    requires IsSelection(sel, |rows|)
  {
    set k | 0 <= k < |sel| :: rows[sel[k]].customer
  }

  lemma SubsetSize<T>(a: set<T>, b: set<T>)
    requires a <= b
    ensures |a| <= |b|
  {
    assert b == a + (b - a);
  }

  /** Line 41: every sampled row belongs to a suspect customer, so the sample
      touches the rows of at most five customers. */
  predicate SuspectSelection(rows: seq<Txn>, sel: seq<int>)
    requires IsSelection(sel, |rows|)
    ensures SuspectSelection(rows, sel) ==> |SampledCustomers(rows, sel)| <= SuspectCount
  {
    var ok := forall k :: 0 <= k < |sel| ==> rows[sel[k]].customer in Suspects(rows);
    if ok then
      SubsetSize(SampledCustomers(rows, sel), Elems(Suspects(rows)));
      DistinctCount(Suspects(rows));
      ok
    else ok
  }

  /** A selection of suspect rows stays one on a table with the same customers. */
  lemma SuspectSelectionTransfers(a: seq<Txn>, b: seq<Txn>, sel: seq<int>)
    requires |a| == |b| && Customers(a) == Customers(b) && IsSelection(sel, |a|)
    requires SuspectSelection(a, sel)
    ensures SuspectSelection(b, sel)
  {
    assert Suspects(a) == Suspects(b);
    forall k | 0 <= k < |sel| ensures b[sel[k]].customer in Suspects(b) {
      assert b[sel[k]].customer == Customers(b)[sel[k]] == Customers(a)[sel[k]] == a[sel[k]].customer;
    }
  }

  /** Lines 41-43: the sampled rows, all of suspect customers, become fraud and
      their location becomes the tax-haven sentinel. */
  function SuspectPass(rows: seq<Txn>, sel: seq<int>): (r: seq<Txn>)
    requires IsSelection(sel, |rows|) && SuspectSelection(rows, sel)
    ensures FlagsOnlyRise(rows, r)
    ensures forall i :: 0 <= i < |r| ==> (r[i].isFraud <==> rows[i].isFraud || i in sel)
    ensures forall i :: 0 <= i < |r| ==> r[i].location == if i in sel then TaxHaven else rows[i].location
    ensures forall i :: 0 <= i < |r| ==> r[i] == rows[i].(isFraud := r[i].isFraud, location := r[i].location)
    ensures forall i :: 0 <= i < |r| && r[i] != rows[i] ==> rows[i].customer in Suspects(rows)
  {
    var r := seq(|rows|, i requires 0 <= i < |rows| =>
      if i in sel then rows[i].(isFraud := true, location := TaxHaven) else rows[i]);
    forall i | 0 <= i < |r| && r[i] != rows[i] ensures rows[i].customer in Suspects(rows) {
      var k :| 0 <= k < |sel| && sel[k] == i;
    }
    r
  }

  /** Lines 47-48: the sampled rows, all with `Hour` in {2, 3, 4}, become fraud. */
  function LateNightPass(rows: seq<Txn>, hours: seq<int>, sel: seq<int>): (r: seq<Txn>)
    requires |hours| == |rows| && IsSelection(sel, |rows|)
    requires forall k :: 0 <= k < |sel| ==> LateHour(hours[sel[k]])
    ensures FlagsOnlyRise(rows, r)
    ensures forall i :: 0 <= i < |r| ==> (r[i].isFraud <==> rows[i].isFraud || i in sel)
    ensures forall i :: 0 <= i < |r| ==> r[i] == rows[i].(isFraud := r[i].isFraud)
    ensures forall i :: 0 <= i < |r| && r[i] != rows[i] ==> LateHour(hours[i])
  {
    var r := seq(|rows|, i requires 0 <= i < |rows| =>
      if i in sel then rows[i].(isFraud := true) else rows[i]);
    forall i | 0 <= i < |r| && r[i] != rows[i] ensures LateHour(hours[i]) {
      var k :| 0 <= k < |sel| && sel[k] == i;
    }
    r
  }

  /** Every random outcome of one run of the generator. */
  datatype Draws = Draws(
    rows: seq<RowDraw>,
    highAmount: seq<int>,
    factor: real,
    suspect: seq<int>,
    hours: seq<int>,
    lateNight: seq<int>)

  /** What the random number generator can produce for the three passes over
      the table `rows`. */
  predicate PassDraws(rows: seq<Txn>, d: Draws)
  {
    var n := |rows|;
    && IsSelection(d.highAmount, n) && |d.highAmount| == n / HighAmountDivisor
    && 5.0 <= d.factor < 10.0
    && IsSelection(d.suspect, n) && SuspectSelection(rows, d.suspect)
    && |d.hours| == n && (forall k :: 0 <= k < n ==> 0 <= d.hours[k] < 24)
    && IsSelection(d.lateNight, n)
    && (forall k :: 0 <= k < |d.lateNight| ==> LateHour(d.hours[d.lateNight[k]]))
  }

  /** What the random number generator can produce for a whole run. */
  predicate WellFormed(d: Draws)
  {
    ValidDraws(d.rows) && PassDraws(BaseRows(d.rows), d)
  }

  /** Passes 1 and 2 do not touch the customer column. */
  lemma HighAmountKeepsCustomers(rows: seq<Txn>, sel: seq<int>, factor: real)
    requires IsSelection(sel, |rows|) && |sel| == |rows| / HighAmountDivisor
    requires 5.0 <= factor < 10.0
    ensures Customers(HighAmountPass(rows, sel, factor)) == Customers(rows)
  {
  }

  lemma SuspectPassKeepsCustomers(rows: seq<Txn>, sel: seq<int>)
    requires IsSelection(sel, |rows|) && SuspectSelection(rows, sel)
    ensures Customers(SuspectPass(rows, sel)) == Customers(rows)
  {
  }

  function AfterHighAmount(rows: seq<Txn>, d: Draws): (r: seq<Txn>)
    requires PassDraws(rows, d)
    ensures |r| == |rows| && Customers(r) == Customers(rows)
  {
    HighAmountKeepsCustomers(rows, d.highAmount, d.factor);
    HighAmountPass(rows, d.highAmount, d.factor)
  }

  function AfterSuspects(rows: seq<Txn>, d: Draws): (r: seq<Txn>)
    requires PassDraws(rows, d)
    ensures |r| == |rows| && Customers(r) == Customers(rows)
  {
    var t := AfterHighAmount(rows, d);
    SuspectSelectionTransfers(rows, t, d.suspect);
    SuspectPassKeepsCustomers(t, d.suspect);
    SuspectPass(t, d.suspect)
  }

  /** Lines 35-48: the three passes, in order, over the table `rows`. */
  function Injected(rows: seq<Txn>, d: Draws): (r: seq<Txn>)
    requires PassDraws(rows, d)
    ensures |r| == |rows| && Customers(r) == Customers(rows)
  {
    LateNightPass(AfterSuspects(rows, d), d.hours, d.lateNight)
  }

  /** The table after the passes, row by row: a row is fraud exactly when it
      was fraud before or one of the three passes picked it, only pass 2 writes
      the sentinel location, only pass 1 changes an amount, and no other field
      changes. */
  lemma InjectedRows(rows: seq<Txn>, d: Draws, i: int)
    requires PassDraws(rows, d) && 0 <= i < |rows|
    ensures Injected(rows, d)[i].isFraud <==>
              rows[i].isFraud || i in d.highAmount || i in d.suspect || i in d.lateNight
    ensures Injected(rows, d)[i].location == if i in d.suspect then TaxHaven else rows[i].location
    ensures Injected(rows, d)[i].amount ==
              if i in d.highAmount then Scaled(rows[i].amount, d.factor) else rows[i].amount
    ensures Injected(rows, d)[i] == rows[i].(isFraud := Injected(rows, d)[i].isFraud,
              location := Injected(rows, d)[i].location, amount := Injected(rows, d)[i].amount)
  {
    var t1 := AfterHighAmount(rows, d);
    var t2 := AfterSuspects(rows, d);
    assert t2 == SuspectPass(t1, d.suspect);
    var r := Injected(rows, d);
    assert t1[i] == rows[i].(isFraud := t1[i].isFraud, amount := t1[i].amount);
    assert t2[i] == t1[i].(isFraud := t2[i].isFraud, location := t2[i].location);
    assert r[i] == t2[i].(isFraud := r[i].isFraud);
  }

  /** Lines 12-48: the whole table the generator writes out. */
  function Generated(d: Draws): (r: seq<Txn>)
    requires WellFormed(d)
    ensures |r| == |d.rows|
  {
    Injected(BaseRows(d.rows), d)
  }

  /** The generated table, row by row, against the base table. */
  lemma GeneratedRows(d: Draws, i: int)
    requires WellFormed(d) && 0 <= i < |d.rows|
    ensures Generated(d)[i].isFraud <==> i in d.highAmount || i in d.suspect || i in d.lateNight
    ensures Generated(d)[i].location == if i in d.suspect then TaxHaven else BaseRows(d.rows)[i].location
    ensures Generated(d)[i].location == TaxHaven <==> i in d.suspect
    ensures Generated(d)[i].amount ==
              if i in d.highAmount then Scaled(BaseRows(d.rows)[i].amount, d.factor) else BaseRows(d.rows)[i].amount
    ensures Generated(d)[i] == BaseRows(d.rows)[i].(isFraud := Generated(d)[i].isFraud,
              location := Generated(d)[i].location, amount := Generated(d)[i].amount)
  {
    var base := BaseRows(d.rows);
    InjectedRows(base, d, i);
    assert IsBaseRow(base[i]);
  }

  /** Every row carrying the sentinel location belongs to one of the first
      five distinct customers of the generated table. */
  lemma TaxHavenRowsAreSuspects(d: Draws, i: int)
    requires WellFormed(d) && 0 <= i < |d.rows|
    requires Generated(d)[i].location == TaxHaven
    ensures Generated(d)[i].customer in Suspects(Generated(d))
  {
    var base := BaseRows(d.rows);
    GeneratedRows(d, i);
    var k :| 0 <= k < |d.suspect| && d.suspect[k] == i;
    assert base[i].customer in Suspects(base);
    assert Suspects(Generated(d)) == Suspects(base);
  }

  /** The flag only rises from the table before the passes through each of them. */
  lemma FlagsRiseThroughPasses(rows: seq<Txn>, d: Draws)
    requires PassDraws(rows, d)
    ensures FlagsOnlyRise(rows, AfterHighAmount(rows, d))
    ensures FlagsOnlyRise(AfterHighAmount(rows, d), AfterSuspects(rows, d))
    ensures FlagsOnlyRise(AfterSuspects(rows, d), Injected(rows, d))
  {
  }

  /** On a table without fraud, at least the `floor(n / 50)` rows of pass 1
      are fraud after the three passes. */
  lemma InjectedFraudAtLeastHighAmount(rows: seq<Txn>, d: Draws)
    requires PassDraws(rows, d) && FraudRows(rows) == {}
    ensures |FraudRows(Injected(rows, d))| >= |rows| / HighAmountDivisor
  {
    HighAmountFlagsExactly(rows, d.highAmount, d.factor);
    var t1 := AfterHighAmount(rows, d);
    var r := Injected(rows, d);
    FlagsRiseThroughPasses(rows, d);
    assert FraudRows(t1) <= FraudRows(r);
    assert FraudRows(r) == FraudRows(t1) + (FraudRows(r) - FraudRows(t1));
  }

  /** The generated table has at least `floor(n / 50)` fraud rows. */
  lemma GeneratedFraudAtLeastHighAmount(d: Draws)
    requires WellFormed(d)
    ensures |FraudRows(Generated(d))| >= |d.rows| / HighAmountDivisor
  {
    var base := BaseRows(d.rows);
    assert FraudRows(base) == {} by {
      assert forall i :: 0 <= i < |base| ==> !base[i].isFraud;
    }
    InjectedFraudAtLeastHighAmount(base, d);
  }
}
