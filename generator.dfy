/** The generator script as it runs: one table, built once and then updated in
    place by the three fraud-injection passes, with the `Hour` column added
    between the second and the third. */
module Generator {
  import opened BankData

  datatype Option<T> = None | Some(value: T)

  /** The generator's DataFrame: a fixed number of rows, each pass writing the
      columns it names on the rows it selected, and an `Hour` column that does
      not exist until `AddHourColumn`. */
  class Ledger {
    var rows: array<Txn>
    var hours: Option<seq<int>>

    ghost predicate Valid()
      reads this
    {
      hours.Some? ==> |hours.value| == rows.Length
    }

    /** Lines 13-31: the base table built from the draws of every row. */
    constructor (draws: seq<RowDraw>)
      requires ValidDraws(draws)
      ensures Valid() && fresh(rows)
      ensures rows[..] == BaseRows(draws) && hours == None
    {
      var base := BaseRows(draws);
      rows := new Txn[|base|](i requires 0 <= i < |base| => base[i]);
      hours := None;
    }

    /** Lines 35-37: `df.loc[fraud_indices, 'IsFraud'] = 1`, then the amounts
        of the same rows multiplied by the one drawn factor. */
    method InjectHighAmount(sel: seq<int>, factor: real)
      requires Valid() && IsSelection(sel, rows.Length) && |sel| == rows.Length / HighAmountDivisor
      requires 5.0 <= factor < 10.0
      modifies rows
      ensures Valid()
      ensures rows[..] == HighAmountPass(old(rows[..]), sel, factor)
    {
      forall i | 0 <= i < rows.Length && i in sel {
        rows[i] := rows[i].(isFraud := true);
      }
      forall i | 0 <= i < rows.Length && i in sel {
        rows[i] := rows[i].(amount := Scaled(rows[i].amount, factor));
      }
      assert forall i :: 0 <= i < rows.Length ==> rows[i] == HighAmountPass(old(rows[..]), sel, factor)[i];
    }

    /** Lines 40-43: the selected rows, all of them of one of the first five
        distinct customers, become fraud and get the sentinel location. */
    method InjectSuspects(sel: seq<int>)
      requires Valid() && IsSelection(sel, rows.Length) && SuspectSelection(rows[..], sel)
      modifies rows
      ensures Valid()
      ensures rows[..] == SuspectPass(old(rows[..]), sel)
    {
      forall i | 0 <= i < rows.Length && i in sel {
        rows[i] := rows[i].(isFraud := true);
      }
      forall i | 0 <= i < rows.Length && i in sel {
        rows[i] := rows[i].(location := TaxHaven);
      }
      assert forall i :: 0 <= i < rows.Length ==> rows[i] == SuspectPass(old(rows[..]), sel)[i];
    }

    /** Line 46: the `Hour` column, one draw from [0, 24) per row. */
    method AddHourColumn(h: seq<int>)
      requires |h| == rows.Length && forall k :: 0 <= k < |h| ==> 0 <= h[k] < 24
      modifies this
      ensures Valid() && hours == Some(h)
      ensures rows == old(rows) && rows[..] == old(rows[..])
    {
      hours := Some(h);
    }

    /** Lines 47-48: the selected rows, all with `Hour` in {2, 3, 4}, become fraud. */
    method InjectLateNight(sel: seq<int>)
      requires Valid() && hours.Some? && IsSelection(sel, rows.Length)
      requires forall k :: 0 <= k < |sel| ==> LateHour(hours.value[sel[k]])
      modifies rows
      ensures Valid()
      ensures rows[..] == LateNightPass(old(rows[..]), hours.value, sel)
    {
      forall i | 0 <= i < rows.Length && i in sel {
        rows[i] := rows[i].(isFraud := true);
      }
      assert forall i :: 0 <= i < rows.Length ==> rows[i] == LateNightPass(old(rows[..]), hours.value, sel)[i];
    }
  }

  /** Lines 12-48: build the base table, run the three passes in order, and
      add the `Hour` column before the third. */
  method GenerateBankData(d: Draws) returns (ledger: Ledger)
    requires WellFormed(d)
    ensures fresh(ledger) && fresh(ledger.rows) && ledger.Valid()
    ensures ledger.rows[..] == Generated(d) && ledger.hours == Some(d.hours)
  {
    var base := BaseRows(d.rows);
    ledger := new Ledger(d.rows);
    ledger.InjectHighAmount(d.highAmount, d.factor);
    var t1 := AfterHighAmount(base, d);
    assert ledger.rows[..] == t1;
    SuspectSelectionTransfers(base, t1, d.suspect);
    ledger.InjectSuspects(d.suspect);
    assert ledger.rows[..] == AfterSuspects(base, d);
    ledger.AddHourColumn(d.hours);
    ledger.InjectLateNight(d.lateNight);
  }
}
