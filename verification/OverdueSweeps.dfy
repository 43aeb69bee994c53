/** The overdue sweep: how the owner's sweep splits over managers and how sweeps combine. */
module OverdueSweeps {
  import opened Wrappers
  import opened Payments

  /** The sweeps of a list of managers, one after another on one day. */
  function SweepInTurn(w: Estate, rows: seq<Payment>, managers: seq<string>, today: int): seq<Payment>
    decreases |managers|
  {
    if managers == [] then rows
    else SweepInTurn(w, SweepTable(w, rows, Manager(managers[0]), today), managers[1..], today)
  }

  /** Only the status may differ. */
  ghost predicate SameButStatus(a: seq<Payment>, b: seq<Payment>) {
    |a| == |b| && forall i :: 0 <= i < |a| ==> b[i] == a[i].(status := b[i].status)
  }

  lemma SweepTouchesStatusOnly(w: Estate, rows: seq<Payment>, caller: Caller, today: int)
    ensures SameButStatus(rows, SweepTable(w, rows, caller, today))
    ensures forall propertyId :: HasLiveRow(rows, propertyId)
                                 <==> HasLiveRow(SweepTable(w, rows, caller, today), propertyId)
  {
    var after := SweepTable(w, rows, caller, today);
    forall propertyId ensures HasLiveRow(rows, propertyId) <==> HasLiveRow(after, propertyId) {
      if HasLiveRow(rows, propertyId) {
        var j :| 0 <= j < |rows| && !rows[j].deleted && rows[j].propertyId == propertyId;
        assert !after[j].deleted && after[j].propertyId == propertyId;
      }
      if HasLiveRow(after, propertyId) {
        var j :| 0 <= j < |after| && !after[j].deleted && after[j].propertyId == propertyId;
        assert !rows[j].deleted && rows[j].propertyId == propertyId;
      }
    }
  }

  /** After any list of managers' sweeps a live row is swept exactly when its manager is in the list. */
  lemma {:induction false} SweptInTurn(w: Estate, rows: seq<Payment>, managers: seq<string>, today: int, i: nat)
    requires i < |rows| && !rows[i].deleted
    ensures |SweepInTurn(w, rows, managers, today)| == |rows|
    ensures SweepInTurn(w, rows, managers, today)[i]
            == if rows[i].propertyId in w.managers && w.managers[rows[i].propertyId] in managers
               then SweptRow(rows[i], today) else rows[i]
    decreases |managers|
  {
    if managers == [] {
    } else {
      var next := SweepTable(w, rows, Manager(managers[0]), today);
      SweepTouchesStatusOnly(w, rows, Manager(managers[0]), today);
      assert HasLiveRow(rows, rows[i].propertyId);
      SweptInTurn(w, next, managers[1..], today, i);
      assert managers == [managers[0]] + managers[1..];
    }
  }

  /** On live rows the owner's sweep is the sweeps of all property managers, in whatever order and
      with whatever repetition, provided every property with a live row has its manager in the list. */
  lemma OwnerSweepDecomposes(w: Estate, rows: seq<Payment>, managers: seq<string>, today: int, i: nat)
    requires i < |rows| && !rows[i].deleted
    requires forall j :: 0 <= j < |rows| && !rows[j].deleted ==>
               rows[j].propertyId in w.managers && w.managers[rows[j].propertyId] in managers
    ensures |SweepInTurn(w, rows, managers, today)| == |rows|
    ensures SweepInTurn(w, rows, managers, today)[i] == SweepTable(w, rows, Owner, today)[i]
  {
    SweptInTurn(w, rows, managers, today, i);
  }

  /** A later sweep by the same caller subsumes an earlier one; on one day, sweeping twice is sweeping once. */
  lemma LaterSweepSubsumes(w: Estate, rows: seq<Payment>, caller: Caller, earlier: int, later: int)
    requires earlier <= later
    ensures SweepTable(w, SweepTable(w, rows, caller, earlier), caller, later) == SweepTable(w, rows, caller, later)
  {
    SweepTouchesStatusOnly(w, rows, caller, earlier);
  }

  /** Sweeps by different callers on one day commute. */
  lemma SweepsCommute(w: Estate, rows: seq<Payment>, a: Caller, b: Caller, today: int)
    ensures SweepTable(w, SweepTable(w, rows, a, today), b, today)
            == SweepTable(w, SweepTable(w, rows, b, today), a, today)
  {
    SweepTouchesStatusOnly(w, rows, a, today);
    SweepTouchesStatusOnly(w, rows, b, today);
  }

  /** Deleted rows are the exception: the owner's sweep marks a lapsed deleted row, while its manager's
      sweep marks it exactly when the property still has a live row. */
  lemma DeletedRowsDiffer(w: Estate, rows: seq<Payment>, managerId: string, today: int, i: nat)
    requires i < |rows| && rows[i].deleted && Lapsed(rows[i], today)
    requires Manages(w, Manager(managerId), rows[i].propertyId)
    ensures SweepTable(w, rows, Manager(managerId), today)[i] == SweepTable(w, rows, Owner, today)[i]
            <==> HasLiveRow(rows, rows[i].propertyId)
  {
  }
}
