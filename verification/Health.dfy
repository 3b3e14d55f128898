/** Logging health: counters over the marks of the write path. */
module Health {
  import opened Basics

  datatype FailureKind = SINK_WRITE | DEFECT_UNWRITABLE

  /** One mark: a success, or a failure of some kind. */
  datatype Mark = Healthy | Degraded(kind: FailureKind)

  datatype HealthSnapshot = HealthSnapshot(
    degraded: bool,
    totalFailures: nat,
    totalRecoveries: nat,
    lastFailureKind: Option<FailureKind>
  )

  const FRESH := HealthSnapshot(false, 0, 0, None)

  function Marked(h: HealthSnapshot, mark: Mark): HealthSnapshot {
    match mark
    case Degraded(kind) => HealthSnapshot(true, h.totalFailures + 1, h.totalRecoveries, Some(kind))
    case Healthy => if h.degraded then h.(degraded := false, totalRecoveries := h.totalRecoveries + 1) else h
  }

  /** The state of a fresh health object after these marks. */
  function After(marks: seq<Mark>): HealthSnapshot {
    if marks == [] then FRESH else Marked(After(marks[..|marks| - 1]), marks[|marks| - 1])
  }

  class LoggingHealth {
    var degraded: bool
    var totalFailures: nat
    var totalRecoveries: nat
    var lastFailureKind: Option<FailureKind>

    ghost function View(): HealthSnapshot
      reads this
    {
      HealthSnapshot(degraded, totalFailures, totalRecoveries, lastFailureKind)
    }

    constructor ()
      ensures View() == After([])
    {
      degraded, totalFailures, totalRecoveries, lastFailureKind := false, 0, 0, None;
    }

    method MarkDegraded(kind: FailureKind)
      modifies this
      ensures View() == Marked(old(View()), Degraded(kind))
    {
      degraded := true;
      totalFailures := totalFailures + 1;
      lastFailureKind := Some(kind);
    }

    method MarkHealthy()
      modifies this
      ensures View() == Marked(old(View()), Healthy)
    {
      if degraded {
        degraded := false;
        totalRecoveries := totalRecoveries + 1;
      }
    }

    method Snapshot() returns (s: HealthSnapshot)
      ensures s == View()
    {
      s := HealthSnapshot(degraded, totalFailures, totalRecoveries, lastFailureKind);
    }
  }

  // ---- what the counters mean ---------------------------------------------

  /** The places where a run of failures ends in a success. */
  ghost function Recoveries(marks: seq<Mark>): set<nat> {
    set i: nat | i + 1 < |marks| && marks[i].Degraded? && marks[i + 1].Healthy?
  }

  ghost function Failures(marks: seq<Mark>): set<nat> {
    set i: nat | i < |marks| && marks[i].Degraded?
  }

  /** The kind of the last failure, if there was one. */
  ghost predicate LastFailure(marks: seq<Mark>, kind: Option<FailureKind>) {
    match kind
    case None => Failures(marks) == {}
    case Some(k) =>
      exists i :: 0 <= i < |marks| && marks[i] == Degraded(k) && forall j :: i < j < |marks| ==> marks[j].Healthy?
  }

  lemma {:induction false} MarkCounts(marks: seq<Mark>)
    requires marks != []
    ensures var n := |marks| - 1;
            && Failures(marks) == Failures(marks[..n]) + (if marks[n].Degraded? then {n} else {})
            && Recoveries(marks) == Recoveries(marks[..n])
                                    + (if n > 0 && marks[n - 1].Degraded? && marks[n].Healthy? then {n - 1} else {})
  {
    var n := |marks| - 1;
    assert forall i :: 0 <= i < n ==> marks[..n][i] == marks[i];
  }

  /** The counters are the counts: failures, and maximal runs of failures that a success has ended. */
  lemma {:induction false} FaithfulFold(marks: seq<Mark>)
    ensures var h := After(marks);
            && h.totalFailures == |Failures(marks)|
            && h.totalRecoveries == |Recoveries(marks)|
            && (h.degraded <==> marks != [] && marks[|marks| - 1].Degraded?)
            && LastFailure(marks, h.lastFailureKind)
            && h.totalRecoveries + (if h.degraded then 1 else 0) <= h.totalFailures
  {
    if marks != [] {
      var n := |marks| - 1;
      FaithfulFold(marks[..n]);
      MarkCounts(marks);
      LastMark(marks, After(marks[..n]).lastFailureKind);
    }
  }

  lemma {:induction false} LastMark(marks: seq<Mark>, before: Option<FailureKind>)
    requires marks != [] && LastFailure(marks[..|marks| - 1], before)
    ensures LastFailure(marks, if marks[|marks| - 1].Degraded? then Some(marks[|marks| - 1].kind) else before)
  {
    var n := |marks| - 1;
    if marks[n].Degraded? {
      assert marks[n] == Degraded(marks[n].kind);
    } else if before.Some? {
      FailureStays(marks, before.value);
    } else {
      MarkCounts(marks);
    }
  }

  lemma {:induction false} FailureStays(marks: seq<Mark>, k: FailureKind)
    requires marks != [] && marks[|marks| - 1].Healthy? && LastFailure(marks[..|marks| - 1], Some(k))
    ensures LastFailure(marks, Some(k))
  {
    var before := marks[..|marks| - 1];
    var i :| 0 <= i < |before| && before[i] == Degraded(k) && forall j :: i < j < |before| ==> before[j].Healthy?;
    assert marks[i] == Degraded(k);
    assert forall j :: i < j < |marks| ==> j == |before| || marks[j] == before[j];
  }
}
