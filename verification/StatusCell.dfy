/** A registration status cell: three fields that stand for a whole history of reports. */
module StatusCell {
  import opened Wrappers
  import opened At

  datatype Status = NoStatus | NotRegistering | Home | Searching | Denied | Unknown | Roaming

  /** The registration status numbers of 3GPP TS 27.007 that the driver tells apart. */
  function StatusFromCode(v: nat): Status {
    match v
    case 0 => NotRegistering
    case 1 => Home
    case 2 => Searching
    case 3 => Denied
    case 4 => Unknown
    case 5 => Roaming
    case _ => NoStatus
  }

  /** The number that stands for a status, where there is one. */
  function CodeOf(s: Status): Option<nat> {
    match s
    case NoStatus => None
    case NotRegistering => Some(0)
    case Home => Some(1)
    case Searching => Some(2)
    case Denied => Some(3)
    case Unknown => Some(4)
    case Roaming => Some(5)
  }

  /** Reading a number inverts writing it, in both directions, and every other number is no status. */
  lemma StatusCodes(v: nat, s: Status)
    ensures s != NoStatus ==> (StatusFromCode(v) == s <==> CodeOf(s) == Some(v))
    ensures StatusFromCode(v) == NoStatus <==> v > 5
  {
  }

  // ------------------------------------------------------------------ one status cell

  datatype Cell = Cell(status: Status, updated: Option<nat>, started: Option<nat>) {
    function Duration(ts: nat): nat {
      if started.Some? && started.value <= ts then ts - started.value else 0
    }

    predicate Registered() {
      status == Home || status == Roaming
    }

    predicate Sticky() {
      updated.Some? && updated != started
    }

    function Reported(stat: Status, ts: nat): Cell {
      Cell(stat, Some(ts), if status != stat then Some(ts) else started)
    }
  }

  const BLANK := Cell(NoStatus, None, None)

  /** One call on a cell. */
  datatype CellOp = SetTo(status: Status, t: nat) | Cleared

  /** The cell the three fields hold after a history of calls. */
  function Replay(ops: seq<CellOp>): Cell {
    if ops == [] then BLANK
    else
      match ops[|ops| - 1]
      case SetTo(stat, t) => Replay(ops[..|ops| - 1]).Reported(stat, t)
      case Cleared => BLANK
  }

  /** The reports since the last reset. */
  function SinceCleared(ops: seq<CellOp>): (r: seq<CellOp>)
    ensures forall i :: 0 <= i < |r| ==> r[i].SetTo?
  {
    if ops == [] || ops[|ops| - 1].Cleared? then []
    else SinceCleared(ops[..|ops| - 1]) + [ops[|ops| - 1]]
  }

  predicate ClockMonotone(ops: seq<CellOp>) {
    forall i, j :: 0 <= i < j < |ops| && ops[i].SetTo? && ops[j].SetTo? ==> ops[i].t <= ops[j].t
  }

  /** r[i..] is the last maximal run of equal reports. */
  predicate LastRunStartsAt(r: seq<CellOp>, i: nat)
    requires forall k :: 0 <= k < |r| ==> r[k].SetTo?
  {
    && i < |r|
    && (forall j :: i <= j < |r| ==> r[j].status == r[|r| - 1].status)
    && (i == 0 || r[i - 1].status != r[i].status)
  }

  /** Three fields stand for the whole history: status and updated are those of the last report
      since the last reset; started is the time of the first report of the last maximal equal run,
      except that a run of NoStatus reports straight after a reset has no start. */
  lemma {:induction false} CellRefinesHistory(ops: seq<CellOp>, i: nat)
    requires SinceCleared(ops) != [] ==> LastRunStartsAt(SinceCleared(ops), i)
    ensures
      var r, c := SinceCleared(ops), Replay(ops);
      if r == [] then c == BLANK
      else
        && c.status == r[|r| - 1].status
        && c.updated == Some(r[|r| - 1].t)
        && c.started == (if i == 0 && c.status == NoStatus then None else Some(r[i].t))
  {
    var r := SinceCleared(ops);
    if r != [] {
      var p := SinceCleared(ops[..|ops| - 1]);
      if p != [] {
        assert r[|p| - 1] == p[|p| - 1];
        if i == |p| {
          var k := LastRunStart(p);
          CellRefinesHistory(ops[..|ops| - 1], k);
        } else {
          assert r[|p| - 1].status == r[|r| - 1].status;
          forall j | i <= j < |p|
            ensures p[j].status == p[|p| - 1].status
          {
            assert r[j] == p[j];
          }
          assert i > 0 ==> r[i - 1] == p[i - 1];
          CellRefinesHistory(ops[..|ops| - 1], i);
        }
      } else {
        CellRefinesHistory(ops[..|ops| - 1], 0);
      }
    }
  }

  /** Every nonempty history has a last run. */
  lemma {:induction false} LastRunStart(r: seq<CellOp>) returns (i: nat)
    requires r != [] && forall k :: 0 <= k < |r| ==> r[k].SetTo?
    ensures LastRunStartsAt(r, i)
  {
    i := |r| - 1;
    while i > 0 && r[i - 1].status == r[i].status
      invariant i < |r|
      invariant forall j :: i <= j < |r| ==> r[j].status == r[|r| - 1].status
    {
      i := i - 1;
    }
  }

  /** sticky and duration in terms of the history: a cell is sticky exactly when something was
      reported and the last run is older than its last report (or has no start), and its duration
      is the age of that run. */
  lemma StickyMeaning(ops: seq<CellOp>, i: nat, ts: nat)
    requires ClockMonotone(SinceCleared(ops))
    requires SinceCleared(ops) != [] ==> LastRunStartsAt(SinceCleared(ops), i)
    requires SinceCleared(ops) != [] ==> SinceCleared(ops)[|SinceCleared(ops)| - 1].t <= ts
    ensures
      var r, c := SinceCleared(ops), Replay(ops);
      var startless := r == [] || (i == 0 && r[0].status == NoStatus);
      && (c.Sticky() <==> r != [] && (startless || r[i].t < r[|r| - 1].t))
      && c.Duration(ts) == (if startless then 0 else ts - r[i].t)
      && (c.started.Some? ==> c.updated.Some? && c.started.value <= c.updated.value)
  {
    CellRefinesHistory(ops, i);
    var r := SinceCleared(ops);
    if r != [] {
      assert r[i].status == r[|r| - 1].status;
      assert r[i].t <= r[|r| - 1].t;
    }
  }

  class CellularRegistrationStatus {
    var status: Status
    var updated: Option<nat>
    var started: Option<nat>
    const clock: Clock
    ghost var ops: seq<CellOp>

    function View(): Cell
      reads this
    {
      Cell(status, updated, started)
    }

    /** The fields are the replay of every call so far, under the monotone clock. */
    ghost predicate Valid()
      reads this, clock
    {
      && View() == Replay(ops)
      && ClockMonotone(ops)
      && forall i :: 0 <= i < |ops| && ops[i].SetTo? ==> ops[i].t <= clock.now
    }

    constructor (clock: Clock)
      ensures Valid() && View() == BLANK && this.clock == clock
    {
      status, updated, started := NoStatus, None, None;
      this.clock := clock;
      ops := [];
    }

    method Reset()
      requires Valid()
      modifies this
      ensures Valid() && View() == BLANK && ops == old(ops) + [Cleared]
    {
      status, updated, started := NoStatus, None, None;
      ops := ops + [Cleared];
    }

    method SetStatus(stat: Status)
      requires Valid()
      modifies this, clock
      ensures Valid() && old(clock.now) <= clock.now
      ensures View() == old(View()).Reported(stat, clock.now)
      ensures ops == old(ops) + [SetTo(stat, clock.now)]
    {
      var ts := clock.Now();
      if status != stat {
        status := stat;
        started := Some(ts);
      }
      updated := Some(ts);
      ops := ops + [SetTo(stat, ts)];
    }
  }
}
