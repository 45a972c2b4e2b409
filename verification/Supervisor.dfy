/** The registration supervisor as a transition system. Its events are the atomic changes the
    driver makes to the registration state; the theorems hold over every legal sequence of them. */
module Supervisor {
  import opened Wrappers
  import opened At
  import opened StatusCell

  const BACKOFF: nat := 15 * SECOND
  const REGISTRATION_CHECK_INTERVAL: nat := 15 * SECOND
  const REGISTRATION_TIMEOUT: nat := 180 * SECOND
  const CHECK_IMSI_TIMEOUT: nat := 60 * SECOND

  datatype ConnectionState = Disconnected | Connecting | Connected

  /** PLMN reselection, RF reset on EPS or on CSD evidence, and forced GPRS attach. */
  datatype Branch = Reselect | RfReset | RfResetCsd | Attach

  /** What the driver is in the middle of: recording the answers of a poll, from some domain on; forcing
      a GPRS attach; or neither. */
  datatype Stage = Idle | Asking(from: nat) | Attaching

  /** The order in which the three domains are asked. */
  function Turn(d: Domain): nat {
    match d
    case Csd => 0
    case Psd => 1
    case Eps => 2
  }

  datatype Snapshot = Snapshot(
    csd: Cell, psd: Cell, eps: Cell,
    conn: ConnectionState,
    startTime: Option<nat>,
    checkTime: Option<nat>,
    interventions: nat,
    now: nat,
    stage: Stage)
  {
    /** A report of a domain may be recorded: its turn has come in the poll, or in the first check after
        a restart. */
    predicate MayReport(d: Domain) {
      stage.Asking? && stage.from <= Turn(d)
    }

    /** Both circuit- and packet-switched, or EPS, registered. */
    predicate Registered() {
      (csd.Registered() && psd.Registered()) || eps.Registered()
    }

    /** The intervention the three cells ask for at a given time, whatever the connection state. */
    function Wanted(t: nat): Option<Branch> {
      var timeout := interventions * BACKOFF;
      var stuckEps := eps.Sticky() && eps.Duration(t) >= timeout;
      if stuckEps && eps.status == NotRegistering && csd.status == NotRegistering then Some(Reselect)
      else if stuckEps && eps.status == Denied && csd.status == Denied then Some(RfReset)
      else if csd.Sticky() && csd.Duration(t) >= timeout
              && (csd.status == Denied || csd.status == Roaming) && psd.status == Denied then Some(RfResetCsd)
      else if csd.Registered() && psd.Sticky() && psd.Duration(t) >= timeout
              && psd.status == NotRegistering && eps.status == NotRegistering then Some(Attach)
      else None
    }

    /** The intervention that fires at a given time. */
    function Choice(t: nat): Option<Branch> {
      if conn == Connecting then Wanted(t) else None
    }

    /** No intervention can fire, now or at any later time, while no report comes in. */
    ghost predicate Quiet() {
      forall t :: Wanted(t) == None
    }

    /** A poll is due at a given time. */
    predicate PollDue(t: nat) {
      checkTime.Some? ==> t >= checkTime.value + REGISTRATION_CHECK_INTERVAL
    }

    predicate Blank() {
      csd == BLANK && psd == BLANK && eps == BLANK
    }
  }

  const INITIAL := Snapshot(BLANK, BLANK, BLANK, Disconnected, None, None, 1, 0, Idle)

  datatype Event =
    | Report(domain: Domain, status: Status, t: nat)
    | Restart(start: nat, check: nat)
    | Move(to: ConnectionState)
    | Intervene(branch: Branch, t: nat)
    | AttachFailed
    | Poll(t: nat)
    | Rearm(t: nat)

  /** When an event may happen. Times never run backwards; reports come only in answer to a poll or to
      the first check after a restart; the clocks are re-armed only before the first intervention; an
      attach fails only right after it was forced. */
  predicate Enabled(s: Snapshot, e: Event) {
    match e
    case Report(d, _, t) => s.now <= t && s.MayReport(d)
    case Restart(start, check) => s.now <= start <= check
    case Move(to) => to != Disconnected && (if to == Connected then s.Registered() else s.Blank())
    case Intervene(branch, t) => s.now <= t && s.Choice(t) == Some(branch)
    case AttachFailed => s.stage == Attaching
    case Poll(t) => s.now <= t && s.PollDue(t)
    case Rearm(t) => s.now <= t && s.interventions == 1
  }

  function Apply(s: Snapshot, e: Event): Snapshot {
    match e
    case Report(d, stat, t) =>
      var told := s.(now := t, stage := Asking(Turn(d) + 1));
      (match d
       case Csd => told.(csd := s.csd.Reported(stat, t))
       case Psd => told.(psd := s.psd.Reported(stat, t))
       case Eps => told.(eps := s.eps.Reported(stat, t)))
    case Restart(start, check) =>
      s.(csd := BLANK, psd := BLANK, eps := BLANK,
         startTime := Some(start), checkTime := Some(check), interventions := 1, now := check, stage := Asking(0))
    case Move(to) => s.(conn := to)
    case Intervene(branch, t) =>
      var counted := s.(psd := BLANK, interventions := Min(255, s.interventions + 1), now := t);
      if branch == Attach then counted.(stage := Attaching)
      else counted.(csd := BLANK, eps := BLANK, stage := Idle)
    case AttachFailed => s.(csd := BLANK, psd := BLANK, eps := BLANK, stage := Idle)
    case Poll(t) => s.(checkTime := Some(t), now := t, stage := Asking(0))
    case Rearm(t) => s.(startTime := Some(t), checkTime := Some(t), now := t, stage := Idle)
  }

  function Run(es: seq<Event>): Snapshot {
    if es == [] then INITIAL else Apply(Run(es[..|es| - 1]), es[|es| - 1])
  }

  predicate Legal(es: seq<Event>) {
    es != [] ==> Legal(es[..|es| - 1]) && Enabled(Run(es[..|es| - 1]), es[|es| - 1])
  }

  /** The time of the last restart, or of the beginning. */
  function LastRestart(es: seq<Event>): nat {
    if es == [] then 0
    else if es[|es| - 1].Restart? then es[|es| - 1].start
    else LastRestart(es[..|es| - 1])
  }

  /** The interventions since the last restart. */
  function Count(es: seq<Event>): nat {
    if es == [] || es[|es| - 1].Restart? then 0
    else Count(es[..|es| - 1]) + if es[|es| - 1].Intervene? then 1 else 0
  }

  /** An attach that failed: the forced attach and, right after it, its failure. */
  predicate EndsInFailedAttach(es: seq<Event>) {
    && |es| >= 2
    && es[|es| - 1].AttachFailed?
    && es[|es| - 2].Intervene? && es[|es| - 2].branch == Attach
  }

  /** Since the last restart every intervention has reset all three cells: none was a GPRS attach, unless
      it failed at once. */
  predicate AllReset(es: seq<Event>) {
    || es == []
    || es[|es| - 1].Restart?
    || (EndsInFailedAttach(es) && AllReset(es[..|es| - 2]))
    || (&& !es[|es| - 1].AttachFailed?
        && (es[|es| - 1].Intervene? ==> es[|es| - 1].branch != Attach)
        && AllReset(es[..|es| - 1]))
  }

  /** What adding one event means for everything defined above. */
  lemma Snoc(es: seq<Event>, e: Event)
    ensures Run(es + [e]) == Apply(Run(es), e)
    ensures Legal(es + [e]) <==> Legal(es) && Enabled(Run(es), e)
    ensures Count(es + [e]) == if e.Restart? then 0 else Count(es) + if e.Intervene? then 1 else 0
    ensures LastRestart(es + [e]) == if e.Restart? then e.start else LastRestart(es)
  {
  }

  // ------------------------------------------------------------------ when each branch is called for

  /** A status was reported again after it had come up, and has lasted for the counter times 15 s. */
  predicate Lasted(c: Cell, interventions: nat, t: nat) {
    && c.started.Some? && c.updated.Some? && c.updated.value != c.started.value
    && t >= c.started.value + interventions * BACKOFF
  }

  /** The four branches, in terms of the fields of the cells. The conditions exclude one another, except that
      an RF reset on EPS evidence goes before one on CSD evidence. */
  lemma CalledForIff(s: Snapshot, t: nat)
    requires s.interventions > 0
    ensures s.Choice(t) == Some(Reselect) <==>
              && s.conn == Connecting && Lasted(s.eps, s.interventions, t)
              && s.eps.status == NotRegistering && s.csd.status == NotRegistering
    ensures s.Choice(t) == Some(RfReset) <==>
              && s.conn == Connecting && Lasted(s.eps, s.interventions, t)
              && s.eps.status == Denied && s.csd.status == Denied
    ensures s.Choice(t) == Some(RfResetCsd) <==>
              && s.conn == Connecting && Lasted(s.csd, s.interventions, t)
              && (s.csd.status == Denied || s.csd.status == Roaming) && s.psd.status == Denied
              && !(Lasted(s.eps, s.interventions, t) && s.eps.status == Denied && s.csd.status == Denied)
    ensures s.Choice(t) == Some(Attach) <==>
              && s.conn == Connecting && Lasted(s.psd, s.interventions, t)
              && (s.csd.status == Home || s.csd.status == Roaming)
              && s.psd.status == NotRegistering && s.eps.status == NotRegistering
  {
    assert s.interventions * BACKOFF > 0;
  }

  /** Registered means at home or roaming, for circuits and packets, or for EPS. */
  lemma RegisteredIff(s: Snapshot)
    ensures s.Registered() <==>
              || (s.csd.status in {Home, Roaming} && s.psd.status in {Home, Roaming})
              || s.eps.status in {Home, Roaming}
  {
  }

  // ------------------------------------------------------------------ the counter and the backoff

  /** The 8-bit counter is one more than the interventions since the restart, cut off at 255. */
  lemma {:induction false} CounterCountsInterventions(es: seq<Event>)
    requires Legal(es)
    ensures Run(es).interventions == Min(255, 1 + Count(es))
  {
    if es != [] {
      CounterCountsInterventions(es[..|es| - 1]);
    }
  }

  /** No cell started before a given time. */
  predicate StartedFrom(s: Snapshot, floor: nat) {
    && s.now >= floor
    && (s.csd.started.Some? ==> s.csd.started.value >= floor)
    && (s.psd.started.Some? ==> s.psd.started.value >= floor)
    && (s.eps.started.Some? ==> s.eps.started.value >= floor)
  }

  lemma StartedFromStep(s: Snapshot, e: Event, floor: nat)
    requires Enabled(s, e) && StartedFrom(s, floor)
    ensures StartedFrom(Apply(s, e), floor)
  {
  }

  /** A firing intervention needs a cell that started at least counter * 15 s ago. */
  lemma FiringTakesTime(s: Snapshot, t: nat, floor: nat)
    requires StartedFrom(s, floor) && s.interventions > 0 && s.Choice(t).Some?
    ensures t >= floor + s.interventions * BACKOFF
  {
  }

  lemma {:induction false} StartedSinceRestart(es: seq<Event>)
    requires Legal(es)
    ensures StartedFrom(Run(es), LastRestart(es))
  {
    if es != [] {
      var p, e := es[..|es| - 1], es[|es| - 1];
      StartedSinceRestart(p);
      if !e.Restart? {
        StartedFromStep(Run(p), e, LastRestart(p));
      }
    }
  }

  /** The n-th intervention after a restart comes no earlier than 15 n seconds after it. */
  lemma {:induction false} BackoffBound(es: seq<Event>, branch: Branch, t: nat)
    requires Legal(es + [Intervene(branch, t)])
    ensures t >= LastRestart(es) + Min(255, Count(es) + 1) * BACKOFF
  {
    Snoc(es, Intervene(branch, t));
    StartedSinceRestart(es);
    CounterCountsInterventions(es);
    FiringTakesTime(Run(es), t, LastRestart(es));
  }

  lemma {:induction false} LegalPrefix(es: seq<Event>, k: nat)
    requires Legal(es) && k <= |es|
    ensures Legal(es[..k])
  {
    if k < |es| {
      LegalPrefix(es[..|es| - 1], k);
      assert es[..|es| - 1][..k] == es[..k];
    } else {
      assert es[..k] == es;
    }
  }

  /** The same, for any intervention anywhere in a run. */
  lemma {:induction false} BackoffEverywhere(es: seq<Event>, k: nat)
    requires Legal(es) && k < |es| && es[k].Intervene?
    ensures es[k].t >= LastRestart(es[..k]) + Min(255, Count(es[..k]) + 1) * BACKOFF
  {
    LegalPrefix(es, k + 1);
    assert es[..k + 1] == es[..k] + [Intervene(es[k].branch, es[k].t)];
    BackoffBound(es[..k], es[k].branch, es[k].t);
  }

  function Triangle(n: nat): nat {
    if n == 0 then 0 else Triangle(n - 1) + n
  }

  lemma {:induction false} TriangleClosedForm(n: nat)
    ensures Triangle(n) == n * (n + 1) / 2
  {
    if n > 0 {
      TriangleClosedForm(n - 1);
    }
  }

  /** The earliest time of the n-th intervention when the waiting times add up. */
  function Floor(restart: nat, n: nat): nat {
    restart + Triangle(n) * BACKOFF
  }

  lemma FiringRaisesFloor(s: Snapshot, t: nat, restart: nat, n: nat)
    requires StartedFrom(s, Floor(restart, n)) && s.interventions == n + 1 && s.Choice(t).Some?
    ensures t >= Floor(restart, n + 1)
  {
  }

  /** While every intervention resets all three cells, the waiting times add up. */
  lemma {:induction false} WaitsAddUp(es: seq<Event>)
    requires Legal(es) && AllReset(es) && Count(es) <= 255
    ensures StartedFrom(Run(es), Floor(LastRestart(es), Count(es)))
  {
    if es != [] && !es[|es| - 1].Restart? {
      if EndsInFailedAttach(es) {
        BeforeFailedAttach(es);
        var p, e := es[..|es| - 2], es[|es| - 2];
        WaitsAddUp(p);
        CounterCountsInterventions(p);
        FiringRaisesFloor(Run(p), e.t, LastRestart(p), Count(p));
      } else {
        var p, e := es[..|es| - 1], es[|es| - 1];
        WaitsAddUp(p);
        if e.Intervene? {
          CounterCountsInterventions(p);
          FiringRaisesFloor(Run(p), e.t, LastRestart(p), Count(p));
        } else {
          StartedFromStep(Run(p), e, Floor(LastRestart(p), Count(p)));
        }
      }
    }
  }

  /** A failed attach, looked at as one step from the state before it. */
  lemma BeforeFailedAttach(es: seq<Event>)
    requires Legal(es) && EndsInFailedAttach(es)
    ensures var p, e := es[..|es| - 2], es[|es| - 2];
            && Legal(p) && Enabled(Run(p), e)
            && Count(es) == Count(p) + 1 && LastRestart(es) == LastRestart(p)
            && Run(es) == Apply(Apply(Run(p), e), AttachFailed)
  {
    assert es[..|es| - 1] == es[..|es| - 2] + [es[|es| - 2]];
    Snoc(es[..|es| - 2], es[|es| - 2]);
    assert es == es[..|es| - 1] + [AttachFailed];
    Snoc(es[..|es| - 1], AttachFailed);
  }

  /** When every earlier intervention since the restart reset all three cells, the n-th one comes
      no earlier than 15 n (n + 1) / 2 seconds after the restart. */
  lemma {:induction false} TriangularBackoff(es: seq<Event>, branch: Branch, t: nat)
    requires Legal(es + [Intervene(branch, t)])
    requires AllReset(es) && Count(es) < 255
    ensures var n := Count(es) + 1;
            t >= LastRestart(es) + n * (n + 1) / 2 * BACKOFF
  {
    Snoc(es, Intervene(branch, t));
    WaitsAddUp(es);
    CounterCountsInterventions(es);
    FiringRaisesFloor(Run(es), t, LastRestart(es), Count(es));
    TriangleClosedForm(Count(es) + 1);
  }

  /** The same, counted from the start of the registration timeout. The first intervention may follow that
      start at once, since the clocks are re-armed after the restart; each later one adds its waiting time. */
  function FloorFromStart(start: nat, n: nat): nat
    requires n > 0
  {
    start + (Triangle(n) - 1) * BACKOFF
  }

  predicate LaterThanStart(s: Snapshot, n: nat) {
    s.startTime.Some? ==>
      && s.startTime.value <= s.now
      && (n > 0 ==> StartedFrom(s, FloorFromStart(s.startTime.value, n)))
  }

  lemma FiringRaisesFloorFromStart(s: Snapshot, t: nat, n: nat)
    requires LaterThanStart(s, n) && s.interventions == n + 1 && s.now <= t && s.Choice(t).Some?
    ensures s.startTime.Some? ==> t >= FloorFromStart(s.startTime.value, n + 1)
  {
    if s.startTime.Some? && n > 0 {
      FiringTakesTime(s, t, FloorFromStart(s.startTime.value, n));
      assert (Triangle(n + 1) - 1) * BACKOFF == (Triangle(n) - 1) * BACKOFF + (n + 1) * BACKOFF;
    }
  }

  lemma {:induction false} WaitsAddUpFromStart(es: seq<Event>)
    requires Legal(es) && AllReset(es) && Count(es) <= 255
    ensures LaterThanStart(Run(es), Count(es))
  {
    if es != [] && !es[|es| - 1].Restart? {
      if EndsInFailedAttach(es) {
        BeforeFailedAttach(es);
        var p, e := es[..|es| - 2], es[|es| - 2];
        WaitsAddUpFromStart(p);
        CounterCountsInterventions(p);
        FiringRaisesFloorFromStart(Run(p), e.t, Count(p));
      } else {
        var p, e := es[..|es| - 1], es[|es| - 1];
        WaitsAddUpFromStart(p);
        CounterCountsInterventions(p);
        if e.Intervene? {
          FiringRaisesFloorFromStart(Run(p), e.t, Count(p));
        } else if Count(p) > 0 && Run(p).startTime.Some? {
          StartedFromStep(Run(p), e, FloorFromStart(Run(p).startTime.value, Count(p)));
        }
      }
    }
  }

  /** At most four such interventions fit in the registration timeout, measured as the driver measures it:
      from the start time, which the initialisation re-arms after the restart. */
  lemma {:induction false} AtMostFourBeforeTimeout(es: seq<Event>)
    requires Legal(es) && AllReset(es)
    requires Run(es).startTime.Some? && Run(es).now < Run(es).startTime.value + REGISTRATION_TIMEOUT
    ensures Count(es) <= 4
  {
    if Count(es) > 0 {
      CounterCountsInterventions(es[..|es| - 1]);
      if EndsInFailedAttach(es) {
        BeforeFailedAttach(es);
        AtMostFourBeforeTimeout(es[..|es| - 2]);
      } else {
        AtMostFourBeforeTimeout(es[..|es| - 1]);
      }
      WaitsAddUpFromStart(es);
      FiveTakeTooLong(Run(es).startTime.value);
    }
  }

  lemma FiveTakeTooLong(start: nat)
    ensures FloorFromStart(start, 5) >= start + REGISTRATION_TIMEOUT
  {
    TriangleClosedForm(5);
  }

  // ------------------------------------------------------------------ what an attach that succeeds costs

  /** Facts about every cell: a status has a start, and no start lies ahead. */
  predicate CellSound(c: Cell, now: nat) {
    && (c.status != NoStatus ==> c.started.Some?)
    && (c.started.Some? ==> c.started.value <= now)
  }

  predicate Sound(s: Snapshot) {
    CellSound(s.csd, s.now) && CellSound(s.psd, s.now) && CellSound(s.eps, s.now)
  }

  lemma SoundStep(s: Snapshot, e: Event)
    requires Sound(s) && Enabled(s, e)
    ensures Sound(Apply(s, e))
  {
  }

  lemma {:induction false} CellsSound(es: seq<Event>)
    requires Legal(es)
    ensures Sound(Run(es))
  {
    hide CellSound;
    if es != [] {
      CellsSound(es[..|es| - 1]);
      SoundStep(Run(es[..|es| - 1]), es[|es| - 1]);
    } else {
      BlankSound();
    }
  }

  lemma BlankSound()
    ensures Sound(INITIAL)
  {
  }

  /** The state right after a GPRS attach was forced. */
  predicate Forced(s: Snapshot) {
    && s.conn == Connecting && s.stage == Attaching && s.interventions > 0
    && s.psd == BLANK
    && s.csd.Registered() && CellSound(s.csd, s.now)
    && s.eps.status == NotRegistering && CellSound(s.eps, s.now)
  }

  lemma AttachForces(es: seq<Event>, t: nat)
    requires Legal(es + [Intervene(Attach, t)])
    ensures Forced(Run(es + [Intervene(Attach, t)]))
    ensures Count(es + [Intervene(Attach, t)]) == Count(es) + 1
    ensures LastRestart(es + [Intervene(Attach, t)]) == LastRestart(es)
  {
    Snoc(es, Intervene(Attach, t));
    CellsSound(es);
    CounterCountsInterventions(es);
  }

  /** The earliest time of the next poll. */
  function NextPoll(s: Snapshot): nat {
    if s.checkTime.Some? && s.checkTime.value + REGISTRATION_CHECK_INTERVAL > s.now
    then s.checkTime.value + REGISTRATION_CHECK_INTERVAL else s.now
  }

  /** The start the attach left in place: that of EPS, and that of CSD when it is roaming. */
  function KeptStart(s: Snapshot): nat
    requires Forced(s)
  {
    if s.csd.status == Roaming then Min(s.csd.started.value, s.eps.started.value) else s.eps.started.value
  }

  /** The earliest time of the next intervention after an attach that did not fail: the waiting time counts
      from a start the attach left in place, and a report must come in first. */
  function EarliestAfterAttach(s: Snapshot): nat
    requires Forced(s)
  {
    var waited := KeptStart(s) + s.interventions * BACKOFF;
    if waited > NextPoll(s) then waited else NextPoll(s)
  }

  /** A cell keeps its status and start, or has started no earlier than the next poll. */
  predicate KeptOrFresh(was: Cell, c: Cell, poll: nat) {
    || (c.status == was.status && c.started == was.started)
    || (c.started.Some? ==> c.started.value >= poll)
  }

  /** What holds from a forced attach to the next intervention, restart or failure. */
  predicate SinceForced(was: Snapshot, s: Snapshot) {
    && s.interventions == was.interventions && was.now <= s.now
    && (if s.stage.Asking? then s.now >= NextPoll(was)
        else s.csd == was.csd && s.psd == was.psd && s.eps == was.eps && s.checkTime == was.checkTime)
    && KeptOrFresh(was.csd, s.csd, NextPoll(was))
    && KeptOrFresh(was.eps, s.eps, NextPoll(was))
    && (s.psd.started.Some? ==> s.psd.started.value >= NextPoll(was))
  }

  predicate Uneventful(e: Event) {
    !e.Restart? && !e.Intervene? && !e.AttachFailed?
  }

  lemma SinceForcedStep(was: Snapshot, s: Snapshot, e: Event)
    requires Forced(was) && was.interventions > 1 && SinceForced(was, s) && Enabled(s, e) && Uneventful(e)
    ensures SinceForced(was, Apply(s, e))
  {
  }

  lemma {:induction false} SinceForcedRun(es: seq<Event>, more: seq<Event>)
    requires Legal(es + more) && Forced(Run(es)) && Run(es).interventions > 1
    requires forall e :: e in more ==> Uneventful(e)
    ensures SinceForced(Run(es), Run(es + more))
  {
    if more == [] {
      assert es + more == es;
    } else {
      var rest, last := more[..|more| - 1], more[|more| - 1];
      assert es + more == (es + rest) + [last];
      Snoc(es + rest, last);
      assert last in more && more == rest + [last];
      SinceForcedRun(es, rest);
      SinceForcedStep(Run(es), Run(es + rest), last);
    }
  }

  lemma NoEarlierThanEarliest(was: Snapshot, s: Snapshot, t: nat)
    requires Forced(was) && SinceForced(was, s) && s.now <= t && s.Choice(t).Some?
    ensures t >= EarliestAfterAttach(was)
  {
    assert s.interventions * BACKOFF > 0;
  }

  /** The next intervention after a run: nothing but moves, polls and reports lies between. */
  predicate NextIntervention(es: seq<Event>, more: seq<Event>, branch: Branch, t: nat) {
    && Legal(es + more + [Intervene(branch, t)])
    && forall e :: e in more ==> Uneventful(e)
  }

  ghost predicate IntervenesBefore(es: seq<Event>, bound: nat) {
    exists more, branch, t: nat :: NextIntervention(es, more, branch, t) && t < bound
  }

  /** Three more events and an intervention, each possible where it happens. */
  lemma ExtendByThree(es: seq<Event>, a: Event, b: Event, c: Event, branch: Branch, t: nat)
    requires Legal(es) && Enabled(Run(es), a)
    requires Enabled(Apply(Run(es), a), b) && Enabled(Apply(Apply(Run(es), a), b), c)
    requires Enabled(Apply(Apply(Apply(Run(es), a), b), c), Intervene(branch, t))
    requires Uneventful(a) && Uneventful(b) && Uneventful(c)
    ensures NextIntervention(es, [a, b, c], branch, t)
  {
    hide Enabled, Apply;
    Snoc(es, a);
    Snoc(es + [a], b);
    Snoc(es + [a] + [b], c);
    Snoc(es + [a] + [b] + [c], Intervene(branch, t));
    assert es + [a, b, c] == es + [a] + [b] + [c];
  }

  lemma ReselectPossible(s: Snapshot, t: nat)
    requires Forced(s) && t >= NextPoll(s) && t >= s.eps.started.value + s.interventions * BACKOFF
    ensures
      var a, b, c := Poll(t), Report(Csd, NotRegistering, t), Report(Eps, NotRegistering, t);
      && Enabled(s, a) && Enabled(Apply(s, a), b) && Enabled(Apply(Apply(s, a), b), c)
      && Enabled(Apply(Apply(Apply(s, a), b), c), Intervene(Reselect, t))
  {
    assert s.interventions * BACKOFF > 0;
  }

  lemma RfResetPossible(s: Snapshot, t: nat)
    requires Forced(s) && t >= NextPoll(s) && s.csd.status == Roaming
    requires s.eps.started.value + s.interventions * BACKOFF > t >= s.csd.started.value + s.interventions * BACKOFF
    ensures
      var a, b, c := Poll(t), Report(Csd, Roaming, t), Report(Psd, Denied, t);
      && Enabled(s, a) && Enabled(Apply(s, a), b) && Enabled(Apply(Apply(s, a), b), c)
      && Enabled(Apply(Apply(Apply(s, a), b), c), Intervene(RfResetCsd, t))
  {
    assert s.interventions * BACKOFF > 0;
  }

  /** The earliest time is reached: a poll at that time finds EPS still not registering, and CSD now so too;
      or CSD still roaming, and PSD denied. */
  lemma EarliestIsReached(es: seq<Event>) returns (more: seq<Event>, branch: Branch)
    requires Legal(es) && Forced(Run(es))
    ensures NextIntervention(es, more, branch, EarliestAfterAttach(Run(es)))
  {
    hide Legal, Run, Enabled, Apply, NextIntervention;
    var s, t := Run(es), EarliestAfterAttach(Run(es));
    if s.eps.started.value + s.interventions * BACKOFF <= t {
      branch := Reselect;
      more := [Poll(t), Report(Csd, NotRegistering, t), Report(Eps, NotRegistering, t)];
      ReselectPossible(s, t);
      ExtendByThree(es, Poll(t), Report(Csd, NotRegistering, t), Report(Eps, NotRegistering, t), Reselect, t);
    } else {
      branch := RfResetCsd;
      more := [Poll(t), Report(Csd, Roaming, t), Report(Psd, Denied, t)];
      RfResetPossible(s, t);
      ExtendByThree(es, Poll(t), Report(Csd, Roaming, t), Report(Psd, Denied, t), RfResetCsd, t);
    }
  }

  /** So for any bound, after an attach that did not fail the next intervention can come before the bound
      exactly when the earliest time does. (Giving up after 180 s is an error of a tick and leaves the
      registration state alone, so it is no event.) */
  lemma AttachCost(es: seq<Event>, t: nat, bound: nat)
    requires Legal(es + [Intervene(Attach, t)])
    ensures Forced(Run(es + [Intervene(Attach, t)]))
    ensures IntervenesBefore(es + [Intervene(Attach, t)], bound)
            <==> EarliestAfterAttach(Run(es + [Intervene(Attach, t)])) < bound
  {
    var forced := es + [Intervene(Attach, t)];
    AttachForces(es, t);
    CounterCountsInterventions(forced);
    if IntervenesBefore(forced, bound) {
      var more, branch, u: nat :| NextIntervention(forced, more, branch, u) && u < bound;
      Snoc(forced + more, Intervene(branch, u));
      SinceForcedRun(forced, more);
      NoEarlierThanEarliest(Run(forced), Run(forced + more), u);
    }
    if EarliestAfterAttach(Run(forced)) < bound {
      var more, branch := EarliestIsReached(forced);
      assert NextIntervention(forced, more, branch, EarliestAfterAttach(Run(forced)));
    }
  }

  /** The exact condition for the triangular bound after an attach that did not fail, the n-th intervention:
      the next one can undercut the bound exactly when its earliest time lies below it. */
  lemma TriangleUndercutIff(es: seq<Event>, t: nat)
    requires Legal(es + [Intervene(Attach, t)])
    ensures
      var forced := es + [Intervene(Attach, t)];
      var n := Count(es) + 2;
      var bound := LastRestart(es) + n * (n + 1) / 2 * BACKOFF;
      && Forced(Run(forced)) && Count(forced) + 1 == n && LastRestart(forced) == LastRestart(es)
      && (IntervenesBefore(forced, bound) <==> EarliestAfterAttach(Run(forced)) < bound)
  {
    AttachForces(es, t);
    AttachCost(es, t, LastRestart(es) + (Count(es) + 2) * (Count(es) + 3) / 2 * BACKOFF);
  }

  /** And it does happen. In this run, with a check after the restart and a poll at 15 s, the attach comes at
      15 s, and the second intervention can come at 30 s, not 45 s. */
  lemma AttachBreaksTriangle() returns (es: seq<Event>)
    ensures Legal(es) && Count(es) == 1 && Run(es).stage == Attaching
    ensures IntervenesBefore(es, LastRestart(es) + 2 * (2 + 1) / 2 * BACKOFF)
  {
    es := SecondCheck();
    Snoc(es, Intervene(Attach, 15 * SECOND));
    AttachCost(es, 15 * SECOND, 45 * SECOND);
    es := es + [Intervene(Attach, 15 * SECOND)];
  }

  lemma SecondCheck() returns (es: seq<Event>)
    ensures Legal(es) && Count(es) == 0 && LastRestart(es) == 0
    ensures Run(es) == Snapshot(Cell(Home, Some(15 * SECOND), Some(0)),
                                Cell(NotRegistering, Some(15 * SECOND), Some(0)),
                                Cell(NotRegistering, Some(15 * SECOND), Some(0)),
                                Connecting, Some(0), Some(15 * SECOND), 1, 15 * SECOND, Asking(3))
  {
    es := FirstCheck();
    es := Extend(es, Poll(15 * SECOND));
    es := Extend(es, Report(Csd, Home, 15 * SECOND));
    es := Extend(es, Report(Psd, NotRegistering, 15 * SECOND));
    es := Extend(es, Report(Eps, NotRegistering, 15 * SECOND));
  }

  lemma FirstCheck() returns (es: seq<Event>)
    ensures Legal(es) && Count(es) == 0 && LastRestart(es) == 0
    ensures Run(es) == Snapshot(Cell(Home, Some(0), Some(0)), Cell(NotRegistering, Some(0), Some(0)),
                                Cell(NotRegistering, Some(0), Some(0)),
                                Connecting, Some(0), Some(0), 1, 0, Idle)
  {
    es := [];
    es := Extend(es, Restart(0, 0));
    es := Extend(es, Move(Connecting));
    es := Extend(es, Report(Csd, Home, 0));
    es := Extend(es, Report(Psd, NotRegistering, 0));
    es := Extend(es, Report(Eps, NotRegistering, 0));
    es := Extend(es, Rearm(0));
  }

  lemma Extend(es: seq<Event>, e: Event) returns (more: seq<Event>)
    requires Legal(es) && Enabled(Run(es), e)
    ensures more == es + [e] && Legal(more) && Run(more) == Apply(Run(es), e)
    ensures Count(more) == if e.Restart? then 0 else Count(es) + if e.Intervene? then 1 else 0
    ensures LastRestart(more) == if e.Restart? then e.start else LastRestart(es)
  {
    Snoc(es, e);
    more := es + [e];
  }

  // ------------------------------------------------------------------ urgency

  /** An intervention once called for does not become superfluous by waiting, though it may become another. */
  lemma StillWanted(s: Snapshot, t0: nat, t: nat)
    requires s.Choice(t0).Some? && t0 <= t
    ensures s.Choice(t).Some?
  {
  }

  // ------------------------------------------------------------------ quiescence

  lemma QuietAfterFiring(s: Snapshot, t: nat)
    requires s.Choice(t).Some? && s.interventions > 0
    ensures Apply(s, Intervene(s.Choice(t).value, t)).Quiet()
    ensures !Apply(s, Intervene(s.Choice(t).value, t)).Registered()
  {
  }

  /** After an intervention, of whatever branch and with whatever outcome, none can fire again at
      any time until a new report has been recorded. */
  lemma {:induction false} QuietUntilReport(es: seq<Event>, branch: Branch, t: nat, more: seq<Event>)
    requires Legal(es + [Intervene(branch, t)] + more)
    requires forall e :: e in more ==> !e.Report?
    ensures Run(es + [Intervene(branch, t)] + more).Quiet()
    ensures forall e :: e in more ==> !e.Intervene?
  {
    var fired := es + [Intervene(branch, t)];
    if more == [] {
      assert fired + more == fired;
      Snoc(es, Intervene(branch, t));
      CounterCountsInterventions(es);
      QuietAfterFiring(Run(es), t);
    } else {
      var rest, last := more[..|more| - 1], more[|more| - 1];
      assert fired + more == (fired + rest) + [last];
      Snoc(fired + rest, last);
      assert last in more && more == rest + [last];
      QuietUntilReport(es, branch, t, rest);
      QuietStep(Run(fired + rest), last);
    }
  }

  lemma QuietStep(s: Snapshot, e: Event)
    requires s.Quiet() && Enabled(s, e) && !e.Report?
    ensures Apply(s, e).Quiet() && !e.Intervene?
  {
    forall t
      ensures Apply(s, e).Wanted(t) == None
    {
      assert s.Wanted(t) == None;
    }
  }

  // ------------------------------------------------------------------ poll rate

  lemma {:induction false} CheckTimeCoversPolls(es: seq<Event>, t: nat)
    requires Legal(es) && Poll(t) in es
    ensures Run(es).checkTime.Some? && t <= Run(es).checkTime.value
  {
    var p, e := es[..|es| - 1], es[|es| - 1];
    CheckTimeInPast(p);
    if e != Poll(t) {
      assert es == p + [e];
      CheckTimeCoversPolls(p, t);
    }
  }

  lemma {:induction false} CheckTimeInPast(es: seq<Event>)
    requires Legal(es)
    ensures Run(es).checkTime.Some? ==> Run(es).checkTime.value <= Run(es).now
  {
    if es != [] {
      CheckTimeInPast(es[..|es| - 1]);
    }
  }

  /** Any two polls are at least 15 s apart, whatever happens between them. */
  lemma PollsFarApart(es: seq<Event>, t0: nat, t: nat)
    requires Legal(es + [Poll(t)]) && Poll(t0) in es
    ensures t >= t0 + REGISTRATION_CHECK_INTERVAL
  {
    Snoc(es, Poll(t));
    CheckTimeCoversPolls(es, t0);
  }

  /** The polls with times from a to b. */
  function PollsWithin(es: seq<Event>, a: nat, b: nat): nat {
    if es == [] then 0
    else PollsWithin(es[..|es| - 1], a, b)
         + if es[|es| - 1].Poll? && a <= es[|es| - 1].t <= b then 1 else 0
  }

  /** A window of b - a holds at most (b - a) / 15 s + 1 polls. */
  lemma {:induction false} PollRate(es: seq<Event>, a: nat, b: nat)
    requires Legal(es) && a <= b
    ensures PollsWithin(es, a, b) <= (b - a) / REGISTRATION_CHECK_INTERVAL + 1
  {
    var last := LatestPoll(es, a, b);
  }

  lemma {:induction false} LatestPoll(es: seq<Event>, a: nat, b: nat) returns (last: nat)
    requires Legal(es) && a <= b
    ensures PollsWithin(es, a, b) > 0 ==>
              && Poll(last) in es && last <= b
              && a + (PollsWithin(es, a, b) - 1) * REGISTRATION_CHECK_INTERVAL <= last
  {
    last := 0;
    if es != [] {
      var p, e := es[..|es| - 1], es[|es| - 1];
      assert es == p + [e];
      last := LatestPoll(p, a, b);
      if e.Poll? && a <= e.t <= b {
        if PollsWithin(p, a, b) > 0 {
          PollsFarApart(p, last, e.t);
        }
        last := e.t;
      }
    }
  }

  // ------------------------------------------------------------------ connection state

  /** Once the connection state has left Disconnected it never returns there. This rests on the guard of
      Move alone: the driver's methods move only to Connecting or Connected, and every change they make to
      the connection state is recorded as a Move. */
  lemma {:induction false} NeverDisconnectedAgain(es: seq<Event>, more: seq<Event>)
    requires Legal(es + more) && Run(es).conn != Disconnected
    ensures Run(es + more).conn != Disconnected
  {
    if more == [] {
      assert es + more == es;
    } else {
      var rest, last := more[..|more| - 1], more[|more| - 1];
      assert es + more == (es + rest) + [last];
      Snoc(es + rest, last);
      NeverDisconnectedAgain(es, rest);
    }
  }
}
