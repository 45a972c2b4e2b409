/** The network layer: URC handling, the registration supervisor's tick, and sending commands. */
module Network {
  import opened Wrappers
  import opened At
  import opened StatusCell
  import opened Supervisor
  import opened Registration
  import opened Milestones

  const PROFILE_ID: nat := 1

  const WATCHDOG_LIMIT: nat := 10

  datatype ContextState = Setup | Activating | Active

  /** What a URC does to the context state. */
  function NextContext(c: ContextState, u: Urc): ContextState {
    match u
    case DataConnectionActivated(result) => if result == 0 then Active else Setup
    case DataConnectionDeactivated(profile) => if profile == PROFILE_ID then Activating else c
    case OtherUrc => c
  }

  /** Why the context invariant speaks of undisturbed setups only: an exchange right after the beginning of
      a setup may consume a successful +UUPSDA, and then the context is Active with nothing defined. */
  lemma ActivationSkipsDefinition(log: seq<Entry>, req: Cmd, r: Reply)
    requires log != [] && log[|log| - 1] == SetupBegun
    ensures
      var after := log + [Consumed(DataConnectionActivated(0)), Sent(req, r)];
      && Exchanged(log, after, Setup, Active, req, r, true)
      && !Defined(after) && !Undisturbed(after)
  {
    var one := log + [Consumed(DataConnectionActivated(0))];
    var after := log + [Consumed(DataConnectionActivated(0)), Sent(req, r)];
    assert one[..|one| - 1] == log && after[..|after| - 1] == one;
    forall apn
      ensures Progress(DefinitionScript(apn), SetupBegun, after) == 0
    {
      assert Progress(DefinitionScript(apn), SetupBegun, log) == 0;
      assert Progress(DefinitionScript(apn), SetupBegun, one) == 0;
    }
  }

  /** The exact condition for one URC: where the context has left Setup only after a definition, this is so
      after the URC exactly when a definition is there, or the URC is neither a successful +UUPSDA nor a
      +UUPSDD for the driver's profile. */
  lemma UrcKeepsContextIff(c: ContextState, log: seq<Entry>, u: Urc)
    requires c != Setup ==> Defined(log)
    ensures (NextContext(c, u) != Setup ==> Defined(log + [Consumed(u)])) <==> Defined(log) || !ContextUrc(u)
  {
    UrcDefinesNothing(log, u);
  }

  /** One exchange: the command with its reply, and before it, if URCs were checked, perhaps one
      consumed URC, which decides the context state. */
  predicate Exchanged(before: seq<Entry>, after: seq<Entry>, c0: ContextState, c1: ContextState,
                      req: Cmd, r: Reply, checkUrc: bool) {
    || (after == before + [Sent(req, r)] && c1 == c0)
    || (&& checkUrc
        && |after| == |before| + 2
        && after[|before|].Consumed?
        && after == before + [after[|before|], Sent(req, r)]
        && c1 == NextContext(c0, after[|before|].urc))
  }

  /** The context state after the URCs consumed in a stretch of log. */
  function Replayed(c: ContextState, log: seq<Entry>): ContextState {
    if log == [] then c
    else
      var before := Replayed(c, log[..|log| - 1]);
      if log[|log| - 1].Consumed? then NextContext(before, log[|log| - 1].urc) else before
  }

  lemma {:induction false} ReplayedConcat(c: ContextState, a: seq<Entry>, b: seq<Entry>)
    ensures Replayed(c, a + b) == Replayed(Replayed(c, a), b)
  {
    if b == [] {
      assert a + b == a;
    } else {
      assert (a + b)[..|a + b| - 1] == a + b[..|b| - 1];
      ReplayedConcat(c, a, b[..|b| - 1]);
    }
  }

  /** The log grew, and the context state changed as the URCs consumed on the way say, and not otherwise. */
  predicate Follows(c0: ContextState, before: seq<Entry>, c1: ContextState, after: seq<Entry>) {
    before <= after && c1 == Replayed(c0, after[|before|..])
  }

  lemma FollowsTransitive(c0: ContextState, l0: seq<Entry>, c1: ContextState, l1: seq<Entry>,
                          c2: ContextState, l2: seq<Entry>)
    requires Follows(c0, l0, c1, l1) && Follows(c1, l1, c2, l2)
    ensures Follows(c0, l0, c2, l2)
  {
    hide Replayed;
    assert l2[|l0|..] == l1[|l0|..] + l2[|l1|..];
    ReplayedConcat(c0, l1[|l0|..], l2[|l1|..]);
  }

  lemma FollowsReflexive(c: ContextState, log: seq<Entry>)
    ensures Follows(c, log, c, log)
  {
  }

  lemma UrcFollows(c: ContextState, log: seq<Entry>, u: Urc)
    ensures Follows(c, log, NextContext(c, u), log + [Consumed(u)])
  {
    assert (log + [Consumed(u)])[|log|..] == [Consumed(u)];
    assert [Consumed(u)][..0] == [];
  }

  lemma EntryFollows(c: ContextState, log: seq<Entry>, e: Entry)
    requires !e.Consumed?
    ensures Follows(c, log, c, log + [e])
  {
    assert (log + [e])[|log|..] == [e];
    assert [e][..0] == [];
  }

  lemma FollowsSend(c0: ContextState, l0: seq<Entry>, c1: ContextState, l1: seq<Entry>, e: Entry)
    requires Follows(c0, l0, c1, l1) && !e.Consumed?
    ensures Follows(c0, l0, c1, l1 + [e])
  {
    EntryFollows(c1, l1, e);
    FollowsTransitive(c0, l0, c1, l1, c1, l1 + [e]);
  }

  /** The last command failed, and this is its error. */
  predicate Refused(error: DriverError, log: seq<Entry>) {
    && error.AtFailure? && log != []
    && log[|log| - 1].Sent? && log[|log| - 1].reply == Failure(error.at)
  }

  /** The commands of a stretch of log, without the URCs between them. */
  function Commands(log: seq<Entry>): seq<Entry> {
    if log == [] then []
    else Commands(log[..|log| - 1]) + if log[|log| - 1].Sent? then [log[|log| - 1]] else []
  }

  lemma {:induction false} CommandsConcat(a: seq<Entry>, b: seq<Entry>)
    ensures Commands(a + b) == Commands(a) + Commands(b)
  {
    if b == [] {
      assert a + b == a;
    } else {
      assert (a + b)[..|a + b| - 1] == a + b[..|b| - 1];
      CommandsConcat(a, b[..|b| - 1]);
    }
  }

  lemma CommandsGrow(before: seq<Entry>, after: seq<Entry>)
    requires before <= after
    ensures Commands(before) <= Commands(after)
  {
    assert after == before + after[|before|..];
    CommandsConcat(before, after[|before|..]);
  }

  /** An exchange adds its own command to the commands of the log, and no other. */
  lemma ExchangedCommands(before: seq<Entry>, after: seq<Entry>, c0: ContextState, c1: ContextState,
                          req: Cmd, r: Reply, checkUrc: bool)
    requires Exchanged(before, after, c0, c1, req, r, checkUrc)
    ensures Commands(after) == Commands(before) + [Sent(req, r)]
  {
    var added := after[|before|..];
    assert after == before + added;
    CommandsConcat(before, added);
    if |added| == 2 {
      assert added == [added[0]] + [Sent(req, r)];
      CommandsConcat([added[0]], [Sent(req, r)]);
    }
  }

  /** The log grew by plain entries, among them exactly these commands. */
  predicate Grown(start: seq<Entry>, now: seq<Entry>, sent: seq<Entry>) {
    Chatter(start, now) && Commands(now[|start|..]) == sent
  }

  lemma GrownNot(start: seq<Entry>)
    ensures Grown(start, start, [])
  {
  }

  lemma GrownConcat(start: seq<Entry>, before: seq<Entry>, added: seq<Entry>, sent: seq<Entry>)
    requires Grown(start, before, sent) && forall e :: e in added ==> Plain(e)
    ensures Grown(start, before + added, sent + Commands(added))
  {
    hide Commands;
    assert (before + added)[|start|..] == before[|start|..] + added;
    CommandsConcat(before[|start|..], added);
  }

  /** An exchange adds exactly its own command. */
  lemma GrownStep(start: seq<Entry>, before: seq<Entry>, after: seq<Entry>, sent: seq<Entry>,
                  c0: ContextState, c1: ContextState, req: Cmd, r: Reply, checkUrc: bool)
    requires Grown(start, before, sent) && !ConnectsSocket(req)
    requires Exchanged(before, after, c0, c1, req, r, checkUrc)
    ensures Grown(start, after, sent + [Sent(req, r)])
  {
    hide Grown;
    if after == before + [Sent(req, r)] {
      assert Commands([Sent(req, r)]) == [Sent(req, r)];
      GrownConcat(start, before, [Sent(req, r)], sent);
    } else {
      var added := [after[|before|], Sent(req, r)];
      assert added[..1] == [after[|before|]] && Commands(added[..1]) == [];
      assert Commands(added) == [Sent(req, r)];
      GrownConcat(start, before, added, sent);
    }
  }

  /** What each intervention sends, and when it fails: selection errors are ignored on the PLMN
      branch; an RF reset stops at the first error; a failed attach falls back to PLMN selection. */
  predicate Remedy(branch: Branch, attachFailed: bool, sent: seq<Entry>, ok: bool) {
    match branch
    case Reselect =>
      !attachFailed && |sent| == 1 && Is(sent[0], SetOperatorSelection(Automatic)) && ok
    case RfReset | RfResetCsd =>
      && !attachFailed
      && 1 <= |sent| <= 2
      && Is(sent[0], SetModuleFunctionality(Minimum, true))
      && (|sent| == 2 <==> sent[0].reply.Success?)
      && (|sent| == 2 ==> Is(sent[1], SetModuleFunctionality(Full, true)))
      && (ok <==> |sent| == 2 && sent[1].reply.Success?)
    case Attach =>
      && 1 <= |sent| <= 3
      && Is(sent[0], GetPDPContextState)
      && (|sent| >= 2 <==> sent[0].reply.Success?)
      && (|sent| >= 2 ==> Is(sent[1], ActivatePDPContext(None)))
      && (|sent| == 3 <==> |sent| >= 2 && sent[1].reply.Failure?)
      && (|sent| == 3 ==> Is(sent[2], SetOperatorSelection(Automatic)))
      && (attachFailed <==> |sent| == 3)
      && (ok <==> (|sent| == 2 || (|sent| == 3 && sent[2].reply.Success?)))
  }

  predicate Is(e: Entry, c: Cmd) {
    e.Sent? && e.cmd == c
  }

  /** One intervention, with its commands, and nothing else was added to the events. */
  predicate Intervened(branch: Branch, t: nat, before: seq<Event>, after: seq<Event>, sent: seq<Entry>, ok: bool) {
    || (after == before + [Intervene(branch, t)] && Remedy(branch, false, sent, ok))
    || (after == before + [Intervene(branch, t)] + [AttachFailed] && Remedy(branch, true, sent, ok))
  }

  /** What a tick does about registration: the intervention called for at that time, with its commands before
      any other, and nothing when none is. */
  ghost predicate CalledFor(s: Snapshot, t: nat, before: seq<Event>, after: seq<Event>, sent: seq<Entry>, ok: bool) {
    match s.Choice(t)
    case None => after == before && ok
    case Some(branch) =>
      exists first :: first <= sent && Intervened(branch, t, before, after, first, ok)
  }

  lemma CommandsFirst(l0: seq<Entry>, l1: seq<Entry>, l2: seq<Entry>, l3: seq<Entry>)
    requires l0 <= l1 <= l2 <= l3 && Commands(l1[|l0|..]) == []
    ensures Commands(l2[|l1|..]) <= Commands(l3[|l0|..])
  {
    assert l3[|l0|..] == l1[|l0|..] + (l2[|l1|..] + l3[|l2|..]);
    CommandsConcat(l1[|l0|..], l2[|l1|..] + l3[|l2|..]);
    CommandsConcat(l2[|l1|..], l3[|l2|..]);
  }

  /** A called-for intervention is the first event, whether or not its attach failed. */
  lemma CalledForIntervenes(s: Snapshot, t: nat, before: seq<Event>, after: seq<Event>, sent: seq<Entry>, ok: bool)
    requires s.Choice(t).Some? && CalledFor(s, t, before, after, sent, ok)
    ensures Intervenes(s, t, t, before, after)
  {
  }

  lemma InterventionIsNoPoll(branch: Branch, t: nat, before: seq<Event>, after: seq<Event>, sent: seq<Entry>, ok: bool)
    requires Intervened(branch, t, before, after, sent, ok)
    ensures before <= after && !Polled(before, after)
  {
  }

  /** The first new event is an intervention, of the branch called for at its time, between t0 and t1. */
  predicate Intervenes(s: Snapshot, t0: nat, t1: nat, before: seq<Event>, after: seq<Event>) {
    && before < after && after[|before|].Intervene?
    && t0 <= after[|before|].t <= t1
    && s.Choice(after[|before|].t) == Some(after[|before|].branch)
  }

  /** The log ends in a registration query: for the last error, and for the status of the three domains. */
  predicate Questioned(log: seq<Entry>) {
    && |log| >= 4
    && Is(log[|log| - 4], GetExtendedErrorReport)
    && Is(log[|log| - 3], GetRegistrationStatus(Csd))
    && Is(log[|log| - 2], GetRegistrationStatus(Psd))
    && Is(log[|log| - 1], GetRegistrationStatus(Eps))
  }

  /** Among the new events is a poll. */
  predicate Polled(before: seq<Event>, after: seq<Event>) {
    exists i :: |before| <= i < |after| && after[i].Poll?
  }

  /** After a stretch without a poll the next one lies ahead. */
  predicate PolledWhenDue(before: seq<Event>, after: seq<Event>, now: nat) {
    Polled(before, after) || !Run(after).PollDue(now)
  }

  lemma PolledLater(a: seq<Event>, b: seq<Event>, c: seq<Event>)
    requires a <= b && !Polled(a, b)
    requires c == b || (b < c && c[|b|].Poll?)
    ensures Polled(a, c) <==> c != b
  {
  }

  /** The report an answered status query leads to. */
  function Recorded(e: Entry, t: nat): seq<Event> {
    if e.Sent? && e.cmd.GetRegistrationStatus? && e.reply.Success?
    then [Report(e.cmd.domain, StatusFromCode(e.reply.value.stat), t)]
    else []
  }

  class Network {
    const clock: Clock
    const status: RegistrationState
    const atTx: AtTx
    var contextState: ContextState

    ghost function Repr(): set<object> {
      {this, atTx, clock} + status.Repr()
    }

    /** The context has left Setup only after a definition, unless a URC came in before it. */
    ghost predicate Valid()
      reads Repr()
    {
      && status.clock == clock
      && status.Valid()
      && atTx.Valid()
      && (contextState != Setup ==> Prepared(atTx.log))
    }

    constructor (clock: Clock, attempts: nat)
      ensures Valid() && fresh(Repr() - {clock}) && this.clock == clock
      ensures contextState == Setup && status.connState == Disconnected && atTx.log == []
    {
      this.clock := clock;
      status := new RegistrationState(clock);
      atTx := new AtTx(attempts);
      contextState := Setup;
    }

    predicate IsConnected()
      reads status
    {
      status.connState == Connected
    }

    method HandleUrc()
      requires Valid()
      modifies this`contextState, atTx
      ensures Valid() && atTx.accepted == old(atTx.accepted)
      ensures
        || (atTx.log == old(atTx.log) && contextState == old(contextState))
        || (&& |atTx.log| == |old(atTx.log)| + 1
            && atTx.log[|old(atTx.log)|].Consumed?
            && atTx.log == old(atTx.log) + [atTx.log[|old(atTx.log)|]]
            && contextState == NextContext(old(contextState), atTx.log[|old(atTx.log)|].urc))
      ensures atTx.log != old(atTx.log) ==>
                match atTx.log[|old(atTx.log)|].urc
                case DataConnectionActivated(result) => contextState == if result == 0 then Active else Setup
                case DataConnectionDeactivated(profile) =>
                  if profile == 1 then contextState == Activating else contextState == old(contextState)
                case OtherUrc => contextState == old(contextState)
      ensures Follows(old(contextState), old(atTx.log), contextState, atTx.log)
    {
      hide Prepared, Pending, Follows;
      FollowsReflexive(contextState, atTx.log);
      var u := atTx.NextUrc();
      if u.Some? {
        ContextAfterUrc(contextState, old(atTx.log), u.value);
        UrcFollows(contextState, old(atTx.log), u.value);
        contextState := NextContext(contextState, u.value);
      }
    }

    static lemma ContextAfterUrc(c: ContextState, log: seq<Entry>, u: Urc)
      requires c != Setup ==> Prepared(log)
      ensures NextContext(c, u) != Setup ==> Prepared(log + [Consumed(u)])
    {
    }

    static lemma PreparedSnoc(log: seq<Entry>, e: Entry)
      requires e != SetupBegun
      ensures Prepared(log) ==> Prepared(log + [e])
    {
    }

    method SendInternal(req: Cmd, checkUrc: bool) returns (r: Reply)
      requires Valid()
      modifies this`contextState, atTx
      ensures Valid()
      ensures Exchanged(old(atTx.log), atTx.log, old(contextState), contextState, req, r, checkUrc)
      ensures Follows(old(contextState), old(atTx.log), contextState, atTx.log)
      ensures atTx.log != [] && atTx.log[|atTx.log| - 1] == Sent(req, r)
      ensures !ConnectsSocket(req) ==> Chatter(old(atTx.log), atTx.log)
      ensures !req.WriteSocketData? ==> atTx.accepted == old(atTx.accepted)
      ensures req.WriteSocketData? ==> Taken(old(atTx.accepted), req.data, atTx.taken, atTx.accepted, r)
    {
      hide Prepared, Pending, Follows;
      FollowsReflexive(contextState, atTx.log);
      if checkUrc {
        HandleUrc();
      }
      ghost var before := atTx.log;
      r := atTx.Send(req);
      FollowsSend(old(contextState), old(atTx.log), contextState, before, Sent(req, r));
      PreparedSnoc(before, Sent(req, r));
    }

    /** Send a command without checking URCs. */
    method SendUnchecked(req: Cmd) returns (r: Reply)
      requires Valid() && !ConnectsSocket(req) && !req.WriteSocketData?
      modifies this`contextState, atTx
      ensures Valid() && contextState == old(contextState) && atTx.accepted == old(atTx.accepted)
      ensures atTx.log == old(atTx.log) + [Sent(req, r)] && Chatter(old(atTx.log), atTx.log)
      ensures Follows(old(contextState), old(atTx.log), contextState, atTx.log)
    {
      hide Valid, Follows;
      r := SendInternal(req, false);
    }

    /** Record a step of the device or of a socket. */
    ghost method Note(e: Entry)
      requires Valid() && !e.Sent? && !e.Tripped? && (e == SetupBegun ==> contextState == Setup)
      modifies atTx`log
      ensures Valid() && atTx.log == old(atTx.log) + [e]
    {
      hide Prepared, Pending;
      if e != SetupBegun {
        PreparedSnoc(atTx.log, e);
      }
      atTx.Note(e);
    }

    /** Re-arm both clocks. The driver does so only at the end of the initialisation, before any
        intervention. */
    method ResetRegTime()
      requires Valid() && status.registrationInterventions == 1
      modifies Repr()
      ensures Valid() && old(clock.now) <= clock.now
      ensures status.events == old(status.events) + [Rearm(clock.now)]
      ensures status.regStartTime == status.regCheckTime == Some(clock.now)
      ensures status.registrationInterventions == 1
      ensures status.connState == old(status.connState) && contextState == old(contextState)
      ensures atTx.log == old(atTx.log)
    {
      var now := clock.Now();
      status.regStartTime := Some(now);
      status.regCheckTime := status.regStartTime;
      status.Record(Rearm(now));
    }

    /** Registration starts now, with no intervention yet. */
    ghost predicate JustArmed()
      reads Repr()
    {
      && status.connState == Connecting && status.registrationInterventions == 1
      && status.regStartTime == status.regCheckTime == Some(clock.now)
    }

    /** Afterwards, unless still disconnected by choice, the connection state is Connected exactly
        when (CSD and PSD) or EPS is registered; losing registration restarts the supervisor. */
    method CheckRegistrationState()
      requires Valid()
      modifies status.Repr(), clock
      ensures Valid() && old(clock.now) <= clock.now
      ensures old(status.connState) == Disconnected ==>
                status.connState == Disconnected && status.events == old(status.events)
      ensures status.connState != Disconnected ==> (status.connState == Connected <==> Run(status.events).Registered())
      ensures old(status.connState) != Disconnected ==> status.connState != Disconnected
      ensures old(status.connState != Disconnected && Run(status.events).Registered()) ==> status.connState == Connected
      ensures old(status.connState) == Connecting && !old(Run(status.events)).Registered() ==>
                && status.events == old(status.events)
                && status.regStartTime == old(status.regStartTime) && status.regCheckTime == old(status.regCheckTime)
      ensures old(status.connState == Connected && !Run(status.events).Registered()) ==>
                && status.connState == Connecting && Run(status.events).Blank() && status.registrationInterventions == 1
                && status.regStartTime.Some? && status.regCheckTime.Some?
                && status.events == old(status.events)
                     + [Restart(status.regStartTime.value, status.regCheckTime.value), Move(Connecting)]
      ensures old(status.connState != Disconnected && Run(status.events).Registered()) ==>
                && status.events == old(status.events)
                     + (if old(status.connState) == Connected then [] else [Move(Connected)])
                && status.regStartTime == old(status.regStartTime) && status.regCheckTime == old(status.regCheckTime)
      ensures old(status.events) <= status.events && !Polled(old(status.events), status.events)
      ensures status.imsiCheckTime == None || status.imsiCheckTime == old(status.imsiCheckTime)
    {
      hide Prepared, Pending, Legal, Run;
      if status.connState == Disconnected {
        return;
      }
      if (status.csd.View().Registered() && status.psd.View().Registered()) || status.eps.View().Registered() {
        status.SetConnectionState(Connected);
      } else if status.connState == Connected {
        status.Reset();
        status.SetConnectionState(Connecting);
      }
    }

    /** Start registering: reset the registration state and go to Connecting. */
    method BeginRegistration()
      requires Valid()
      modifies status.Repr(), clock
      ensures Valid() && old(clock.now) <= clock.now
      ensures status.connState == Connecting && Run(status.events).Blank()
      ensures Run(status.events).stage == Asking(0) && status.registrationInterventions == 1
    {
      hide Prepared, Pending, Legal, Run, RegistrationState.Matches, RegistrationState.CellsValid;
      status.Reset();
      status.SetConnectionState(Connecting);
    }

    /** The PDP contexts must be configured again. */
    method BeginSetup()
      requires Valid()
      modifies this`contextState, atTx`log
      ensures Valid() && contextState == Setup && atTx.log == old(atTx.log) + [SetupBegun]
    {
      contextState := Setup;
      Note(SetupBegun);
    }

    /** Read the clock. */
    method Now() returns (t: nat)
      requires Valid()
      modifies clock
      ensures Valid() && old(clock.now) <= clock.now == t
    {
      t := clock.Now();
    }

    /** Reset the cells of a branch and count the intervention. */
    method CountIntervention(branch: Branch, now: nat)
      requires Valid()
      requires Run(status.events).now <= now <= clock.now && Run(status.events).Choice(now) == Some(branch)
      modifies status.Repr()
      ensures Valid()
      ensures status.events == old(status.events) + [Intervene(branch, now)]
      ensures Run(status.events) == Apply(old(Run(status.events)), Intervene(branch, now))
      ensures Run(status.events).psd == BLANK && (branch == Attach ==> Run(status.events).stage == Attaching)
      ensures Run(status.events).Quiet() && !Run(status.events).Registered()
      ensures status.psd.View() == BLANK
      ensures if branch == Attach
              then status.csd.View() == old(status.csd.View()) && status.eps.View() == old(status.eps.View())
              else status.csd.View() == BLANK && status.eps.View() == BLANK
      ensures status.registrationInterventions == Min(255, old(status.registrationInterventions) + 1)
      ensures status.connState == old(status.connState)
      ensures status.regStartTime == old(status.regStartTime) && status.regCheckTime == old(status.regCheckTime)
      ensures status.imsiCheckTime == old(status.imsiCheckTime)
    {
      hide Legal, Run, Snapshot.Quiet, Snapshot.Choice, Snapshot.Registered, Pending, Prepared;
      CounterCountsInterventions(status.events);
      QuietAfterFiring(Run(status.events), now);
      if branch != Attach {
        status.csd.Reset();
        status.eps.Reset();
      }
      status.psd.Reset();
      status.registrationInterventions := Min(255, status.registrationInterventions + 1);
      status.Record(Intervene(branch, now));
    }

    /** Have the operator selected automatically; an error is ignored. */
    method SelectAgain() returns (ghost sent: seq<Entry>)
      requires Valid()
      modifies this`contextState, atTx
      ensures Valid() && atTx.accepted == old(atTx.accepted)
      ensures Follows(old(contextState), old(atTx.log), contextState, atTx.log)
      ensures Grown(old(atTx.log), atTx.log, sent)
      ensures Remedy(Reselect, false, sent, true)
    {
      hide Valid, Follows, Grown, Exchanged, Chatter;
      ghost var l0, c0 := atTx.log, contextState;
      GrownNot(l0);
      var selected := SendInternal(SetOperatorSelection(Automatic), false);
      GrownStep(l0, l0, atTx.log, [], c0, contextState, SetOperatorSelection(Automatic), selected, false);
      sent := [] + [Sent(SetOperatorSelection(Automatic), selected)];
    }

    /** Cycle the radio through minimum and full functionality, stopping at the first error. */
    method CycleRadio() returns (r: Result<(), DriverError>, ghost sent: seq<Entry>)
      requires Valid()
      modifies this`contextState, atTx
      ensures Valid() && atTx.accepted == old(atTx.accepted)
      ensures Follows(old(contextState), old(atTx.log), contextState, atTx.log)
      ensures Grown(old(atTx.log), atTx.log, sent)
      ensures Remedy(RfReset, false, sent, r.Success?) && Remedy(RfResetCsd, false, sent, r.Success?)
      ensures r.Failure? ==> Refused(r.error, atTx.log)
    {
      hide Prepared, Pending, Follows, Grown, Exchanged, Chatter;
      ghost var l0 := atTx.log;
      GrownNot(l0);
      var min := SendInternal(SetModuleFunctionality(Minimum, true), false);
      ghost var l1, c1 := atTx.log, contextState;
      sent := [] + [Sent(SetModuleFunctionality(Minimum, true), min)];
      GrownStep(l0, l0, l1, [], old(contextState), c1, SetModuleFunctionality(Minimum, true), min, false);
      if min.Failure? {
        return Failure(AtFailure(min.error)), sent;
      }
      var full := SendInternal(SetModuleFunctionality(Full, true), false);
      FollowsTransitive(old(contextState), l0, c1, l1, contextState, atTx.log);
      GrownStep(l0, l1, atTx.log, sent, c1, contextState, SetModuleFunctionality(Full, true), full, false);
      sent := sent + [Sent(SetModuleFunctionality(Full, true), full)];
      if full.Failure? {
        return Failure(AtFailure(full.error)), sent;
      }
      return Success(()), sent;
    }

    /** Reset every cell after a failed attach. */
    method ResetAfterFailedAttach()
      requires Valid() && Run(status.events).stage == Attaching && !Run(status.events).Registered()
      requires Run(status.events).Quiet()
      modifies status.Repr()
      ensures Valid() && status.events == old(status.events) + [AttachFailed]
      ensures Run(status.events).Quiet() && !Run(status.events).Registered()
      ensures status.connState == old(status.connState)
      ensures status.regStartTime == old(status.regStartTime) && status.regCheckTime == old(status.regCheckTime)
      ensures status.imsiCheckTime == old(status.imsiCheckTime)
    {
      hide Legal, Run, Snapshot.Quiet, Pending, Prepared;
      QuietStep(Run(status.events), AttachFailed);
      status.csd.Reset();
      status.psd.Reset();
      status.eps.Reset();
      status.Record(AttachFailed);
    }

    /** Force a GPRS attach; when it fails, reset every cell and reselect the operator. */
    method ForceAttach() returns (r: Result<(), DriverError>, ghost sent: seq<Entry>, ghost failed: bool)
      requires Valid() && Run(status.events).stage == Attaching && !Run(status.events).Registered()
      requires Run(status.events).Quiet()
      modifies Repr()
      ensures Valid() && clock.now == old(clock.now) && atTx.accepted == old(atTx.accepted)
      ensures Follows(old(contextState), old(atTx.log), contextState, atTx.log)
      ensures Grown(old(atTx.log), atTx.log, sent)
      ensures status.events == old(status.events) + if failed then [AttachFailed] else []
      ensures Run(status.events).Quiet() && !Run(status.events).Registered()
      ensures Remedy(Attach, failed, sent, r.Success?)
      ensures status.connState == old(status.connState)
      ensures status.regStartTime == old(status.regStartTime) && status.regCheckTime == old(status.regCheckTime)
      ensures status.imsiCheckTime == old(status.imsiCheckTime)
      ensures r.Failure? ==> Refused(r.error, atTx.log)
    {
      hide Valid, Follows, Grown, Exchanged, Chatter, Run, Snapshot.Quiet, Snapshot.Registered;
      ghost var l0 := atTx.log;
      GrownNot(l0);
      failed := false;
      var read := SendInternal(GetPDPContextState, true);
      ghost var l1, c1 := atTx.log, contextState;
      sent := [] + [Sent(GetPDPContextState, read)];
      GrownStep(l0, l0, l1, [], old(contextState), c1, GetPDPContextState, read, true);
      if read.Failure? {
        return Failure(AtFailure(read.error)), sent, failed;
      }
      var attached := SendInternal(ActivatePDPContext(None), true);
      ghost var l2, c2 := atTx.log, contextState;
      FollowsTransitive(old(contextState), l0, c1, l1, c2, l2);
      GrownStep(l0, l1, l2, sent, c1, c2, ActivatePDPContext(None), attached, true);
      sent := sent + [Sent(ActivatePDPContext(None), attached)];
      if attached.Failure? {
        failed := true;
        ResetAfterFailedAttach();
        var selected := SendInternal(SetOperatorSelection(Automatic), true);
        FollowsTransitive(old(contextState), l0, c2, l2, contextState, atTx.log);
        GrownStep(l0, l2, atTx.log, sent, c2, contextState, SetOperatorSelection(Automatic), selected, true);
        sent := sent + [Sent(SetOperatorSelection(Automatic), selected)];
        if selected.Failure? {
          return Failure(AtFailure(selected.error)), sent, failed;
        }
      }
      return Success(()), sent, failed;
    }

    /** The branch the cells call for, tested in the driver's order. */
    method SelectBranch(now: nat) returns (b: Option<Branch>)
      requires Valid()
      ensures b == Run(status.events).Choice(now) && Run(status.events).now <= clock.now
    {
      if status.connState != Connecting {
        return None;
      }
      var timeout := status.registrationInterventions * BACKOFF;
      var csd, psd, eps := status.csd.View(), status.psd.View(), status.eps.View();
      if eps.Sticky() && eps.Duration(now) >= timeout {
        if eps.status == NotRegistering && csd.status == NotRegistering {
          return Some(Reselect);
        } else if eps.status == Denied && csd.status == Denied {
          return Some(RfReset);
        }
      }
      if csd.Sticky() && csd.Duration(now) >= timeout
         && (csd.status == Denied || csd.status == Roaming) && psd.status == Denied {
        return Some(RfResetCsd);
      }
      if csd.Registered() && psd.Sticky() && psd.Duration(now) >= timeout
         && psd.status == NotRegistering && eps.status == NotRegistering {
        return Some(Attach);
      }
      return None;
    }

    /** The supervisor's intervention: it fires exactly when the cells call for a branch at the time
        read from the clock, and then leaves nothing that could fire again. */
    method InterveneRegistration() returns (r: Result<(), DriverError>)
      requires Valid()
      modifies Repr()
      ensures Valid() && old(clock.now) <= clock.now && atTx.accepted == old(atTx.accepted)
      ensures status.connState == old(status.connState)
      ensures status.regStartTime == old(status.regStartTime) && status.regCheckTime == old(status.regCheckTime)
      ensures status.imsiCheckTime == old(status.imsiCheckTime)
      ensures Follows(old(contextState), old(atTx.log), contextState, atTx.log)
      ensures Chatter(old(atTx.log), atTx.log)
      ensures old(Run(status.events)).Choice(clock.now) == None ==>
                && r.Success? && status.events == old(status.events)
                && atTx.log == old(atTx.log) && contextState == old(contextState)
      ensures old(Run(status.events)).Choice(clock.now).Some? ==>
                && Intervened(old(Run(status.events)).Choice(clock.now).value, clock.now,
                              old(status.events), status.events, Commands(atTx.log[|old(atTx.log)|..]), r.Success?)
                && Run(status.events).Quiet() && !Run(status.events).Registered()
      ensures r.Failure? ==> Refused(r.error, atTx.log)
    {
      hide Valid, Follows, Refused, Remedy, Plain, Legal, Exchanged, Chatter, Run, Apply, Commands;
      hide Snapshot.Quiet, Snapshot.Registered, Snapshot.Choice;
      var now := Now();
      var b := SelectBranch(now);
      GrownNot(atTx.log);
      FollowsReflexive(contextState, atTx.log);
      if b.None? {
        return Success(());
      }
      CountIntervention(b.value, now);
      ghost var sent;
      ghost var failed := false;
      if b.value == Reselect {
        sent := SelectAgain();
        r := Success(());
      } else if b.value == Attach {
        r, sent, failed := ForceAttach();
      } else {
        r, sent := CycleRadio();
      }
      assert Remedy(b.value, failed, sent, r.Success?);
    }

    /** Ask for one registration status and record the answer, if there is one. */
    method QueryDomain(d: Domain)
      requires Valid() && Run(status.events).MayReport(d)
      modifies Repr()
      ensures Valid() && old(clock.now) <= clock.now && atTx.accepted == old(atTx.accepted)
      ensures Chatter(old(atTx.log), atTx.log) && |atTx.log| == |old(atTx.log)| + 1
      ensures Is(atTx.log[|old(atTx.log)|], GetRegistrationStatus(d)) && contextState == old(contextState)
      ensures status.events == old(status.events) + Recorded(atTx.log[|old(atTx.log)|], clock.now)
      ensures var reply := atTx.log[|old(atTx.log)|].reply;
              forall e: Domain ::
                status.CellOf(e) ==
                if e == d && reply.Success?
                then old(status.CellOf(e)).Reported(StatusFromCode(reply.value.stat), clock.now)
                else old(status.CellOf(e))
      ensures d == Csd ==> Run(status.events).MayReport(Psd)
      ensures d != Eps ==> Run(status.events).MayReport(Eps)
      ensures status.registrationInterventions == old(status.registrationInterventions)
      ensures status.connState == old(status.connState)
      ensures status.regStartTime == old(status.regStartTime) && status.regCheckTime == old(status.regCheckTime)
      ensures Follows(old(contextState), old(atTx.log), contextState, atTx.log)
    {
      hide Follows, Prepared, Pending, Run, Legal, Plain, RegistrationState.Matches, RegistrationState.CellsValid;
      var reg := SendUnchecked(GetRegistrationStatus(d));
      if reg.Success? {
        status.CompareAndSet(TypeOf(d), StatusFromCode(reg.value.stat));
      }
    }

    /** Ask for the last error; the answer is for the log only. */
    method AskErrorReport()
      requires Valid()
      modifies this`contextState, atTx
      ensures Valid() && contextState == old(contextState) && atTx.accepted == old(atTx.accepted)
      ensures Chatter(old(atTx.log), atTx.log) && |atTx.log| == |old(atTx.log)| + 1
      ensures Is(atTx.log[|old(atTx.log)|], GetExtendedErrorReport)
      ensures Follows(old(contextState), old(atTx.log), contextState, atTx.log)
    {
      hide Follows, Valid;
      var _ := SendUnchecked(GetExtendedErrorReport);
    }

    /** Ask for the three registration statuses; each answer is recorded for its own domain, and
        errors are ignored. */
    method UpdateRegistration() returns (ghost times: (nat, nat))
      requires Valid() && Run(status.events).MayReport(Csd)
      modifies Repr()
      ensures Valid() && old(clock.now) <= clock.now && atTx.accepted == old(atTx.accepted)
      ensures Chatter(old(atTx.log), atTx.log) && contextState == old(contextState)
      ensures |atTx.log| == |old(atTx.log)| + 4
      ensures var n := |old(atTx.log)|;
              && Is(atTx.log[n], GetExtendedErrorReport)
              && Is(atTx.log[n + 1], GetRegistrationStatus(Csd))
              && Is(atTx.log[n + 2], GetRegistrationStatus(Psd))
              && Is(atTx.log[n + 3], GetRegistrationStatus(Eps))
              && status.events == old(status.events) + Recorded(atTx.log[n + 1], times.0)
                 + Recorded(atTx.log[n + 2], times.1) + Recorded(atTx.log[n + 3], clock.now)
      ensures status.registrationInterventions == old(status.registrationInterventions)
      ensures status.connState == old(status.connState)
      ensures status.regStartTime == old(status.regStartTime) && status.regCheckTime == old(status.regCheckTime)
      ensures Follows(old(contextState), old(atTx.log), contextState, atTx.log)
    {
      hide Follows, Valid, Recorded, Run, Snapshot.MayReport, Is, Plain;
      ghost var c, l0 := contextState, atTx.log;
      AskErrorReport();
      ghost var l1 := atTx.log;
      QueryDomain(Csd);
      ghost var l2 := atTx.log;
      FollowsTransitive(c, l0, c, l1, c, l2);
      ghost var t0 := clock.now;
      QueryDomain(Psd);
      ghost var l3 := atTx.log;
      FollowsTransitive(c, l0, c, l2, c, l3);
      times := (t0, clock.now);
      QueryDomain(Eps);
      FollowsTransitive(c, l0, c, l3, c, atTx.log);
    }

    /** Read the IMSI, at most once in 60 s, for the log only; when that fails, see whether the parser is
        still in step. */
    method CheckRunningImsi()
      requires Valid()
      modifies Repr()
      ensures old(status.imsiCheckTime).Some? && clock.now < old(status.imsiCheckTime).value + CHECK_IMSI_TIMEOUT ==>
                atTx.log == old(atTx.log)
      ensures old(status.imsiCheckTime).None?
              || old(clock.now) >= old(status.imsiCheckTime).value + CHECK_IMSI_TIMEOUT ==>
                atTx.log != old(atTx.log)
      ensures atTx.log != old(atTx.log) ==>
                var n := |old(atTx.log)|;
                && n < |atTx.log| <= n + 2
                && Is(atTx.log[n], GetCIMI)
                && (|atTx.log| == n + 2 <==> atTx.log[n].reply.Failure?)
                && (|atTx.log| == n + 2 ==> Is(atTx.log[n + 1], AT))
      ensures status.imsiCheckTime == old(status.imsiCheckTime) ||
              (status.imsiCheckTime.Some? && old(clock.now) <= status.imsiCheckTime.value <= clock.now)
      ensures atTx.log != old(atTx.log) && atTx.log[|atTx.log| - 1].reply.Success? ==>
                status.imsiCheckTime.Some? && old(clock.now) <= status.imsiCheckTime.value
      ensures atTx.log == old(atTx.log) || atTx.log[|atTx.log| - 1].reply.Failure? ==>
                status.imsiCheckTime == old(status.imsiCheckTime)
      ensures Valid() && old(clock.now) <= clock.now && atTx.accepted == old(atTx.accepted)
      ensures Follows(old(contextState), old(atTx.log), contextState, atTx.log)
      ensures Chatter(old(atTx.log), atTx.log) && contextState == old(contextState)
      ensures status.events == old(status.events) && status.connState == old(status.connState)
      ensures status.regStartTime == old(status.regStartTime) && status.regCheckTime == old(status.regCheckTime)
    {
      hide Valid, Follows, Plain, Is;
      FollowsReflexive(contextState, atTx.log);
      var now := Now();
      if status.imsiCheckTime.Some? && now < status.imsiCheckTime.value + CHECK_IMSI_TIMEOUT {
        return;
      }
      var answered := ReadImsi();
      if answered {
        MarkImsiCheck(now);
      }
    }

    /** Read the IMSI; when that fails, say whether the module answers AT. */
    method ReadImsi() returns (answered: bool)
      requires Valid()
      modifies this`contextState, atTx
      ensures Valid() && contextState == old(contextState) && atTx.accepted == old(atTx.accepted)
      ensures Chatter(old(atTx.log), atTx.log)
      ensures Follows(old(contextState), old(atTx.log), contextState, atTx.log)
      ensures var n := |old(atTx.log)|;
              && n < |atTx.log| <= n + 2
              && Is(atTx.log[n], GetCIMI)
              && (|atTx.log| == n + 2 <==> atTx.log[n].reply.Failure?)
              && (|atTx.log| == n + 2 ==> Is(atTx.log[n + 1], AT))
              && (answered <==> atTx.log[|atTx.log| - 1].reply.Success?)
    {
      hide Valid, Follows, Plain;
      ghost var c0, l0 := contextState, atTx.log;
      var imsi := SendUnchecked(GetCIMI);
      if imsi.Success? {
        return true;
      }
      ghost var c1, l1 := contextState, atTx.log;
      var alive := SendUnchecked(AT);
      FollowsTransitive(c0, l0, c1, l1, contextState, atTx.log);
      return alive.Success?;
    }

    method MarkImsiCheck(now: nat)
      requires Valid()
      modifies status`imsiCheckTime
      ensures Valid() && status.imsiCheckTime == Some(now)
    {
      status.imsiCheckTime := Some(now);
    }

    /** The driver has been connecting for longer than the timeout. */
    ghost predicate Overdue()
      reads status, clock
    {
      && status.connState == Connecting
      && status.regStartTime.Some? && clock.now >= status.regStartTime.value + REGISTRATION_TIMEOUT
    }

    /** Registration has been awaited for longer than the timeout, without success, and a poll is due. */
    ghost predicate Stuck()
      reads Repr()
    {
      && Overdue()
      && !Run(status.events).Registered()
      && (status.regCheckTime.Some? ==> clock.now >= status.regCheckTime.value + REGISTRATION_CHECK_INTERVAL)
    }

    /** The driver is registering, and the cells do not say that it has. */
    ghost predicate Registering()
      reads Repr()
    {
      status.connState == Connecting && !Run(status.events).Registered()
    }

    /** Mark the start of a poll. */
    method StartPoll(now: nat)
      requires Valid() && now == clock.now && Run(status.events).PollDue(now)
      modifies status
      ensures Valid() && status.events == old(status.events) + [Poll(now)] && Run(status.events).stage == Asking(0)
      ensures status.connState == old(status.connState) && status.regStartTime == old(status.regStartTime)
    {
      hide Prepared, Pending, Legal;
      status.regCheckTime := Some(now);
      status.Record(Poll(now));
    }

    /** The part of a tick after the watchdog: URCs, connection state, intervention, IMSI. While registering
        goes on, the intervention that the cells call for at the time t of the tick is made, and no other. */
    method Supervise() returns (r: Result<(), DriverError>, ghost t: nat)
      requires Valid()
      modifies Repr()
      ensures Valid() && old(clock.now) <= clock.now && atTx.accepted == old(atTx.accepted)
      ensures Chatter(old(atTx.log), atTx.log)
      ensures r.Failure? ==> Refused(r.error, atTx.log)
      ensures old(Stuck()) ==> Stuck() && (r.Failure? ==> Run(status.events).Quiet())
      ensures old(Stuck() && Run(status.events).Quiet()) ==> r.Success?
      ensures old(status.connState) == Disconnected <==> status.connState == Disconnected
      ensures status.connState != Disconnected ==> (status.connState == Connected <==> Run(status.events).Registered())
      ensures old(clock.now) <= t <= clock.now
      ensures old(Registering()) ==>
                CalledFor(old(Run(status.events)), t, old(status.events), status.events,
                          Commands(atTx.log[|old(atTx.log)|..]), r.Success?)
      ensures old(status.events) <= status.events && !Polled(old(status.events), status.events)
      ensures r.Success?
              && old(status.imsiCheckTime.None? || clock.now >= status.imsiCheckTime.value + CHECK_IMSI_TIMEOUT) ==>
                exists i :: |old(atTx.log)| <= i < |atTx.log| && Is(atTx.log[i], GetCIMI)
      ensures r.Failure? ==> old(Registering()) && old(Run(status.events)).Choice(t).Some?
      ensures Follows(old(contextState), old(atTx.log), contextState, atTx.log)
    {
      hide Follows, Valid, Run, Pending, Snapshot.Quiet, Snapshot.Registered, Snapshot.Choice;
      hide Remedy, Commands, Intervened, Plain, Is;
      ghost var l0 := atTx.log;
      HandleUrc();
      ghost var c1, l1 := contextState, atTx.log;
      UrcIsNoCommand(l0, l1);
      CheckRegistrationState();
      FieldsAreRun();
      QuietChoosesNothing(Run(status.events));
      ghost var s, before := Run(status.events), status.events;
      r := InterveneRegistration();
      t := clock.now;
      ghost var c2, l2 := contextState, atTx.log;
      FollowsTransitive(old(contextState), l0, c1, l1, c2, l2);
      if s.Choice(t).Some? {
        InterventionIsNoPoll(s.Choice(t).value, t, before, status.events, Commands(l2[|l1|..]), r.Success?);
      }
      if r.Failure? {
        CommandsFirst(l0, l1, l2, l2);
        return;
      }
      CheckRunningImsi();
      FollowsTransitive(old(contextState), l0, c2, l2, contextState, atTx.log);
      CommandsFirst(l0, l1, l2, atTx.log);
    }

    /** The rest of a tick: poll when it is due, and give up a registration that takes too long. */
    method PollIfDue() returns (r: Result<(), DriverError>)
      requires Valid()
      modifies Repr()
      ensures Valid() && old(clock.now) <= clock.now && atTx.accepted == old(atTx.accepted)
      ensures Chatter(old(atTx.log), atTx.log) && contextState == old(contextState)
      ensures r.Failure? ==> r.error == GenericTimeout && Overdue()
      ensures old(Stuck()) ==> r.Failure?
      ensures status.connState == old(status.connState)
      ensures status.events == old(status.events) ||
              (old(status.events) < status.events && status.events[|old(status.events)|].Poll?)
      ensures status.events == old(status.events) ==>
                r.Success? && atTx.log == old(atTx.log) && !Run(status.events).PollDue(clock.now)
      ensures status.events != old(status.events) ==> (r.Failure? <==> Overdue())
      ensures old(Run(status.events).PollDue(clock.now)) ==>
                && |status.events| > |old(status.events)| && status.events[|old(status.events)|].Poll?
                && |atTx.log| == |old(atTx.log)| + 4
      ensures Follows(old(contextState), old(atTx.log), contextState, atTx.log)
    {
      hide Follows, Valid, Run, Snapshot.Registered, Recorded, Is, Plain;
      var now := Now();
      FollowsReflexive(contextState, atTx.log);
      FieldsAreRun();
      if status.regCheckTime.Some? && now < status.regCheckTime.value + REGISTRATION_CHECK_INTERVAL {
        return Success(());
      }
      StartPoll(now);
      ghost var times := UpdateRegistration();
      now := Now();
      if status.connState == Connecting
         && status.regStartTime.Some? && now >= status.regStartTime.value + REGISTRATION_TIMEOUT {
        return Failure(GenericTimeout);
      }
      return Success(());
    }

    /** One tick of the supervisor. It trips the watchdog exactly when the timed-out attempts add up to
        more than the limit; a registration that is stuck ends in a timeout, at the latest at the second
        tick, because an intervention that stops the first one with an error leaves nothing to fire. */
    method ProcessEvents() returns (r: Result<(), DriverError>)
      requires Valid()
      modifies Repr()
      ensures Valid() && old(clock.now) <= clock.now && atTx.accepted == old(atTx.accepted)
      ensures old(Pending(atTx.log, atTx.defaultAttempts)) > WATCHDOG_LIMIT ==>
                && r == Failure(GenericTimeout) && atTx.log == old(atTx.log) + [Tripped]
                && status.events == old(status.events) && contextState == old(contextState)
      ensures old(Pending(atTx.log, atTx.defaultAttempts)) <= WATCHDOG_LIMIT ==> Chatter(old(atTx.log), atTx.log)
      ensures old(Pending(atTx.log, atTx.defaultAttempts)) <= WATCHDOG_LIMIT && r == Failure(GenericTimeout) ==>
                Overdue()
      ensures r.Failure? ==> Refused(r.error, atTx.log) || r.error == GenericTimeout
      ensures old(Stuck()) ==>
                || r == Failure(GenericTimeout)
                || (r.Failure? && Stuck() && Run(status.events).Quiet())
      ensures old(Stuck() && Run(status.events).Quiet()) ==> r == Failure(GenericTimeout)
      ensures old(status.connState) == Disconnected ==> status.connState == Disconnected
      ensures old(Registering()) && old(Run(status.events)).Choice(old(clock.now)).Some?
              && old(Pending(atTx.log, atTx.defaultAttempts)) <= WATCHDOG_LIMIT ==>
                Intervenes(old(Run(status.events)), old(clock.now), clock.now, old(status.events), status.events)
      ensures old(Pending(atTx.log, atTx.defaultAttempts)) <= WATCHDOG_LIMIT
              && (r.Success? || r.error == GenericTimeout) ==>
                PolledWhenDue(old(status.events), status.events, clock.now)
      ensures old(Pending(atTx.log, atTx.defaultAttempts)) <= WATCHDOG_LIMIT && r.Success? && Overdue() ==>
                !Polled(old(status.events), status.events)
      ensures old(Pending(atTx.log, atTx.defaultAttempts)) <= WATCHDOG_LIMIT ==>
                Follows(old(contextState), old(atTx.log), contextState, atTx.log)
    {
      hide Follows, Valid, Stuck, Polled, Overdue, Registering, CalledFor, Commands, Pending;
      hide Snapshot.Quiet, Snapshot.Registered, Snapshot.Choice;
      var tripped := OverLimit();
      if tripped {
        Trip();
        return Failure(GenericTimeout);
      }
      ghost var s, t0 := Run(status.events), clock.now;
      ghost var t;
      r, t := Supervise();
      if old(Registering()) && s.Choice(t0).Some? {
        StillWanted(s, t0, t);
        CalledForIntervenes(s, t, old(status.events), status.events, Commands(atTx.log[|old(atTx.log)|..]), r.Success?);
      }
      if r.Failure? {
        return;
      }
      ghost var before, c1, l1 := status.events, contextState, atTx.log;
      r := PollIfDue();
      FollowsTransitive(old(contextState), old(atTx.log), c1, l1, contextState, atTx.log);
      PolledLater(old(status.events), before, status.events);
    }

    method OverLimit() returns (b: bool)
      requires Valid()
      ensures b <==> Pending(atTx.log, atTx.defaultAttempts) > WATCHDOG_LIMIT
    {
      b := atTx.consecutiveTimeouts > WATCHDOG_LIMIT;
    }

    method Trip()
      requires Valid()
      modifies atTx
      ensures Valid() && atTx.log == old(atTx.log) + [Tripped] && atTx.accepted == old(atTx.accepted)
      ensures atTx.consecutiveTimeouts == 0
    {
      hide Prepared, Pending;
      PreparedSnoc(atTx.log, Tripped);
      atTx.Trip();
    }

    static lemma UrcIsNoCommand(l0: seq<Entry>, l1: seq<Entry>)
      requires l1 == l0 || (|l1| == |l0| + 1 && l0 <= l1 && l1[|l0|].Consumed?)
      ensures Commands(l1[|l0|..]) == [] && Chatter(l0, l1)
    {
    }

    static lemma QuietChoosesNothing(s: Snapshot)
      ensures s.Quiet() ==> forall t :: s.Choice(t) == None
      ensures s.conn != Connecting ==> forall t :: s.Choice(t) == None
      ensures s.Blank() ==> forall t :: s.Choice(t) == None
    {
    }

    lemma FieldsAreRun()
      requires Valid()
      ensures Run(status.events).checkTime == status.regCheckTime
      ensures Run(status.events).conn == status.connState
    {
    }

    /** A registration that is stuck does not stay so: of two consecutive ticks one reports a timeout. */
    method TwoTicks() returns (first: Result<(), DriverError>, second: Result<(), DriverError>)
      requires Valid() && Stuck()
      modifies Repr()
      ensures Valid()
      ensures first == Failure(GenericTimeout) || second == Failure(GenericTimeout)
    {
      first := ProcessEvents();
      second := ProcessEvents();
    }
  }
}
