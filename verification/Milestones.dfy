/** Required sequences of acknowledgements, read off the log. */
module Milestones {
  import opened Wrappers
  import opened At

  datatype Milestone =
    | Ack(cmd: Cmd)
    | SimReady
    | OperatorChosen
    | Begun(apn: Option<string>)
    | PoweredUp

  predicate Meets(e: Entry, m: Milestone) {
    match m
    case Ack(c) => Acked(e, c)
    case SimReady => Acked(e, GetPinStatus) && e.reply.value.simReady
    case OperatorChosen =>
      || (&& Acked(e, GetOperatorSelection)
          && (e.reply.value.operatorMode == Automatic || e.reply.value.operatorMode == Manual))
      || Acked(e, SetOperatorSelection(Automatic))
    case Begun(apn) => e == DefinitionBegun(apn)
    case PoweredUp => e == Probed(Some(true))
  }

  /** How far a script has been followed since the last mark. */
  function Progress(script: seq<Milestone>, mark: Entry, log: seq<Entry>): (k: nat)
    ensures k <= |script|
  {
    if log == [] || log[|log| - 1] == mark then 0
    else
      var k := Progress(script, mark, log[..|log| - 1]);
      if k < |script| && Meets(log[|log| - 1], script[k]) then k + 1 else k
  }

  /** What follows the last mark. */
  function SinceMark(mark: Entry, log: seq<Entry>): seq<Entry> {
    if log == [] || log[|log| - 1] == mark then []
    else SinceMark(mark, log[..|log| - 1]) + [log[|log| - 1]]
  }

  /** The milestones were met in order, at the given places of the log. */
  predicate InOrder(script: seq<Milestone>, log: seq<Entry>, at: seq<nat>) {
    && |at| == |script|
    && (forall j :: 0 <= j < |at| ==> at[j] < |log| && Meets(log[at[j]], script[j]))
    && (forall i, j :: 0 <= i < j < |at| ==> at[i] < at[j])
  }

  ghost predicate MetInOrder(script: seq<Milestone>, log: seq<Entry>) {
    exists at :: InOrder(script, log, at)
  }

  /** Progress k means that the first k milestones were met in order since the mark. */
  lemma {:induction false} ProgressIsOrdered(script: seq<Milestone>, mark: Entry, log: seq<Entry>)
    returns (at: seq<nat>)
    ensures InOrder(script[..Progress(script, mark, log)], SinceMark(mark, log), at)
  {
    at := [];
    if log != [] && log[|log| - 1] != mark {
      at := ProgressIsOrdered(script, mark, log[..|log| - 1]);
      if Progress(script, mark, log) > |at| {
        at := at + [|SinceMark(mark, log)| - 1];
      }
    }
  }

  /** And conversely: no other choice of places gets further. */
  lemma {:induction false} OrderedIsProgress(script: seq<Milestone>, mark: Entry, log: seq<Entry>, n: nat, at: seq<nat>)
    requires n <= |script| && InOrder(script[..n], SinceMark(mark, log), at)
    ensures Progress(script, mark, log) >= n
  {
    if n > 0 {
      assert at[n - 1] < |SinceMark(mark, log)|;
      var rest := log[..|log| - 1];
      var end := |SinceMark(mark, log)| - 1;
      if at[n - 1] == end {
        assert script[..n][..n - 1] == script[..n - 1];
        OrderedIsProgress(script, mark, rest, n - 1, at[..n - 1]);
        assert Meets(log[|log| - 1], script[..n][n - 1]);
      } else {
        OrderedIsProgress(script, mark, rest, n, at);
      }
    }
  }

  /** A script has been completed since the last mark. */
  predicate Completed(script: seq<Milestone>, mark: Entry, log: seq<Entry>) {
    Progress(script, mark, log) == |script|
  }

  lemma CompletedIffInOrder(script: seq<Milestone>, mark: Entry, log: seq<Entry>)
    ensures Completed(script, mark, log) <==> MetInOrder(script, SinceMark(mark, log))
  {
    assert script[..|script|] == script;
    if Completed(script, mark, log) {
      var at := ProgressIsOrdered(script, mark, log);
      assert InOrder(script, SinceMark(mark, log), at);
    } else if MetInOrder(script, SinceMark(mark, log)) {
      var at :| InOrder(script, SinceMark(mark, log), at);
      OrderedIsProgress(script, mark, log, |script|, at);
    }
  }

  // ------------------------------------------------------------------ growing logs

  /** The commands whose order over a socket's life matters. */
  predicate ConnectsSocket(c: Cmd) {
    c.SetSocketSslState? || c.ConnectSocket?
  }

  /** Entries that neither mark a step of the driver nor belong to the life of a socket. */
  predicate Plain(e: Entry) {
    (e.Sent? && !ConnectsSocket(e.cmd)) || e.Consumed? || e.Probed?
  }

  /** The log grew by plain entries only. */
  predicate Chatter(before: seq<Entry>, after: seq<Entry>) {
    && before <= after
    && forall i :: |before| <= i < |after| ==> Plain(after[i])
  }

  /** The log grew without a power loss and without a new setup. */
  predicate Calm(before: seq<Entry>, after: seq<Entry>) {
    before <= after && forall i :: |before| <= i < |after| ==> after[i] != PoweredOff && after[i] != SetupBegun
  }

  lemma ChatterIsCalm(before: seq<Entry>, after: seq<Entry>)
    requires Chatter(before, after)
    ensures Calm(before, after)
  {
  }

  lemma CalmReflexive(log: seq<Entry>)
    ensures Calm(log, log)
  {
  }

  lemma CalmTransitive(a: seq<Entry>, b: seq<Entry>, c: seq<Entry>)
    requires Calm(a, b) && Calm(b, c)
    ensures Calm(a, c)
  {
  }

  lemma ChatterReflexive(log: seq<Entry>)
    ensures Chatter(log, log)
  {
  }

  lemma ChatterTransitive(a: seq<Entry>, b: seq<Entry>, c: seq<Entry>)
    requires Chatter(a, b) && Chatter(b, c)
    ensures Chatter(a, c) && a <= b <= c
  {
  }

  lemma {:induction false} ProgressGrows(script: seq<Milestone>, mark: Entry, before: seq<Entry>, after: seq<Entry>)
    requires before <= after && forall i :: |before| <= i < |after| ==> after[i] != mark
    ensures Progress(script, mark, after) >= Progress(script, mark, before)
  {
    if before == after {
    } else {
      ProgressGrows(script, mark, before, after[..|after| - 1]);
    }
  }

  /** One more milestone is met at the end of the log. */
  lemma ProgressSteps(script: seq<Milestone>, mark: Entry, before: seq<Entry>, after: seq<Entry>, k: nat)
    requires before < after && (forall i :: |before| <= i < |after| ==> after[i] != mark)
    requires k < |script| && Progress(script, mark, before) >= k
    requires Meets(after[|after| - 1], script[k])
    ensures Progress(script, mark, after) >= k + 1
  {
    ProgressGrows(script, mark, before, after[..|after| - 1]);
  }

  /** The first milestone is met at the end of the log. */
  lemma ProgressBegins(script: seq<Milestone>, mark: Entry, log: seq<Entry>)
    requires script != [] && log != [] && log[|log| - 1] != mark && Meets(log[|log| - 1], script[0])
    ensures Progress(script, mark, log) >= 1
  {
  }

  // ------------------------------------------------------------------ context definition

  /** The URCs that take the context out of Setup: a successful activation, and a deactivation of the
      driver's own profile. (A failed activation takes it back to Setup.) */
  predicate ContextUrc(u: Urc) {
    u == DataConnectionActivated(0) || u == DataConnectionDeactivated(1)
  }

  /** Defining a context: CFUN=0, the APN definition if one is given, CFUN=1. */
  function DefinitionScript(apn: Option<string>): seq<Milestone> {
    [Begun(apn), Ack(SetModuleFunctionality(Minimum, true))]
    + (if apn.Some? then [Ack(SetPDPContextDefinition(1, apn.value))] else [])
    + [Ack(SetModuleFunctionality(Full, true))]
  }

  /** From a place on: CFUN=0, the APN definition if one is given, and CFUN=1, each acknowledged, in order. */
  predicate DefinitionAcked(apn: Option<string>, log: seq<Entry>, start: nat) {
    exists i, j ::
      && start <= i < j < |log|
      && Acked(log[i], SetModuleFunctionality(Minimum, true))
      && Acked(log[j], SetModuleFunctionality(Full, true))
      && (apn.Some? ==> exists k :: i < k < j && Acked(log[k], SetPDPContextDefinition(1, apn.value)))
  }

  /** The script, place by place. */
  lemma DefinitionAt(apn: Option<string>)
    ensures var s := DefinitionScript(apn);
            && |s| == (if apn.Some? then 4 else 3)
            && s[0] == Begun(apn)
            && s[1] == Ack(SetModuleFunctionality(Minimum, true))
            && (apn.Some? ==> s[2] == Ack(SetPDPContextDefinition(1, apn.value)))
            && s[|s| - 1] == Ack(SetModuleFunctionality(Full, true))
  {
  }

  /** Following the script of a definition means having those acknowledged after its beginning. */
  lemma DefinitionFollowed(apn: Option<string>, log: seq<Entry>, at: seq<nat>)
    requires InOrder(DefinitionScript(apn), log, at)
    ensures |at| > 0 && at[0] < |log| && log[at[0]] == DefinitionBegun(apn) && DefinitionAcked(apn, log, at[0] + 1)
  {
    hide DefinitionScript;
    DefinitionAt(apn);
    var n := |at| - 1;
    assert Meets(log[at[0]], Begun(apn));
    assert Meets(log[at[1]], Ack(SetModuleFunctionality(Minimum, true)));
    assert Meets(log[at[n]], Ack(SetModuleFunctionality(Full, true)));
    if apn.Some? {
      assert Meets(log[at[2]], Ack(SetPDPContextDefinition(1, apn.value)));
    }
  }

  lemma ThreeInOrder(script: seq<Milestone>, log: seq<Entry>, a: nat, b: nat, c: nat)
    requires |script| == 3 && a < b < c < |log|
    requires Meets(log[a], script[0]) && Meets(log[b], script[1]) && Meets(log[c], script[2])
    ensures MetInOrder(script, log)
  {
    hide Meets;
    assert InOrder(script, log, [a, b, c]);
  }

  lemma FourInOrder(script: seq<Milestone>, log: seq<Entry>, a: nat, b: nat, c: nat, d: nat)
    requires |script| == 4 && a < b < c < d < |log|
    requires Meets(log[a], script[0]) && Meets(log[b], script[1])
    requires Meets(log[c], script[2]) && Meets(log[d], script[3])
    ensures MetInOrder(script, log)
  {
    hide Meets;
    assert InOrder(script, log, [a, b, c, d]);
  }

  /** And conversely. */
  lemma DefinitionIsScript(apn: Option<string>, log: seq<Entry>, s: nat)
    requires s < |log| && log[s] == DefinitionBegun(apn) && DefinitionAcked(apn, log, s + 1)
    ensures MetInOrder(DefinitionScript(apn), log)
  {
    hide DefinitionScript, MetInOrder;
    DefinitionAt(apn);
    var i, j :| && s + 1 <= i < j < |log|
                && Acked(log[i], SetModuleFunctionality(Minimum, true))
                && Acked(log[j], SetModuleFunctionality(Full, true))
                && (apn.Some? ==> exists k :: i < k < j && Acked(log[k], SetPDPContextDefinition(1, apn.value)));
    if apn.Some? {
      var k :| i < k < j && Acked(log[k], SetPDPContextDefinition(1, apn.value));
      FourInOrder(DefinitionScript(apn), log, s, i, k, j);
    } else {
      ThreeInOrder(DefinitionScript(apn), log, s, i, j);
    }
  }

  /** Some context definition has been acknowledged since the last setup. */
  ghost predicate Defined(log: seq<Entry>) {
    exists apn :: Completed(DefinitionScript(apn), SetupBegun, log)
  }

  /** Since the last setup no URC has touched the context state before a definition. */
  ghost predicate Undisturbed(log: seq<Entry>) {
    || log == []
    || log[|log| - 1] == SetupBegun
    || (&& Undisturbed(log[..|log| - 1])
        && (log[|log| - 1].Consumed? && ContextUrc(log[|log| - 1].urc) ==> Defined(log[..|log| - 1])))
  }

  ghost predicate Prepared(log: seq<Entry>) {
    Undisturbed(log) ==> Defined(log)
  }

  lemma {:induction false} DefinedGrows(before: seq<Entry>, after: seq<Entry>)
    requires before <= after && (forall i :: |before| <= i < |after| ==> after[i] != SetupBegun)
    requires Defined(before)
    ensures Defined(after)
  {
    var apn :| Completed(DefinitionScript(apn), SetupBegun, before);
    ProgressGrows(DefinitionScript(apn), SetupBegun, before, after);
    assert Completed(DefinitionScript(apn), SetupBegun, after);
  }

  lemma {:induction false} PreparedGrows(before: seq<Entry>, after: seq<Entry>)
    requires before <= after && (forall i :: |before| <= i < |after| ==> after[i] != SetupBegun)
    requires Prepared(before)
    ensures Prepared(after)
  {
    if before != after {
      var rest := after[..|after| - 1];
      PreparedGrows(before, rest);
      if Undisturbed(after) {
        DefinedGrows(rest, after);
      }
    }
  }

  lemma PreparedAfterChatter(before: seq<Entry>, after: seq<Entry>)
    requires Chatter(before, after) && Prepared(before)
    ensures Prepared(after)
  {
    PreparedGrows(before, after);
  }

  /** Undisturbed, spelled out: every context URC since the last setup came after a definition. */
  lemma {:induction false} UndisturbedMeaning(log: seq<Entry>)
    ensures Undisturbed(log) <==>
            forall i {:trigger log[i]} ::
              0 <= i < |log| && log[i].Consumed? && ContextUrc(log[i].urc) && SetupBegun !in log[i..]
              ==> Defined(log[..i])
  {
    if log != [] && log[|log| - 1] != SetupBegun {
      var rest, last := log[..|log| - 1], log[|log| - 1];
      UndisturbedMeaning(rest);
      forall i | 0 <= i < |rest|
        ensures log[..i] == rest[..i] && log[i] == rest[i]
        ensures SetupBegun !in log[i..] <==> SetupBegun !in rest[i..]
      {
        assert log[i..] == rest[i..] + [last];
      }
      assert log[|log| - 1..] == [last];
    }
  }

  /** A consumed URC is no definition, and one of the two above before a definition disturbs the setup. */
  lemma UrcDefinesNothing(log: seq<Entry>, u: Urc)
    ensures Defined(log + [Consumed(u)]) <==> Defined(log)
    ensures ContextUrc(u) && !Defined(log) ==> !Undisturbed(log + [Consumed(u)])
  {
  }
}
