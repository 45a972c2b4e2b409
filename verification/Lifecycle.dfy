/** What a power-up must leave behind: the scripts of the device's initialisation, and a tally of the
    power-related entries of a log. */
module Lifecycle {
  import opened Wrappers
  import opened At
  import opened Milestones
  import opened Sockets

  /** The pins a board provides and the module the driver is built for. */
  datatype Config = Config(
    powerPin: bool,
    vintPin: bool,
    resetPin: bool,
    hexMode: bool,
    flowControl: bool,
    laraR6: bool,
    tobyR2: bool,
    mapsProfiles: bool)

  function Opt(c: bool, m: Milestone): seq<Milestone> {
    if c then [m] else []
  }

  /** What setup_at_commands must have seen: a probe that says On, and these acknowledged, in order. */
  function SetupScript(cfg: Config): seq<Milestone> {
    [PoweredUp, Ack(AT), Ack(SetReportMobileTerminationError), Ack(SetGpioOutputHigh(25))]
    + Opt(cfg.laraR6, Ack(SetGpioInput(42)))
    + [Ack(GetModelId), Ack(GetFirmwareVersion), SimReady, Ack(GetCCID),
       Ack(SetCircuit109Behaviour), Ack(SetCircuit108Behaviour), Ack(SetPowerSavingDisabled),
       Ack(SetHexMode(cfg.hexMode)), Ack(SetFlowControl(cfg.flowControl))]
  }

  /** What initialize must have had acknowledged, in order. */
  function InitScript(cfg: Config): seq<Milestone> {
    SetupScript(cfg)
    + [SimReady]
    + Opt(cfg.tobyR2, Ack(SetMessageWaitingDisabled))
    + [Ack(SetAutomaticTimezoneUpdate), Ack(SetModuleFunctionality(Full, false)),
       Ack(DisableRegistrationUrc(Csd)), Ack(DisableRegistrationUrc(Psd)), Ack(DisableRegistrationUrc(Eps)),
       OperatorChosen]
  }

  /** How many optional steps come before the later part of each script. */
  function SetupShift(cfg: Config): nat {
    if cfg.laraR6 then 1 else 0
  }

  function InitShift(cfg: Config): nat {
    SetupShift(cfg) + if cfg.tobyR2 then 1 else 0
  }

  /** The scripts, place by place. */
  lemma SetupAt(cfg: Config)
    ensures var s, a := InitScript(cfg), SetupShift(cfg);
            && |SetupScript(cfg)| == 13 + a <= |s|
            && s[0] == PoweredUp
            && s[1] == Ack(AT)
            && s[2] == Ack(SetReportMobileTerminationError)
            && s[3] == Ack(SetGpioOutputHigh(25))
            && (cfg.laraR6 ==> s[4] == Ack(SetGpioInput(42)))
            && s[4 + a] == Ack(GetModelId)
            && s[5 + a] == Ack(GetFirmwareVersion)
            && s[6 + a] == SimReady
            && s[7 + a] == Ack(GetCCID)
            && s[8 + a] == Ack(SetCircuit109Behaviour)
            && s[9 + a] == Ack(SetCircuit108Behaviour)
            && s[10 + a] == Ack(SetPowerSavingDisabled)
            && s[11 + a] == Ack(SetHexMode(cfg.hexMode))
            && s[12 + a] == Ack(SetFlowControl(cfg.flowControl))
  {
  }

  lemma InitAt(cfg: Config)
    ensures var s, a, b := InitScript(cfg), SetupShift(cfg), InitShift(cfg);
            && |s| == 20 + b && |SetupScript(cfg)| == 13 + a
            && s[13 + a] == SimReady
            && (cfg.tobyR2 ==> s[14 + a] == Ack(SetMessageWaitingDisabled))
            && s[14 + b] == Ack(SetAutomaticTimezoneUpdate)
            && s[15 + b] == Ack(SetModuleFunctionality(Full, false))
            && s[16 + b] == Ack(DisableRegistrationUrc(Csd))
            && s[17 + b] == Ack(DisableRegistrationUrc(Psd))
            && s[18 + b] == Ack(DisableRegistrationUrc(Eps))
            && s[19 + b] == OperatorChosen
  {
  }

  // ------------------------------------------------------------------ growing logs

  /** The log grew, and no power loss is recorded in what came. */
  predicate NoLoss(before: seq<Entry>, after: seq<Entry>) {
    before <= after && forall i :: |before| <= i < |after| ==> after[i] != PoweredOff
  }

  /** Entries a power-up may add: plain ones and power losses. */
  predicate PowerTalk(before: seq<Entry>, after: seq<Entry>) {
    before <= after && forall i :: |before| <= i < |after| ==> Plain(after[i]) || after[i] == PoweredOff
  }

  /** Neither breaks the life of a socket. */
  lemma {:induction false} PhaseIgnoresSteps(h: nat, before: seq<Entry>, after: seq<Entry>)
    requires before <= after
    requires forall i :: |before| <= i < |after| ==>
               Plain(after[i]) || after[i] == PoweredOff || after[i] == Tripped || after[i].DefinitionBegun?
    ensures PhaseOf(h, after) == PhaseOf(h, before)
  {
    if before != after {
      PhaseIgnoresSteps(h, before, after[..|after| - 1]);
    }
  }

  /** The last thing in the log is a probe that said On; without a Vint pin that takes an AT the modem has
      acknowledged just before. */
  predicate SaidOn(vintPin: bool, log: seq<Entry>) {
    && log != []
    && log[|log| - 1] == Probed(Some(true))
    && (!vintPin ==> |log| > 1 && Acked(log[|log| - 2], AT))
  }

  // ------------------------------------------------------------------ the tally of power entries

  /** Power losses, silent resets tried, probes made, and the last probe's reading; and of the losses and
      silent resets, how many came before any probe, and how many right after a probe that said On. */
  datatype Tally = Tally(
    losses: nat, resets: nat, probes: nat, last: Option<Option<bool>>, unprobed: nat, afterOn: nat)
  {
    function Plus(t: Tally): Tally {
      Tally(losses + t.losses, resets + t.resets, probes + t.probes,
            if t.last.Some? then t.last else last,
            unprobed + if last.None? then t.unprobed else 0,
            afterOn + t.afterOn + if last == Some(Some(true)) then t.unprobed else 0)
    }
  }

  const NOTHING := Tally(0, 0, 0, None, 0, 0)

  const LOSS := Tally(1, 0, 0, None, 1, 0)

  const SILENT_RESET := Tally(0, 1, 0, None, 1, 0)

  function Probe(reading: Option<bool>): Tally {
    Tally(0, 0, 1, Some(reading), 0, 0)
  }

  function TallyOne(e: Entry): Tally {
    match e
    case PoweredOff => LOSS
    case Sent(SetModuleFunctionality(fun, _), _) => if fun == SilentReset then SILENT_RESET else NOTHING
    case Probed(reading) => Probe(reading)
    case _ => NOTHING
  }

  function TallyOf(log: seq<Entry>): Tally {
    if log == [] then NOTHING else TallyOf(log[..|log| - 1]).Plus(TallyOne(log[|log| - 1]))
  }

  lemma TallySnoc(log: seq<Entry>, e: Entry)
    ensures TallyOf(log + [e]) == TallyOf(log).Plus(TallyOne(e))
  {
  }

  /** A power loss or a silent reset, whether it is acknowledged or not. */
  predicate Cuts(e: Entry) {
    e == PoweredOff || (e.Sent? && e.cmd.SetModuleFunctionality? && e.cmd.fun == SilentReset)
  }

  /** The last probe of a log, and its reading. */
  predicate LastProbe(log: seq<Entry>, reading: Option<bool>) {
    exists j :: 0 <= j < |log| && log[j] == Probed(reading) && forall k :: j < k < |log| ==> !log[k].Probed?
  }

  lemma LastProbeSnoc(log: seq<Entry>, e: Entry, reading: Option<bool>)
    ensures LastProbe(log + [e], reading) <==> if e.Probed? then e.reading == reading else LastProbe(log, reading)
  {
    var more := log + [e];
    assert more[|log|] == e;
    if !e.Probed? && LastProbe(log, reading) {
      var j :| 0 <= j < |log| && log[j] == Probed(reading) && forall k :: j < k < |log| ==> !log[k].Probed?;
      assert more[j] == Probed(reading);
    }
    if !e.Probed? && LastProbe(more, reading) {
      var j :| 0 <= j < |more| && more[j] == Probed(reading) && forall k :: j < k < |more| ==> !more[k].Probed?;
      assert log[j] == Probed(reading);
      assert forall k :: j < k < |log| ==> more[k] == log[k];
    }
    if e.Probed? && LastProbe(more, reading) {
      assert more[|log|].Probed?;
    }
  }

  /** What the tally says about a log: its losses are counted, its last reading is that of the last probe, and
      nothing cuts the power right after a probe that said On exactly when afterOn is zero. */
  lemma {:induction false} TallyMeaning(log: seq<Entry>)
    ensures TallyOf(log).losses == multiset(log)[PoweredOff]
    ensures forall reading :: TallyOf(log).last == Some(reading) <==> LastProbe(log, reading)
    ensures TallyOf(log).afterOn == 0 <==>
            forall i :: 0 <= i < |log| && Cuts(log[i]) ==> !LastProbe(log[..i], Some(true))
  {
    if log != [] {
      var p, e := log[..|log| - 1], log[|log| - 1];
      assert log == p + [e];
      TallyMeaning(p);
      forall reading
        ensures LastProbe(log, reading) <==> if e.Probed? then e.reading == reading else LastProbe(p, reading)
      {
        LastProbeSnoc(p, e, reading);
      }
      assert forall i :: 0 <= i < |p| ==> log[..i] == p[..i] && log[i] == p[i];
      assert log[..|p|] == p;
      CutsTally(e);
    }
  }

  lemma CutsTally(e: Entry)
    ensures TallyOne(e).unprobed == if Cuts(e) then 1 else 0
    ensures TallyOne(e).afterOn == 0
  {
  }
}
