/** The device: power control, initialisation, the event loop and the data service. */
module Device {
  import opened Wrappers
  import opened At
  import opened Supervisor
  import opened Milestones
  import opened Network
  import opened Sockets
  import opened DataService
  import opened Lifecycle

  datatype State = Off | AtInitialized | FullyInitialized

  datatype PowerState = Off | On

  const POLL_PAUSE: nat := 5_000  // 5 ms between power probes

  const PROBES_FOR_30_S: nat := 6_000

  lemma {:induction false} CompletedGrows(script: seq<Milestone>, before: seq<Entry>, after: seq<Entry>)
    requires NoLoss(before, after)
    ensures Completed(script, PoweredOff, before) ==> Completed(script, PoweredOff, after)
  {
    ProgressGrows(script, PoweredOff, before, after);
  }

  lemma AgreeAfterSteps(slots: seq<Socket>, before: seq<Entry>, after: seq<Entry>)
    requires Agree(slots, before) && before <= after
    requires forall i :: |before| <= i < |after| ==>
               Plain(after[i]) || after[i] == PoweredOff || after[i] == Tripped || after[i].DefinitionBegun?
    ensures Agree(slots, after)
  {
    forall h
      ensures PhaseOf(h, after) == PhaseOf(h, before)
    {
      PhaseIgnoresSteps(h, before, after);
    }
  }

  /** Why a power-up fails: the Vint pin could not be read; with a power pin, 10 s passed without a probe that
      said On; without one, the rounds granted to it were used up. */
  predicate PowerFailure(powerPin: bool, error: DriverError, last: Option<Option<bool>>, took: int) {
    || (error == Unsupported && last == Some(None))
    || (powerPin && error == GenericTimeout && last != Some(Some(true)) && took >= 10 * SECOND)
    || (!powerPin && error == Unfinished)
  }

  lemma TellingNothing(slots: seq<Socket>)
    ensures Told(slots, slots, OtherSocketUrc)
  {
  }

  /** The SIM never became ready: the radio has been cycled, as a precaution. */
  predicate SimBusy(error: DriverError, log: seq<Entry>) {
    error == Busy && log != [] && Acked(log[|log| - 1], SetModuleFunctionality(Full, true))
  }

  /** Why the initialisation fails: power, no answer at all, a SIM that is not ready, or a refused command. */
  predicate InitFailure(cfg: Config, error: DriverError, log: seq<Entry>) {
    || error == Unsupported
    || error == BaudDetection
    || (cfg.powerPin && error == GenericTimeout)
    || error == Unfinished
    || SimBusy(error, log)
    || Refused(error, log)
  }

  class Device {
    const cfg: Config
    const network: Network
    const sockets: SocketSet?
    var state: State
    var powerState: PowerState

    ghost function Repr(): set<object> {
      {this} + network.Repr() + (if sockets == null then {} else {sockets})
    }

    function Slots(): seq<Socket>
      reads sockets
    {
      if sockets == null then [] else sockets.slots
    }

    /** A device that is on and fully initialised has had every mandatory command of the
        initialisation acknowledged, in order, since its power state last became Off. */
    ghost predicate Ready()
      reads this, network.atTx
    {
      powerState == On && state == FullyInitialized ==>
        Completed(InitScript(cfg), PoweredOff, network.atTx.log)
    }

    ghost predicate Valid()
      reads Repr()
    {
      && network.Valid()
      && (sockets != null ==> sockets.Valid())
      && Agree(Slots(), network.atTx.log)
      && Ready()
    }

    constructor (cfg: Config, clock: Clock, attempts: nat, sockets: SocketSet?)
      requires sockets != null ==> sockets.Valid() && sockets.slots == []
      ensures Valid() && this.cfg == cfg && this.sockets == sockets
      ensures state == State.Off && powerState == PowerState.Off
    {
      this.cfg := cfg;
      this.sockets := sockets;
      network := new Network(clock, attempts);
      state := State.Off;
      powerState := PowerState.Off;
    }

    // ---------------------------------------------------------------- basic steps

    /** Send a command that is neither payload nor part of the life of a socket. */
    method Send(req: Cmd, checkUrc: bool) returns (r: Result<Response, DriverError>)
      requires Valid() && !ConnectsSocket(req) && !req.WriteSocketData?
      modifies network`contextState, network.atTx
      ensures Valid() && Chatter(old(network.atTx.log), network.atTx.log)
      ensures |network.atTx.log| > |old(network.atTx.log)|
      ensures !checkUrc ==> |network.atTx.log| == |old(network.atTx.log)| + 1
      ensures r.Success? ==> network.atTx.log[|network.atTx.log| - 1] == Sent(req, Success(r.value))
      ensures r.Failure? ==> Refused(r.error, network.atTx.log)
      ensures TallyOf(network.atTx.log) ==
              old(TallyOf(network.atTx.log)).Plus(TallyOne(network.atTx.log[|network.atTx.log| - 1]))
      ensures Is(network.atTx.log[|network.atTx.log| - 1], req)
      ensures |Commands(network.atTx.log)| == |Commands(old(network.atTx.log))| + 1
    {
      hide Agree, Pending, Prepared, InitScript, Progress, TallyOf, Commands, NextContext, Legal, Run;
      ghost var before, c0 := network.atTx.log, network.contextState;
      var reply := network.SendInternal(req, checkUrc);
      ExchangedCommands(before, network.atTx.log, c0, network.contextState, req, reply, checkUrc);
      ghost var after := network.atTx.log;
      CompletedGrows(InitScript(cfg), before, after);
      AgreeAfterSteps(Slots(), before, after);
      TallySnoc(after[..|after| - 1], after[|after| - 1]);
      if |after| == |before| + 2 {
        TallySnoc(before, after[|before|]);
        assert after[..|after| - 1] == before + [after[|before|]];
      }
      assert after == after[..|after| - 1] + [after[|after| - 1]];
      r := if reply.Success? then Success(reply.value) else Failure(AtFailure(reply.error));
    }

    /** Record a probe of the power state. */
    ghost method NoteProbe(reading: Option<bool>)
      requires Valid()
      modifies network.atTx`log
      ensures Valid() && network.atTx.log == old(network.atTx.log) + [Probed(reading)]
      ensures TallyOf(network.atTx.log) == old(TallyOf(network.atTx.log)).Plus(Probe(reading))
    {
      hide Agree, Pending, Prepared, InitScript, Progress, TallyOf;
      ghost var before := network.atTx.log;
      network.Note(Probed(reading));
      CompletedGrows(InitScript(cfg), before, network.atTx.log);
      AgreeAfterSteps(Slots(), before, network.atTx.log);
      TallySnoc(before, Probed(reading));
    }

    /** The power state becomes Off. */
    method LosePower()
      requires Valid()
      modifies this`powerState, network.atTx`log
      ensures Valid() && powerState == PowerState.Off && network.atTx.log == old(network.atTx.log) + [PoweredOff]
      ensures TallyOf(network.atTx.log) == old(TallyOf(network.atTx.log)).Plus(LOSS)
    {
      hide Agree, Pending, Prepared, InitScript, Progress, TallyOf;
      powerState := PowerState.Off;
      ghost var before := network.atTx.log;
      network.Note(PoweredOff);
      AgreeAfterSteps(Slots(), before, network.atTx.log);
      TallySnoc(before, PoweredOff);
    }

    method Pause(d: nat)
      requires Valid()
      modifies network.clock
      ensures Valid() && network.clock.now >= old(network.clock.now) + d
    {
      hide Agree, Pending, Prepared, InitScript, Progress;
      network.clock.Wait(d);
    }

    // ---------------------------------------------------------------- power

    /** Poke the module with AT, up to a number of times. */
    method IsAlive(attempts: nat) returns (r: Result<(), DriverError>)
      requires Valid()
      modifies network`contextState, network.atTx
      ensures Valid() && Chatter(old(network.atTx.log), network.atTx.log)
      ensures TallyOf(network.atTx.log) == old(TallyOf(network.atTx.log))
      ensures r.Success? ==>
                && |network.atTx.log| > |old(network.atTx.log)|
                && Acked(network.atTx.log[|network.atTx.log| - 1], AT)
      ensures |Commands(network.atTx.log)| <= |Commands(old(network.atTx.log))| + attempts
      ensures r.Failure? ==>
                && (r.error.AtFailure? || r.error == BaudDetection)
                && |Commands(network.atTx.log)| == |Commands(old(network.atTx.log))| + attempts
    {
      hide Valid, TallyOf, Commands;
      var error := BaudDetection;
      for i := 0 to attempts
        invariant Valid() && Chatter(old(network.atTx.log), network.atTx.log)
        invariant TallyOf(network.atTx.log) == old(TallyOf(network.atTx.log))
        invariant |Commands(network.atTx.log)| == |Commands(old(network.atTx.log))| + i
        invariant error.AtFailure? || error == BaudDetection
      {
        var answer := Send(AT, false);
        if answer.Success? {
          return Success(());
        }
        error := answer.error;
      }
      return Failure(error);
    }

    /** Probe the power state: by the Vint pin when there is one, else by asking for signs of life. */
    method ReadPower() returns (r: Result<bool, DriverError>)
      requires Valid()
      modifies network`contextState, network.atTx
      ensures Valid() && Chatter(old(network.atTx.log), network.atTx.log)
      ensures TallyOf(network.atTx.log) == old(TallyOf(network.atTx.log)).Plus(
                Probe(if r.Success? then Some(r.value) else None))
      ensures r == Success(true) ==> SaidOn(cfg.vintPin, network.atTx.log)
      ensures |network.atTx.log| > |old(network.atTx.log)|
              && network.atTx.log[|network.atTx.log| - 1] == Probed(if r.Success? then Some(r.value) else None)
      ensures r.Failure? ==> cfg.vintPin && r.error == Unsupported
    {
      hide Valid, TallyOf;
      if cfg.vintPin {
        var pin: Option<bool> :| true;
        NoteProbe(pin);
        r := if pin.Some? then Success(pin.value) else Failure(Unsupported);
      } else {
        var alive := IsAlive(2);
        NoteProbe(Some(alive.Success?));
        r := Success(alive.Success?);
      }
    }

    /** Wait for the power state to read On; one probe every 5 ms at most, and success exactly when the
        last probe said On. */
    method WaitPowerOn(timeout: nat) returns (r: Result<(), DriverError>, ghost t: Tally)
      requires Valid()
      modifies network`contextState, network.atTx, network.clock
      ensures Valid() && Chatter(old(network.atTx.log), network.atTx.log)
      ensures old(network.clock.now) <= network.clock.now
      ensures TallyOf(network.atTx.log) == old(TallyOf(network.atTx.log)).Plus(t)
      ensures t.losses == t.resets == t.unprobed == t.afterOn == 0
      ensures t.probes <= (timeout + POLL_PAUSE - 1) / POLL_PAUSE
      ensures r.Success? <==> t.last == Some(Some(true))
      ensures r.Success? ==> SaidOn(cfg.vintPin, network.atTx.log)
      ensures r.Failure? ==> r.error == GenericTimeout || r.error == Unsupported
      ensures r == Failure(GenericTimeout) ==> network.clock.now >= old(network.clock.now) + timeout
      ensures r == Failure(Unsupported) ==> t.last == Some(None)
    {
      hide Valid, TallyOf, SaidOn;
      t := NOTHING;
      var start := Now();
      var now := Now();
      while now - start < timeout
        invariant Valid() && Chatter(old(network.atTx.log), network.atTx.log)
        invariant old(network.clock.now) <= start <= now <= network.clock.now
        invariant TallyOf(network.atTx.log) == old(TallyOf(network.atTx.log)).Plus(t)
        invariant t.losses == t.resets == t.unprobed == t.afterOn == 0 && t.last != Some(Some(true))
        invariant now - start >= t.probes * POLL_PAUSE
        invariant t.probes <= (timeout + POLL_PAUSE - 1) / POLL_PAUSE
        decreases start + timeout - now
      {
        var reading := ReadPower();
        t := t.Plus(Probe(if reading.Success? then Some(reading.value) else None));
        if reading.Failure? {
          return Failure(reading.error), t;
        }
        if reading.value {
          return Success(()), t;
        }
        Pause(POLL_PAUSE);
        now := Now();
      }
      return Failure(GenericTimeout), t;
    }

    method Now() returns (t: nat)
      requires Valid()
      modifies network.clock
      ensures Valid() && old(network.clock.now) <= network.clock.now == t
    {
      hide Agree, Pending, Prepared, InitScript, Progress;
      t := network.clock.Now();
    }

    /** Reset the module by command and wait for it to come back. */
    method SoftReset(simReset: bool) returns (r: Result<(), DriverError>, ghost t: Tally)
      requires Valid()
      modifies network`contextState, network.atTx, network.clock
      ensures Valid() && Chatter(old(network.atTx.log), network.atTx.log)
      ensures old(network.clock.now) <= network.clock.now
      ensures TallyOf(network.atTx.log) == old(TallyOf(network.atTx.log)).Plus(t)
      ensures t.losses == t.afterOn == 0 && t.unprobed == if simReset then 0 else 1
      ensures t.resets == (if simReset then 0 else 1) && t.probes <= PROBES_FOR_30_S
      ensures r.Success? <==> t.last == Some(Some(true))
      ensures r.Success? ==> SaidOn(cfg.vintPin, network.atTx.log)
      ensures r.Failure? ==>
                || Refused(r.error, network.atTx.log)
                || (r.error == GenericTimeout
                    && (network.clock.now >= old(network.clock.now) + 30 * SECOND || t.last == Some(None)))
    {
      hide Valid, TallyOf, SaidOn, Plain;
      t := if simReset then NOTHING else SILENT_RESET;
      var ack := Send(SetModuleFunctionality(if simReset then SilentResetWithSimReset else SilentReset, true), false);
      if ack.Failure? {
        return Failure(ack.error), t;
      }
      ghost var w;
      r, w := WaitPowerOn(30 * SECOND);
      t := t.Plus(w);
      if r.Failure? {
        r := Failure(GenericTimeout);
      }
    }

    /** Reset the module by its reset pin, if there is one, and power it on again. The power state is Off
        afterwards: only a new initialisation sets it to On. */
    method HardReset(rounds: nat) returns (r: Result<(), DriverError>, ghost t: Tally, ghost failed: nat)
      requires Valid()
      modifies this`powerState, network`contextState, network.atTx, network.clock
      ensures Valid() && PowerTalk(old(network.atTx.log), network.atTx.log)
      ensures old(network.clock.now) <= network.clock.now
      ensures |network.atTx.log| > |old(network.atTx.log)| && network.atTx.log[|old(network.atTx.log)|] == PoweredOff
      ensures powerState == PowerState.Off
      ensures cfg.resetPin ==> network.clock.now >= old(network.clock.now) + 5 * SECOND
      ensures TallyOf(network.atTx.log) == old(TallyOf(network.atTx.log)).Plus(t)
      ensures 1 <= t.losses <= rounds + 1
      ensures t.losses == 1 + failed - (if r == Failure(Unfinished) then 1 else 0)
      ensures t.unprobed == 1 && t.afterOn == 0 && failed <= rounds + 1
      ensures r.Success? ==> t.last == Some(Some(true)) && SaidOn(cfg.vintPin, network.atTx.log)
      ensures cfg.powerPin ==> failed == 0 && t.resets == 0 && r != Failure(Unfinished)
      ensures !cfg.powerPin ==> failed <= t.resets <= failed + 1
      ensures r == Failure(Unfinished) ==> failed == t.resets == rounds + 1 && t.last != Some(Some(true))
      ensures r.Failure? ==> PowerFailure(cfg.powerPin, r.error, t.last, network.clock.now - old(network.clock.now))
      decreases rounds, 1
    {
      hide Valid, TallyOf, SaidOn;
      if cfg.resetPin {
        Pause(if cfg.laraR6 then SECOND / 100 else SECOND / 20);
        Pause(5 * SECOND);
      }
      LosePower();
      r, t, failed := PowerOn(rounds);
      t := LOSS.Plus(t);
    }

    /** Pulse the power pin and wait for the module to come up. */
    method Pulse() returns (r: Result<(), DriverError>, ghost t: Tally)
      requires Valid()
      modifies network`contextState, network.atTx, network.clock
      ensures Valid() && Chatter(old(network.atTx.log), network.atTx.log)
      ensures old(network.clock.now) <= network.clock.now
      ensures TallyOf(network.atTx.log) == old(TallyOf(network.atTx.log)).Plus(t)
      ensures t.losses == t.resets == t.unprobed == t.afterOn == 0
      ensures r.Success? ==>
                && t.last == Some(Some(true)) && SaidOn(cfg.vintPin, network.atTx.log)
                && network.clock.now >= old(network.clock.now) + 3 * SECOND
      ensures r.Failure? ==>
                || (r.error == Unsupported && t.last == Some(None))
                || (&& r.error == GenericTimeout && t.last != Some(Some(true))
                    && network.clock.now >= old(network.clock.now) + 10 * SECOND)
    {
      hide Valid, TallyOf, SaidOn, Plain;
      Pause(if cfg.laraR6 then 150_000 else 50);
      r, t := WaitPowerOn(10 * SECOND);
      if r.Success? {
        Pause(3 * SECOND);
      }
    }

    /** Power the module on. With a power pin this ends after one pulse; without one, each round tries a
        silent reset and, when that fails too, a hard reset, which starts the next round: `failed` counts
        the rounds in which the probe did not say On and the silent reset failed, and every hard reset
        made here answers one of them, so none follows a probe that said On. `rounds` is
        the number of such further rounds that this run makes; Unfinished stands for a run of the
        program that goes on longer. */
    method PowerOn(rounds: nat) returns (r: Result<(), DriverError>, ghost t: Tally, ghost failed: nat)
      requires Valid()
      modifies this`powerState, network`contextState, network.atTx, network.clock
      ensures Valid() && PowerTalk(old(network.atTx.log), network.atTx.log)
      ensures old(network.clock.now) <= network.clock.now
      ensures TallyOf(network.atTx.log) == old(TallyOf(network.atTx.log)).Plus(t)
      ensures t.losses == 0 ==> powerState == old(powerState) && Chatter(old(network.atTx.log), network.atTx.log)
      ensures t.losses > 0 ==> powerState == PowerState.Off
      ensures t.losses == failed - (if r == Failure(Unfinished) then 1 else 0) <= rounds
      ensures t.unprobed == 0 && t.afterOn == 0
      ensures r.Success? ==> t.last == Some(Some(true)) && SaidOn(cfg.vintPin, network.atTx.log)
      ensures cfg.powerPin ==> failed == 0 && t.resets == 0 && r != Failure(Unfinished)
      ensures !cfg.powerPin ==> failed <= t.resets <= failed + 1
      ensures r == Failure(Unfinished) ==> failed == t.resets == rounds + 1 && t.last != Some(Some(true))
      ensures r.Failure? ==> PowerFailure(cfg.powerPin, r.error, t.last, network.clock.now - old(network.clock.now))
      ensures cfg.powerPin && r.Success? && t.probes > 1 ==> network.clock.now >= old(network.clock.now) + 3 * SECOND
      decreases rounds, 0
    {
      hide Valid, TallyOf, Plain, SaidOn, Is, Commands;
      failed := 0;
      var reading := ReadPower();
      t := Probe(if reading.Success? then Some(reading.value) else None);
      if reading.Failure? {
        return Failure(reading.error), t, 0;
      }
      if reading.value {
        return Success(()), t, 0;
      }
      ghost var more;
      if cfg.powerPin {
        r, more := Pulse();
        t := t.Plus(more);
      } else {
        r, more := SoftReset(false);
        t := t.Plus(more);
        if r.Failure? {
          failed := 1;
          if rounds == 0 {
            return Failure(Unfinished), t, failed;
          }
          ghost var deeper;
          r, more, deeper := HardReset(rounds - 1);
          t := t.Plus(more);
          failed := failed + deeper;
        }
      }
    }

    /** Switch the module off by command. */
    method SoftPowerOff() returns (r: Result<(), DriverError>)
      requires Valid()
      modifies this`powerState, network`contextState, network.atTx, network.clock
      ensures Valid() && state == old(state)
      ensures r.Success? ==>
                && powerState == PowerState.Off
                && |network.atTx.log| == |old(network.atTx.log)| + 2 && old(network.atTx.log) < network.atTx.log
                && Acked(network.atTx.log[|network.atTx.log| - 2], ModuleSwitchOff)
                && network.atTx.log[|network.atTx.log| - 1] == PoweredOff
      ensures r.Failure? ==>
                && powerState == old(powerState)
                && Chatter(old(network.atTx.log), network.atTx.log) && old(network.atTx.log) < network.atTx.log
                && !Acked(network.atTx.log[|network.atTx.log| - 1], ModuleSwitchOff)
    {
      hide Valid, TallyOf;
      var _ :- Send(ModuleSwitchOff, false);
      LosePower();
      Pause(10 * SECOND);
      return Success(());
    }

    /** Switch the module off by its power pin. */
    method HardPowerOff() returns (r: Result<(), DriverError>)
      requires Valid()
      modifies this`powerState, network`contextState, network.atTx, network.clock
      ensures Valid() && PowerTalk(old(network.atTx.log), network.atTx.log)
      ensures old(network.clock.now) <= network.clock.now
      ensures powerState == old(powerState) || (cfg.powerPin && powerState == PowerState.Off)
      ensures !cfg.vintPin && cfg.powerPin ==> r.Success?
      ensures r.Failure? ==> r.error == Unsupported && powerState == old(powerState)
      ensures network.atTx.log != [] &&
              var e := network.atTx.log[|network.atTx.log| - 1];
              if r.Success? then e == Probed(Some(false)) || (powerState == PowerState.Off && e == PoweredOff)
              else e == Probed(None) || (!cfg.powerPin && e == Probed(Some(true)))
    {
      hide Valid, TallyOf, SaidOn;
      var on :- ReadPower();
      if on {
        if !cfg.powerPin {
          return Failure(Unsupported);
        }
        Pause(if cfg.laraR6 then 1_500_000 else SECOND);
        LosePower();
      }
      return Success(());
    }

    // ---------------------------------------------------------------- initialisation

    /** How far the initialisation script has been followed since the power state last became Off. */
    ghost function Done(): nat
      reads network.atTx
    {
      Progress(InitScript(cfg), PoweredOff, network.atTx.log)
    }

    lemma DoneGrows(before: seq<Entry>)
      requires NoLoss(before, network.atTx.log)
      ensures Done() >= Progress(InitScript(cfg), PoweredOff, before)
    {
      ProgressGrows(InitScript(cfg), PoweredOff, before, network.atTx.log);
    }

    lemma UpIsProgress()
      requires SaidOn(cfg.vintPin, network.atTx.log)
      ensures Done() >= 1
    {
      SetupAt(cfg);
      ProgressBegins(InitScript(cfg), PoweredOff, network.atTx.log);
    }

    /** Send the k-th command of the script. */
    method Follow(req: Cmd, checkUrc: bool, ghost k: nat) returns (r: Result<(), DriverError>)
      requires !ConnectsSocket(req) && !req.WriteSocketData?
      requires k < |InitScript(cfg)| && InitScript(cfg)[k] == Ack(req)
      requires Valid() && Done() >= k
      modifies network`contextState, network.atTx
      ensures Valid()
      ensures r.Success? ==> Done() >= k + 1
      ensures |network.atTx.log| > |old(network.atTx.log)| && Is(network.atTx.log[|network.atTx.log| - 1], req)
      ensures r.Success? <==> network.atTx.log[|network.atTx.log| - 1].reply.Success?
      ensures r.Failure? ==> Refused(r.error, network.atTx.log)
    {
      hide Valid, TallyOf, InitScript, Progress;
      ghost var before := network.atTx.log;
      var _ :- Send(req, checkUrc);
      ProgressSteps(InitScript(cfg), PoweredOff, before, network.atTx.log, k);
      return Success(());
    }

    /** Wait for the SIM; after two failures cycle the radio and give up. */
    method SelectSimCard(ghost k: nat) returns (r: Result<(), DriverError>)
      requires Valid() && k < |InitScript(cfg)| && InitScript(cfg)[k] == SimReady && Done() >= k
      modifies network`contextState, network.atTx, network.clock
      ensures Valid()
      ensures r.Success? ==> Done() >= k + 1
      ensures |network.atTx.log| > |old(network.atTx.log)|
      ensures r.Success? ==>
                && Acked(network.atTx.log[|network.atTx.log| - 1], GetPinStatus)
                && network.atTx.log[|network.atTx.log| - 1].reply.value.simReady
      ensures r.Failure? ==>
                && |Commands(network.atTx.log)| > |Commands(old(network.atTx.log))| + 2
                && network.clock.now >= old(network.clock.now) + 2 * SECOND
                && (Refused(r.error, network.atTx.log) || SimBusy(r.error, network.atTx.log))
    {
      hide Valid, TallyOf, InitScript, Progress, Commands;
      for i := 0 to 2
        invariant Valid() && Done() >= k && old(network.atTx.log) <= network.atTx.log
        invariant |Commands(network.atTx.log)| == |Commands(old(network.atTx.log))| + i
        invariant network.clock.now >= old(network.clock.now) + i * SECOND
      {
        ghost var before := network.atTx.log;
        var pin := Send(GetPinStatus, true);
        if pin.Success? && pin.value.simReady {
          ProgressSteps(InitScript(cfg), PoweredOff, before, network.atTx.log, k);
          return Success(());
        }
        DoneGrows(before);
        Pause(SECOND);
      }
      var _ :- Send(SetModuleFunctionality(Minimum, true), true);
      var _ :- Send(SetModuleFunctionality(Full, true), true);
      return Failure(Busy);
    }

    method SetState(s: State)
      requires Valid() && (s == FullyInitialized ==> Done() >= |InitScript(cfg)|)
      modifies this`state
      ensures Valid() && state == s
    {
      hide Agree, Pending, Prepared, InitScript, Progress;
      state := s;
    }

    /** Only a device that is not yet initialised is marked On. */
    method MarkPoweredOn()
      requires Valid() && state == State.Off
      modifies this`powerState
      ensures Valid() && powerState == On
    {
      hide Agree, Pending, Prepared, InitScript, Progress;
      powerState := On;
    }

    /** Drop every socket, and have the contexts configured again. */
    method BeginSetup()
      requires Valid()
      modifies network`contextState, network.atTx`log, sockets
      ensures Valid() && Slots() == [] && network.contextState == Setup
      ensures network.atTx.log == old(network.atTx.log) + [SetupBegun]
    {
      hide Pending, Prepared, InitScript, Progress, PhaseOf;
      ghost var before := network.atTx.log;
      network.BeginSetup();
      if sockets != null {
        sockets.slots := [];
      }
      CompletedGrows(InitScript(cfg), before, network.atTx.log);
      forall h
        ensures PhaseOf(h, network.atTx.log) == NextPhase(PhaseOf(h, before), h, SetupBegun)
      {
        PhaseSnoc(h, before, SetupBegun);
      }
    }

    /** A module that is on but does not answer is reset, or else switched off. */
    method ResetOrPowerOff(rounds: nat) returns (r: Result<(), DriverError>)
      requires Valid()
      modifies this`powerState, network`contextState, network.atTx, network.clock
      ensures Valid() && powerState == PowerState.Off && old(network.atTx.log) <= network.atTx.log
      ensures |network.atTx.log| > |old(network.atTx.log)| && network.atTx.log[|old(network.atTx.log)|] == PoweredOff
      ensures r.Failure? ==> r.error == Unfinished || r.error == Unsupported
    {
      hide Valid, TallyOf;
      ghost var t, failed;
      r, t, failed := HardReset(rounds);
      if r == Failure(Unfinished) {
        return;
      }
      if r.Failure? {
        var _ :- HardPowerOff();
        Pause(SECOND);
        r := Success(());
      }
    }

    /** Set up the module for AT commands. */
    method SetupAtCommands(rounds: nat) returns (r: Result<(), DriverError>)
      requires Valid()
      modifies this, network`contextState, network.atTx, network.clock, sockets
      ensures Valid()
      ensures r.Success? ==> state == AtInitialized && Done() >= |SetupScript(cfg)|
      ensures r.Failure? ==> state == old(state) && InitFailure(cfg, r.error, network.atTx.log)
      ensures Slots() == []
      ensures powerState == old(powerState) || powerState == PowerState.Off
    {
      hide Valid, TallyOf, InitScript, SetupScript, Progress, Commands, SaidOn, Is, Plain, Refused, SimBusy;
      BeginSetup();
      ghost var t, failed;
      var power;
      power, t, failed := PowerOn(rounds);
      if power.Failure? {
        return power;
      }
      SetupAt(cfg);
      UpIsProgress();
      var _ :- Greet(rounds);
      var _ :- ConfigurePins();
      var _ :- IdentifyModule();
      var _ :- ConfigureInterface();
      SetState(AtInitialized);
      return Success(());
    }

    /** Have AT acknowledged. A module that does not answer probably runs at another rate, and is reset. */
    method Greet(rounds: nat) returns (r: Result<(), DriverError>)
      requires Valid() && Done() >= 1
      modifies this`powerState, network`contextState, network.atTx, network.clock
      ensures Valid()
      ensures r.Success? ==> Done() >= 2 && powerState == old(powerState)
      ensures r.Failure? ==>
                && powerState == PowerState.Off && !NoLoss(old(network.atTx.log), network.atTx.log)
                && (r.error == BaudDetection || r.error == Unfinished || r.error == Unsupported)
                && |Commands(network.atTx.log)| >= |Commands(old(network.atTx.log))| + 5
    {
      hide Valid, TallyOf, InitScript, SetupScript, Progress, Commands;
      ghost var before := network.atTx.log;
      var alive := IsAlive(5);
      if alive.Failure? {
        ghost var asked := network.atTx.log;
        r := ResetOrPowerOff(rounds);
        CommandsGrow(asked, network.atTx.log);
        return if r.Failure? then r else Failure(BaudDetection);
      }
      SetupAt(cfg);
      ProgressSteps(InitScript(cfg), PoweredOff, before, network.atTx.log, 1);
      return Success(());
    }

    /** The first part of the setup: extended errors and the SIM selection pins. */
    method ConfigurePins() returns (r: Result<(), DriverError>)
      requires Valid() && Done() >= 2
      modifies network`contextState, network.atTx, network.clock
      ensures Valid()
      ensures r.Success? ==> Done() >= 4 + SetupShift(cfg)
      ensures r.Failure? ==> Refused(r.error, network.atTx.log)
    {
      hide Valid, TallyOf, InitScript, SetupScript, Progress, Refused, SimBusy, Is, Plain, Commands;
      SetupAt(cfg);
      var _ :- Follow(SetReportMobileTerminationError, false, 2);
      var _ :- Follow(SetGpioOutputHigh(25), false, 3);
      if cfg.laraR6 {
        var _ :- Follow(SetGpioInput(42), false, 4);
      }
      return Success(());
    }

    /** The second part of the setup: identification of the module and its SIM. */
    method IdentifyModule() returns (r: Result<(), DriverError>)
      requires Valid() && Done() >= 4 + SetupShift(cfg)
      modifies network`contextState, network.atTx, network.clock
      ensures Valid()
      ensures r.Success? ==> Done() >= 8 + SetupShift(cfg)
      ensures r.Failure? ==> Refused(r.error, network.atTx.log) || SimBusy(r.error, network.atTx.log)
    {
      hide Valid, TallyOf, InitScript, SetupScript, Progress, Refused, SimBusy, Is, Plain, Commands;
      SetupAt(cfg);
      ghost var a := SetupShift(cfg);
      var _ :- Follow(GetModelId, false, 4 + a);
      var _ :- Follow(GetFirmwareVersion, false, 5 + a);
      var _ :- SelectSimCard(6 + a);
      var _ :- Follow(GetCCID, false, 7 + a);
      return Success(());
    }

    /** The third part of the setup: circuits, power saving, HEX mode and flow control. */
    method ConfigureInterface() returns (r: Result<(), DriverError>)
      requires Valid() && Done() >= 8 + SetupShift(cfg)
      modifies network`contextState, network.atTx
      ensures Valid()
      ensures r.Success? ==> Done() >= |SetupScript(cfg)|
      ensures r.Failure? ==> Refused(r.error, network.atTx.log)
    {
      hide Valid, TallyOf, InitScript, SetupScript, Progress, Refused, SimBusy, Is, Plain, Commands;
      SetupAt(cfg);
      ghost var a := SetupShift(cfg);
      var _ :- Follow(SetCircuit109Behaviour, false, 8 + a);
      var _ :- Follow(SetCircuit108Behaviour, false, 9 + a);
      var _ :- Follow(SetPowerSavingDisabled, false, 10 + a);
      var _ :- Follow(SetHexMode(cfg.hexMode), false, 11 + a);
      var _ :- Follow(SetFlowControl(cfg.flowControl), false, 12 + a);
      return Success(());
    }

    /** Switch the registration URCs off; a failed event report setting is ignored. */
    method EnableRegistrationUrcs(ghost k: nat) returns (r: Result<(), DriverError>)
      requires Valid() && k + 2 < |InitScript(cfg)| && Done() >= k
      requires InitScript(cfg)[k] == Ack(DisableRegistrationUrc(Csd))
      requires InitScript(cfg)[k + 1] == Ack(DisableRegistrationUrc(Psd))
      requires InitScript(cfg)[k + 2] == Ack(DisableRegistrationUrc(Eps))
      modifies network`contextState, network.atTx
      ensures Valid()
      ensures r.Success? ==> Done() >= k + 3
      ensures r.Failure? ==> Refused(r.error, network.atTx.log)
    {
      hide Valid, TallyOf, InitScript, Progress, Refused, Is, Commands;
      ghost var before := network.atTx.log;
      var _ := Send(SetPacketSwitchedEventReporting, true);
      DoneGrows(before);
      var _ :- Follow(DisableRegistrationUrc(Csd), true, k);
      var _ :- Follow(DisableRegistrationUrc(Psd), true, k + 1);
      var _ :- Follow(DisableRegistrationUrc(Eps), true, k + 2);
      return Success(());
    }

    /** Select the operator automatically, unless it is selected already. */
    method ChooseOperator(ghost k: nat) returns (r: Result<(), DriverError>)
      requires Valid() && k < |InitScript(cfg)| && InitScript(cfg)[k] == OperatorChosen && Done() >= k
      modifies network`contextState, network.atTx
      ensures Valid() && network.atTx.log != []
      ensures r.Success? ==> Done() >= k + 1
      ensures r.Success? ==>
                var e := network.atTx.log[|network.atTx.log| - 1];
                || Acked(e, SetOperatorSelection(Automatic))
                || (Acked(e, GetOperatorSelection) && e.reply.value.operatorMode in {Automatic, Manual})
      ensures r.Failure? ==> Refused(r.error, network.atTx.log)
    {
      hide Valid, TallyOf, InitScript, Progress, Commands;
      ghost var before := network.atTx.log;
      var current :- Send(GetOperatorSelection, true);
      if current.operatorMode == Automatic || current.operatorMode == Manual {
        ProgressSteps(InitScript(cfg), PoweredOff, before, network.atTx.log, k);
      } else {
        DoneGrows(before);
        before := network.atTx.log;
        var _ :- Send(SetOperatorSelection(Automatic), true);
        ProgressSteps(InitScript(cfg), PoweredOff, before, network.atTx.log, k);
      }
      return Success(());
    }

    method BeginRegistration()
      requires Valid()
      modifies network.status.Repr(), network.clock
      ensures Valid() && network.status.connState == Connecting
      ensures Run(network.status.events).stage == Asking(0) && network.status.registrationInterventions == 1
    {
      hide Pending, Prepared, InitScript, Progress, PhaseOf;
      network.BeginRegistration();
    }

    /** Ask for the registration state once. */
    method UpdateRegistration()
      requires Valid() && Run(network.status.events).stage == Asking(0)
      modifies network.Repr()
      ensures Valid() && Done() >= old(Done()) && Questioned(network.atTx.log)
      ensures network.status.registrationInterventions == old(network.status.registrationInterventions)
      ensures network.status.connState == old(network.status.connState)
    {
      hide Agree, Pending, Prepared, InitScript, Progress, Recorded, Is, Legal, Run;
      ghost var before := network.atTx.log;
      ghost var times := network.UpdateRegistration();
      AgreeAfterSteps(Slots(), before, network.atTx.log);
      CompletedGrows(InitScript(cfg), before, network.atTx.log);
      DoneGrows(before);
    }

    /** Start the registration clock. */
    method ResetRegTime()
      requires Valid() && network.status.registrationInterventions == 1 && network.status.connState == Connecting
      modifies network.Repr()
      ensures Valid() && Done() == old(Done()) && network.atTx.log == old(network.atTx.log) && network.JustArmed()
    {
      hide Agree, Pending, Prepared, InitScript, Progress;
      network.ResetRegTime();
    }

    /** Bring the module up, unless it is on and fully initialised. */
    method Initialize(rounds: nat) returns (r: Result<(), DriverError>)
      requires Valid()
      modifies Repr()
      ensures Valid()
      ensures r.Success? ==> state == FullyInitialized && Completed(InitScript(cfg), PoweredOff, network.atTx.log)
      ensures old(Initialised()) ==>
                r.Success? && unchanged(Repr()) && network.atTx.log == old(network.atTx.log)
      ensures r.Success? && !old(Initialised()) ==>
                network.JustArmed() && Questioned(network.atTx.log) && Slots() == []
      ensures r.Failure? ==> InitFailure(cfg, r.error, network.atTx.log) && r.error != WouldBlock
    {
      hide TallyOf, InitScript, SetupScript, Progress, Agree, Pending, Prepared;
      if powerState != On {
        var on := EnsurePowered(rounds);
        if on.Failure? {
          return on;
        }
      } else if state == FullyInitialized {
        return Success(());
      }
      r := Configure(rounds);
    }

    /** The part of the initialisation that brings the power state to On. */
    method EnsurePowered(rounds: nat) returns (r: Result<(), DriverError>)
      requires Valid()
      modifies this, network`contextState, network.atTx, network.clock
      ensures Valid() && state == State.Off
      ensures r.Success? ==> powerState == On && SaidOn(cfg.vintPin, network.atTx.log)
      ensures r.Failure? ==>
                && (r.error == Unsupported || r.error == Unfinished || (cfg.powerPin && r.error == GenericTimeout))
                && (r.error != Unfinished ==> !NoLoss(old(network.atTx.log), network.atTx.log))
    {
      hide Valid, TallyOf, SaidOn;
      SetState(State.Off);
      ghost var t, failed;
      r, t, failed := PowerOn(rounds);
      if r == Failure(Unfinished) {
        return;
      }
      if r.Failure? {
        r, t, failed := HardReset(rounds);
        if r.Failure? {
          return;
        }
      }
      MarkPoweredOn();
    }

    /** The part of the initialisation that configures the module. */
    method Configure(rounds: nat) returns (r: Result<(), DriverError>)
      requires Valid()
      modifies Repr()
      ensures Valid()
      ensures r.Success? ==>
                && state == FullyInitialized && Done() >= |InitScript(cfg)|
                && network.JustArmed() && Questioned(network.atTx.log)
      ensures r.Failure? ==> InitFailure(cfg, r.error, network.atTx.log)
      ensures Slots() == []
    {
      hide Valid, TallyOf, InitScript, SetupScript, Progress, Refused, SimBusy, Is, Plain, Commands, Questioned;
      InitAt(cfg);
      var _ :- SetupAtCommands(rounds);
      var _ :- EnableRadio();
      r := Register();
    }

    /** The part of the configuration between the AT setup and the registration. */
    method EnableRadio() returns (r: Result<(), DriverError>)
      requires Valid() && Done() >= 13 + SetupShift(cfg)
      modifies network`contextState, network.atTx, network.clock
      ensures Valid()
      ensures r.Success? ==> Done() >= 16 + InitShift(cfg)
      ensures r.Failure? ==> Refused(r.error, network.atTx.log) || SimBusy(r.error, network.atTx.log)
    {
      hide Valid, TallyOf, InitScript, SetupScript, Progress, Refused, SimBusy, Is, Plain, Commands;
      InitAt(cfg);
      ghost var a, b := SetupShift(cfg), InitShift(cfg);
      var _ :- SelectSimCard(13 + a);
      if cfg.tobyR2 {
        var _ :- Follow(SetMessageWaitingDisabled, false, 14 + a);
      }
      var _ :- Follow(SetAutomaticTimezoneUpdate, false, 14 + b);
      var _ :- Follow(SetModuleFunctionality(Full, false), true, 15 + b);
      return Success(());
    }

    /** The end of the initialisation: start registering. */
    method Register() returns (r: Result<(), DriverError>)
      requires Valid() && Done() >= 16 + InitShift(cfg)
      modifies this`state, network.Repr()
      ensures Valid()
      ensures r.Success? ==>
                && state == FullyInitialized && Done() >= |InitScript(cfg)|
                && network.JustArmed() && Questioned(network.atTx.log)
      ensures r.Failure? ==> Refused(r.error, network.atTx.log)
    {
      hide Valid, TallyOf, InitScript, SetupScript, Progress, Refused, Is, Plain, Commands, Questioned;
      InitAt(cfg);
      ghost var b := InitShift(cfg);
      BeginRegistration();
      var _ :- EnableRegistrationUrcs(16 + b);
      var _ :- ChooseOperator(19 + b);
      UpdateRegistration();
      ResetRegTime();
      SetState(FullyInitialized);
      return Success(());
    }

    // ---------------------------------------------------------------- the event loop

    /** Pass a socket URC, if there is one, to its socket. */
    method HandleUrcInternal() returns (ghost u: SocketUrc)
      requires Valid()
      modifies sockets
      ensures Valid() && Told(old(Slots()), Slots(), u)
    {
      hide Agree, Pending, Prepared, InitScript, Progress;
      u := OtherSocketUrc;
      if sockets != null {
        var next: Option<SocketUrc> :| true;
        if next.Some? {
          u := next.value;
          ghost var was := sockets.slots;
          sockets.Notify(next.value);
          AgreeAfterNotify(was, sockets.slots, next.value, network.atTx.log);
        }
      }
    }

    /** Registering, and at this moment the cells call for an intervention. */
    ghost predicate CallsFor()
      reads network.Repr()
    {
      network.Registering() && Run(network.status.events).Choice(network.clock.now).Some?
    }

    /** The network's tick. */
    method Tick() returns (r: Result<(), DriverError>)
      requires Valid()
      modifies network.Repr()
      ensures Valid()
      ensures old(Pending(network.atTx.log, network.atTx.defaultAttempts)) <= WATCHDOG_LIMIT ==>
                Chatter(old(network.atTx.log), network.atTx.log)
      ensures old(Pending(network.atTx.log, network.atTx.defaultAttempts)) > WATCHDOG_LIMIT ==>
                r == Failure(GenericTimeout) && network.atTx.log == old(network.atTx.log) + [Tripped]
      ensures r == Failure(GenericTimeout) ==>
                old(Pending(network.atTx.log, network.atTx.defaultAttempts)) > WATCHDOG_LIMIT || network.Overdue()
      ensures r.Failure? ==> Refused(r.error, network.atTx.log) || r.error == GenericTimeout
      ensures r.Success? ==>
                Follows(old(network.contextState), old(network.atTx.log), network.contextState, network.atTx.log)
      ensures r.Success? ==>
                && PolledWhenDue(old(network.status.events), network.status.events, network.clock.now)
                && (network.Overdue() ==> !Polled(old(network.status.events), network.status.events))
      ensures old(network.Stuck()) ==>
                r == Failure(GenericTimeout) || (r.Failure? && network.Stuck() && Run(network.status.events).Quiet())
      ensures old(network.Stuck() && Run(network.status.events).Quiet()) ==> r == Failure(GenericTimeout)
      ensures old(Pending(network.atTx.log, network.atTx.defaultAttempts)) <= WATCHDOG_LIMIT && old(CallsFor()) ==>
                Intervenes(old(Run(network.status.events)), old(network.clock.now), network.clock.now,
                           old(network.status.events), network.status.events)
    {
      hide Agree, Pending, Prepared, InitScript, Progress, Recorded, Run;
      hide Follows, PolledWhenDue, Polled, Refused, Intervenes, Network.Overdue, Network.Stuck;
      hide Snapshot.Quiet, Snapshot.Choice, Snapshot.Registered;
      ghost var before := network.atTx.log;
      r := network.ProcessEvents();
      AgreeAfterSteps(Slots(), before, network.atTx.log);
      CompletedGrows(InitScript(cfg), before, network.atTx.log);
    }

    /** Process events. A timeout, be it the watchdog's or the registration's, ends in a hard reset and
        an error; a tick that succeeds leaves the device as it was: on, and as far initialised. */
    method ProcessEvents(rounds: nat) returns (r: Result<(), DriverError>)
      requires Valid()
      modifies Repr()
      ensures Valid() && state == old(state)
      ensures old(powerState) != On ==>
                && r == Failure(Uninitialized)
                && network.atTx.log == old(network.atTx.log) && powerState == old(powerState)
      ensures old(powerState) == On && old(Pending(network.atTx.log, network.atTx.defaultAttempts)) > WATCHDOG_LIMIT ==>
                && r.Failure? && powerState == PowerState.Off
                && old(network.atTx.log) + [Tripped, PoweredOff] <= network.atTx.log
      ensures r.Success? ==>
                Follows(old(network.contextState), old(network.atTx.log), network.contextState, network.atTx.log)
      ensures r.Success? ==>
                old(powerState) == On && powerState == On && Chatter(old(network.atTx.log), network.atTx.log)
      ensures old(Pending(network.atTx.log, network.atTx.defaultAttempts)) <= WATCHDOG_LIMIT ==>
                old(network.atTx.log) <= network.atTx.log && Tripped !in network.atTx.log[|old(network.atTx.log)|..]
      ensures r.Success? ==>
                && PolledWhenDue(old(network.status.events), network.status.events, network.clock.now)
                && (network.Overdue() ==> !Polled(old(network.status.events), network.status.events))
      ensures exists u :: Told(old(Slots()), Slots(), u)
      ensures r.Failure? && old(powerState) == On ==>
                || (powerState == On && Refused(r.error, network.atTx.log))
                || (&& powerState == PowerState.Off
                    && (r.error == GenericTimeout || r.error == Unsupported || r.error == Unfinished))
      ensures (old(powerState) == On && powerState == PowerState.Off)
              || !NoLoss(old(network.atTx.log), network.atTx.log) ==>
                old(Pending(network.atTx.log, network.atTx.defaultAttempts)) > WATCHDOG_LIMIT || network.Overdue()
      ensures old(powerState == On && network.Stuck()) ==>
                || powerState == PowerState.Off
                || (r.Failure? && network.Stuck() && Run(network.status.events).Quiet())
      ensures old(network.Stuck() && Run(network.status.events).Quiet()) ==> powerState == PowerState.Off
      ensures old(powerState == On && Pending(network.atTx.log, network.atTx.defaultAttempts) <= WATCHDOG_LIMIT)
              && old(CallsFor()) ==>
                Intervenes(old(Run(network.status.events)), old(network.clock.now), network.clock.now,
                           old(network.status.events), network.status.events)
    {
      hide Follows, Valid, Pending, TallyOf, SaidOn, Run, CallsFor, PolledWhenDue, Polled, Told;
      hide Network.Stuck, Snapshot.Quiet, Snapshot.Choice, Snapshot.Registered;
      TellingNothing(Slots());
      if powerState != On {
        return Failure(Uninitialized);
      }
      ghost var u := HandleUrcInternal();
      r := Tick();
      if r == Failure(GenericTimeout) {
        r := GiveUp(rounds);
      }
      assert Told(old(Slots()), Slots(), u);
    }

    /** Reset the module after a timeout, and report the timeout or why the reset failed. */
    method GiveUp(rounds: nat) returns (r: Result<(), DriverError>)
      requires Valid()
      modifies this`powerState, network`contextState, network.atTx, network.clock
      ensures Valid() && powerState == PowerState.Off
      ensures r.Failure? && (r.error == GenericTimeout || r.error == Unsupported || r.error == Unfinished)
      ensures old(network.atTx.log) + [PoweredOff] <= network.atTx.log
      ensures Tripped !in network.atTx.log[|old(network.atTx.log)|..]
      ensures old(network.clock.now) <= network.clock.now
    {
      hide Valid, TallyOf, SaidOn;
      ghost var t, failed;
      r, t, failed := HardReset(rounds);
      if r.Success? {
        r := Failure(GenericTimeout);
      }
    }

    /** A device whose registration is stuck does not stay on: it is hard-reset by the second tick. */
    method TwoTicks(rounds: nat) returns (first: Result<(), DriverError>, second: Result<(), DriverError>)
      requires Valid() && network.Stuck()
      modifies Repr()
      ensures Valid() && powerState == PowerState.Off
    {
      hide Valid, Pending, Network.Stuck, Snapshot.Quiet, CallsFor, Network.Overdue, Intervenes;
      first := ProcessEvents(rounds);
      second := ProcessEvents(rounds);
    }

    /** If the data connection is lost the context is active no more. */
    method DemoteContext()
      requires Valid()
      modifies network`contextState
      ensures Valid() && Slots() == old(Slots()) && network.contextState ==
                         (if old(network.contextState) == Active then Activating else old(network.contextState))
    {
      hide Agree, Pending, Prepared, InitScript, Progress;
      if network.contextState == Active {
        network.contextState := Activating;
      }
    }

    /** On, and fully initialised: there is nothing left to initialise. */
    predicate Initialised()
      reads this
    {
      powerState == On && state == FullyInitialized
    }

    lemma ReadyMeans()
      requires Valid()
      ensures Initialised() ==> Completed(InitScript(cfg), PoweredOff, network.atTx.log)
    {
    }

    /** Run the state machine. Success means: on, fully initialised since the power state last became
        Off, and connected; whatever mix of failures, resets and power-offs came before. Otherwise, when
        the caller is told to wait, the context is not active. */
    method Spin(rounds: nat) returns (r: Result<(), DriverError>)
      requires Valid()
      modifies Repr()
      ensures Valid()
      ensures r.Success? ==>
                && powerState == On && state == FullyInitialized && network.IsConnected()
                && Completed(InitScript(cfg), PoweredOff, network.atTx.log)
      ensures r == Failure(WouldBlock) ==>
                && powerState == On && network.contextState != Active
                && !(network.IsConnected() && state == FullyInitialized)
      ensures old(Initialised()) ==>
                && state == FullyInitialized
                && (exists u :: Told(old(Slots()), Slots(), u))
                && (r.Success? || r == Failure(WouldBlock) || Refused(r.error, network.atTx.log)
                    || powerState == PowerState.Off)
      ensures old(Initialised()) && (r.Success? || r == Failure(WouldBlock)) ==>
                && Chatter(old(network.atTx.log), network.atTx.log)
                && PolledWhenDue(old(network.status.events), network.status.events, network.clock.now)
                && (network.Overdue() ==> !Polled(old(network.status.events), network.status.events))
      ensures old(Initialised()) && r.Success? ==>
                Follows(old(network.contextState), old(network.atTx.log), network.contextState, network.atTx.log)
      ensures old(Initialised()) && r == Failure(WouldBlock) ==>
                exists c ::
                  && Follows(old(network.contextState), old(network.atTx.log), c, network.atTx.log)
                  && network.contextState == if c == Active then Activating else c
      ensures old(Initialised()) && !NoLoss(old(network.atTx.log), network.atTx.log) ==>
                old(Pending(network.atTx.log, network.atTx.defaultAttempts)) > WATCHDOG_LIMIT || network.Overdue()
      ensures old(Initialised() && Pending(network.atTx.log, network.atTx.defaultAttempts) > WATCHDOG_LIMIT) ==>
                r.Failure? && powerState == PowerState.Off
      ensures old(Initialised() && network.Stuck()) ==>
                || powerState == PowerState.Off
                || (r.Failure? && network.Stuck() && Run(network.status.events).Quiet())
      ensures old(Initialised() && Pending(network.atTx.log, network.atTx.defaultAttempts) <= WATCHDOG_LIMIT)
              && old(CallsFor()) ==>
                Intervenes(old(Run(network.status.events)), old(network.clock.now), network.clock.now,
                           old(network.status.events), network.status.events)
    {
      hide Follows, Valid, Run, CallsFor, PolledWhenDue, Polled, Told, InitFailure, Plain, Intervenes, NoLoss;
      hide InitScript, Progress, Network.Stuck, Network.Overdue, Network.JustArmed, Pending, Questioned;
      hide Snapshot.Quiet, Snapshot.Choice, Snapshot.Registered;
      var res := Initialize(rounds);
      if res == Failure(Unfinished) {
        return res;
      }
      var _ :- ProcessEvents(rounds);
      if res.Failure? {
        return res;
      }
      ReadyMeans();
      if network.IsConnected() && state == FullyInitialized {
        return Success(());
      }
      DemoteContext();
      return Failure(WouldBlock);
    }

    // ---------------------------------------------------------------- the data service

    /** Record the beginning of a context definition. */
    ghost method NoteDefinition(apn: Option<string>)
      requires Valid()
      modifies network.atTx`log
      ensures Valid() && Progress(DefinitionScript(apn), SetupBegun, network.atTx.log) >= 1
      ensures network.atTx.log == old(network.atTx.log) + [DefinitionBegun(apn)]
    {
      hide Agree, Pending, Prepared, InitScript;
      ghost var before := network.atTx.log;
      network.Note(DefinitionBegun(apn));
      AgreeAfterSteps(Slots(), before, network.atTx.log);
      CompletedGrows(InitScript(cfg), before, network.atTx.log);
      ProgressSteps(DefinitionScript(apn), SetupBegun, before, network.atTx.log, 0);
    }

    /** Send the k-th command of a context definition. */
    method DefineStep(apn: Option<string>, req: Cmd, ghost k: nat) returns (r: Result<(), DriverError>)
      requires Valid() && k < |DefinitionScript(apn)| && DefinitionScript(apn)[k] == Ack(req)
      requires Progress(DefinitionScript(apn), SetupBegun, network.atTx.log) >= k
      requires !ConnectsSocket(req) && !req.WriteSocketData?
      modifies network`contextState, network.atTx
      ensures Valid()
      ensures r.Success? ==> Progress(DefinitionScript(apn), SetupBegun, network.atTx.log) >= k + 1
      ensures r.Success? ==>
                |network.atTx.log| > |old(network.atTx.log)| && Acked(network.atTx.log[|network.atTx.log| - 1], req)
      ensures old(network.atTx.log) <= network.atTx.log
      ensures r.Failure? ==> Refused(r.error, network.atTx.log)
    {
      hide Valid, TallyOf, Progress, DefinitionScript;
      ghost var before := network.atTx.log;
      var _ :- Send(req, true);
      ProgressSteps(DefinitionScript(apn), SetupBegun, before, network.atTx.log, k);
      return Success(());
    }

    method SetActivating()
      requires Valid() && Prepared(network.atTx.log)
      modifies network`contextState
      ensures Valid() && network.contextState == Activating
    {
      hide Agree, Pending, Prepared, InitScript, Progress;
      network.contextState := Activating;
    }

    lemma SetupOrPrepared()
      requires Valid()
      ensures network.contextState != Setup ==> Prepared(network.atTx.log)
    {
    }

    /** Define the PDP context, unless that has been done. */
    method DefineContext(apn: Option<string>) returns (r: Result<(), DriverError>)
      requires Valid()
      modifies network`contextState, network.atTx
      ensures Valid()
      ensures r.Success? ==> Prepared(network.atTx.log)
      ensures r.Success? && old(network.contextState) == Setup ==>
                && network.contextState == Activating
                && Completed(DefinitionScript(apn), SetupBegun, network.atTx.log)
      ensures r.Success? && old(network.contextState) == Setup ==>
                DefinitionAcked(apn, network.atTx.log, |old(network.atTx.log)|)
      ensures r.Success? ==> network.contextState != Setup
      ensures old(network.contextState) != Setup ==> r.Success? && network.atTx.log == old(network.atTx.log)
      ensures r.Failure? ==> Refused(r.error, network.atTx.log)
    {
      hide Valid, Progress, Undisturbed, Refused;
      SetupOrPrepared();
      if network.contextState != Setup {
        return Success(());
      }
      NoteDefinition(apn);
      var _ :- DefineStep(apn, SetModuleFunctionality(Minimum, true), 1);
      ghost var i := |network.atTx.log| - 1;
      if apn.Some? {
        var _ :- DefineStep(apn, SetPDPContextDefinition(CONTEXT_ID, apn.value), 2);
      }
      var _ :- DefineStep(apn, SetModuleFunctionality(Full, true), if apn.Some? then 3 else 2);
      assert Acked(network.atTx.log[i], SetModuleFunctionality(Minimum, true));
      assert Completed(DefinitionScript(apn), SetupBegun, network.atTx.log);
      SetActivating();
      return Success(());
    }

    /** What a data service did keeps the device valid, as long as power was not touched. */
    twostate lemma SurvivesService(service: DataService)
      requires old(Valid()) && service.Valid()
      requires service.network == network && service.sockets == sockets
      requires Calm(old(network.atTx.log), network.atTx.log)
      requires forall h :: PhaseOf(h, network.atTx.log) != Broken
      requires state == old(state) && powerState == old(powerState)
      ensures Valid()
    {
      CompletedGrows(InitScript(cfg), old(network.atTx.log), network.atTx.log);
    }

    /** Open a data service: success means on, fully initialised, connected, and the context active at
        this moment, whatever URCs were consumed on the way. */
    method OpenDataService(rounds: nat, apn: Option<string>) returns (r: Result<DataService, DriverError>)
      requires Valid()
      modifies Repr()
      ensures Valid()
      ensures r.Success? ==>
                && powerState == On && state == FullyInitialized && network.IsConnected()
                && network.contextState == Active
                && Completed(InitScript(cfg), PoweredOff, network.atTx.log)
                && r.value.Valid() && r.value.network == network && r.value.sockets == sockets
      ensures old(Initialised()) && r.Failure? ==>
                r.error == WouldBlock || Refused(r.error, network.atTx.log) || powerState == PowerState.Off
      ensures r == Failure(WouldBlock) ==> Prepared(network.atTx.log)
    {
      hide Follows, Established, Polled, PolledWhenDue, Told, Intervenes;
      hide InitScript, Progress, Agree, Pending, Prepared, Undisturbed;
      var spun := Spin(rounds);
      if spun == Failure(WouldBlock) {
        var _ :- DefineContext(apn);
        return Failure(WouldBlock);
      }
      if spun.Failure? {
        return Failure(spun.error);
      }
      var _ :- DefineContext(apn);
      r := Serve();
    }

    method Serve() returns (r: Result<DataService, DriverError>)
      requires Valid() && Prepared(network.atTx.log)
      modifies network`contextState, network.atTx, network.clock, sockets
      ensures Valid() && Chatter(old(network.atTx.log), network.atTx.log)
      ensures r.Success? ==>
                && network.contextState == Active
                && r.value.Valid() && r.value.network == network && r.value.sockets == sockets
      ensures r.Success? && old(network.contextState) != Active ==>
                Established(network.atTx.log, |old(network.atTx.log)|)
      ensures r.Failure? ==> r.error == WouldBlock || Refused(r.error, network.atTx.log)
      ensures Prepared(network.atTx.log)
    {
      hide Established, InitScript, Progress, Agree, Pending, Prepared;
      ghost var before := network.atTx.log;
      var service := new DataService(network, sockets, cfg.mapsProfiles);
      var ready;
      ghost var passes;
      ready, passes := service.TryNew();
      PreparedAfterChatter(before, network.atTx.log);
      CompletedGrows(InitScript(cfg), before, network.atTx.log);
      if sockets == null {
        AgreeAfterSteps([], before, network.atTx.log);
      }
      r := if ready.Success? then Success(service) else Failure(ready.error);
    }

    // ---------------------------------------------------------------- what validity means

    /** An initialised device: the mandatory commands were acknowledged at increasing places of the log
        after the last loss of power. */
    lemma InitialisedInOrder()
      requires Valid() && powerState == On && state == FullyInitialized
      ensures MetInOrder(InitScript(cfg), SinceMark(PoweredOff, network.atTx.log))
    {
      CompletedIffInOrder(InitScript(cfg), PoweredOff, network.atTx.log);
    }

    /** A context that has left Setup: some definition was acknowledged in order after the last setup,
        provided that no context URC was consumed before a definition. */
    lemma ContextDefinedInOrder() returns (apn: Option<string>)
      requires Valid() && network.contextState != Setup && Undisturbed(network.atTx.log)
      ensures MetInOrder(DefinitionScript(apn), SinceMark(SetupBegun, network.atTx.log))
      ensures DefinitionAcked(apn, SinceMark(SetupBegun, network.atTx.log), 1)
    {
      apn :| Completed(DefinitionScript(apn), SetupBegun, network.atTx.log);
      CompletedIffInOrder(DefinitionScript(apn), SetupBegun, network.atTx.log);
      var at :| InOrder(DefinitionScript(apn), SinceMark(SetupBegun, network.atTx.log), at);
      DefinitionFollowed(apn, SinceMark(SetupBegun, network.atTx.log), at);
    }

    /** Every acknowledged connection in the log came in turn: the handle was alive, its TLS setting had
        been acknowledged, and it had not been connected before in this life. */
    lemma ConnectionsInTurn(h: nat, k: nat)
      requires Valid() && k < |network.atTx.log| && Acked(network.atTx.log[k], ConnectSocket(h))
      ensures Alive(h, network.atTx.log[..k])
      ensures EverAcked(SetSocketSslState(h), Life(h, network.atTx.log[..k]))
      ensures !EverAcked(ConnectSocket(h), Life(h, network.atTx.log[..k]))
    {
      var log := network.atTx.log;
      assert log == log[..k + 1] + log[k + 1..] && log[..k + 1] == log[..k] + [log[k]];
      BrokenForGood(h, log[..k + 1], log[k + 1..]);
      ConnectedInTurn(h, log[..k], log[k]);
    }

    /** The backoff holds for every intervention the device ever made. */
    lemma InterventionsBackOff(k: nat)
      requires Valid() && k < |network.status.events| && network.status.events[k].Intervene?
      ensures network.status.events[k].t >=
              LastRestart(network.status.events[..k]) + Min(255, Count(network.status.events[..k]) + 1) * BACKOFF
    {
      BackoffEverywhere(network.status.events, k);
    }
  }
}
