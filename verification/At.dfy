/** The clock, the AT commands the driver sends, and the transmitter with its watchdog counter.
    The modem is an arbitrary source of replies; every exchange is recorded in a ghost log. */
module At {
  import opened Wrappers
  import opened Hex

  const SECOND: nat := 1_000_000  // clock ticks are microseconds

  /** A monotone clock: each reading may be any time not before the previous one. */
  class Clock {
    var now: nat

    constructor ()
    {
      now := *;
    }

    method Now() returns (t: nat)
      modifies this
      ensures old(now) <= now == t
    {
      t :| now <= t;
      now := t;
    }

    /** Block for at least d ticks. */
    method Wait(d: nat)
      modifies this
      ensures now >= old(now) + d
    {
      var later: nat :| now + d <= later;
      now := later;
    }
  }

  datatype AtError = Timeout | Read | Write | InvalidResponse | Aborted | Parse | Error

  /** The driver's errors. Unfinished is not one of them: it marks a call that has used up the
      power-up rounds it was given and, in the program, would still be running. */
  datatype DriverError =
    | AtFailure(at: AtError)
    | GenericTimeout
    | Unsupported
    | BaudDetection
    | Busy
    | Uninitialized
    | WouldBlock
    | Unfinished

  datatype Functionality = Minimum | Full | SilentReset | SilentResetWithSimReset

  datatype OperatorMode = Automatic | Manual | Deregister | OtherMode

  datatype Protocol = Tcp | Udp

  /** The commands, with the arguments the properties speak about. */
  datatype Cmd =
    | AT
    | GetCIMI
    | GetModelId
    | GetFirmwareVersion
    | GetCCID
    | GetPinStatus
    | GetExtendedErrorReport
    | SetReportMobileTerminationError
    | SetGpioOutputHigh(pin: nat)
    | SetGpioInput(pin: nat)
    | SetCircuit109Behaviour
    | SetCircuit108Behaviour
    | SetPowerSavingDisabled
    | SetHexMode(hexOn: bool)
    | SetFlowControl(rtsCts: bool)
    | SetMessageWaitingDisabled
    | SetAutomaticTimezoneUpdate
    | SetModuleFunctionality(fun: Functionality, dontReset: bool)
    | ModuleSwitchOff
    | SetOperatorSelection(mode: OperatorMode)
    | GetOperatorSelection
    | SetPacketSwitchedEventReporting
    | DisableRegistrationUrc(domain: Domain)
    | GetRegistrationStatus(domain: Domain)
    | GetGPRSAttached
    | SetPDPContextDefinition(cid: nat, apn: string)
    | GetPDPContextState
    | ActivatePDPContext(context: Option<nat>)
    | GetMapProfile
    | SetMapProfile(mapped: nat)
    | GetPsdProfileStatus
    | ActivatePsdProfile
    | CreateSocket(protocol: Protocol)
    | SetSocketSslState(socket: nat)
    | ConnectSocket(socket: nat)
    | CloseSocket(socket: nat)
    | PrepareWriteSocketData(socket: nat, length: nat)
    | WriteSocketData(data: seq<byte>)
    | ReadSocketData(socket: nat, length: nat)
    | ReadUDPSocketData(socket: nat, length: nat)

  /** The three registration reports: +CREG, +CGREG and +CEREG. */
  datatype Domain = Csd | Psd | Eps

  /** Every field some response carries; a sender reads only those of its own command. */
  datatype Response = Response(
    stat: nat,
    simReady: bool,
    operatorMode: OperatorMode,
    attached: bool,
    contexts: seq<(nat, bool)>,
    mapProfile: Option<nat>,
    paramTag: nat,
    socket: nat,
    length: nat,
    data: Option<seq<byte>>)

  type Reply = Result<Response, AtError>

  datatype Urc =
    | DataConnectionActivated(result: nat)
    | DataConnectionDeactivated(profile: nat)
    | OtherUrc

  /** What a run of the driver leaves behind: commands with their replies, consumed URCs, and
      marks for the driver's own steps. */
  datatype Entry =
    | Sent(cmd: Cmd, reply: Reply)
    | Consumed(urc: Urc)
    | Tripped
    | PoweredOff
    | Probed(reading: Option<bool>)
    | SetupBegun
    | DefinitionBegun(apn: Option<string>)
    | SocketAdded(handle: nat, kind: Protocol)
    | SocketRemoved(handle: nat)

  predicate Acked(e: Entry, c: Cmd) {
    e.Sent? && e.cmd == c && e.reply.Success?
  }

  /** Commands declared with a single attempt. */
  predicate NotRetried(c: Cmd) {
    || c.ModuleSwitchOff? || c.SetModuleFunctionality?
    || c.SetOperatorSelection? || c.GetOperatorSelection?
    || c.GetGPRSAttached? || c.GetPDPContextState? || c.ActivatePDPContext? || c.ActivatePsdProfile?
    || c.ConnectSocket? || c.CloseSocket?
  }

  /** The attempts a command may take; the rest use the transport's default. */
  function Attempts(c: Cmd, default: nat): nat {
    if NotRetried(c) then 1 else default
  }

  /** What one entry does to the sum of timed-out attempts. */
  function Charged(before: nat, e: Entry, default: nat): nat {
    match e
    case Sent(_, Success(_)) => 0
    case Sent(c, Failure(error)) => if error == Timeout then before + Attempts(c, default) else before
    case Tripped => 0
    case _ => before
  }

  /** The attempts spent on timeouts since the last success or watchdog trip, with no ceiling. */
  function Pending(log: seq<Entry>, default: nat): nat {
    if log == [] then 0
    else Charged(Pending(log[..|log| - 1], default), log[|log| - 1], default)
  }

  lemma PendingSnoc(log: seq<Entry>, e: Entry, default: nat)
    ensures Pending(log + [e], default) == Charged(Pending(log, default), e, default)
  {
  }

  /** Pending over an interval: an independent reading of the same number. */
  function TimeoutSum(log: seq<Entry>, default: nat): nat {
    if log == [] then 0
    else
      (if log[0].Sent? && log[0].reply == Failure(Timeout) then Attempts(log[0].cmd, default) else 0)
      + TimeoutSum(log[1..], default)
  }

  predicate Clears(e: Entry) {
    e.Tripped? || (e.Sent? && e.reply.Success?)
  }

  /** Pending is the sum, over everything after the last success or trip, of the attempts of
      the commands that timed out. */
  lemma {:induction false} PendingIsTimeoutsSinceCleared(before: seq<Entry>, since: seq<Entry>, default: nat)
    requires before != [] ==> Clears(before[|before| - 1])
    requires forall e :: e in since ==> !Clears(e)
    ensures Pending(before + since, default) == TimeoutSum(since, default)
  {
    if since == [] {
      assert before + since == before;
    } else {
      var rest, last := since[..|since| - 1], since[|since| - 1];
      assert (before + since)[..|before + since| - 1] == before + rest;
      assert last in since;
      PendingIsTimeoutsSinceCleared(before, rest, default);
      assert since == rest + [last];
      TimeoutSumSnoc(rest, last, default);
    }
  }

  lemma {:induction false} TimeoutSumSnoc(log: seq<Entry>, e: Entry, default: nat)
    ensures TimeoutSum(log + [e], default) == TimeoutSum(log, default) + TimeoutSum([e], default)
  {
    if log != [] {
      assert (log + [e])[1..] == log[1..] + [e];
      TimeoutSumSnoc(log[1..], e, default);
    }
  }

  /** Of a write of `data`, the modem took the first k bytes. */
  predicate Taken(before: seq<byte>, data: seq<byte>, k: nat, after: seq<byte>, r: Reply) {
    && k <= |data|
    && after == before + data[..k]
    && (r.Success? ==> r.value.length == k)
  }

  /** The transmitter. */
  class AtTx {
    var consecutiveTimeouts: nat
    const defaultAttempts: nat
    ghost var log: seq<Entry>
    /** Socket payload the modem has taken, over all writes. */
    ghost var accepted: seq<byte>
    /** How many bytes of the latest write it took. */
    ghost var taken: nat

    /** The saturating 8-bit counter is the unbounded sum cut off at 255. */
    ghost predicate Valid()
      reads this
    {
      consecutiveTimeouts == Min(255, Pending(log, defaultAttempts))
    }

    constructor (attempts: nat)
      ensures Valid() && log == [] && accepted == []
      ensures defaultAttempts == attempts
    {
      consecutiveTimeouts := 0;
      defaultAttempts := attempts;
      log := [];
      accepted := [];
    }

    /** One exchange with the modem, retries included: any reply at all. A write hands the modem
        some prefix of its payload, once, however often the transport repeats it; an acknowledged
        write's length says how much was taken. */
    method SendRetry(req: Cmd) returns (r: Reply)
      modifies this`accepted, this`taken
      ensures !req.WriteSocketData? ==> accepted == old(accepted)
      ensures req.WriteSocketData? ==> Taken(old(accepted), req.data, taken, accepted, r)
    {
      r :| true;
      if req.WriteSocketData? {
        var k: nat :| k <= |req.data|;
        taken := k;
        accepted := accepted + req.data[..k];
        if r.Success? {
          r := Success(r.value.(length := k));
        }
      }
    }

    /** Send a command and keep count of the timeouts. */
    method Send(req: Cmd) returns (r: Reply)
      requires Valid()
      modifies this
      ensures Valid()
      ensures log == old(log) + [Sent(req, r)]
      ensures !req.WriteSocketData? ==> accepted == old(accepted)
      ensures req.WriteSocketData? ==> Taken(old(accepted), req.data, taken, accepted, r)
    {
      hide Pending;
      r := SendRetry(req);
      if r == Failure(Timeout) {
        consecutiveTimeouts := Min(255, consecutiveTimeouts + Attempts(req, defaultAttempts));
      } else if r.Success? {
        consecutiveTimeouts := 0;
      }
      log := log + [Sent(req, r)];
      PendingSnoc(old(log), Sent(req, r), defaultAttempts);
    }

    /** Record a driver step that leaves the counter alone. */
    ghost method Note(e: Entry)
      requires Valid() && !e.Sent? && !e.Tripped?
      modifies this`log
      ensures Valid() && log == old(log) + [e]
    {
      PendingSnoc(log, e, defaultAttempts);
      log := log + [e];
    }

    /** The watchdog fires: the counter starts again. */
    method Trip()
      requires Valid()
      modifies this
      ensures Valid() && consecutiveTimeouts == 0
      ensures log == old(log) + [Tripped] && accepted == old(accepted)
    {
      hide Pending;
      consecutiveTimeouts := 0;
      log := log + [Tripped];
      PendingSnoc(old(log), Tripped, defaultAttempts);
    }

    /** Take the next URC, if the queue holds one. */
    method NextUrc() returns (u: Option<Urc>)
      requires Valid()
      modifies this`log
      ensures Valid()
      ensures u.None? ==> log == old(log)
      ensures u.Some? ==> log == old(log) + [Consumed(u.value)]
    {
      u :| true;
      if u.Some? {
        Note(Consumed(u.value));
      }
    }
  }
}
