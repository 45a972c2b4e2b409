/** The data service: PDP context activation, socket ingress, and the TCP client stack. */
module DataService {
  import opened Wrappers
  import opened Hex
  import opened At
  import opened Milestones
  import opened Network
  import opened Sockets
  import opened Ingress
  import opened Egress

  const CONTEXT_ID: nat := 1

  /** The status of the first listed context with a given id. */
  function ContextActive(contexts: seq<(nat, bool)>, cid: nat): bool {
    if contexts == [] then false
    else if contexts[0].0 == cid then contexts[0].1
    else ContextActive(contexts[1..], cid)
  }

  /** The first status listed for the id, if any, is active. */
  predicate FirstActive(contexts: seq<(nat, bool)>, cid: nat) {
    exists i :: 0 <= i < |contexts| && contexts[i] == (cid, true) && forall j :: 0 <= j < i ==> contexts[j].0 != cid
  }

  lemma {:induction false} ContextActiveIff(contexts: seq<(nat, bool)>, cid: nat)
    ensures ContextActive(contexts, cid) <==> FirstActive(contexts, cid)
  {
    if contexts != [] {
      ContextActiveIff(contexts[1..], cid);
      if contexts[0].0 != cid {
        if FirstActive(contexts[1..], cid) {
          var i :| 0 <= i < |contexts[1..]| && contexts[1..][i] == (cid, true)
                   && forall j :: 0 <= j < i ==> contexts[1..][j].0 != cid;
          assert contexts[i + 1] == (cid, true);
          assert forall j :: 0 < j < i + 1 ==> contexts[j] == contexts[1..][j - 1];
        }
        if FirstActive(contexts, cid) {
          var i :| 0 <= i < |contexts| && contexts[i] == (cid, true)
                   && forall j :: 0 <= j < i ==> contexts[j].0 != cid;
          assert contexts[1..][i - 1] == (cid, true);
          assert forall j :: 0 <= j < i - 1 ==> contexts[1..][j] == contexts[j + 1];
        }
      }
    }
  }

  /** The modem has listed the driver's context, and as active. */
  predicate ListedActive(log: seq<Entry>) {
    exists i :: 0 <= i < |log| && Acked(log[i], GetPDPContextState)
      && FirstActive(log[i].reply.value.contexts, 1)
  }

  /** The first command sent since a place of the log. */
  predicate FirstIs(log: seq<Entry>, start: nat, c: Cmd) {
    exists n :: start <= n < |log| && Is(log[n], c) && forall j :: start <= j < n ==> log[j].Consumed?
  }

  /** The modem has listed the contexts, and the driver's is missing, or comes first as inactive. */
  predicate ListedInactive(log: seq<Entry>, start: nat) {
    exists i :: start <= i < |log| && Acked(log[i], GetPDPContextState)
      && !FirstActive(log[i].reply.value.contexts, 1)
  }

  /** The profile is mapped to the driver's context: the modem said so, or has acknowledged it. */
  predicate Mapped(log: seq<Entry>, start: nat) {
    exists i :: start <= i < |log| && Acked(log[i], GetMapProfile)
      && (|| log[i].reply.value.mapProfile == None
          || log[i].reply.value.mapProfile == Some(1)
          || exists j :: i < j < |log| && Acked(log[j], SetMapProfile(1)))
  }

  /** The profile was active already, or its activation has just been acknowledged. */
  predicate ProfileActive(log: seq<Entry>) {
    && log != []
    && var e := log[|log| - 1];
       Acked(e, ActivatePsdProfile) || (Acked(e, GetPsdProfileStatus) && e.reply.value.paramTag != 0)
  }

  /** The modem has reported a successful activation. */
  predicate Reported(log: seq<Entry>, start: nat) {
    exists i :: start <= i < |log| && log[i] == Consumed(DataConnectionActivated(0))
  }

  /** A context becomes active only when the modem lists it so or reports its activation. */
  predicate Established(log: seq<Entry>, start: nat)
    requires start <= |log|
  {
    ListedActive(log[start..]) || Reported(log, start)
  }

  lemma FirstAsked(log: seq<Entry>, start: nat, c: Cmd)
    requires start < |log| && Is(log[|log| - 1], c)
    requires forall j :: start <= j < |log| - 1 ==> log[j].Consumed?
    ensures FirstIs(log, start, c)
  {
  }

  lemma FirstStays(before: seq<Entry>, after: seq<Entry>, start: nat, c: Cmd)
    requires FirstIs(before, start, c) && before <= after
    ensures FirstIs(after, start, c)
  {
  }

  lemma NotListedAt(log: seq<Entry>, start: nat, i: nat)
    requires start <= i < |log| && Acked(log[i], GetPDPContextState)
    requires !ContextActive(log[i].reply.value.contexts, CONTEXT_ID)
    ensures ListedInactive(log, start)
  {
    ContextActiveIff(log[i].reply.value.contexts, CONTEXT_ID);
  }

  lemma MappedEarlier(log: seq<Entry>, start: nat, later: nat)
    requires start <= later
    ensures Mapped(log, later) ==> Mapped(log, start)
  {
  }

  lemma MappedGrows(before: seq<Entry>, after: seq<Entry>, start: nat)
    requires Mapped(before, start) && before <= after
    ensures Mapped(after, start)
  {
  }

  lemma EstablishedGrows(before: seq<Entry>, after: seq<Entry>, start: nat)
    requires start <= |before| && Established(before, start) && before <= after
    ensures Established(after, start)
  {
    if ListedActive(before[start..]) {
      var i :| 0 <= i < |before[start..]| && Acked(before[start..][i], GetPDPContextState)
               && FirstActive(before[start..][i].reply.value.contexts, 1);
      assert after[start..][i] == before[start..][i];
    }
  }

  lemma EstablishedLater(l0: seq<Entry>, l1: seq<Entry>, l2: seq<Entry>)
    requires l0 <= l1 <= l2
    requires Reported(l1, |l0|) || ListedActive(l2[|l1|..])
    ensures Established(l2, |l0|)
  {
    if ListedActive(l2[|l1|..]) {
      var i :| 0 <= i < |l2[|l1|..]| && Acked(l2[|l1|..][i], GetPDPContextState)
               && FirstActive(l2[|l1|..][i].reply.value.contexts, 1);
      assert l2[|l0|..][|l1| - |l0| + i] == l2[|l1|..][i];
    }
  }

  /** Why a write is given up: the modem refused it, took another number of bytes than it was given, or
      answered for another socket. */
  predicate BadAnswer(e: Entry, h: nat, length: nat, error: SocketError) {
    && e.Sent?
    && match e.reply
       case Failure(_) => error == Unaddressable
       case Success(response) =>
         if response.length != length then error == BadLength else response.socket != h && error == InvalidSocket
  }

  /** No other command is sent. */
  predicate OnlyAsks(log: seq<Entry>, c: Cmd) {
    forall i :: 0 <= i < |log| && log[i].Sent? ==> log[i].cmd == c
  }

  /** The modem has just reported itself attached. */
  predicate Attached(e: Entry) {
    Acked(e, GetGPRSAttached) && e.reply.value.attached
  }

  /** Attach queries come first, at least one, and nothing else is sent unless the last of them was answered
      with attached; n is how far they reach. */
  predicate AttachedFirst(log: seq<Entry>, n: nat) {
    && 0 < n <= |log|
    && OnlyAsks(log[..n], GetGPRSAttached)
    && Is(log[n - 1], GetGPRSAttached)
    && (n < |log| ==> Attached(log[n - 1]))
  }

  lemma ListedAt(log: seq<Entry>, start: nat, i: nat)
    requires start <= i < |log| && Acked(log[i], GetPDPContextState)
    requires ContextActive(log[i].reply.value.contexts, CONTEXT_ID)
    ensures ListedActive(log[start..])
  {
    ContextActiveIff(log[i].reply.value.contexts, CONTEXT_ID);
    assert log[start..][i - start] == log[i];
  }

  /** The exchange of one pass. */
  function PassLog(s: Socket, p: Pass): seq<Entry> {
    if s.Fits() && Request(s, p).Some? then [Sent(Request(s, p).value, p.reply)] else []
  }

  function PassesLog(slots: seq<Socket>, passes: seq<Pass>): seq<Entry>
    requires |passes| <= |slots|
  {
    if passes == [] then []
    else PassesLog(slots, passes[..|passes| - 1]) + PassLog(slots[|passes| - 1], passes[|passes| - 1])
  }

  predicate EndsWith(log: seq<Entry>, end: seq<Entry>) {
    |end| <= |log| && log[|log| - |end|..] == end
  }

  lemma {:induction false} PassesChatter(log: seq<Entry>, slots: seq<Socket>, passes: seq<Pass>)
    requires |passes| <= |slots|
    ensures Chatter(log, log + PassesLog(slots, passes))
  {
    if passes != [] {
      PassesChatter(log, slots, passes[..|passes| - 1]);
      var before, last := PassesLog(slots, passes[..|passes| - 1]), PassLog(slots[|passes| - 1], passes[|passes| - 1]);
      assert log + (before + last) == (log + before) + last;
    }
  }

  lemma ChunkTaken(before: seq<byte>, buffer: seq<byte>, i: nat, k: nat)
    requires i < NumChunks(|buffer|) && k <= |Chunk(buffer, i)|
    ensures Offset(|buffer|, i) + k <= |buffer|
    ensures (before + buffer[..Offset(|buffer|, i)]) + Chunk(buffer, i)[..k]
            == before + buffer[..Offset(|buffer|, i) + k]
  {
  }

  class DataService {
    const network: Network
    const sockets: SocketSet?
    const mapsProfiles: bool  // false for SARA-R4 and LARA-R6

    ghost function Repr(): set<object> {
      network.Repr() + (if sockets == null then {} else {sockets})
    }

    ghost predicate Valid()
      reads Repr()
    {
      && network.Valid()
      && (sockets != null ==> sockets.Valid() && Agree(sockets.slots, network.atTx.log))
    }

    constructor (network: Network, sockets: SocketSet?, mapsProfiles: bool)
      requires network.Valid()
      requires sockets != null ==> sockets.Valid() && Agree(sockets.slots, network.atTx.log)
      ensures Valid() && this.network == network && this.sockets == sockets && this.mapsProfiles == mapsProfiles
    {
      this.network := network;
      this.sockets := sockets;
      this.mapsProfiles := mapsProfiles;
    }

    /** Send a command that has no part in the life of a socket. */
    method Send(req: Cmd, checkUrc: bool) returns (r: Reply)
      requires Valid() && !ConnectsSocket(req)
      modifies network`contextState, network.atTx
      ensures Valid() && Chatter(old(network.atTx.log), network.atTx.log)
      ensures Exchanged(old(network.atTx.log), network.atTx.log, old(network.contextState), network.contextState,
                        req, r, checkUrc)
      ensures !req.WriteSocketData? ==> network.atTx.accepted == old(network.atTx.accepted)
      ensures req.WriteSocketData? ==>
                Taken(old(network.atTx.accepted), req.data, network.atTx.taken, network.atTx.accepted, r)
    {
      hide Network.Valid, Agree;
      r := network.SendInternal(req, checkUrc);
      if sockets != null {
        AgreeAfterChatter(sockets.slots, old(network.atTx.log), network.atTx.log);
      }
    }

    /** Send a command and pass an error on. */
    method Ask(req: Cmd, checkUrc: bool) returns (r: Result<Response, DriverError>)
      requires Valid() && !ConnectsSocket(req) && !req.WriteSocketData?
      modifies network`contextState, network.atTx
      ensures Valid() && Chatter(old(network.atTx.log), network.atTx.log)
      ensures |network.atTx.log| > |old(network.atTx.log)| && old(network.atTx.log) <= network.atTx.log
      ensures Is(network.atTx.log[|network.atTx.log| - 1], req)
      ensures forall i :: |old(network.atTx.log)| <= i < |network.atTx.log| - 1 ==> network.atTx.log[i].Consumed?
      ensures |Commands(network.atTx.log)| == |Commands(old(network.atTx.log))| + 1
      ensures network.contextState == Active ==>
                old(network.contextState) == Active || Reported(network.atTx.log, |old(network.atTx.log)|)
      ensures r.Success? ==> network.atTx.log[|network.atTx.log| - 1] == Sent(req, Success(r.value))
      ensures r.Failure? ==> Refused(r.error, network.atTx.log)
    {
      hide Valid, Commands;
      ghost var before, c0 := network.atTx.log, network.contextState;
      var reply := Send(req, checkUrc);
      ExchangedCommands(before, network.atTx.log, c0, network.contextState, req, reply, checkUrc);
      r := if reply.Success? then Success(reply.value) else Failure(AtFailure(reply.error));
    }

    /** Wait for the modem to report itself attached, asking at most ten times. */
    method AttachNetwork() returns (r: Result<(), DriverError>)
      requires Valid()
      modifies network`contextState, network.atTx, network.clock
      ensures Valid() && Chatter(old(network.atTx.log), network.atTx.log)
      ensures old(network.clock.now) <= network.clock.now
      ensures r.Success? ==>
                |network.atTx.log| > |old(network.atTx.log)| && Attached(network.atTx.log[|network.atTx.log| - 1])
      ensures |Commands(old(network.atTx.log))| < |Commands(network.atTx.log)| <= |Commands(old(network.atTx.log))| + 10
      ensures network.contextState == Active ==>
                old(network.contextState) == Active || Reported(network.atTx.log, |old(network.atTx.log)|)
      ensures r.Failure? ==> r.error == WouldBlock || Refused(r.error, network.atTx.log)
      ensures |network.atTx.log| > |old(network.atTx.log)|
      ensures Is(network.atTx.log[|network.atTx.log| - 1], GetGPRSAttached)
      ensures OnlyAsks(network.atTx.log[|old(network.atTx.log)|..], GetGPRSAttached)
      ensures r == Failure(WouldBlock) ==>
                && |Commands(network.atTx.log)| == |Commands(old(network.atTx.log))| + 10
                && network.clock.now >= old(network.clock.now) + 10 * SECOND
    {
      hide Valid, Commands, Plain;
      for i := 0 to 10
        invariant Valid() && Chatter(old(network.atTx.log), network.atTx.log)
        invariant |Commands(network.atTx.log)| == |Commands(old(network.atTx.log))| + i
        invariant network.contextState == Active ==>
                    old(network.contextState) == Active || Reported(network.atTx.log, |old(network.atTx.log)|)
        invariant i > 0 ==> |network.atTx.log| > |old(network.atTx.log)|
                            && Is(network.atTx.log[|network.atTx.log| - 1], GetGPRSAttached)
        invariant OnlyAsks(network.atTx.log[|old(network.atTx.log)|..], GetGPRSAttached)
        invariant network.clock.now >= old(network.clock.now) + i * SECOND
      {
        var state :- Ask(GetGPRSAttached, true);
        if state.attached {
          return Success(());
        }
        Pause(SECOND);
      }
      return Failure(WouldBlock);
    }

    method Pause(d: nat)
      requires Valid()
      modifies network.clock
      ensures Valid() && network.clock.now >= old(network.clock.now) + d
    {
      network.clock.Wait(d);
    }

    /** Map the profile to the context, unless it is mapped there already. */
    method MapProfile() returns (r: Result<(), DriverError>)
      requires Valid()
      modifies network`contextState, network.atTx
      ensures Valid() && Chatter(old(network.atTx.log), network.atTx.log)
      ensures r.Success? ==> Mapped(network.atTx.log, |old(network.atTx.log)|)
      ensures r.Failure? ==> Refused(r.error, network.atTx.log)
    {
      hide Valid, Plain, Commands, Refused;
      var mapped :- Ask(GetMapProfile, true);
      if mapped.mapProfile.Some? && mapped.mapProfile.value != CONTEXT_ID {
        var _ :- Ask(SetMapProfile(CONTEXT_ID), true);
        var _ :- Ask(GetPsdProfileStatus, true);
      }
      return Success(());
    }

    /** Make the profile active, when the modem needs a profile at all: on success it was active already,
        or its activation has just been acknowledged. */
    method ActivateProfile() returns (r: Result<(), DriverError>)
      requires Valid()
      modifies network`contextState, network.atTx
      ensures Valid() && Chatter(old(network.atTx.log), network.atTx.log)
      ensures r.Success? && mapsProfiles ==>
                ProfileActive(network.atTx.log) && Mapped(network.atTx.log, |old(network.atTx.log)|)
      ensures !mapsProfiles ==> r.Success? && network.atTx.log == old(network.atTx.log)
      ensures r.Failure? ==> Refused(r.error, network.atTx.log)
    {
      hide Valid, Plain, Commands, Refused, Mapped;
      if !mapsProfiles {
        return Success(());
      }
      var _ :- MapProfile();
      ghost var mapped := network.atTx.log;
      var status :- Ask(GetPsdProfileStatus, true);
      if status.paramTag == 0 {
        var _ :- Ask(ActivatePsdProfile, true);
      }
      MappedGrows(mapped, network.atTx.log, |old(network.atTx.log)|);
      return Success(());
    }

    /** Activate the context with 3GPP commands. Success means the state is Active at the end, and,
        unless it already was, that the modem has listed the context as active; URCs consumed on the
        way cannot change that. A context that is not listed is activated, and the caller must wait. */
    method ActivateContext() returns (r: Result<(), DriverError>)
      requires Valid() && Prepared(network.atTx.log)
      modifies network`contextState, network.atTx
      ensures Valid() && Chatter(old(network.atTx.log), network.atTx.log)
      ensures r.Success? ==> network.contextState == Active
      ensures r.Success? && old(network.contextState) != Active ==>
                ListedActive(network.atTx.log[|old(network.atTx.log)|..])
      ensures r == Failure(WouldBlock) ==>
                && |network.atTx.log| > |old(network.atTx.log)|
                && Acked(network.atTx.log[|network.atTx.log| - 1], ActivatePDPContext(Some(CONTEXT_ID)))
                && ListedInactive(network.atTx.log, |old(network.atTx.log)|)
      ensures old(network.contextState) == Active ==> r.Success? && network.atTx.log == old(network.atTx.log)
      ensures old(network.contextState) != Active ==>
                FirstIs(network.atTx.log, |old(network.atTx.log)|, GetPDPContextState)
      ensures r.Success? && old(network.contextState) != Active && mapsProfiles ==>
                ProfileActive(network.atTx.log) && Mapped(network.atTx.log, |old(network.atTx.log)|)
      ensures r.Failure? ==> r.error == WouldBlock || Refused(r.error, network.atTx.log)
    {
      hide Valid, Prepared, Plain, ContextActive, Commands;
      hide ListedActive, ListedInactive, FirstIs, Mapped, ProfileActive;
      if network.contextState == Active {
        return Success(());
      }
      ghost var l0 := network.atTx.log;
      var states := Ask(GetPDPContextState, true);
      ghost var l1 := network.atTx.log;
      FirstAsked(l1, |l0|, GetPDPContextState);
      if states.Failure? {
        return Failure(states.error);
      }
      if ContextActive(states.value.contexts, CONTEXT_ID) {
        PreparedAfterChatter(l0, l1);
        r := FinishActivation();
        ListedAt(network.atTx.log, |l0|, |l1| - 1);
        MappedEarlier(network.atTx.log, |l0|, |l1|);
      } else {
        var activated := Ask(ActivatePDPContext(Some(CONTEXT_ID)), true);
        NotListedAt(network.atTx.log, |l0|, |l1| - 1);
        r := Failure(if activated.Success? then WouldBlock else activated.error);
      }
      FirstStays(l1, network.atTx.log, |l0|, GetPDPContextState);
    }

    method FinishActivation() returns (r: Result<(), DriverError>)
      requires Valid() && Prepared(network.atTx.log)
      modifies network`contextState, network.atTx
      ensures Valid() && Chatter(old(network.atTx.log), network.atTx.log)
      ensures r.Success? ==> network.contextState == Active
      ensures r.Success? && mapsProfiles ==>
                ProfileActive(network.atTx.log) && Mapped(network.atTx.log, |old(network.atTx.log)|)
      ensures r.Failure? ==> Refused(r.error, network.atTx.log)
    {
      hide Valid, Prepared, Refused, Mapped, ProfileActive;
      var _ :- ActivateProfile();
      PreparedAfterChatter(old(network.atTx.log), network.atTx.log);
      SetActive();
      return Success(());
    }

    method SetActive()
      requires Valid() && Prepared(network.atTx.log)
      modifies network`contextState
      ensures Valid() && network.contextState == Active
    {
      hide Prepared, Agree;
      network.contextState := Active;
    }

    /** Make sure the context is active, attaching first if it is not. */
    method ConnectContext() returns (r: Result<(), DriverError>, ghost asked: nat)
      requires Valid() && Prepared(network.atTx.log)
      modifies network`contextState, network.atTx, network.clock
      ensures Valid() && Chatter(old(network.atTx.log), network.atTx.log)
      ensures old(network.clock.now) <= network.clock.now
      ensures r.Success? ==> network.contextState == Active
      ensures old(network.contextState) == Active ==> r.Success? && network.atTx.log == old(network.atTx.log)
      ensures old(network.contextState) != Active ==>
                AttachedFirst(network.atTx.log[|old(network.atTx.log)|..], asked)
                && (r.Success? ==> Attached(network.atTx.log[|old(network.atTx.log)| + asked - 1]))
                && (r.Success? ==> Established(network.atTx.log, |old(network.atTx.log)|))
      ensures r.Failure? ==> r.error == WouldBlock || Refused(r.error, network.atTx.log)
    {
      hide Valid, Prepared, Agree, OnlyAsks, Attached, Plain, Is, Reported, ListedActive, Established, Refused;
      ghost var l0 := network.atTx.log;
      if network.contextState == Active {
        return Success(()), 0;
      }
      r := AttachNetwork();
      ghost var l1 := network.atTx.log;
      asked := |l1| - |l0|;
      assert l1[|l0|..][..asked] == l1[|l0|..];
      if r.Success? {
        PreparedAfterChatter(l0, l1);
        r := ActivateContext();
        assert network.atTx.log[|l0|..][..asked] == l1[|l0|..];
        if r.Success? {
          EstablishedLater(l0, l1, network.atTx.log);
        }
      }
    }

    // ---------------------------------------------------------------- ingress

    /** Give slot i a successor of its socket. */
    method Update(i: nat, t: Socket)
      requires Valid() && sockets != null && i < |sockets.slots|
      requires Succeeds(sockets.slots[i], t) && t.Fits()
      modifies sockets
      ensures Valid() && sockets.slots == old(sockets.slots)[i := t]
    {
      hide Agree;
      AgreeAfterReplace(sockets.slots, i, t, network.atTx.log);
      sockets.Replace(i, t);
    }

    /** The receive buffer after a data reply, decoded in place in a scratch copy of its text. */
    static method Ingest(s: Socket, resp: Response) returns (t: Socket)
      requires s.Fits()
      ensures t == Ingested(s, resp)
    {
      t := s;
      if resp.socket != s.handle {
        return;
      }
      if resp.length == 0 {
        t := t.(available := 0);
      }
      if resp.data.None? {
        return;
      }
      if resp.length > 0 && |resp.data.value| / 2 != resp.length {
        return;
      }
      var text := new byte[|resp.data.value|](j requires 0 <= j < |resp.data.value| => resp.data.value[j]);
      assert text[..] == resp.data.value;
      var n := FromHex(text);
      if n.Failure? {
        return;
      }
      t := t.Enqueue(text[..n.value]);
    }

    /** One pass over one socket. */
    method SocketIngress(i: nat) returns (ghost p: Pass)
      requires Valid() && sockets != null && i < |sockets.slots|
      modifies network`contextState, network.atTx, sockets
      ensures Valid() && network.contextState == old(network.contextState)
      ensures old(sockets.slots)[i].Fits() && Sensible(old(sockets.slots)[i], p)
      ensures sockets.slots == old(sockets.slots)[i := AfterPass(old(sockets.slots)[i], p)]
      ensures network.atTx.log == old(network.atTx.log) + PassLog(old(sockets.slots)[i], p)
      ensures network.atTx.log != old(network.atTx.log) ==>
                var s, e := old(sockets.slots)[i], network.atTx.log[|old(network.atTx.log)|];
                && e.Sent?
                && (if s.kind == Tcp || s.available == 0 then e.cmd.ReadSocketData? else e.cmd.ReadUDPSocketData?)
                && e.cmd.socket == s.handle
                && (if s.available == 0 then e.cmd.length == 0 else Fitting(s, e.cmd.length))
      ensures old(sockets.slots)[i].available > 0 && p.canRecv ==> network.atTx.log != old(network.atTx.log)
    {
      hide Agree, Ingested, Pending, Prepared;
      var s := sockets.slots[i];
      var canRecv: bool :| canRecv ==> s.Window() > 0;
      var due: bool :| true;
      var reply := Failure(AtError.Error);
      var t := s;
      if s.available == 0 {
        if due {
          reply := Send(ReadSocketData(s.handle, 0), false);
          t := if reply.Success? then s.(available := reply.value.length) else s.(state := ClosedByRemote);
        }
      } else if canRecv {
        var wanted := Min(s.available, INGRESS_CHUNK_SIZE);
        var requested := Min(wanted, s.Window());
        reply := Send(if s.kind == Tcp then ReadSocketData(s.handle, requested)
                      else ReadUDPSocketData(s.handle, requested), false);
        if reply.Success? {
          t := Ingest(s, reply.value);
        }
      }
      p := Pass(due, canRecv, reply);
      assert t == AfterPass(s, p);
      Update(i, t);
    }

    /** One pass over every socket. Each socket's outcome is decided by its own reply alone, so an
        error on one leaves the others as they would have been without it. */
    method SocketIngressAll() returns (ghost passes: seq<Pass>)
      requires Valid() && sockets != null
      modifies network`contextState, network.atTx, sockets
      ensures Valid() && network.contextState == old(network.contextState)
      ensures |sockets.slots| == |passes| == |old(sockets.slots)|
      ensures forall i :: 0 <= i < |passes| ==>
                && old(sockets.slots)[i].Fits() && Sensible(old(sockets.slots)[i], passes[i])
                && sockets.slots[i] == AfterPass(old(sockets.slots)[i], passes[i])
      ensures network.atTx.log == old(network.atTx.log) + PassesLog(old(sockets.slots), passes)
      ensures Chatter(old(network.atTx.log), network.atTx.log)
    {
      hide Agree, Network.Valid, AfterPass, PassLog, Sensible;
      passes := [];
      ghost var was := sockets.slots;
      for i := 0 to |sockets.slots|
        invariant Valid() && network.contextState == old(network.contextState)
        invariant |sockets.slots| == |was| && |passes| == i
        invariant forall j :: 0 <= j < i ==>
                    was[j].Fits() && Sensible(was[j], passes[j]) && sockets.slots[j] == AfterPass(was[j], passes[j])
        invariant forall j :: i <= j < |was| ==> sockets.slots[j] == was[j]
        invariant network.atTx.log == old(network.atTx.log) + PassesLog(was, passes)
      {
        ghost var p := SocketIngress(i);
        assert (passes + [p])[..i] == passes;
        passes := passes + [p];
      }
      PassesChatter(old(network.atTx.log), was, passes);
    }

    /** Connect the context, then take in whatever the sockets have. */
    method TryNew() returns (r: Result<(), DriverError>, ghost passes: seq<Pass>)
      requires Valid() && Prepared(network.atTx.log)
      modifies network`contextState, network.atTx, network.clock, sockets
      ensures Valid() && Chatter(old(network.atTx.log), network.atTx.log)
      ensures old(network.clock.now) <= network.clock.now
      ensures r.Success? ==> network.contextState == Active
      ensures r.Success? && sockets != null ==>
                && |sockets.slots| == |passes| == |old(sockets.slots)|
                && (forall i :: 0 <= i < |passes| ==>
                      && old(sockets.slots)[i].Fits() && Sensible(old(sockets.slots)[i], passes[i])
                      && sockets.slots[i] == AfterPass(old(sockets.slots)[i], passes[i]))
                && EndsWith(network.atTx.log, PassesLog(old(sockets.slots), passes))
      ensures r.Failure? && sockets != null ==> sockets.slots == old(sockets.slots)
      ensures r.Success? && old(network.contextState) != Active ==>
                Established(network.atTx.log, |old(network.atTx.log)|)
      ensures r.Failure? ==> r.error == WouldBlock || Refused(r.error, network.atTx.log)
    {
      hide Agree, Prepared, Network.Valid, AfterPass, Sensible, PassesLog, Established;
      passes := [];
      ghost var asked;
      r, asked := ConnectContext();
      if r.Success? && sockets != null {
        ghost var connected := network.atTx.log;
        passes := SocketIngressAll();
        if old(network.contextState) != Active {
          EstablishedGrows(connected, network.atTx.log, |old(network.atTx.log)|);
        }
      }
    }

    // ---------------------------------------------------------------- TCP client stack

    method Find(h: nat) returns (at: Option<nat>)
      requires Valid() && sockets != null
      ensures Valid()
      ensures at.Some? ==> at.value < |sockets.slots| && sockets.slots[at.value].handle == h
      ensures at.None? <==> !Holds(sockets.slots, h)
    {
      at := sockets.Find(h);
    }

    /** Look a TCP socket up, as every operation of the TCP client does. */
    method FindTcp(h: nat) returns (at: Option<nat>)
      requires Valid() && sockets != null
      ensures Valid()
      ensures at.Some? <==> HoldsTcp(sockets.slots, h)
      ensures at.Some? ==>
                && at.value < |sockets.slots|
                && sockets.slots[at.value].handle == h && sockets.slots[at.value].kind == Tcp
                && (sockets.slots[at.value].state == Created <==> CreatedIn(sockets.slots, h))
                && (sockets.slots[at.value].state == Connected <==> ConnectedIn(sockets.slots, h))
      ensures at.None? ==> !CreatedIn(sockets.slots, h) && !ConnectedIn(sockets.slots, h)
    {
      hide Agree, Pending, Prepared;
      at := sockets.Find(h);
      if at.Some? {
        assert forall j :: 0 <= j < |sockets.slots| && sockets.slots[j].handle == h ==> j == at.value;
        if sockets.slots[at.value].kind != Tcp {
          at := None;
        }
      }
    }

    /** Record a step in the life of a handle the socket set does not hold. */
    ghost method Mark(e: Entry)
      requires Valid() && sockets != null
      requires (e.SocketAdded? || e.SocketRemoved?) && !Holds(sockets.slots, e.handle)
      modifies network.atTx`log
      ensures Valid() && network.atTx.log == old(network.atTx.log) + [e]
      ensures PhaseOf(e.handle, network.atTx.log) == (if e.SocketAdded? then Opened else Absent)
    {
      hide Agree, Pending, Prepared;
      AgreeAfterMark(sockets.slots, network.atTx.log, e);
      network.Note(e);
    }

    /** Open a TCP socket. When the set is full and nothing can be recycled, nothing is sent. */
    method OpenSocket() returns (r: Result<nat, SocketError>)
      requires Valid()
      modifies network`contextState, network.atTx, sockets
      ensures Valid() && Calm(old(network.atTx.log), network.atTx.log)
      ensures sockets == null ==> r == Failure(Illegal)
      ensures sockets != null && |old(sockets.slots)| >= sockets.capacity
              && (forall i :: 0 <= i < |old(sockets.slots)| ==> old(sockets.slots)[i].state != ClosedByRemote) ==>
                r == Failure(SocketSetFull)
      ensures sockets != null && |old(sockets.slots)| >= sockets.capacity ==>
                network.atTx.log == old(network.atTx.log)
                || exists i :: 0 <= i < |old(sockets.slots)| && old(sockets.slots)[i].state == ClosedByRemote
                     && old(network.atTx.log) + [SocketRemoved(old(sockets.slots)[i].handle)] <= network.atTx.log
      ensures r == Failure(SocketSetFull) ==>
                && sockets != null && |sockets.slots| >= sockets.capacity
                && sockets.slots == old(sockets.slots) && network.atTx.log == old(network.atTx.log)
      ensures r.Failure? && sockets != null && r.error != SocketSetFull ==>
                && |network.atTx.log| > |old(network.atTx.log)|
                && var e := network.atTx.log[|network.atTx.log| - 1];
                   && Is(e, CreateSocket(Tcp))
                   && if e.reply.Failure? then r.error == Unaddressable
                      else r.error == DuplicateSocket && Holds(sockets.slots, e.reply.value.socket)
      ensures r.Success? ==>
                && sockets != null && sockets.slots != [] && !Holds(sockets.slots[..|sockets.slots| - 1], r.value)
                && sockets.slots[|sockets.slots| - 1] == Socket(r.value, Tcp, Created, [], sockets.ringLength, 0)
                && PhaseOf(r.value, network.atTx.log) == Opened
                && |network.atTx.log| >= 2 && network.atTx.log[|network.atTx.log| - 1] == SocketAdded(r.value, Tcp)
                && Acked(network.atTx.log[|network.atTx.log| - 2], CreateSocket(Tcp))
                && network.atTx.log[|network.atTx.log| - 2].reply.value.socket == r.value
    {
      hide Valid, PhaseOf, Calm;
      ghost var l0 := network.atTx.log;
      CalmReflexive(l0);
      if sockets == null {
        return Failure(Illegal);
      }
      if |sockets.slots| >= sockets.capacity {
        var dropped := RecycleSocket();
        if !dropped {
          return Failure(SocketSetFull);
        }
      }
      ghost var l1 := network.atTx.log;
      r := Create();
      CalmTransitive(l0, l1, network.atTx.log);
    }

    /** Have the modem create a socket, and put it into the set. */
    method Create() returns (r: Result<nat, SocketError>)
      requires Valid() && sockets != null && |sockets.slots| < sockets.capacity
      modifies network`contextState, network.atTx, sockets
      ensures Valid() && Calm(old(network.atTx.log), network.atTx.log) && old(network.atTx.log) < network.atTx.log
      ensures r.Failure? ==>
                var e := network.atTx.log[|network.atTx.log| - 1];
                && Is(e, CreateSocket(Tcp)) && sockets.slots == old(sockets.slots)
                && if e.reply.Failure? then r.error == Unaddressable
                   else r.error == DuplicateSocket && Holds(sockets.slots, e.reply.value.socket)
      ensures r.Success? ==>
                && !Holds(old(sockets.slots), r.value)
                && sockets.slots == old(sockets.slots) + [Socket(r.value, Tcp, Created, [], sockets.ringLength, 0)]
                && PhaseOf(r.value, network.atTx.log) == Opened
                && |network.atTx.log| >= 2 && network.atTx.log[|network.atTx.log| - 1] == SocketAdded(r.value, Tcp)
                && Acked(network.atTx.log[|network.atTx.log| - 2], CreateSocket(Tcp))
                && network.atTx.log[|network.atTx.log| - 2].reply.value.socket == r.value
    {
      hide Valid, PhaseOf, Calm, Chatter, Plain, Commands, Reported;
      ghost var l0 := network.atTx.log;
      var reply := Ask(CreateSocket(Tcp), true);
      ghost var l1 := network.atTx.log;
      ChatterIsCalm(l0, l1);
      if reply.Failure? {
        return Failure(Unaddressable);
      }
      r := AddSocket(reply.value.socket);
      CalmTransitive(l0, l1, network.atTx.log);
    }

    method RecycleSocket() returns (dropped: bool)
      requires Valid() && sockets != null
      modifies network.atTx`log, sockets
      ensures Valid() && Calm(old(network.atTx.log), network.atTx.log)
      ensures !dropped ==> sockets.slots == old(sockets.slots) && network.atTx.log == old(network.atTx.log)
      ensures dropped ==>
                && |sockets.slots| < sockets.capacity
                && exists i :: 0 <= i < |old(sockets.slots)| && old(sockets.slots)[i].state == ClosedByRemote
                     && network.atTx.log == old(network.atTx.log) + [SocketRemoved(old(sockets.slots)[i].handle)]
    {
      hide Agree, Pending, Prepared;
      var h := sockets.Recycle();
      if h.Some? {
        AgreeAfterDrop(old(sockets.slots), sockets.slots, h.value, network.atTx.log);
        Mark(SocketRemoved(h.value));
      }
      return h.Some?;
    }

    /** Put a new socket into the set; a handle the set already holds is refused. */
    method AddSocket(h: nat) returns (r: Result<nat, SocketError>)
      requires Valid() && sockets != null && |sockets.slots| < sockets.capacity
      modifies network.atTx`log, sockets
      ensures Valid() && Calm(old(network.atTx.log), network.atTx.log)
      ensures r.Success? <==> !Holds(old(sockets.slots), h)
      ensures old(network.atTx.log) <= network.atTx.log
      ensures r.Success? ==>
                && r.value == h && PhaseOf(h, network.atTx.log) == Opened
                && network.atTx.log == old(network.atTx.log) + [SocketAdded(h, Tcp)]
                && sockets.slots == old(sockets.slots) + [Socket(h, Tcp, Created, [], sockets.ringLength, 0)]
      ensures r.Failure? ==>
                && r.error == DuplicateSocket
                && sockets.slots == old(sockets.slots) && network.atTx.log == old(network.atTx.log)
    {
      hide Agree, Pending, Prepared;
      var at := sockets.Find(h);
      if at.Some? {
        return Failure(DuplicateSocket);
      }
      var s := Socket(h, Tcp, Created, [], sockets.ringLength, 0);
      Mark(SocketAdded(h, Tcp));
      AgreeAfterAdd(sockets.slots, s, network.atTx.log);
      r := sockets.Add(s);
    }

    /** Connect a TCP socket: only one that is still Created, TLS setting first. */
    method ConnectTo(h: nat) returns (r: Result<(), SocketError>)
      requires Valid()
      modifies network`contextState, network.atTx, sockets
      ensures Valid() && Calm(old(network.atTx.log), network.atTx.log)
      ensures r.Success? ==>
                && sockets != null && PhaseOf(h, network.atTx.log) == Joined
                && exists i :: 0 <= i < |old(sockets.slots)| && old(sockets.slots)[i].handle == h
                     && old(sockets.slots)[i].state == Created
                     && sockets.slots == old(sockets.slots)[i := old(sockets.slots)[i].(state := Connected)]
      ensures r.Failure? ==> sockets != null ==> sockets.slots == old(sockets.slots)
      ensures sockets == null || !CreatedIn(old(sockets.slots), h) ==>
                && r.Failure? && network.atTx.log == old(network.atTx.log)
                && r.error == (if sockets == null || HoldsTcp(old(sockets.slots), h) then Illegal else InvalidSocket)
      ensures sockets != null && CreatedIn(old(sockets.slots), h) ==>
                && FirstIs(network.atTx.log, |old(network.atTx.log)|, SetSocketSslState(h))
                && (r.Failure? ==> r.error == Unaddressable)
                && network.atTx.log[|network.atTx.log| - 1].Sent?
                && (r.Success? <==> Acked(network.atTx.log[|network.atTx.log| - 1], ConnectSocket(h)))
    {
      hide Valid, HoldsTcp, CreatedIn, ConnectedIn, PhaseOf, FirstIs, Calm;
      ghost var l0 := network.atTx.log;
      CalmReflexive(l0);
      if sockets == null {
        return Failure(Illegal);
      }
      var at := FindTcp(h);
      if at.None? {
        return Failure(InvalidSocket);
      }
      if sockets.slots[at.value].state != Created {
        return Failure(Illegal);
      }
      var secured := Secure(at.value);
      if secured.Failure? {
        return Failure(Unaddressable);
      }
      ghost var l1 := network.atTx.log;
      var joined := Join(at.value);
      CalmTransitive(l0, l1, network.atTx.log);
      FirstStays(l1, network.atTx.log, |l0|, SetSocketSslState(h));
      if joined.Failure? {
        return Failure(Unaddressable);
      }
      return Success(());
    }

    method Secure(i: nat) returns (r: Reply)
      requires Valid() && sockets != null && i < |sockets.slots|
      requires sockets.slots[i].state == Created && sockets.slots[i].kind == Tcp
      modifies network`contextState, network.atTx
      ensures Valid() && Calm(old(network.atTx.log), network.atTx.log)
      ensures FirstIs(network.atTx.log, |old(network.atTx.log)|, SetSocketSslState(sockets.slots[i].handle))
      ensures network.atTx.log[|network.atTx.log| - 1] == Sent(SetSocketSslState(sockets.slots[i].handle), r)
      ensures r.Success? ==> PhaseOf(sockets.slots[i].handle, network.atTx.log) == Secured
    {
      hide Agree, Pending, Prepared;
      ghost var before := network.atTx.log;
      r := network.SendInternal(SetSocketSslState(sockets.slots[i].handle), true);
      ghost var log := network.atTx.log[..|network.atTx.log| - 1];
      AgreeAfterChatter(sockets.slots, before, log);
      AgreeAfterSecure(sockets.slots, i, log, r);
      assert network.atTx.log == log + [Sent(SetSocketSslState(sockets.slots[i].handle), r)];
    }

    method Join(i: nat) returns (r: Reply)
      requires Valid() && sockets != null && i < |sockets.slots|
      requires PhaseOf(sockets.slots[i].handle, network.atTx.log) == Secured
      modifies network`contextState, network.atTx, sockets
      ensures Valid() && Calm(old(network.atTx.log), network.atTx.log)
      ensures network.atTx.log == old(network.atTx.log) + [Sent(ConnectSocket(old(sockets.slots)[i].handle), r)]
      ensures r.Success? ==>
                && PhaseOf(old(sockets.slots)[i].handle, network.atTx.log) == Joined
                && sockets.slots == old(sockets.slots)[i := old(sockets.slots)[i].(state := Connected)]
      ensures r.Failure? ==> sockets.slots == old(sockets.slots)
    {
      hide Agree, Pending, Prepared, PhaseOf, UniqueHandles;
      ghost var log := network.atTx.log;
      var s := sockets.slots[i];
      r := network.SendInternal(ConnectSocket(s.handle), false);
      AgreeAfterConnect(sockets.slots, i, log, r);
      if r.Success? {
        sockets.Replace(i, s.(state := Connected));
      }
    }

    /** Whether a socket is connected. */
    method IsConnected(h: nat) returns (r: Result<bool, SocketError>)
      requires Valid()
      ensures Valid()
      ensures r.Success? <==> sockets != null && HoldsTcp(sockets.slots, h)
      ensures r.Success? ==> (r.value <==> ConnectedIn(sockets.slots, h))
      ensures r.Failure? ==>
                && (sockets == null || !ConnectedIn(sockets.slots, h))
                && r.error == (if sockets == null then Illegal else InvalidSocket)
    {
      if sockets == null {
        return Failure(Illegal);
      }
      var at := FindTcp(h);
      if at.None? {
        return Failure(InvalidSocket);
      }
      return Success(sockets.slots[at.value].state == Connected);
    }

    /** Announce one chunk and write it. */
    method WriteChunk(h: nat, chunk: seq<byte>)
      returns (r: Result<(), SocketError>, ghost taken: nat, ghost pair: seq<Entry>)
      requires Valid()
      modifies network`contextState, network.atTx
      ensures Valid() && Chatter(old(network.atTx.log), network.atTx.log)
      ensures taken <= |chunk| && network.atTx.accepted == old(network.atTx.accepted) + chunk[..taken]
      ensures r.Success? ==>
                && taken == |chunk| && |pair| == 2 && network.atTx.log == old(network.atTx.log) + pair
                && Acked(pair[0], PrepareWriteSocketData(h, |chunk|)) && Acked(pair[1], WriteSocketData(chunk))
                && pair[1].reply.value.socket == h && pair[1].reply.value.length == |chunk|
      ensures r.Failure? ==>
                && |network.atTx.log| > |old(network.atTx.log)|
                && BadAnswer(network.atTx.log[|network.atTx.log| - 1], h, |chunk|, r.error)
    {
      hide Valid;
      taken, pair := 0, [];
      var prepared := Send(PrepareWriteSocketData(h, |chunk|), false);
      if prepared.Failure? {
        r := Failure(Unaddressable);
        return;
      }
      var response := Send(WriteSocketData(chunk), false);
      taken := network.atTx.taken;
      pair := [Sent(PrepareWriteSocketData(h, |chunk|), prepared), Sent(WriteSocketData(chunk), response)];
      r := if response.Failure? then Failure(Unaddressable)
           else if response.value.length != |chunk| then Failure(BadLength)
           else if response.value.socket != h then Failure(InvalidSocket)
           else Success(());
    }

    /** Write a buffer in chunks. Whatever errors and short writes happen, what the modem has taken is
        a prefix of the buffer; on success it is the whole buffer, sent in exactly one prepare and one
        write for each chunk. */
    method SendData(h: nat, buffer: seq<byte>) returns (r: Result<nat, SocketError>, ghost taken: nat)
      requires Valid()
      modifies network`contextState, network.atTx
      ensures Valid() && Chatter(old(network.atTx.log), network.atTx.log)
      ensures taken <= |buffer| && network.atTx.accepted == old(network.atTx.accepted) + buffer[..taken]
      ensures sockets == null || !ConnectedIn(sockets.slots, h) ==>
                && r.Failure? && network.atTx.log == old(network.atTx.log)
                && r.error == (if sockets == null then Illegal
                               else if HoldsTcp(sockets.slots, h) then SocketClosed
                               else InvalidSocket)
      ensures r.Failure? && sockets != null && ConnectedIn(sockets.slots, h) ==>
                && |network.atTx.log| > |old(network.atTx.log)|
                && exists i: nat :: i < NumChunks(|buffer|)
                     && BadAnswer(network.atTx.log[|network.atTx.log| - 1], h, |Chunk(buffer, i)|, r.error)
      ensures r.Success? ==>
                && r.value == |buffer| == taken
                && sockets != null && ConnectedIn(sockets.slots, h)
                && WritesAcked(network.atTx.log[|old(network.atTx.log)|..], h, buffer, NumChunks(|buffer|))
    {
      hide Valid, Chunk, WritesAcked, Acked, Chatter, ConnectedIn, HoldsTcp, BadAnswer;
      EmptyWrites(h, buffer);
      ChatterReflexive(network.atTx.log);
      taken := 0;
      var connected := IsConnected(h);
      if connected.Failure? {
        return Failure(connected.error), 0;
      }
      if !connected.value {
        return Failure(SocketClosed), 0;
      }
      ghost var l0, a0 := network.atTx.log, network.atTx.accepted;
      assert l0[|l0|..] == [];
      for i := 0 to NumChunks(|buffer|)
        invariant Valid() && Chatter(l0, network.atTx.log) && l0 <= network.atTx.log
        invariant taken == Offset(|buffer|, i)
        invariant network.atTx.accepted == a0 + buffer[..taken]
        invariant WritesAcked(network.atTx.log[|l0|..], h, buffer, i)
      {
        ChunkSizes(buffer, i);
        var response;
        ghost var k, pair;
        ghost var before := network.atTx.log;
        response, k, pair := WriteChunk(h, Chunk(buffer, i));
        ChatterTransitive(l0, before, network.atTx.log);
        ChunkTaken(a0, buffer, i, k);
        taken := taken + k;
        if response.Failure? {
          return Failure(response.error), taken;
        }
        WritesStep(before[|l0|..], h, buffer, i, pair);
        assert network.atTx.log[|l0|..] == before[|l0|..] + pair;
      }
      assert Offset(|buffer|, NumChunks(|buffer|)) == |buffer|;
      return Success(|buffer|), taken;
    }

    /** Hand over received bytes from the front of the buffer; a socket may refuse. */
    method Receive(h: nat, n: nat) returns (r: Result<seq<byte>, SocketError>)
      requires Valid()
      modifies sockets
      ensures Valid()
      ensures r.Success? ==>
                && sockets != null
                && exists i :: 0 <= i < |old(sockets.slots)| && old(sockets.slots)[i].handle == h
                     && r.value == old(sockets.slots)[i].rx[..Min(n, |old(sockets.slots)[i].rx|)]
                     && sockets.slots == old(sockets.slots)[i :=
                          old(sockets.slots)[i].(rx := old(sockets.slots)[i].rx[|r.value|..])]
      ensures r.Failure? && sockets != null ==> sockets.slots == old(sockets.slots)
    {
      if sockets == null {
        return Failure(Illegal);
      }
      var at := FindTcp(h);
      if at.None? {
        return Failure(InvalidSocket);
      }
      var refused: bool :| true;
      if refused {
        return Failure(Illegal);
      }
      var s := sockets.slots[at.value];
      var k := Min(n, |s.rx|);
      Update(at.value, s.(rx := s.rx[k..]));
      return Success(s.rx[..k]);
    }

    /** Close a socket: the modem's answer does not matter, the socket leaves the set. */
    method Close(h: nat) returns (r: Result<(), SocketError>)
      requires Valid()
      modifies network`contextState, network.atTx, sockets
      ensures Valid() && Calm(old(network.atTx.log), network.atTx.log)
      ensures r.Success? <==> sockets != null && Holds(old(sockets.slots), h)
      ensures r.Success? ==> PhaseOf(h, network.atTx.log) == Absent && !Holds(sockets.slots, h)
      ensures r.Success? ==>
                exists i :: 0 <= i < |old(sockets.slots)| && old(sockets.slots)[i].handle == h
                  && sockets.slots == old(sockets.slots)[..i] + old(sockets.slots)[i + 1..]
      ensures r.Failure? && sockets != null ==> sockets.slots == old(sockets.slots)
      ensures sockets != null ==>
                && network.atTx.log != old(network.atTx.log)
                && var sent := network.atTx.log[|old(network.atTx.log)|];
                   && Is(sent, CloseSocket(h))
                   && network.atTx.log == old(network.atTx.log) + [sent] + if r.Success? then [SocketRemoved(h)] else []
    {
      hide Valid, PhaseOf, Calm, Chatter;
      ghost var before := network.atTx.log;
      if sockets == null {
        ChatterReflexive(before);
        ChatterIsCalm(before, before);
        return Failure(Illegal);
      }
      var sent := Send(CloseSocket(h), false);
      ChatterIsCalm(before, network.atTx.log);
      ghost var closing := network.atTx.log;
      assert closing == before + [Sent(CloseSocket(h), sent)];
      var at := Find(h);
      if at.None? {
        return Failure(InvalidSocket);
      }
      DropAt(at.value);
      CalmTransitive(before, closing, network.atTx.log);
      return Success(());
    }

    method DropAt(i: nat)
      requires Valid() && sockets != null && i < |sockets.slots|
      modifies network.atTx`log, sockets
      ensures Valid() && Calm(old(network.atTx.log), network.atTx.log)
      ensures sockets.slots == old(sockets.slots)[..i] + old(sockets.slots)[i + 1..]
      ensures !Holds(sockets.slots, old(sockets.slots)[i].handle)
      ensures network.atTx.log == old(network.atTx.log) + [SocketRemoved(old(sockets.slots)[i].handle)]
      ensures PhaseOf(old(sockets.slots)[i].handle, network.atTx.log) == Absent
    {
      hide Agree, Pending, Prepared;
      var h := sockets.slots[i].handle;
      sockets.RemoveAt(i);
      AgreeAfterDrop(old(sockets.slots), sockets.slots, h, network.atTx.log);
      Mark(SocketRemoved(h));
    }
  }
}
