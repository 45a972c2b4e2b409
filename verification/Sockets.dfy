/** Sockets and the socket set, as the driver relies on them; and the life of a socket handle. */
module Sockets {
  import opened Wrappers
  import opened Hex
  import opened At
  import opened Milestones

  datatype SocketState = Created | Connected | ClosedByRemote

  datatype SocketError =
    | SocketSetFull
    | DuplicateSocket
    | InvalidSocket
    | SocketClosed
    | BadLength
    | Illegal
    | Unaddressable

  /** A socket: its receive buffer is a bounded queue. */
  datatype Socket = Socket(
    handle: nat, kind: Protocol, state: SocketState, rx: seq<byte>, capacity: nat, available: nat)
  {
    predicate Fits() {
      |rx| <= capacity
    }

    function Window(): nat
      requires Fits()
    {
      capacity - |rx|
    }

    /** As much of the data as fits goes to the end of the queue. */
    function Enqueue(data: seq<byte>): Socket
      requires Fits()
    {
      this.(rx := rx + data[..Min(|data|, Window())])
    }
  }

  predicate UniqueHandles(slots: seq<Socket>) {
    forall i, j :: 0 <= i < j < |slots| ==> slots[i].handle != slots[j].handle
  }

  predicate Holds(slots: seq<Socket>, h: nat) {
    exists i :: 0 <= i < |slots| && slots[i].handle == h
  }

  predicate HoldsTcp(slots: seq<Socket>, h: nat) {
    exists i :: 0 <= i < |slots| && slots[i].handle == h && slots[i].kind == Tcp
  }

  /** The set holds a connected TCP socket with this handle. */
  predicate ConnectedIn(slots: seq<Socket>, h: nat) {
    exists i :: 0 <= i < |slots| && slots[i].handle == h && slots[i].kind == Tcp && slots[i].state == Connected
  }

  /** The set holds a TCP socket with this handle that has not been connected yet. */
  predicate CreatedIn(slots: seq<Socket>, h: nat) {
    exists i :: 0 <= i < |slots| && slots[i].handle == h && slots[i].kind == Tcp && slots[i].state == Created
  }

  /** The URCs about sockets. */
  datatype SocketUrc = SocketClosedUrc(closed: nat) | DataAvailableUrc(socket: nat, length: nat) | OtherSocketUrc

  function Notified(s: Socket, u: SocketUrc): Socket {
    match u
    case SocketClosedUrc(h) => if s.handle == h then s.(state := ClosedByRemote) else s
    case DataAvailableUrc(h, n) => if s.handle == h then s.(available := n) else s
    case OtherSocketUrc => s
  }

  /** Every socket has been told of a URC, and nothing else has happened to the set. */
  predicate Told(before: seq<Socket>, after: seq<Socket>, u: SocketUrc) {
    |after| == |before| && forall i :: 0 <= i < |after| ==> after[i] == Notified(before[i], u)
  }

  class SocketSet {
    var slots: seq<Socket>
    const capacity: nat
    const ringLength: nat

    predicate Valid()
      reads this
    {
      && |slots| <= capacity
      && UniqueHandles(slots)
      && forall i :: 0 <= i < |slots| ==> slots[i].Fits()
    }

    constructor (capacity: nat, ringLength: nat)
      ensures Valid() && slots == [] && this.capacity == capacity && this.ringLength == ringLength
    {
      slots := [];
      this.capacity := capacity;
      this.ringLength := ringLength;
    }

    method Find(h: nat) returns (at: Option<nat>)
      requires Valid()
      ensures at.Some? ==> at.value < |slots| && slots[at.value].handle == h
      ensures at.None? ==> !Holds(slots, h)
    {
      for i := 0 to |slots|
        invariant forall j :: 0 <= j < i ==> slots[j].handle != h
      {
        if slots[i].handle == h {
          return Some(i);
        }
      }
      return None;
    }

    method Add(s: Socket) returns (r: Result<nat, SocketError>)
      requires Valid() && s.Fits()
      modifies this
      ensures Valid()
      ensures r.Success? <==> |old(slots)| < capacity && !Holds(old(slots), s.handle)
      ensures r.Success? ==> r.value == s.handle && slots == old(slots) + [s]
      ensures r.Failure? ==> slots == old(slots)
    {
      if |slots| >= capacity {
        return Failure(SocketSetFull);
      }
      var at := Find(s.handle);
      if at.Some? {
        return Failure(DuplicateSocket);
      }
      slots := slots + [s];
      return Success(s.handle);
    }

    method RemoveAt(i: nat)
      requires Valid() && i < |slots|
      modifies this
      ensures Valid() && slots == old(slots)[..i] + old(slots)[i + 1..]
    {
      slots := slots[..i] + slots[i + 1..];
    }

    /** Drop a socket the remote end has closed, if one has been closed long enough. */
    method Recycle() returns (dropped: Option<nat>)
      requires Valid()
      modifies this
      ensures Valid()
      ensures dropped.None? ==> slots == old(slots)
      ensures dropped.Some? ==>
                exists i :: 0 <= i < |old(slots)| && old(slots)[i].handle == dropped.value
                  && old(slots)[i].state == ClosedByRemote
                  && slots == old(slots)[..i] + old(slots)[i + 1..]
    {
      for i := 0 to |slots|
        invariant slots == old(slots) && Valid()
      {
        var expired: bool :| true;
        if slots[i].state == ClosedByRemote && expired {
          var h := slots[i].handle;
          RemoveAt(i);
          return Some(h);
        }
      }
      return None;
    }

    /** Tell the socket a URC names. */
    method Notify(u: SocketUrc)
      requires Valid()
      modifies this
      ensures Valid() && |slots| == |old(slots)|
      ensures forall i :: 0 <= i < |slots| ==> slots[i] == Notified(old(slots)[i], u)
      ensures u.SocketClosedUrc? ==>
                forall i :: 0 <= i < |slots| ==>
                  slots[i] == if old(slots)[i].handle == u.closed then old(slots)[i].(state := ClosedByRemote)
                              else old(slots)[i]
      ensures u.DataAvailableUrc? ==>
                forall i :: 0 <= i < |slots| ==>
                  slots[i] == if old(slots)[i].handle == u.socket then old(slots)[i].(available := u.length)
                              else old(slots)[i]
      ensures u.OtherSocketUrc? ==> slots == old(slots)
    {
      if u != OtherSocketUrc {
        var at := Find(if u.SocketClosedUrc? then u.closed else u.socket);
        if at.Some? {
          Replace(at.value, Notified(slots[at.value], u));
        }
      }
    }

    method Replace(i: nat, s: Socket)
      requires Valid() && i < |slots| && s.Fits() && s.handle == slots[i].handle
      modifies this
      ensures Valid() && slots == old(slots)[i := s]
    {
      slots := slots[i := s];
    }
  }

  // ------------------------------------------------------------------ the life of a handle

  datatype Phase = Absent | Opened | Secured | Joined | Broken

  function NextPhase(p: Phase, h: nat, e: Entry): Phase {
    if p == Broken then Broken
    else if e.SocketAdded? && e.handle == h then Opened
    else if e == SetupBegun || (e.SocketRemoved? && e.handle == h) then Absent
    else if Acked(e, SetSocketSslState(h)) then if p == Opened then Secured else p
    else if Acked(e, ConnectSocket(h)) then if p == Secured then Joined else Broken
    else p
  }

  /** Where a handle stands in its life; Broken once it was connected out of turn. */
  function PhaseOf(h: nat, log: seq<Entry>): Phase {
    if log == [] then Absent else NextPhase(PhaseOf(h, log[..|log| - 1]), h, log[|log| - 1])
  }

  /** Adding and removing the handle; and a setup, which drops every socket. */
  predicate LifeMark(h: nat, e: Entry) {
    e == SetupBegun || ((e.SocketAdded? || e.SocketRemoved?) && e.handle == h)
  }

  /** What the log says since the handle was last added, removed or dropped. */
  function Life(h: nat, log: seq<Entry>): seq<Entry> {
    if log == [] || LifeMark(h, log[|log| - 1]) then []
    else Life(h, log[..|log| - 1]) + [log[|log| - 1]]
  }

  predicate Alive(h: nat, log: seq<Entry>) {
    && log != []
    && (if LifeMark(h, log[|log| - 1]) then log[|log| - 1].SocketAdded? else Alive(h, log[..|log| - 1]))
  }

  predicate EverAcked(c: Cmd, log: seq<Entry>) {
    exists i :: 0 <= i < |log| && Acked(log[i], c)
  }

  lemma EverAckedSnoc(c: Cmd, log: seq<Entry>, e: Entry)
    ensures EverAcked(c, log + [e]) <==> EverAcked(c, log) || Acked(e, c)
  {
    var more := log + [e];
    assert more[|log|] == e;
    if EverAcked(c, log) {
      var i :| 0 <= i < |log| && Acked(log[i], c);
      assert Acked(more[i], c);
    }
  }

  lemma {:induction false} PhaseMeaning(h: nat, log: seq<Entry>)
    requires PhaseOf(h, log) != Broken
    ensures Alive(h, log) <==> PhaseOf(h, log) != Absent
    ensures PhaseOf(h, log) == Secured ==> EverAcked(SetSocketSslState(h), Life(h, log))
    ensures PhaseOf(h, log) != Joined ==> !EverAcked(ConnectSocket(h), Life(h, log))
  {
    if log != [] {
      var p, e := log[..|log| - 1], log[|log| - 1];
      PhaseMeaning(h, p);
      if !LifeMark(h, e) {
        EverAckedSnoc(SetSocketSslState(h), Life(h, p), e);
        EverAckedSnoc(ConnectSocket(h), Life(h, p), e);
      }
    }
  }

  /** In a log that never breaks a handle's life, a connection is acknowledged only while the handle
      is alive, only after its TLS setting was acknowledged, and only once. */
  lemma ConnectedInTurn(h: nat, log: seq<Entry>, e: Entry)
    requires PhaseOf(h, log + [e]) != Broken && Acked(e, ConnectSocket(h))
    ensures Alive(h, log)
    ensures EverAcked(SetSocketSslState(h), Life(h, log))
    ensures !EverAcked(ConnectSocket(h), Life(h, log))
  {
    assert (log + [e])[..|log + [e]| - 1] == log;
    PhaseMeaning(h, log);
  }

  /** So it suffices to know the end of a log: what is not broken there was never broken. */
  lemma {:induction false} BrokenForGood(h: nat, log: seq<Entry>, more: seq<Entry>)
    requires PhaseOf(h, log + more) != Broken
    ensures PhaseOf(h, log) != Broken
  {
    if more == [] {
      assert log + more == log;
    } else {
      assert (log + more)[..|log + more| - 1] == log + more[..|more| - 1];
      BrokenForGood(h, log, more[..|more| - 1]);
    }
  }

  /** The socket set agrees with the log: no handle's life is broken, and a TCP socket that is still
      Created has not been connected in this life. */
  ghost predicate Agree(slots: seq<Socket>, log: seq<Entry>) {
    && (forall h :: PhaseOf(h, log) != Broken)
    && forall i :: 0 <= i < |slots| && slots[i].state == Created && slots[i].kind == Tcp ==>
         PhaseOf(slots[i].handle, log) == Opened || PhaseOf(slots[i].handle, log) == Secured
  }

  lemma PhaseSnoc(h: nat, log: seq<Entry>, e: Entry)
    ensures PhaseOf(h, log + [e]) == NextPhase(PhaseOf(h, log), h, e)
  {
  }

  lemma {:induction false} PhaseIgnoresChatter(h: nat, before: seq<Entry>, after: seq<Entry>)
    requires Chatter(before, after)
    ensures PhaseOf(h, after) == PhaseOf(h, before)
  {
    if before != after {
      PhaseIgnoresChatter(h, before, after[..|after| - 1]);
    }
  }

  lemma AgreeAfterChatter(slots: seq<Socket>, before: seq<Entry>, after: seq<Entry>)
    requires Agree(slots, before) && Chatter(before, after)
    ensures Agree(slots, after)
  {
    forall h
      ensures PhaseOf(h, after) == PhaseOf(h, before)
    {
      PhaseIgnoresChatter(h, before, after);
    }
  }

  lemma AgreeAfterReplace(slots: seq<Socket>, i: nat, t: Socket, log: seq<Entry>)
    requires Agree(slots, log) && i < |slots| && Succeeds(slots[i], t)
    ensures Agree(slots[i := t], log)
  {
  }

  lemma AgreeAfterNotify(slots: seq<Socket>, told: seq<Socket>, u: SocketUrc, log: seq<Entry>)
    requires Agree(slots, log) && |told| == |slots|
    requires forall i :: 0 <= i < |slots| ==> told[i] == Notified(slots[i], u)
    ensures Agree(told, log)
  {
  }

  /** A TLS command for a socket that is still Created. */
  lemma AgreeAfterSecure(slots: seq<Socket>, i: nat, log: seq<Entry>, r: Reply)
    requires Agree(slots, log) && i < |slots| && slots[i].state == Created && slots[i].kind == Tcp
    ensures Agree(slots, log + [Sent(SetSocketSslState(slots[i].handle), r)])
    ensures r.Success? ==> PhaseOf(slots[i].handle, log + [Sent(SetSocketSslState(slots[i].handle), r)]) == Secured
  {
  }

  /** A connection command for a secured socket: once acknowledged, the socket is Created no more. */
  lemma AgreeAfterConnect(slots: seq<Socket>, i: nat, log: seq<Entry>, r: Reply)
    requires Agree(slots, log) && UniqueHandles(slots) && i < |slots|
    requires PhaseOf(slots[i].handle, log) == Secured
    ensures
      var after := log + [Sent(ConnectSocket(slots[i].handle), r)];
      if r.Success?
      then Agree(slots[i := slots[i].(state := Connected)], after) && PhaseOf(slots[i].handle, after) == Joined
      else Agree(slots, after)
  {
    var e := Sent(ConnectSocket(slots[i].handle), r);
    forall h
      ensures PhaseOf(h, log + [e]) == NextPhase(PhaseOf(h, log), h, e)
    {
      PhaseSnoc(h, log, e);
    }
  }

  /** Dropping a socket from the set. */
  lemma AgreeAfterDrop(slots: seq<Socket>, rest: seq<Socket>, h: nat, log: seq<Entry>)
    requires Agree(slots, log) && UniqueHandles(slots)
    requires exists i :: 0 <= i < |slots| && slots[i].handle == h && rest == slots[..i] + slots[i + 1..]
    ensures Agree(rest, log) && !Holds(rest, h)
  {
  }

  /** Adding a freshly opened socket. */
  lemma AgreeAfterAdd(slots: seq<Socket>, s: Socket, log: seq<Entry>)
    requires Agree(slots, log) && PhaseOf(s.handle, log) == Opened
    ensures Agree(slots + [s], log)
  {
  }

  predicate Succeeds(s: Socket, t: Socket) {
    && t.handle == s.handle && t.kind == s.kind
    && (t.state == Created ==> s.state == Created)
  }

  lemma AgreeAfterMark(slots: seq<Socket>, log: seq<Entry>, e: Entry)
    requires Agree(slots, log)
    requires (e.SocketRemoved? && !Holds(slots, e.handle)) || (e.SocketAdded? && !Holds(slots, e.handle))
    ensures Agree(slots, log + [e])
    ensures PhaseOf(e.handle, log + [e]) == (if e.SocketAdded? then Opened else Absent)
  {
  }
}
