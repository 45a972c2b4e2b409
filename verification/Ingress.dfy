/** One ingress pass over a socket, and the link between a socket and a modem that answers reads
    with its unread bytes: no byte is lost, repeated or reordered. */
module Ingress {
  import opened Wrappers
  import opened Hex
  import opened At
  import opened Sockets

  const INGRESS_CHUNK_SIZE: nat := 256

  /** What the surroundings decide in one pass over one socket: whether the available count is due
      for a refresh, whether the socket can receive, and the modem's reply. */
  datatype Pass = Pass(refresh: bool, canRecv: bool, reply: Reply)

  /** A socket that can receive has room. */
  predicate Sensible(s: Socket, p: Pass)
    requires s.Fits()
  {
    p.canRecv ==> s.Window() > 0
  }

  predicate ReadsData(s: Socket, p: Pass) {
    s.available > 0 && p.canRecv
  }

  function RequestedLength(s: Socket): nat
    requires s.Fits()
  {
    Min(Min(s.available, INGRESS_CHUNK_SIZE), s.Window())
  }

  /** The command a pass sends, if any. */
  function Request(s: Socket, p: Pass): Option<Cmd>
    requires s.Fits()
  {
    if s.available == 0 then
      if p.refresh then Some(ReadSocketData(s.handle, 0)) else None
    else if !p.canRecv then None
    else if s.kind == Tcp then Some(ReadSocketData(s.handle, RequestedLength(s)))
    else Some(ReadUDPSocketData(s.handle, RequestedLength(s)))
  }

  /** The number of bytes a read asks for. */
  function Asked(c: Cmd): nat {
    match c
    case ReadSocketData(_, n) => n
    case ReadUDPSocketData(_, n) => n
    case _ => 0
  }

  /** A number of bytes to read: at least one, no more than are available, than a chunk holds, or than fit,
      and the most that is so. */
  predicate Fitting(s: Socket, n: nat) {
    && 1 <= n <= s.available && n <= 256 && |s.rx| + n <= s.capacity
    && (n == s.available || n == 256 || |s.rx| + n == s.capacity)
  }

  /** When a pass sends a command, and which: a read of nothing to learn the available count when it is due, or
      a read of a fitting number of bytes by the command for the kind of socket; and nothing else. */
  lemma RequestIff(s: Socket, p: Pass, c: Cmd)
    requires s.Fits() && Sensible(s, p)
    ensures Request(s, p) == Some(c) <==>
              || (s.available == 0 && p.refresh && c == ReadSocketData(s.handle, 0))
              || (&& ReadsData(s, p) && Fitting(s, Asked(c))
                  && c == if s.kind == Tcp then ReadSocketData(s.handle, Asked(c))
                          else ReadUDPSocketData(s.handle, Asked(c)))
  {
  }

  /** The socket after a data reply: it must name the socket, and its length and hexadecimal text
      must be in order; otherwise the receive buffer keeps what it had. */
  function Ingested(s: Socket, resp: Response): Socket
    requires s.Fits()
  {
    if resp.socket != s.handle then s
    else
      var t := if resp.length == 0 then s.(available := 0) else s;
      if resp.data.None? then t
      else if resp.length > 0 && |resp.data.value| / 2 != resp.length then t
      else
        match Decode(resp.data.value)
        case Failure(_) => t
        case Success(bytes) => t.Enqueue(bytes)
  }

  /** The socket after a pass. */
  function AfterPass(s: Socket, p: Pass): (t: Socket)
    requires s.Fits()
    ensures t.Fits() && t.handle == s.handle && t.kind == s.kind && t.capacity == s.capacity
    ensures s.rx <= t.rx
    ensures t.state == s.state || t.state == ClosedByRemote
  {
    if s.available == 0 then
      if !p.refresh then s
      else if p.reply.Success? then s.(available := p.reply.value.length)
      else s.(state := ClosedByRemote)
    else if !p.canRecv || p.reply.Failure? then s
    else Ingested(s, p.reply.value)
  }

  /** What a data reply does. Its bytes go to the end of the buffer, as far as they fit, when it names the
      socket, carries hexadecimal text, and announces their number or zero; else the buffer stays. A length of
      zero clears the available count. Nothing else changes. */
  lemma IngestedMeaning(s: Socket, resp: Response)
    requires s.Fits()
    ensures forall b | resp.socket == s.handle && resp.data.Some? && Encodes(resp.data.value, b)
                       && (resp.length == 0 || resp.length == |b|) ::
              Ingested(s, resp).rx == s.rx + b[..Min(|b|, s.Window())]
    ensures Ingested(s, resp).rx != s.rx ==>
              && resp.socket == s.handle && resp.data.Some?
              && exists b :: Encodes(resp.data.value, b) && (resp.length == 0 || resp.length == |b|)
    ensures Ingested(s, resp).available == if resp.socket == s.handle && resp.length == 0 then 0 else s.available
    ensures Ingested(s, resp) == s.(rx := Ingested(s, resp).rx, available := Ingested(s, resp).available)
  {
    forall b | resp.data.Some? && Encodes(resp.data.value, b)
      ensures Decode(resp.data.value) == Success(b)
    {
      DecodeIffEncodes(resp.data.value, b);
    }
    if resp.data.Some? && Decode(resp.data.value).Success? {
      DecodeIffEncodes(resp.data.value, Decode(resp.data.value).value);
    }
  }

  /** The rest of a pass: a refresh sets the available count to the length in the reply, or finds the socket
      closed; a pass without a command or with a failed read changes nothing. */
  lemma RefreshMeaning(s: Socket, p: Pass)
    requires s.Fits()
    ensures s.available == 0 && p.refresh && p.reply.Success? ==>
              AfterPass(s, p) == s.(available := p.reply.value.length)
    ensures s.available == 0 && p.refresh && p.reply.Failure? ==>
              AfterPass(s, p) == s.(state := ClosedByRemote)
    ensures Request(s, p).None? || (s.available > 0 && p.reply.Failure?) ==> AfterPass(s, p) == s
    ensures ReadsData(s, p) && p.reply.Success? ==> AfterPass(s, p) == Ingested(s, p.reply.value)
  {
  }

  /** Received bytes come from a reply that names the socket, and from nothing else. */
  lemma BytesNameTheirSocket(s: Socket, p: Pass)
    requires s.Fits() && AfterPass(s, p).rx != s.rx
    ensures ReadsData(s, p) && p.reply.Success? && p.reply.value.socket == s.handle
    ensures p.reply.value.data.Some?
    ensures exists b, k: nat :: k <= |b| && Encodes(p.reply.value.data.value, b) && AfterPass(s, p).rx == s.rx + b[..k]
  {
  }

  // ------------------------------------------------------------------ the link to a modem

  /** A TCP socket with the modem's side of it: the bytes the modem holds unread, all bytes that
      ever arrived there, and all bytes the driver has handed to its caller. */
  datatype Link = Link(sock: Socket, unread: seq<byte>, arrived: seq<byte>, delivered: seq<byte>)

  datatype Step =
    | Arrive(bytes: seq<byte>)
    | Notify(count: nat)
    | Ingest(pass: Pass)
    | Receive(n: nat)
    | RemoteClose

  /** The modem answers a read of k bytes with the hexadecimal text of its first n <= k unread bytes
      (an answer of none may leave the text out); failed reads take nothing. */
  predicate Honest(l: Link, p: Pass)
    requires l.sock.Fits()
  {
    ReadsData(l.sock, p) && p.reply.Success? ==>
      var resp := p.reply.value;
      && resp.socket == l.sock.handle
      && Request(l.sock, p).Some? && resp.length <= Asked(Request(l.sock, p).value)
      && resp.length <= |l.unread|
      && (resp.data.None? ==> resp.length == 0)
      && (resp.data.Some? ==> Encodes(resp.data.value, l.unread[..resp.length]))
  }

  predicate Possible(l: Link, st: Step) {
    && l.sock.Fits()
    && (st.Ingest? ==> Sensible(l.sock, st.pass) && Honest(l, st.pass))
  }

  /** The bytes a pass takes from the modem. */
  function TakenBy(l: Link, p: Pass): nat {
    if ReadsData(l.sock, p) && p.reply.Success? then Min(p.reply.value.length, |l.unread|) else 0
  }

  function After(l: Link, st: Step): Link
    requires l.sock.Fits()
  {
    match st
    case Arrive(bytes) => l.(unread := l.unread + bytes, arrived := l.arrived + bytes)
    case Notify(count) => l.(sock := l.sock.(available := count))
    case Ingest(p) => l.(sock := AfterPass(l.sock, p), unread := l.unread[TakenBy(l, p)..])
    case Receive(n) =>
      var k := Min(n, |l.sock.rx|);
      l.(sock := l.sock.(rx := l.sock.rx[k..]), delivered := l.delivered + l.sock.rx[..k])
    case RemoteClose => l.(sock := l.sock.(state := ClosedByRemote))
  }

  /** Delivered, buffered and unread bytes, in this order, are the bytes that arrived. */
  predicate Conserved(l: Link) {
    && l.sock.Fits()
    && l.delivered + l.sock.rx + l.unread == l.arrived
  }

  /** A read that is sent asks for at least one byte and no more than are available, a chunk holds, or fit. */
  lemma ReadsFit(s: Socket, p: Pass)
    requires s.Fits() && Sensible(s, p) && ReadsData(s, p)
    ensures Request(s, p).Some? && Fitting(s, Asked(Request(s, p).value))
  {
  }

  /** An honest reply fits its 512-character field and is enqueued whole: the pass moves exactly the
      bytes it takes from the modem to the end of the receive buffer. */
  lemma IngestMovesBytes(l: Link, p: Pass)
    requires Possible(l, Ingest(p))
    ensures TakenBy(l, p) <= |l.unread|
    ensures AfterPass(l.sock, p).rx == l.sock.rx + l.unread[..TakenBy(l, p)]
    ensures ReadsData(l.sock, p) && p.reply.Success? && p.reply.value.data.Some? ==>
              |p.reply.value.data.value| == 2 * TakenBy(l, p) <= 2 * INGRESS_CHUNK_SIZE
  {
    if ReadsData(l.sock, p) && p.reply.Success? {
      var resp := p.reply.value;
      var bytes := l.unread[..resp.length];
      if resp.data.Some? {
        DecodeIffEncodes(resp.data.value, bytes);
        assert bytes[..Min(|bytes|, l.sock.Window())] == bytes;
      }
    }
  }

  /** A lost notification is made up for: a refresh answered with the number of unread bytes, and a read
      answered in full, take a fitting number of them in. */
  lemma RefreshRecovers(l: Link, p: Pass, q: Pass)
    requires Possible(l, Ingest(p)) && l.sock.available == 0 && l.unread != []
    requires p.refresh && p.reply.Success? && p.reply.value.length == |l.unread|
    requires Possible(After(l, Ingest(p)), Ingest(q)) && q.canRecv && q.reply.Success?
    requires var s := After(l, Ingest(p)).sock;
             Request(s, q).Some? ==> q.reply.value.length == Asked(Request(s, q).value)
    ensures
      var n := Min(Min(|l.unread|, 256), l.sock.Window());
      && n > 0 && Request(After(l, Ingest(p)).sock, q).Some?
      && After(After(l, Ingest(p)), Ingest(q)).sock.rx == l.sock.rx + l.unread[..n]
      && After(After(l, Ingest(p)), Ingest(q)).unread == l.unread[n..]
  {
    IngestMovesBytes(After(l, Ingest(p)), q);
  }

  lemma ShiftMiddle(d: seq<byte>, r: seq<byte>, u: seq<byte>, k: nat)
    requires k <= |u|
    ensures d + (r + u[..k]) + u[k..] == d + r + u
  {
  }

  lemma ShiftFront(d: seq<byte>, r: seq<byte>, u: seq<byte>, k: nat)
    requires k <= |r|
    ensures (d + r[..k]) + r[k..] + u == d + r + u
  {
  }

  lemma StepConserves(l: Link, st: Step)
    requires Conserved(l) && Possible(l, st)
    ensures Conserved(After(l, st))
  {
    hide AfterPass;
    match st
    case Arrive(bytes) =>
      assert l.delivered + l.sock.rx + (l.unread + bytes) == (l.delivered + l.sock.rx + l.unread) + bytes;
    case Ingest(p) =>
      IngestMovesBytes(l, p);
      ShiftMiddle(l.delivered, l.sock.rx, l.unread, TakenBy(l, p));
    case Receive(n) =>
      ShiftFront(l.delivered, l.sock.rx, l.unread, Min(n, |l.sock.rx|));
    case _ =>
  }

  /** A run: every step possible where it happens. */
  predicate PossibleRun(l: Link, run: seq<Step>)
    requires l.sock.Fits()
    decreases |run|
  {
    run != [] ==> Possible(l, run[0]) && After(l, run[0]).sock.Fits() && PossibleRun(After(l, run[0]), run[1..])
  }

  function AfterRun(l: Link, run: seq<Step>): Link
    requires l.sock.Fits() && PossibleRun(l, run)
    decreases |run|
  {
    if run == [] then l else AfterRun(After(l, run[0]), run[1..])
  }

  /** Over any run of arrivals, notifications, ingress passes, receives and a remote close, the bytes
      delivered, then buffered, then unread are the bytes that arrived, in order. */
  lemma {:induction false} RunConserves(l: Link, run: seq<Step>)
    requires Conserved(l) && PossibleRun(l, run)
    ensures Conserved(AfterRun(l, run))
    decreases |run|
  {
    if run != [] {
      StepConserves(l, run[0]);
      RunConserves(After(l, run[0]), run[1..]);
    }
  }

  /** In particular what the caller gets is a prefix of what arrived. */
  lemma {:induction false} DeliveredIsPrefix(sock: Socket, run: seq<Step>)
    requires sock.rx == [] && PossibleRun(Link(sock, [], [], []), run)
    ensures AfterRun(Link(sock, [], [], []), run).delivered <= AfterRun(Link(sock, [], [], []), run).arrived
  {
    RunConserves(Link(sock, [], [], []), run);
  }
}
