/** Cutting a buffer into chunks for writing. */
module Egress {
  import opened Wrappers
  import opened Hex
  import opened At

  const EGRESS_CHUNK_SIZE: nat := 1024

  function NumChunks(n: nat): nat {
    (n + EGRESS_CHUNK_SIZE - 1) / EGRESS_CHUNK_SIZE
  }

  /** The place where chunk i begins. */
  function Offset(n: nat, i: nat): nat {
    Min(i * EGRESS_CHUNK_SIZE, n)
  }

  function Chunk(buffer: seq<byte>, i: nat): seq<byte> {
    buffer[Offset(|buffer|, i)..Offset(|buffer|, i + 1)]
  }

  /** Every chunk is full, except that the last may be shorter; none is empty. */
  lemma ChunkSizes(buffer: seq<byte>, i: nat)
    requires i < NumChunks(|buffer|)
    ensures 1 <= |Chunk(buffer, i)| <= EGRESS_CHUNK_SIZE
    ensures i + 1 < NumChunks(|buffer|) ==> |Chunk(buffer, i)| == EGRESS_CHUNK_SIZE
    ensures Offset(|buffer|, i) + |Chunk(buffer, i)| == Offset(|buffer|, i + 1)
  {
  }

  function Joined(buffer: seq<byte>, n: nat): seq<byte> {
    if n == 0 then [] else Joined(buffer, n - 1) + Chunk(buffer, n - 1)
  }

  /** The first n chunks are a prefix of the buffer, and all of them are the buffer. */
  lemma {:induction false} ChunksJoin(buffer: seq<byte>, n: nat)
    ensures Joined(buffer, n) == buffer[..Offset(|buffer|, n)]
    ensures n >= NumChunks(|buffer|) ==> Joined(buffer, n) == buffer
  {
    if n > 0 {
      ChunksJoin(buffer, n - 1);
    }
  }

  /** The commands that write the first n chunks, each acknowledged: a prepare announcing the length
      of the payload, then the payload. */
  predicate WritesAcked(log: seq<Entry>, h: nat, buffer: seq<byte>, n: nat) {
    && |log| == 2 * n
    && forall i :: 0 <= i < n ==>
         && Acked(log[2 * i], PrepareWriteSocketData(h, |Chunk(buffer, i)|))
         && Acked(log[2 * i + 1], WriteSocketData(Chunk(buffer, i)))
         && log[2 * i + 1].reply.value.socket == h && log[2 * i + 1].reply.value.length == |Chunk(buffer, i)|
  }

  lemma EmptyWrites(h: nat, buffer: seq<byte>)
    ensures WritesAcked([], h, buffer, 0)
  {
  }

  lemma WritesStep(log: seq<Entry>, h: nat, buffer: seq<byte>, n: nat, pair: seq<Entry>)
    requires WritesAcked(log, h, buffer, n) && |pair| == 2
    requires Acked(pair[0], PrepareWriteSocketData(h, |Chunk(buffer, n)|))
    requires Acked(pair[1], WriteSocketData(Chunk(buffer, n)))
    requires pair[1].reply.value.socket == h && pair[1].reply.value.length == |Chunk(buffer, n)|
    ensures WritesAcked(log + pair, h, buffer, n + 1)
  {
  }
}
