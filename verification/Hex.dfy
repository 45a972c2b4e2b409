/** In-place Base 16 decoding (section 8 of RFC 4648), as used on socket data. */
module Hex {
  import opened Wrappers

  type byte = bv8

  datatype FromHexError = InvalidHexCharacter | OddLength

  /** The value of one hexadecimal character. */
  function Val(c: byte): (r: Result<byte, FromHexError>)
    ensures r.Success? ==> r.value < 16
    ensures r.Failure? ==> r.error == InvalidHexCharacter
  {
    if 0x41 <= c <= 0x46 then Success(c - 0x41 + 10)
    else if 0x61 <= c <= 0x66 then Success(c - 0x61 + 10)
    else if 0x30 <= c <= 0x39 then Success(c - 0x30)
    else Failure(InvalidHexCharacter)
  }

  function Join(h: byte, l: byte): byte {
    (h << 4) | l
  }

  /** The byte written by one pair of characters. */
  function Pair(hi: byte, lo: byte): Result<byte, FromHexError> {
    var h :- Val(hi);
    var l :- Val(lo);
    Success(Join(h, l))
  }

  predicate IsHexDigit(c: byte) {
    Val(c).Success?
  }

  /** The first n pairs of s are hexadecimal. */
  predicate PairsOk(s: seq<byte>, n: nat)
    requires 2 * n <= |s|
  {
    forall j :: 0 <= j < 2 * n ==> IsHexDigit(s[j])
  }

  /** The bytes written by the first n pairs of s. */
  function DecodePairs(s: seq<byte>, n: nat): (r: seq<byte>)
    requires 2 * n <= |s| && PairsOk(s, n)
    ensures |r| == n
  {
    seq(n, i requires 0 <= i < n =>
      assert IsHexDigit(s[2 * i]) && IsHexDigit(s[2 * i + 1]);
      Pair(s[2 * i], s[2 * i + 1]).value)
  }

  /** The pure decoder: what from_hex means for an input. */
  function Decode(s: seq<byte>): Result<seq<byte>, FromHexError> {
    if |s| % 2 != 0 then Failure(OddLength)
    else if !PairsOk(s, |s| / 2) then Failure(InvalidHexCharacter)
    else Success(DecodePairs(s, |s| / 2))
  }

  /** The buffer after n pairs: their bytes, then what was there from position n on. */
  ghost function Overwritten(was: seq<byte>, n: nat): seq<byte>
    requires 2 * n <= |was| && PairsOk(was, n)
  {
    DecodePairs(was, n) + was[n..]
  }

  lemma OverwriteStep(was: seq<byte>, n: nat)
    requires 2 * n + 1 < |was| && PairsOk(was, n)
    ensures |Overwritten(was, n)| == |was|
    ensures Overwritten(was, n)[2 * n..] == was[2 * n..]
    ensures Overwritten(was, n)[2 * n] == was[2 * n] && Overwritten(was, n)[2 * n + 1] == was[2 * n + 1]
    ensures IsHexDigit(was[2 * n]) && IsHexDigit(was[2 * n + 1]) ==>
              && PairsOk(was, n + 1)
              && Overwritten(was, n)[n := Pair(was[2 * n], was[2 * n + 1]).value] == Overwritten(was, n + 1)
  {
  }

  /** Pair i is the first one holding a character that is not hexadecimal. */
  predicate FirstBadPair(s: seq<byte>, i: nat) {
    && 2 * i + 1 < |s|
    && PairsOk(s, i)
    && (!IsHexDigit(s[2 * i]) || !IsHexDigit(s[2 * i + 1]))
  }

  /** What a call promises about the buffer, from `was` to `now`: agreement with the pure decoder,
      and on failure exactly which bytes have been replaced. */
  ghost predicate Decoded(was: seq<byte>, now: seq<byte>, r: Result<nat, FromHexError>) {
    match r
    case Success(n) =>
      && 2 * n == |was|
      && PairsOk(was, n)
      && now == Overwritten(was, n)
      && Decode(was) == Success(now[..n])
    case Failure(OddLength) =>
      Decode(was) == Failure(OddLength) && now == was
    case Failure(InvalidHexCharacter) =>
      && Decode(was) == Failure(InvalidHexCharacter)
      && exists i: nat :: FirstBadPair(was, i) && now == Overwritten(was, i)
  }

  lemma DecodedAll(was: seq<byte>, n: nat)
    requires 2 * n == |was| && PairsOk(was, n)
    ensures Decoded(was, Overwritten(was, n), Success(n))
  {
  }

  lemma DecodedBad(was: seq<byte>, i: nat)
    requires |was| % 2 == 0 && FirstBadPair(was, i)
    ensures Decoded(was, Overwritten(was, i), Failure(InvalidHexCharacter))
  {
  }

  /** The decoder that overwrites the front of its own input. Each iteration reads at 2*i and
      2*i+1, never below the write position, so it always sees the original characters. */
  method FromHex(hex: array<byte>) returns (r: Result<nat, FromHexError>)
    modifies hex
    ensures Decoded(old(hex[..]), hex[..], r)
  {
    ghost var was := hex[..];
    if hex.Length % 2 != 0 {
      return Failure(OddLength);
    }
    var len := hex.Length / 2;
    for i := 0 to len
      invariant PairsOk(was, i)
      invariant hex[..] == Overwritten(was, i)
    {
      OverwriteStep(was, i);
      var h := Val(hex[2 * i]);
      if h.Failure? {
        DecodedBad(was, i);
        assert hex[..] == Overwritten(was, i);
        return Failure(h.error);
      }
      var l := Val(hex[2 * i + 1]);
      if l.Failure? {
        DecodedBad(was, i);
        assert hex[..] == Overwritten(was, i);
        return Failure(l.error);
      }
      hex[i] := Join(h.value, l.value);
      assert hex[..] == Overwritten(was, i)[i := Pair(was[2 * i], was[2 * i + 1]).value];
    }
    DecodedAll(was, len);
    return Success(len);
  }

  // ---------------------------------------------------------------- encoding, the partner

  function High(b: byte): (n: byte)
    ensures n < 16
  {
    b >> 4
  }

  function Low(b: byte): (n: byte)
    ensures n < 16
  {
    b & 15
  }

  /** The hexadecimal character of a nibble, in either case. */
  function Digit(n: byte, upper: bool): byte
    requires n < 16
  {
    if n < 10 then 0x30 + n else if upper then 0x41 + (n - 10) else 0x61 + (n - 10)
  }

  /** s is an encoding of b: two digits for each byte, each digit in upper or lower case. */
  predicate Encodes(s: seq<byte>, b: seq<byte>) {
    && |s| == 2 * |b|
    && forall i {:trigger b[i]} :: 0 <= i < |b| ==>
         && (s[2 * i] == Digit(High(b[i]), true) || s[2 * i] == Digit(High(b[i]), false))
         && (s[2 * i + 1] == Digit(Low(b[i]), true) || s[2 * i + 1] == Digit(Low(b[i]), false))
  }

  /** The canonical encoding: every digit in upper case, or every digit in lower case. */
  function Encode(b: seq<byte>, upper: bool): (s: seq<byte>)
    ensures |s| == 2 * |b|
  {
    seq(2 * |b|, i requires 0 <= i < 2 * |b| =>
      if i % 2 == 0 then Digit(High(b[i / 2]), upper) else Digit(Low(b[i / 2]), upper))
  }

  lemma EncodeEncodes(b: seq<byte>, upper: bool)
    ensures Encodes(Encode(b, upper), b)
  {
    var s := Encode(b, upper);
    forall i {:trigger b[i]} | 0 <= i < |b|
      ensures s[2 * i] == Digit(High(b[i]), upper) && s[2 * i + 1] == Digit(Low(b[i]), upper)
    {
      assert (2 * i) / 2 == i && (2 * i + 1) / 2 == i;
    }
  }

  /** A digit has the value of its nibble, and only the digits of that nibble have it. */
  lemma DigitVal(n: byte, c: byte)
    requires n < 16
    ensures Val(c) == Success(n) <==> c == Digit(n, true) || c == Digit(n, false)
  {
  }

  lemma SplitJoin(b: byte)
    ensures Join(High(b), Low(b)) == b
  {
  }

  /** Joining two nibbles loses no bit: both can be read back, so the shift never overflows. */
  lemma JoinSplit(h: byte, l: byte)
    requires h < 16 && l < 16
    ensures High(Join(h, l)) == h
    ensures Low(Join(h, l)) == l
    ensures Join(h, l) as int == 16 * (h as int) + (l as int)
  {
  }

  /** Decoding inverts encoding and, up to letter case, the other way round: s decodes to b
      exactly when s is some mixed-case encoding of b. */
  lemma DecodeIffEncodes(s: seq<byte>, b: seq<byte>)
    ensures Decode(s) == Success(b) <==> Encodes(s, b)
  {
    if Decode(s) == Success(b) {
      forall i {:trigger b[i]} | 0 <= i < |b|
        ensures s[2 * i] == Digit(High(b[i]), true) || s[2 * i] == Digit(High(b[i]), false)
        ensures s[2 * i + 1] == Digit(Low(b[i]), true) || s[2 * i + 1] == Digit(Low(b[i]), false)
      {
        assert IsHexDigit(s[2 * i]) && IsHexDigit(s[2 * i + 1]);
        var h, l := Val(s[2 * i]).value, Val(s[2 * i + 1]).value;
        JoinSplit(h, l);
        DigitVal(h, s[2 * i]);
        DigitVal(l, s[2 * i + 1]);
      }
    }
    if Encodes(s, b) {
      forall j | 0 <= j < |s|
        ensures IsHexDigit(s[j])
      {
        PairOfEncoding(s, b, j / 2);
        assert j == 2 * (j / 2) || j == 2 * (j / 2) + 1;
      }
      forall i | 0 <= i < |b|
        ensures DecodePairs(s, |b|)[i] == b[i]
      {
        PairOfEncoding(s, b, i);
      }
      assert DecodePairs(s, |b|) == b;
    }
  }

  lemma PairOfEncoding(s: seq<byte>, b: seq<byte>, i: nat)
    requires Encodes(s, b) && i < |b|
    ensures IsHexDigit(s[2 * i]) && IsHexDigit(s[2 * i + 1])
    ensures Pair(s[2 * i], s[2 * i + 1]) == Success(b[i])
  {
    SplitJoin(b[i]);
    DigitVal(High(b[i]), s[2 * i]);
    DigitVal(Low(b[i]), s[2 * i + 1]);
  }

  /** The round trip for the two canonical encodings. */
  lemma RoundTrip(b: seq<byte>, upper: bool)
    ensures Decode(Encode(b, upper)) == Success(b)
  {
    EncodeEncodes(b, upper);
    DecodeIffEncodes(Encode(b, upper), b);
  }
}
