/** Forwarding a program's output: a read may end inside a character, and a forwarded chunk must not. */
module Utf8 {

  type byte = b: int | 0 <= b < 256

  /** Well-formed characters, as section 4 of RFC 3629 lists them. */
  predicate IsTail(b: byte) { 0x80 <= b <= 0xBF }

  predicate IsChar(s: seq<byte>) {
    match |s|
    case 1 => s[0] <= 0x7F
    case 2 => 0xC2 <= s[0] <= 0xDF && IsTail(s[1])
    case 3 =>
      && IsTail(s[1]) && IsTail(s[2]) && 0xE0 <= s[0] <= 0xEF
      && (s[0] == 0xE0 ==> s[1] >= 0xA0) && (s[0] == 0xED ==> s[1] <= 0x9F)
    case 4 =>
      && IsTail(s[1]) && IsTail(s[2]) && IsTail(s[3]) && 0xF0 <= s[0] <= 0xF4
      && (s[0] == 0xF0 ==> s[1] >= 0x90) && (s[0] == 0xF4 ==> s[1] <= 0x8F)
    case _ => false
  }

  /** The scalar values of Unicode: no surrogates. */
  predicate IsScalar(c: nat) { c < 0xD800 || 0xE000 <= c < 0x11_0000 }

  /** The encoding of a scalar value: its bits in the order of section 3 of RFC 3629, six to a tail. */
  function Encoded(c: nat): seq<byte>
    requires IsScalar(c)
  {
    if c < 0x80 then [c]
    else if c < 0x800 then [0xC0 + c / 64, 0x80 + c % 64]
    else if c < 0x1_0000 then [0xE0 + c / 4096, 0x80 + c / 64 % 64, 0x80 + c % 64]
    else [0xF0 + c / 262144, 0x80 + c / 4096 % 64, 0x80 + c / 64 % 64, 0x80 + c % 64]
  }

  function Bits(b: byte, mark: int): int { (b as int) - mark }

  /** The number that the bits of a character make up. */
  function Decoded(s: seq<byte>): int
    requires 1 <= |s| <= 4
  {
    if |s| == 1 then s[0]
    else if |s| == 2 then Bits(s[0], 0xC0) * 64 + Bits(s[1], 0x80)
    else if |s| == 3 then Bits(s[0], 0xE0) * 4096 + Bits(s[1], 0x80) * 64 + Bits(s[2], 0x80)
    else Bits(s[0], 0xF0) * 262144 + Bits(s[1], 0x80) * 4096 + Bits(s[2], 0x80) * 64 + Bits(s[3], 0x80)
  }

  /** Every scalar value is encoded as a character, and decoding it gives the value back. */
  lemma EncodedIsChar(c: nat)
    requires IsScalar(c)
    ensures IsChar(Encoded(c)) && Decoded(Encoded(c)) == c
  {
    assert c == c / 64 * 64 + c % 64;
    assert c / 64 == c / 64 / 64 * 64 + c / 64 % 64;
    assert c / 64 / 64 == c / 4096 && c / 4096 / 64 == c / 262144;
    assert c / 4096 == c / 4096 / 64 * 64 + c / 4096 % 64;
  }

  /** Every character is the encoding of one scalar value. */
  lemma CharIsEncoded(s: seq<byte>)
    requires IsChar(s)
    ensures Decoded(s) >= 0 && IsScalar(Decoded(s)) && Encoded(Decoded(s)) == s
  {
    var c := Decoded(s);
    if |s| == 2 {
      SixBits(Bits(s[0], 0xC0), Bits(s[1], 0x80));
    } else if |s| == 3 {
      SixBits(Bits(s[0], 0xE0) * 64 + Bits(s[1], 0x80), Bits(s[2], 0x80));
      SixBits(Bits(s[0], 0xE0), Bits(s[1], 0x80));
      assert c / 64 / 64 == c / 4096;
    } else if |s| == 4 {
      var high := Bits(s[0], 0xF0) * 64 + Bits(s[1], 0x80);
      SixBits(high * 64 + Bits(s[2], 0x80), Bits(s[3], 0x80));
      SixBits(high, Bits(s[2], 0x80));
      SixBits(Bits(s[0], 0xF0), Bits(s[1], 0x80));
      assert c / 64 / 64 == c / 4096 && c / 4096 / 64 == c / 262144;
    }
  }

  lemma SixBits(high: int, low: int)
    requires 0 <= low < 64 && 0 <= high
    ensures (high * 64 + low) / 64 == high && (high * 64 + low) % 64 == low
  {
  }

  /** A sequence of bytes is a character exactly when it encodes a scalar value. */
  lemma CharsAreScalars(s: seq<byte>)
    ensures IsChar(s) <==> exists c: nat | IsScalar(c) :: Encoded(c) == s
  {
    if IsChar(s) { CharIsEncoded(s); }
    forall c: nat | IsScalar(c) && Encoded(c) == s ensures IsChar(s) { EncodedIsChar(c); }
  }

  /** The length a first byte announces. */
  function LengthOf(b: byte): nat {
    if 0xC0 <= b < 0xE0 then 2 else if 0xE0 <= b < 0xF0 then 3 else if 0xF0 <= b < 0xF8 then 4 else 1
  }

  /** A sequence of whole characters. */
  predicate WellFormed(s: seq<byte>) {
    s == [] || exists n :: 1 <= n <= |s| && IsChar(s[..n]) && WellFormed(s[n..])
  }

  /** Where to cut: before the last character, looked for among the last three bytes from place `back`
      on, when it is not complete. */
  function CutFrom(s: seq<byte>, back: nat): (n: nat)
    requires 1 <= back <= 4 && back <= |s| + 1
    ensures n <= |s| <= n + 3
    decreases 4 - back
  {
    if back > 3 || back > |s| then |s|
    else
      var c := s[|s| - back];
      if IsTail(c) then CutFrom(s, back + 1)
      else if LengthOf(c) > back then |s| - back else |s|
  }

  function Cut(s: seq<byte>): (n: nat)
    ensures n <= |s| <= n + 3
  {
    CutFrom(s, 1)
  }

  method CompletePrefix(s: seq<byte>) returns (n: nat)
    ensures n == Cut(s)
  {
    var back := 1;
    while back <= 3 && back <= |s|
      invariant 1 <= back <= 4 && back <= |s| + 1 && CutFrom(s, back) == Cut(s)
    {
      var c := s[|s| - back];
      if !IsTail(c) { return if LengthOf(c) > back then |s| - back else |s|; }
      back := back + 1;
    }
    n := |s|;
  }

  lemma CharFacts(s: seq<byte>)
    requires IsChar(s)
    ensures 1 <= |s| <= 4 && LengthOf(s[0]) == |s| && !IsTail(s[0]) && forall i :: 1 <= i < |s| ==> IsTail(s[i])
  {
  }

  /** What is left of a buffer that starts a character it does not hold all of is held back whole. */
  lemma CutOfPart(p: seq<byte>, rest: seq<byte>, n: nat)
    requires 0 < |p| < n <= |p + rest| && IsChar((p + rest)[..n])
    ensures Cut(p) == 0
  {
    var c := (p + rest)[..n];
    CharFacts(c);
    assert forall i :: 0 <= i < |p| ==> p[i] == c[i];
  }

  lemma CutOfChar(c: seq<byte>)
    requires IsChar(c)
    ensures Cut(c) == |c|
  {
    CharFacts(c);
  }

  /** A whole character in front of more text does not change where the text is cut. */
  lemma CutAfterChar(c: seq<byte>, q: seq<byte>)
    requires IsChar(c) && q != [] && !IsTail(q[0])
    ensures Cut(c + q) == |c| + Cut(q)
  {
    var p := c + q;
    assert forall i :: |c| <= i < |p| ==> p[i] == q[i - |c|];
  }

  lemma Prepend(c: seq<byte>, s: seq<byte>)
    requires IsChar(c) && WellFormed(s)
    ensures WellFormed(c + s)
  {
    CharFacts(c);
    hide IsChar;
    assert (c + s)[..|c|] == c && (c + s)[|c|..] == s;
  }

  /** A buffer that well-formed text goes on from is cut into well-formed text and the start of what is
      still to come; nothing is held back when nothing is. */
  lemma {:induction false} CutWellFormed(p: seq<byte>, rest: seq<byte>)
    requires WellFormed(p + rest)
    ensures WellFormed(p[..Cut(p)]) && WellFormed(p[Cut(p)..] + rest)
    ensures rest == [] ==> Cut(p) == |p|
    decreases |p|
  {
    hide IsChar, Cut;
    if p == [] {
      assert p + rest == rest == p[0..] + rest;
    } else {
      var n :| 1 <= n <= |p + rest| && IsChar((p + rest)[..n]) && WellFormed((p + rest)[n..]);
      if |p| < n {
        CutOfPart(p, rest, n);
        assert p[0..] + rest == p + rest;
        assert p[..0] == [];
      } else {
        var c, q := p[..n], p[n..];
        assert (p + rest)[..n] == c && (p + rest)[n..] == q + rest && p == c + q;
        hide WellFormed;
        CutWellFormed(q, rest);
        CutBehind(c, q, rest);
        var k := Cut(q);
        Prepend(c, q[..k]);
        assert p[..n + k] == c + q[..k] && p[n + k..] == q[k..];
      }
    }
  }

  lemma CutBehind(c: seq<byte>, q: seq<byte>, rest: seq<byte>)
    requires IsChar(c) && WellFormed(q + rest)
    ensures Cut(c + q) == |c| + Cut(q)
  {
    hide WellFormed, IsChar;
    if q == [] {
      CutOfChar(c);
      assert c + q == c && Cut(q) == 0;
    } else {
      hide Cut;
      FirstIsLead(q, rest);
      CutAfterChar(c, q);
    }
  }

  lemma FirstIsLead(q: seq<byte>, rest: seq<byte>)
    requires q != [] && WellFormed(q + rest)
    ensures !IsTail(q[0])
  {
    var n :| 1 <= n <= |q + rest| && IsChar((q + rest)[..n]) && WellFormed((q + rest)[n..]);
    CharFacts((q + rest)[..n]);
    assert (q + rest)[..n][0] == q[0];
  }

  // ----- The pump -----

  /** A read that was interrupted is tried again; one of no bytes says that every writer has closed. */
  datatype Read = Interrupted | Bytes(bytes: seq<byte>)

  /** All the bytes written, up to the end. */
  function Stream(input: seq<Read>): seq<byte> {
    if input == [] then []
    else if input[0].Interrupted? then Stream(input[1..])
    else if input[0].bytes == [] then []
    else input[0].bytes + Stream(input[1..])
  }

  function Joined(chunks: seq<seq<byte>>): seq<byte> {
    if chunks == [] then [] else Joined(chunks[..|chunks| - 1]) + chunks[|chunks| - 1]
  }

  /** Nothing is lost, and nothing torn, while `chunks` are out, `pending` is held and `rest` to come. */
  predicate Going(all: seq<byte>, chunks: seq<seq<byte>>, pending: seq<byte>, rest: seq<byte>) {
    && Joined(chunks) + pending + rest == all && |pending| <= 3
    && (forall k :: 0 <= k < |chunks| ==> chunks[k] != [])
    && (WellFormed(all) ==> WellFormed(pending + rest) && (rest == [] ==> pending == [])
                            && forall k :: 0 <= k < |chunks| ==> WellFormed(chunks[k]))
  }

  function Forward(chunks: seq<seq<byte>>, whole: seq<byte>): seq<seq<byte>> {
    if Cut(whole) == 0 then chunks else chunks + [whole[..Cut(whole)]]
  }

  /** One read: the bytes join those held, and all but the start of a character goes on. */
  lemma ReadKeeps(all: seq<byte>, chunks: seq<seq<byte>>, pending: seq<byte>, bytes: seq<byte>, rest: seq<byte>)
    requires Going(all, chunks, pending, bytes + rest)
    ensures var whole := pending + bytes; Going(all, Forward(chunks, whole), whole[Cut(whole)..], rest)
  {
    hide WellFormed, Cut;
    var whole := pending + bytes;
    var cut := Cut(whole);
    Regroup(Joined(chunks), pending, bytes, rest, cut);
    if WellFormed(all) { CutWellFormed(whole, rest); }
    var after := Forward(chunks, whole);
    if cut > 0 {
      assert after[..|chunks|] == chunks;
      assert Joined(after) == Joined(chunks) + whole[..cut];
    }
  }

  lemma Regroup(done: seq<byte>, pending: seq<byte>, bytes: seq<byte>, rest: seq<byte>, cut: nat)
    requires cut <= |pending + bytes|
    ensures var whole := pending + bytes;
      && pending + (bytes + rest) == whole + rest && done + pending + (bytes + rest) == done + whole + rest
      && done + whole + rest == done + whole[..cut] + whole[cut..] + rest
      && (cut == 0 ==> whole[cut..] == whole)
  {
    var whole := pending + bytes;
    assert whole == whole[..cut] + whole[cut..];
  }

  /** However the output was split into reads, the chunks forwarded make it up again; when it is
      well-formed, so is every chunk. At most three bytes are ever held back. */
  method Pump(input: seq<Read>) returns (chunks: seq<seq<byte>>)
    ensures Joined(chunks) == Stream(input)
    ensures WellFormed(Stream(input)) ==> forall i :: 0 <= i < |chunks| ==> WellFormed(chunks[i])
    ensures forall i :: 0 <= i < |chunks| ==> chunks[i] != []
  {
    hide WellFormed, Cut;
    var pending: seq<byte> := [];
    chunks := [];
    var i := 0;
    ghost var all, rest := Stream(input), Stream(input);
    assert input[0..] == input && [] + rest == rest && Joined(chunks) + pending + rest == all;
    while i < |input|
      invariant i <= |input| && rest == Stream(input[i..]) && Going(all, chunks, pending, rest)
    {
      var read := input[i];
      assert input[i..][0] == read && input[i..][1..] == input[i + 1..];
      i := i + 1;
      if read.Interrupted? { continue; }
      if read.bytes == [] { break; }
      ReadKeeps(all, chunks, pending, read.bytes, Stream(input[i..]));
      rest := Stream(input[i..]);
      pending := pending + read.bytes;
      var cut := CompletePrefix(pending);
      if cut == 0 { assert pending[cut..] == pending; continue; }
      chunks := chunks + [pending[..cut]];
      pending := pending[cut..];
    }
    assert rest == [];
    assert Joined(chunks) + pending == all;
    if pending != [] {
      ghost var before := chunks;
      chunks := chunks + [pending];
      assert chunks[..|before|] == before;
    }
  }
}
