/** Base64 with padding, as RFC 4648 section 4 defines it and Go's StdEncoding decodes it. */
module Base64 {
  import opened Prelude

  type sextet = n: int | 0 <= n < 64

  /** What one character stands for: a digit of the alphabet, padding, or neither. */
  datatype Code = Digit(n: sextet) | Pad | Bad

  function Symbol(code: Code): char {
    match code
    case Digit(n) =>
      if n < 26 then 'A' + n as char
      else if n < 52 then 'a' + (n - 26) as char
      else if n < 62 then '0' + (n - 52) as char
      else if n == 62 then '+'
      else '/'
    case Pad => '='
    case Bad => '!'
  }

  function Lookup(c: char): Code {
    if 'A' <= c <= 'Z' then Digit((c - 'A') as int)
    else if 'a' <= c <= 'z' then Digit((c - 'a') as int + 26)
    else if '0' <= c <= '9' then Digit((c - '0') as int + 52)
    else if c == '+' then Digit(62)
    else if c == '/' then Digit(63)
    else if c == '=' then Pad
    else Bad
  }

  /**
   The alphabet of RFC 4648 section 4, table 1: capitals, small letters and figures in their order,
   then plus and slash; a digit is read from the character it is written as, and from no other.
   */
  lemma DigitsInOrder(n: sextet, c: char)
    ensures Symbol(Digit(0)) == 'A' && Symbol(Digit(26)) == 'a' && Symbol(Digit(52)) == '0'
    ensures n !in {25, 51, 61, 62, 63} ==> Symbol(Digit(n + 1)) as int == Symbol(Digit(n)) as int + 1
    ensures Symbol(Digit(62)) == '+' && Symbol(Digit(63)) == '/'
    ensures Lookup(c) == Digit(n) <==> c == Symbol(Digit(n))
    ensures Lookup(c) == Pad <==> c == '='
  {}

  lemma LookupSymbol(code: Code)
    ensures Lookup(Symbol(code)) == code
  {}

  function Symbols(codes: seq<Code>): (s: string)
    ensures |s| == |codes| && forall i :: 0 <= i < |s| ==> s[i] == Symbol(codes[i])
  {
    seq(|codes|, i requires 0 <= i < |codes| => Symbol(codes[i]))
  }

  function Codes(s: string): (codes: seq<Code>)
    ensures |codes| == |s| && forall i :: 0 <= i < |s| ==> codes[i] == Lookup(s[i])
  {
    seq(|s|, i requires 0 <= i < |s| => Lookup(s[i]))
  }

  // ------------------------------------------------------------------ encoding

  function EncodeCodes(b: seq<byte>): (codes: seq<Code>)
    ensures Bad !in codes
  {
    if b == [] then []
    else if |b| == 1 then
      [Digit(Bits0(b[0])), Digit(Bits1(b[0], 0)), Pad, Pad]
    else if |b| == 2 then
      [Digit(Bits0(b[0])), Digit(Bits1(b[0], b[1])), Digit(Bits2(b[1], 0)), Pad]
    else
      [Digit(Bits0(b[0])), Digit(Bits1(b[0], b[1])), Digit(Bits2(b[1], b[2])), Digit(Bits3(b[2]))] + EncodeCodes(b[3..])
  }

  /** The 24 bits of three bytes, six at a time. */
  function Bits0(x: byte): sextet { x / 4 }
  function Bits1(x: byte, y: byte): sextet { x % 4 * 16 + y / 16 }
  function Bits2(y: byte, z: byte): sextet { y % 16 * 4 + z / 64 }
  function Bits3(z: byte): sextet { z % 64 }

  /** EncodeToString */
  function Encode(b: seq<byte>): string {
    Symbols(EncodeCodes(b))
  }

  // ------------------------------------------------------------------ decoding

  /** The decoder skips line breaks wherever they stand. */
  function WithoutNewlines(s: string): (t: string)
    ensures s != "" && s[|s| - 1] != '\n' && s[|s| - 1] != '\r' ==> t != ""
  {
    if s == "" then ""
    else if s[0] == '\n' || s[0] == '\r' then WithoutNewlines(s[1..])
    else [s[0]] + WithoutNewlines(s[1..])
  }

  /** Groups of four; only the last may be padded, and its unused low bits are ignored. */
  function DecodeCodes(c: seq<Code>): (r: Option<seq<byte>>)
    ensures r.Some? && c != [] ==> r.value != []
  {
    if c == [] then Some([])
    else if |c| < 4 || !c[0].Digit? || !c[1].Digit? then None
    else if c[2].Pad? then
      if c[3].Pad? && |c| == 4 then Some([First(c[0].n, c[1].n)]) else None
    else if !c[2].Digit? then None
    else if c[3].Pad? then
      if |c| == 4 then Some([First(c[0].n, c[1].n), Second(c[1].n, c[2].n)]) else None
    else if !c[3].Digit? then None
    else
      match DecodeCodes(c[4..])
      case None => None
      case Some(rest) => Some([First(c[0].n, c[1].n), Second(c[1].n, c[2].n), Third(c[2].n, c[3].n)] + rest)
  }

  function First(s0: sextet, s1: sextet): byte { s0 * 4 + s1 / 16 }
  function Second(s1: sextet, s2: sextet): byte { s1 % 16 * 16 + s2 / 4 }
  function Third(s2: sextet, s3: sextet): byte { s2 % 4 * 64 + s3 }

  /** DecodeString; None is the decoder's error. */
  function Decode(s: string): Option<seq<byte>> {
    DecodeCodes(Codes(WithoutNewlines(s)))
  }

  // ------------------------------------------------------------------ what is decoded

  /** Groups of four digits, the last of which may end with one or two paddings. */
  ghost predicate Padded(c: seq<Code>, pads: nat) {
    && |c| % 4 == 0 && pads <= 2 && (c == [] ==> pads == 0)
    && (forall i :: 0 <= i < |c| - pads ==> c[i].Digit?)
    && (forall i :: |c| - pads <= i < |c| ==> c[i].Pad?)
  }

  /** Text is decoded if and only if it is padded groups, and then to as many bytes as they have room for. */
  lemma {:induction false} DecodesIff(c: seq<Code>)
    ensures DecodeCodes(c).Some? <==> exists pads: nat :: Padded(c, pads)
    ensures forall pads: nat :: Padded(c, pads) ==>
              DecodeCodes(c).Some? && |DecodeCodes(c).value| == |c| / 4 * 3 - pads
  {
    hide First, Second, Third;
    if |c| > 4 {
      DecodesIff(c[4..]);
      GroupPadded(c);
      TailDecodes(c);
    } else {
      OneGroup(c);
    }
  }

  lemma GroupPadded(c: seq<Code>)
    requires |c| > 4
    ensures forall pads: nat :: Padded(c, pads) <==>
              Padded(c[4..], pads) && c[0].Digit? && c[1].Digit? && c[2].Digit? && c[3].Digit?
  {
    forall pads: nat
      ensures Padded(c, pads) <==>
                Padded(c[4..], pads) && c[0].Digit? && c[1].Digit? && c[2].Digit? && c[3].Digit?
    {
      if Padded(c, pads) {
        PaddedTail(c, pads);
      }
      if Padded(c[4..], pads) {
        PaddedWhole(c, pads);
      }
    }
  }

  lemma PaddedTail(c: seq<Code>, pads: nat)
    requires |c| > 4 && Padded(c, pads)
    ensures Padded(c[4..], pads)
  {}

  lemma PaddedWhole(c: seq<Code>, pads: nat)
    requires |c| > 4 && Padded(c[4..], pads)
    ensures c[0].Digit? && c[1].Digit? && c[2].Digit? && c[3].Digit? ==> Padded(c, pads)
  {
    forall i | 4 <= i < |c|
      ensures c[i] == c[4..][i - 4]
    {}
  }

  lemma TailDecodes(c: seq<Code>)
    requires |c| > 4
    ensures DecodeCodes(c).Some? <==>
              DecodeCodes(c[4..]).Some? && c[0].Digit? && c[1].Digit? && c[2].Digit? && c[3].Digit?
    ensures DecodeCodes(c).Some? ==> |DecodeCodes(c).value| == |DecodeCodes(c[4..]).value| + 3
  {
    hide First, Second, Third;
  }

  lemma OneGroup(c: seq<Code>)
    requires |c| <= 4
    ensures DecodeCodes(c).Some? <==> Padded(c, 0) || Padded(c, 1) || Padded(c, 2)
    ensures forall pads: nat :: Padded(c, pads) ==>
              DecodeCodes(c).Some? && |DecodeCodes(c).value| == |c| / 4 * 3 - pads
  {
    hide First, Second, Third;
    if |c| == 4 {
      assert c[4..] == [];
    }
  }

  // ------------------------------------------------------------------ the round trip

  lemma Regroup(x: byte, y: byte, z: byte)
    ensures First(Bits0(x), Bits1(x, y)) == x
    ensures Second(Bits1(x, y), Bits2(y, z)) == y
    ensures Third(Bits2(y, z), Bits3(z)) == z
  {}

  /** The padded groups decode to one and to two bytes. */
  lemma DecodePadded(s0: sextet, s1: sextet, s2: sextet)
    ensures DecodeCodes([Digit(s0), Digit(s1), Pad, Pad]) == Some([First(s0, s1)])
    ensures DecodeCodes([Digit(s0), Digit(s1), Digit(s2), Pad]) == Some([First(s0, s1), Second(s1, s2)])
  {
    hide First, Second, Third;
  }

  /** Four digits at the front decode to three bytes at the front. */
  lemma DecodeGroup(s0: sextet, s1: sextet, s2: sextet, s3: sextet, tail: seq<Code>)
    requires DecodeCodes(tail).Some?
    ensures DecodeCodes([Digit(s0), Digit(s1), Digit(s2), Digit(s3)] + tail)
         == Some([First(s0, s1), Second(s1, s2), Third(s2, s3)] + DecodeCodes(tail).value)
  {
    hide First, Second, Third;
    assert ([Digit(s0), Digit(s1), Digit(s2), Digit(s3)] + tail)[4..] == tail;
  }

  lemma EncodeGroup(x: byte, y: byte, z: byte, tail: seq<byte>)
    ensures EncodeCodes([x, y, z] + tail)
         == [Digit(Bits0(x)), Digit(Bits1(x, y)), Digit(Bits2(y, z)), Digit(Bits3(z))] + EncodeCodes(tail)
  {
    hide Bits0, Bits1, Bits2, Bits3;
    assert ([x, y, z] + tail)[3..] == tail;
  }

  lemma EncodePadded(x: byte, y: byte)
    ensures EncodeCodes([x]) == [Digit(Bits0(x)), Digit(Bits1(x, 0)), Pad, Pad]
    ensures EncodeCodes([x, y]) == [Digit(Bits0(x)), Digit(Bits1(x, y)), Digit(Bits2(y, 0)), Pad]
  {
    hide Bits0, Bits1, Bits2, Bits3;
  }

  lemma {:induction false} DecodeEncodeCodes(b: seq<byte>)
    ensures DecodeCodes(EncodeCodes(b)) == Some(b)
  {
    hide EncodeCodes, DecodeCodes, Bits0, Bits1, Bits2, Bits3, First, Second, Third;
    if b == [] {
      EmptyCodes();
    } else {
      var x, y, z := b[0], if |b| > 1 then b[1] else 0, if |b| > 2 then b[2] else 0;
      Regroup(x, y, z);
      if |b| == 1 {
        assert b == [x];
        EncodePadded(x, 0);
        DecodePadded(Bits0(x), Bits1(x, 0), 0);
      } else if |b| == 2 {
        assert b == [x, y];
        EncodePadded(x, y);
        DecodePadded(Bits0(x), Bits1(x, y), Bits2(y, 0));
      } else {
        assert b == [x, y, z] + b[3..];
        EncodeGroup(x, y, z, b[3..]);
        DecodeEncodeCodes(b[3..]);
        DecodeGroup(Bits0(x), Bits1(x, y), Bits2(y, z), Bits3(z), EncodeCodes(b[3..]));
      }
    }
  }

  lemma EmptyCodes()
    ensures DecodeCodes(EncodeCodes([])) == Some([])
  {}

  /** Encoded text is printable ASCII without a comma, and is empty only for no bytes. */
  lemma EncodeAlphabet(b: seq<byte>)
    ensures forall c | c in Encode(b) :: '+' <= c <= 'z' && c != ','
    ensures Encode(b) == "" <==> b == []
  {}

  lemma {:induction false} WithoutNewlinesId(s: string)
    requires '\n' !in s && '\r' !in s
    ensures WithoutNewlines(s) == s
  {
    if s != "" {
      WithoutNewlinesId(s[1..]);
    }
  }

  /** Decoding gives back what was encoded, for byte strings of every length. */
  lemma DecodeEncode(b: seq<byte>)
    ensures Decode(Encode(b)) == Some(b)
  {
    EncodeAlphabet(b);
    WithoutNewlinesId(Encode(b));
    var codes := EncodeCodes(b);
    forall i | 0 <= i < |codes|
      ensures Lookup(Symbol(codes[i])) == codes[i]
    {
      LookupSymbol(codes[i]);
    }
    assert Codes(Symbols(codes)) == codes;
    DecodeEncodeCodes(b);
  }
}
