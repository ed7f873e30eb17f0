/** Unpadded URL-safe base64 (section 5 of RFC 4648), as Go's `base64.RawURLEncoding` reads and
    writes it, and the splitting of a compact token at its dots. */
module Base64Url {
  import opened Wrappers

  type byte = x: int | 0 <= x < 256
  type sextet = x: int | 0 <= x < 64

  function Symbol(v: sextet): char {
    if v < 26 then ('A' as int + v) as char
    else if v < 52 then ('a' as int + v - 26) as char
    else if v < 62 then ('0' as int + v - 52) as char
    else if v == 62 then '-' else '_'
  }

  function Value(c: char): Option<sextet> {
    if 'A' <= c <= 'Z' then Some(c as int - 'A' as int)
    else if 'a' <= c <= 'z' then Some(c as int - 'a' as int + 26)
    else if '0' <= c <= '9' then Some(c as int - '0' as int + 52)
    else if c == '-' then Some(62)
    else if c == '_' then Some(63)
    else None
  }

  lemma SymbolInverts(v: sextet)
    ensures Value(Symbol(v)) == Some(v)
  {}

  // The four sextets of a three-byte block; a missing byte counts as zero.
  function First(x: byte): sextet { x / 4 }
  function Second(x: byte, y: byte): sextet { x % 4 * 16 + y / 16 }
  function Third(y: byte, z: byte): sextet { y % 16 * 4 + z / 64 }
  function Fourth(z: byte): sextet { z % 64 }

  // The three bytes of a four-sextet block.
  function Byte0(a: sextet, b: sextet): byte { a * 4 + b / 16 }
  function Byte1(b: sextet, c: sextet): byte { b % 16 * 16 + c / 4 }
  function Byte2(c: sextet, d: sextet): byte { c % 4 * 64 + d }

  lemma BlockInverts(x: byte, y: byte, z: byte)
    ensures Byte0(First(x), Second(x, y)) == x
    ensures Byte1(Second(x, y), Third(y, z)) == y
    ensures Byte2(Third(y, z), Fourth(z)) == z
  {}

  /** Three bytes become four symbols; one or two trailing bytes become two or three. */
  function Encode(b: seq<byte>): string {
    if |b| == 0 then ""
    else if |b| == 1 then [Symbol(First(b[0])), Symbol(Second(b[0], 0))]
    else if |b| == 2 then [Symbol(First(b[0])), Symbol(Second(b[0], b[1])), Symbol(Third(b[1], 0))]
    else
      [Symbol(First(b[0])), Symbol(Second(b[0], b[1])), Symbol(Third(b[1], b[2])), Symbol(Fourth(b[2]))]
      + Encode(b[3..])
  }

  predicate AllValid(s: string) {
    forall i | 0 <= i < |s| :: Value(s[i]).Some?
  }

  /** The decoder on a text without line breaks: a lone trailing symbol is an error, the unused
      bits of a partial block are ignored. */
  function DecodeBlocks(s: string): Option<seq<byte>>
  {
    if |s| == 0 then Some([])
    else if |s| == 1 then None
    else
      match (Value(s[0]), Value(s[1]))
      case (Some(a), Some(b)) =>
        if |s| == 2 then Some([Byte0(a, b)]) else
        (match Value(s[2])
         case Some(c) =>
           if |s| == 3 then Some([Byte0(a, b), Byte1(b, c)]) else
           (match (Value(s[3]), DecodeBlocks(s[4..]))
            case (Some(d), Some(rest)) => Some([Byte0(a, b), Byte1(b, c), Byte2(c, d)] + rest)
            case _ => None)
         case None => None)
      case _ => None
  }

  /** Go's decoder skips carriage returns and line feeds wherever they occur. */
  function StripBreaks(s: string): string {
    if s == "" then ""
    else if s[0] == '\n' || s[0] == '\r' then StripBreaks(s[1..])
    else [s[0]] + StripBreaks(s[1..])
  }

  function Decode(s: string): Option<seq<byte>> {
    DecodeBlocks(StripBreaks(s))
  }

  /** An encoding uses only the 64 symbols: in particular no dot and no line break. */
  lemma {:induction false} EncodeAlphabet(b: seq<byte>)
    ensures AllValid(Encode(b))
    decreases |b|
  {
    if |b| >= 3 { EncodeAlphabet(b[3..]); }
    forall i | 0 <= i < |Encode(b)| ensures Value(Encode(b)[i]).Some? {
      if |b| >= 3 && i >= 4 {
        assert Encode(b)[i] == Encode(b[3..])[i - 4];
      }
    }
  }

  lemma {:induction false} NothingToStrip(s: string)
    requires AllValid(s)
    ensures StripBreaks(s) == s
  {
    if s != "" {
      assert AllValid(s[1..]);
      NothingToStrip(s[1..]);
    }
  }

  lemma DecodeTwo(a: sextet, b: sextet)
    ensures DecodeBlocks([Symbol(a), Symbol(b)]) == Some([Byte0(a, b)])
  {
    SymbolInverts(a);
    SymbolInverts(b);
  }

  lemma DecodeThree(a: sextet, b: sextet, c: sextet)
    ensures DecodeBlocks([Symbol(a), Symbol(b), Symbol(c)]) == Some([Byte0(a, b), Byte1(b, c)])
  {
    SymbolInverts(a);
    SymbolInverts(b);
    SymbolInverts(c);
  }

  lemma DecodeFour(a: sextet, b: sextet, c: sextet, d: sextet, s: string)
    requires DecodeBlocks(s).Some?
    ensures DecodeBlocks([Symbol(a), Symbol(b), Symbol(c), Symbol(d)] + s)
         == Some([Byte0(a, b), Byte1(b, c), Byte2(c, d)] + DecodeBlocks(s).value)
  {
    SymbolInverts(a);
    SymbolInverts(b);
    SymbolInverts(c);
    SymbolInverts(d);
    assert ([Symbol(a), Symbol(b), Symbol(c), Symbol(d)] + s)[4..] == s;
  }

  lemma OneByte(x: byte)
    ensures DecodeBlocks(Encode([x])) == Some([x])
  {
    DecodeTwo(First(x), Second(x, 0));
    BlockInverts(x, 0, 0);
  }

  lemma TwoBytes(x: byte, y: byte)
    ensures DecodeBlocks(Encode([x, y])) == Some([x, y])
  {
    DecodeThree(First(x), Second(x, y), Third(y, 0));
    BlockInverts(x, y, 0);
  }

  lemma ThreeBytes(x: byte, y: byte, z: byte, b: seq<byte>)
    requires DecodeBlocks(Encode(b)) == Some(b)
    ensures DecodeBlocks(Encode([x, y, z] + b)) == Some([x, y, z] + b)
  {
    assert ([x, y, z] + b)[3..] == b;
    DecodeFour(First(x), Second(x, y), Third(y, z), Fourth(z), Encode(b));
    BlockInverts(x, y, z);
  }

  lemma {:induction false} DecodeBlocksInverts(b: seq<byte>)
    ensures DecodeBlocks(Encode(b)) == Some(b)
    decreases |b|
  {
    if |b| == 0 {
    } else if |b| == 1 {
      assert b == [b[0]];
      OneByte(b[0]);
    } else if |b| == 2 {
      assert b == [b[0], b[1]];
      TwoBytes(b[0], b[1]);
    } else {
      DecodeBlocksInverts(b[3..]);
      assert b == [b[0], b[1], b[2]] + b[3..];
      ThreeBytes(b[0], b[1], b[2], b[3..]);
    }
  }

  /** Round trip: every byte string survives encoding and decoding. */
  lemma DecodeInverts(b: seq<byte>)
    ensures Decode(Encode(b)) == Some(b)
  {
    EncodeAlphabet(b);
    NothingToStrip(Encode(b));
    DecodeBlocksInverts(b);
  }

  /** A character that is no symbol makes the whole text unreadable. */
  lemma {:induction false} GarbageIsRejected(s: string, i: nat)
    requires i < |s| && Value(s[i]).None?
    ensures DecodeBlocks(s).None?
    decreases i
  {
    if i >= 4 {
      assert s[4..][i - 4] == s[i];
      GarbageIsRejected(s[4..], i - 4);
    }
  }

  // ---------- Dots ----------

  /** `strings.Split(s, ".")` */
  function Split(s: string): (parts: seq<string>)
    ensures |parts| > 0
  {
    if s == "" then [""]
    else if s[0] == '.' then [""] + Split(s[1..])
    else
      var rest := Split(s[1..]);
      [[s[0]] + rest[0]] + rest[1..]
  }

  lemma {:induction false} SplitFirst(a: string, rest: string)
    requires '.' !in a
    ensures Split(a + "." + rest) == [a] + Split(rest)
  {
    var s := a + "." + rest;
    if a == "" {
      assert s[1..] == rest;
    } else {
      SplitFirst(a[1..], rest);
      assert s[1..] == a[1..] + "." + rest;
      assert a == [a[0]] + a[1..];
    }
  }

  lemma {:induction false} SplitWhole(a: string)
    requires '.' !in a
    ensures Split(a) == [a]
  {
    if a != "" {
      SplitWhole(a[1..]);
      assert a == [a[0]] + a[1..];
    }
  }

  function Compact(a: string, b: string, c: string): string {
    a + "." + b + "." + c
  }

  lemma NoDot(b: seq<byte>)
    ensures '.' !in Encode(b)
  {
    EncodeAlphabet(b);
    assert Value('.').None?;
  }

  /** The compact serialisation of section 7.1 of RFC 7515 splits back into its three parts. */
  lemma SplitCompact(a: string, b: string, c: string)
    requires '.' !in a && '.' !in b && '.' !in c
    ensures Split(Compact(a, b, c)) == [a, b, c]
  {
    assert Compact(a, b, c) == a + "." + (b + "." + c);
    SplitFirst(a, b + "." + c);
    SplitFirst(b, c);
    SplitWhole(c);
    assert [a] + ([b] + [c]) == [a, b, c];
  }
}
