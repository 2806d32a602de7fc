/** Unpadded Base64: section 4 of RFC 4648 without padding (section 3.2), decoded strictly (section 3.5).
    As in Go's `base64.RawStdEncoding.Strict()`, the decoder skips carriage returns and line feeds. */
module Base64 {
  import opened Wrappers

  type Byte = bv8
  type Sextet = bv6

  /** The Base64 alphabet in order. */
  function SymbolAt(i: int): char
    requires 0 <= i < 64
  {
    if i < 26 then ('A' as int + i) as char
    else if i < 52 then ('a' as int + (i - 26)) as char
    else if i < 62 then ('0' as int + (i - 52)) as char
    else if i == 62 then '+'
    else '/'
  }

  function IndexOf(c: char): (i: Option<int>)
    ensures i.Some? ==> 0 <= i.value < 64
  {
    if 'A' <= c <= 'Z' then Some(c as int - 'A' as int)
    else if 'a' <= c <= 'z' then Some(c as int - 'a' as int + 26)
    else if '0' <= c <= '9' then Some(c as int - '0' as int + 52)
    else if c == '+' then Some(62)
    else if c == '/' then Some(63)
    else None
  }

  function Symbol(v: Sextet): char {
    SymbolAt(v as int)
  }

  function Value(c: char): Option<Sextet> {
    var i :- IndexOf(c);
    Some(i as bv6)
  }

  predicate InAlphabet(s: string) {
    forall i :: 0 <= i < |s| ==> Value(s[i]).Some?
  }

  // Three bytes and four sextets hold the same 24 bits.

  function Sextet0(b0: Byte): Sextet {
    (b0 >> 2) as bv6
  }

  function Sextet1(b0: Byte, b1: Byte): Sextet {
    (((b0 & 3) << 4) | (b1 >> 4)) as bv6
  }

  function Sextet2(b1: Byte, b2: Byte): Sextet {
    (((b1 & 15) << 2) | (b2 >> 6)) as bv6
  }

  function Sextet3(b2: Byte): Sextet {
    (b2 & 63) as bv6
  }

  function Byte0(v0: Sextet, v1: Sextet): Byte {
    (v0 as bv8 << 2) | (v1 as bv8 >> 4)
  }

  function Byte1(v1: Sextet, v2: Sextet): Byte {
    (v1 as bv8 << 4) | (v2 as bv8 >> 2)
  }

  function Byte2(v2: Sextet, v3: Sextet): Byte {
    (v2 as bv8 << 6) | v3 as bv8
  }

  /** The bits of b in groups of six, the last group filled up with zeros. */
  function Sextets(b: seq<Byte>): seq<Sextet> {
    if |b| == 0 then []
    else if |b| == 1 then [Sextet0(b[0]), Sextet1(b[0], 0)]
    else if |b| == 2 then [Sextet0(b[0]), Sextet1(b[0], b[1]), Sextet2(b[1], 0)]
    else Quantum(b[0], b[1], b[2]) + Sextets(b[3..])
  }

  function Quantum(b0: Byte, b1: Byte, b2: Byte): seq<Sextet> {
    [Sextet0(b0), Sextet1(b0, b1), Sextet2(b1, b2), Sextet3(b2)]
  }

  /** The inverse: quanta of four, then a tail of two or three whose left-over bits must be zero. */
  function Octets(v: seq<Sextet>): Option<seq<Byte>> {
    if |v| == 0 then Some([])
    else if |v| == 1 then None
    else if |v| == 2 then
      if Byte1(v[1], 0) == 0 then Some([Byte0(v[0], v[1])]) else None
    else if |v| == 3 then
      if Byte2(v[2], 0) == 0 then Some([Byte0(v[0], v[1]), Byte1(v[1], v[2])]) else None
    else
      var rest :- Octets(v[4..]);
      Some([Byte0(v[0], v[1]), Byte1(v[1], v[2]), Byte2(v[2], v[3])] + rest)
  }

  function Symbols(v: seq<Sextet>): string {
    if v == [] then "" else [Symbol(v[0])] + Symbols(v[1..])
  }

  function Values(s: string): Option<seq<Sextet>> {
    if s == "" then Some([])
    else
      var v :- Value(s[0]);
      var rest :- Values(s[1..]);
      Some([v] + rest)
  }

  function Encode(b: seq<Byte>): string {
    Symbols(Sextets(b))
  }

  function StripLineBreaks(s: string): string {
    if s == "" then ""
    else if s[0] == '\r' || s[0] == '\n' then StripLineBreaks(s[1..])
    else [s[0]] + StripLineBreaks(s[1..])
  }

  function Decode(s: string): Option<seq<Byte>> {
    var v :- Values(StripLineBreaks(s));
    Octets(v)
  }

  lemma AlphabetInverse(i: int, c: char)
    ensures 0 <= i < 64 ==> IndexOf(SymbolAt(i)) == Some(i)
    ensures IndexOf(c).Some? ==> SymbolAt(IndexOf(c).value) == c
  {
  }

  lemma SextetOfIndex(i: int)
    requires 0 <= i < 64
    ensures (i as bv6) as int == i
  {
  }

  lemma SymbolValue(v: Sextet)
    ensures Value(Symbol(v)) == Some(v)
  {
    AlphabetInverse(v as int, 'A');
  }

  lemma ValueSymbol(c: char)
    requires Value(c).Some?
    ensures Symbol(Value(c).value) == c
  {
    AlphabetInverse(0, c);
    SextetOfIndex(IndexOf(c).value);
  }

  lemma {:induction false} SymbolsThenValues(v: seq<Sextet>)
    ensures Values(Symbols(v)) == Some(v) && InAlphabet(Symbols(v))
  {
    if v != [] {
      SymbolValue(v[0]);
      SymbolsThenValues(v[1..]);
      assert Symbols(v)[1..] == Symbols(v[1..]);
      assert v == [v[0]] + v[1..];
    }
  }

  lemma {:induction false} ValuesThenSymbols(s: string)
    requires Values(s).Some?
    ensures Symbols(Values(s).value) == s
  {
    if s != "" {
      ValueSymbol(s[0]);
      ValuesThenSymbols(s[1..]);
      assert Values(s).value[1..] == Values(s[1..]).value;
    }
  }

  lemma {:induction false} SextetsThenOctets(b: seq<Byte>)
    ensures Octets(Sextets(b)) == Some(b)
  {
    if |b| == 1 {
      assert b == [b[0]];
    } else if |b| == 2 {
      assert b == [b[0], b[1]];
    } else if |b| > 2 {
      SextetsThenOctets(b[3..]);
      assert Sextets(b)[4..] == Sextets(b[3..]);
      assert b == [b[0], b[1], b[2]] + b[3..];
    }
  }

  lemma {:induction false} OctetsThenSextets(v: seq<Sextet>)
    requires Octets(v).Some?
    ensures Sextets(Octets(v).value) == v
  {
    if |v| == 2 {
      assert v == [v[0], v[1]];
    } else if |v| == 3 {
      assert v == [v[0], v[1], v[2]];
    } else if |v| > 3 {
      OctetsThenSextets(v[4..]);
      assert Octets(v).value[3..] == Octets(v[4..]).value;
      assert v == [v[0], v[1], v[2], v[3]] + v[4..];
    }
  }

  lemma {:induction false} StripKeepsAlphabet(s: string)
    requires InAlphabet(s)
    ensures StripLineBreaks(s) == s
  {
    if s != "" {
      assert InAlphabet(s[1..]);
      assert Value(s[0]).Some?;
      StripKeepsAlphabet(s[1..]);
    }
  }

  /** Strict decoding accepts exactly the canonical encodings, up to line breaks. */
  lemma DecodeExactlyCanonical(s: string, b: seq<Byte>)
    ensures Decode(s) == Some(b) <==> StripLineBreaks(s) == Encode(b)
  {
    SymbolsThenValues(Sextets(b));
    SextetsThenOctets(b);
    if Decode(s) == Some(b) {
      var stripped := StripLineBreaks(s);
      ValuesThenSymbols(stripped);
      OctetsThenSextets(Values(stripped).value);
    }
  }

  lemma DecodeEncoded(b: seq<Byte>)
    ensures InAlphabet(Encode(b)) && Decode(Encode(b)) == Some(b)
  {
    SymbolsThenValues(Sextets(b));
    StripKeepsAlphabet(Encode(b));
    DecodeExactlyCanonical(Encode(b), b);
  }

  // What the symbols and the groups are

  const CAPITALS: string := "ABCDEFGHIJKLMNOPQRSTUVWXYZ"
  const SMALLS: string := "abcdefghijklmnopqrstuvwxyz"
  const OTHERS: string := "0123456789+/"
  const ALPHABET: string := CAPITALS + SMALLS + OTHERS

  lemma CapitalAt(i: int)
    requires 0 <= i < 26
    ensures |CAPITALS| == 26 && CAPITALS[i] == SymbolAt(i)
  {
  }

  lemma SmallAt(i: int)
    requires 0 <= i < 26
    ensures |SMALLS| == 26 && SMALLS[i] == SymbolAt(26 + i)
  {
  }

  lemma OtherAt(i: int)
    requires 0 <= i < 12
    ensures |OTHERS| == 12 && OTHERS[i] == SymbolAt(52 + i)
  {
  }

  lemma Concatenated(a: string, b: string, c: string, i: int)
    requires 0 <= i < |a| + |b| + |c|
    ensures (a + b + c)[i] == if i < |a| then a[i] else if i < |a| + |b| then b[i - |a|] else c[i - |a| - |b|]
  {
  }

  /** The symbols are those of table 1 of RFC 4648, in order. */
  lemma AlphabetIs(i: int)
    requires 0 <= i < 64
    ensures |ALPHABET| == 64 && SymbolAt(i) == ALPHABET[i]
  {
    CapitalAt(if i < 26 then i else 0);
    SmallAt(if 26 <= i < 52 then i - 26 else 0);
    OtherAt(if 52 <= i then i - 52 else 0);
    Concatenated(CAPITALS, SMALLS, OTHERS, i);
  }

  /** Three bytes and their four groups are the same 24 bits, most significant first. */
  lemma QuantumBits(b0: Byte, b1: Byte, b2: Byte)
    ensures var v := Quantum(b0, b1, b2);
            && |v| == 4
            && (v[0] as bv24 << 18) | (v[1] as bv24 << 12) | (v[2] as bv24 << 6) | v[3] as bv24
               == (b0 as bv24 << 16) | (b1 as bv24 << 8) | b2 as bv24
  {
  }

  /** A single last byte or two last bytes are filled up with zero bits at the end. */
  lemma TailBits(b0: Byte, b1: Byte)
    ensures var v := Sextets([b0]); |v| == 2 && (v[0] as bv12 << 6) | v[1] as bv12 == b0 as bv12 << 4
    ensures var v := Sextets([b0, b1]);
            && |v| == 3
            && (v[0] as bv18 << 12) | (v[1] as bv18 << 6) | v[2] as bv18 == (b0 as bv18 << 10) | (b1 as bv18 << 2)
  {
  }

  /** The groups of the first three bytes come first. */
  lemma QuantumFirst(b: seq<Byte>)
    requires |b| >= 3
    ensures Sextets(b) == Quantum(b[0], b[1], b[2]) + Sextets(b[3..])
  {
  }

  lemma {:induction false} SymbolsAt(v: seq<Sextet>, i: nat)
    requires i < |v|
    ensures |Symbols(v)| == |v| && Symbols(v)[i] == ALPHABET[v[i] as int]
  {
    AlphabetIs(v[i] as int);
    if i == 0 {
      SymbolsLength(v);
    } else {
      SymbolsAt(v[1..], i - 1);
    }
  }

  lemma {:induction false} SymbolsLength(v: seq<Sextet>)
    ensures |Symbols(v)| == |v|
  {
    if v != [] {
      SymbolsLength(v[1..]);
    }
  }
}
