/** The parts of Go's `strings` and `fmt` that the password hash strings rest on: splitting and joining,
    and printing and scanning with a format made of literals and decimal verbs. */
module Text {
  import opened Wrappers

  // Splitting

  /** `strings.Split(s, sep)` for a separator of one character. */
  function Split(s: string, sep: char): (parts: seq<string>)
    ensures |parts| > 0
  {
    if s == "" then [""]
    else
      var rest := Split(s[1..], sep);
      if s[0] == sep then [""] + rest
      else [[s[0]] + rest[0]] + rest[1..]
  }

  /** `strings.SplitN(s, sep, 2)`: at most one cut, at the first separator. */
  function SplitOnce(s: string, sep: char): (parts: seq<string>)
    ensures 0 < |parts| <= 2
  {
    if s == "" then [""]
    else if s[0] == sep then ["", s[1..]]
    else
      var rest := SplitOnce(s[1..], sep);
      [[s[0]] + rest[0]] + rest[1..]
  }

  /** `strings.Join(parts, sep)`. */
  function Join(parts: seq<string>, sep: char): string {
    if parts == [] then ""
    else if |parts| == 1 then parts[0]
    else parts[0] + [sep] + Join(parts[1..], sep)
  }

  predicate Free(sep: char, parts: seq<string>) {
    forall i :: 0 <= i < |parts| ==> sep !in parts[i]
  }

  /** A separator-free head followed by the separator is exactly the first part. */
  lemma {:induction false} SplitHead(head: string, tail: string, sep: char)
    requires sep !in head
    ensures Split(head + [sep] + tail, sep) == [head] + Split(tail, sep)
    ensures SplitOnce(head + [sep] + tail, sep) == [head, tail]
  {
    var s := head + [sep] + tail;
    if head == "" {
      assert s[1..] == tail;
    } else {
      SplitHead(head[1..], tail, sep);
      assert s[1..] == head[1..] + [sep] + tail;
      assert [head[0]] + head[1..] == head;
    }
  }

  lemma {:induction false} SplitNothing(s: string, sep: char)
    requires sep !in s
    ensures Split(s, sep) == [s] && SplitOnce(s, sep) == [s]
  {
    if s != "" {
      SplitNothing(s[1..], sep);
      assert [s[0]] + s[1..] == s;
    }
  }

  lemma {:induction false} SplitCounts(head: string, tail: string, sep: char)
    ensures |Split(head + [sep] + tail, sep)| == |Split(head, sep)| + |Split(tail, sep)|
  {
    var s := head + [sep] + tail;
    if head == "" {
      assert s[1..] == tail;
    } else {
      SplitCounts(head[1..], tail, sep);
      assert s[1..] == head[1..] + [sep] + tail;
    }
  }

  lemma {:induction false} SplitSeveral(s: string, sep: char)
    ensures sep in s <==> |Split(s, sep)| >= 2
  {
    if s != "" {
      SplitSeveral(s[1..], sep);
    }
  }

  /** Splitting undoes joining when no part holds the separator. Otherwise it yields more parts than were joined. */
  lemma {:induction false} SplitJoined(parts: seq<string>, sep: char)
    requires parts != []
    ensures Free(sep, parts) ==> Split(Join(parts, sep), sep) == parts
    ensures !Free(sep, parts) ==> |Split(Join(parts, sep), sep)| > |parts|
  {
    var head, rest := parts[0], parts[1..];
    SplitSeveral(head, sep);
    if |parts| == 1 {
      assert parts == [head];
      if Free(sep, parts) {
        SplitNothing(head, sep);
      }
    } else {
      SplitJoined(rest, sep);
      SplitCounts(head, Join(rest, sep), sep);
      assert parts == [head] + rest;
      if Free(sep, parts) {
        SplitHead(head, Join(rest, sep), sep);
      }
    }
  }

  // Decimal numbers

  predicate IsDigit(c: char) {
    '0' <= c <= '9'
  }

  predicate AllDigits(s: string) {
    forall i :: 0 <= i < |s| ==> IsDigit(s[i])
  }

  function PrintNat(n: nat): (s: string)
    ensures s != "" && AllDigits(s)
  {
    var last := ['0' + (n % 10) as char];
    if n < 10 then last else PrintNat(n / 10) + last
  }

  function PrintInt(n: int): string {
    if n < 0 then "-" + PrintNat(-n) else PrintNat(n)
  }

  function DecimalValue(s: string): nat
    requires AllDigits(s)
  {
    if s == "" then 0
    else DecimalValue(s[..|s| - 1]) * 10 + (s[|s| - 1] - '0') as nat
  }

  lemma {:induction false} PrintedValue(n: nat)
    ensures DecimalValue(PrintNat(n)) == n
  {
    if n >= 10 {
      PrintedValue(n / 10);
      var s := PrintNat(n);
      assert s[..|s| - 1] == PrintNat(n / 10);
    }
  }

  /** The longest run of digits at the start of s. */
  function DigitRun(s: string): (n: nat)
    ensures n <= |s| && AllDigits(s[..n]) && StartsNoDigit(s[n..])
  {
    if s == "" || !IsDigit(s[0]) then 0
    else
      var n := DigitRun(s[1..]) + 1;
      assert s[..n] == [s[0]] + s[1..][..n - 1] && s[n..] == s[1..][n - 1..];
      n
  }

  predicate StartsNoDigit(s: string) {
    s == "" || !IsDigit(s[0])
  }

  lemma {:induction false} DigitRunOf(digits: string, tail: string)
    requires AllDigits(digits) && StartsNoDigit(tail)
    ensures DigitRun(digits + tail) == |digits|
  {
    if digits == "" {
      assert digits + tail == tail;
    } else {
      var s := digits + tail;
      assert s[0] == digits[0] && s[1..] == digits[1..] + tail;
      DigitRunOf(digits[1..], tail);
    }
  }

  // Formats

  /** A piece of a format: literal text followed by a `%d` verb for an integer type of the given range. */
  datatype Field = Field(lead: string, lo: int, hi: int)

  type Format = seq<Field>

  /** `fmt.Sprintf(format, args...)`. */
  function Print(format: Format, args: seq<int>): string
    requires |args| == |format|
  {
    if format == [] then ""
    else format[0].lead + PrintInt(args[0]) + Print(format[1..], args[1..])
  }

  lemma PrintOne(f: Field, n: int)
    ensures Print([f], [n]) == f.lead + PrintInt(n)
  {
    assert Print([f][1..], [n][1..]) == "";
  }

  lemma PrintMore(f: Field, format: Format, n: int, args: seq<int>)
    requires |args| == |format|
    ensures Print([f] + format, [n] + args) == f.lead + PrintInt(n) + Print(format, args)
  {
    assert ([f] + format)[1..] == format && ([n] + args)[1..] == args;
  }

  function SkipBlanks(s: string): string {
    if s != "" && (s[0] == ' ' || s[0] == '\t') then SkipBlanks(s[1..]) else s
  }

  function Signed(negative: bool, magnitude: int): int {
    if negative then -magnitude else magnitude
  }

  /** At least one digit and a value in range. Yields the value and what follows it. */
  function ScanMagnitude(s: string, negative: bool, lo: int, hi: int): Option<(int, string)> {
    var n := DigitRun(s);
    if n == 0 then None
    else
      var magnitude: int := DecimalValue(s[..n]);
      var v := Signed(negative, magnitude);
      if lo <= v <= hi then Some((v, s[n..])) else None
  }

  /** One `%d` verb: blanks, a sign when the type is signed, then the digits. */
  function ScanNumber(s: string, lo: int, hi: int): Option<(int, string)> {
    var t := SkipBlanks(s);
    if lo < 0 && t != "" && (t[0] == '-' || t[0] == '+') then ScanMagnitude(t[1..], t[0] == '-', lo, hi)
    else ScanMagnitude(t, false, lo, hi)
  }

  /** `fmt.Sscanf(s, format, ...)`: what follows the last verb is ignored. */
  function Scan(format: Format, s: string): (r: Option<seq<int>>)
    ensures r.Some? ==> |r.value| == |format| && Fits(format, r.value)
  {
    if format == [] then Some([])
    else if format[0].lead <= s then
      var (v, rest) :- ScanNumber(s[|format[0].lead|..], format[0].lo, format[0].hi);
      var vs :- Scan(format[1..], rest);
      Some([v] + vs)
    else None
  }

  predicate Fits(format: Format, args: seq<int>)
    requires |args| == |format|
  {
    forall i :: 0 <= i < |format| ==> format[i].lo <= args[i] <= format[i].hi
  }

  /** No lead is empty or starts with a digit, so a printed number always ends where the next lead starts. */
  predicate Separated(format: Format) {
    forall i :: 0 <= i < |format| ==> format[i].lead != "" && !IsDigit(format[i].lead[0])
  }

  lemma ScanMagnitudeOf(digits: string, tail: string, negative: bool, lo: int, hi: int)
    requires digits != "" && AllDigits(digits) && StartsNoDigit(tail)
    requires lo <= Signed(negative, DecimalValue(digits)) <= hi
    ensures ScanMagnitude(digits + tail, negative, lo, hi) == Some((Signed(negative, DecimalValue(digits)), tail))
  {
    var s := digits + tail;
    DigitRunOf(digits, tail);
    assert s[..|digits|] == digits && s[|digits|..] == tail;
  }

  lemma SkipNothing(s: string)
    requires s != "" && (IsDigit(s[0]) || s[0] == '-')
    ensures SkipBlanks(s) == s
  {
  }

  lemma ScanPlain(digits: string, tail: string, lo: int, hi: int)
    requires digits != "" && AllDigits(digits) && StartsNoDigit(tail) && lo <= DecimalValue(digits) <= hi
    ensures ScanNumber(digits + tail, lo, hi) == Some((DecimalValue(digits) as int, tail))
  {
    assert (digits + tail)[0] == digits[0];
    SkipNothing(digits + tail);
    ScanMagnitudeOf(digits, tail, false, lo, hi);
  }

  lemma ScanNegative(digits: string, tail: string, lo: int, hi: int)
    requires digits != "" && AllDigits(digits) && StartsNoDigit(tail)
    requires lo < 0 && lo <= Signed(true, DecimalValue(digits)) <= hi
    ensures ScanNumber("-" + digits + tail, lo, hi) == Some((Signed(true, DecimalValue(digits)), tail))
  {
    var t := "-" + digits + tail;
    assert t[0] == '-' && t[1..] == digits + tail;
    SkipNothing(t);
    ScanMagnitudeOf(digits, tail, true, lo, hi);
  }

  lemma ScanPrintedNumber(n: int, lo: int, hi: int, tail: string)
    requires lo <= n <= hi && StartsNoDigit(tail)
    ensures ScanNumber(PrintInt(n) + tail, lo, hi) == Some((n, tail))
  {
    var magnitude := if n < 0 then -n else n;
    PrintedValue(magnitude);
    if n < 0 {
      ScanNegative(PrintNat(magnitude), tail, lo, hi);
    } else {
      ScanPlain(PrintNat(magnitude), tail, lo, hi);
    }
  }

  lemma PrintedStart(format: Format, args: seq<int>)
    requires |args| == |format| && Separated(format)
    ensures StartsNoDigit(Print(format, args))
  {
  }

  lemma ScanOne(format: Format, n: int, number: string, rest: string)
    requires format != [] && ScanNumber(number + rest, format[0].lo, format[0].hi) == Some((n, rest))
    requires Scan(format[1..], rest).Some?
    ensures Scan(format, format[0].lead + number + rest) == Some([n] + Scan(format[1..], rest).value)
  {
    var lead, tail := format[0].lead, number + rest;
    assert lead + number + rest == lead + tail;
    assert (lead + tail)[|lead|..] == tail;
  }

  /** Scanning undoes printing, for every separated format and every fitting argument list. */
  lemma {:induction false} ScanPrinted(format: Format, args: seq<int>)
    requires |args| == |format| && Separated(format) && Fits(format, args)
    ensures Scan(format, Print(format, args)) == Some(args)
  {
    if format != [] {
      ScanPrinted(format[1..], args[1..]);
      PrintedStart(format[1..], args[1..]);
      ScanPrintedNumber(args[0], format[0].lo, format[0].hi, Print(format[1..], args[1..]));
      ScanOne(format, args[0], PrintInt(args[0]), Print(format[1..], args[1..]));
      assert args == [args[0]] + args[1..];
    }
  }

  lemma {:induction false} PrintAvoids(c: char, format: Format, args: seq<int>)
    requires |args| == |format| && !IsDigit(c) && c != '-'
    requires forall i :: 0 <= i < |format| ==> c !in format[i].lead
    ensures c !in Print(format, args)
  {
    if format != [] {
      PrintAvoids(c, format[1..], args[1..]);
    }
  }

  // What scanning accepts

  /** Every digit counts ten times the one behind it, and numbers are printed without leading zeros. */
  lemma DecimalNotation(s: string, c: char, n: nat)
    requires AllDigits(s) && IsDigit(c)
    ensures AllDigits(s + [c]) && DecimalValue(s + [c]) == 10 * DecimalValue(s) + (c as int - '0' as int)
    ensures DecimalValue("") == 0
    ensures PrintNat(n)[0] == '0' ==> n == 0
    ensures PrintNat(0) == "0"
  {
    assert (s + [c])[..|s|] == s;
    NoLeadingZero(n);
  }

  lemma {:induction false} NoLeadingZero(n: nat)
    ensures PrintNat(n)[0] == '0' ==> n == 0
  {
    if n >= 10 {
      NoLeadingZero(n / 10);
    }
  }

  predicate Blanks(s: string) {
    forall i :: 0 <= i < |s| ==> s[i] == ' ' || s[i] == '\t'
  }

  predicate StartsNoBlank(s: string) {
    s == "" || (s[0] != ' ' && s[0] != '\t')
  }

  lemma {:induction false} SkipsBlanks(pad: string, t: string)
    requires Blanks(pad) && StartsNoBlank(t)
    ensures SkipBlanks(pad + t) == t
  {
    if pad == "" {
      assert pad + t == t;
    } else {
      SkipsBlanks(pad[1..], t);
      assert (pad + t)[1..] == pad[1..] + t;
    }
  }

  lemma {:induction false} SkippedRun(s: string) returns (n: nat)
    ensures n <= |s| && SkipBlanks(s) == s[n..] && Blanks(s[..n]) && StartsNoBlank(s[n..])
  {
    if s != "" && (s[0] == ' ' || s[0] == '\t') {
      var k := SkippedRun(s[1..]);
      n := k + 1;
      assert s[n..] == s[1..][k..];
      assert s[..n] == [s[0]] + s[1..][..k];
    } else {
      n := 0;
    }
  }

  lemma SkippedBlanks(s: string) returns (pad: string)
    ensures s == pad + SkipBlanks(s) && Blanks(pad) && StartsNoBlank(SkipBlanks(s))
  {
    var n := SkippedRun(s);
    pad := s[..n];
  }

  /** Blanks, a sign where the type has one, digits up to a character that is none, and a value in range. */
  predicate Reads(s: string, lo: int, hi: int, pad: string, sign: string, digits: string, v: int, rest: string) {
    && s == pad + (sign + (digits + rest)) && Blanks(pad)
    && (sign == "" || (lo < 0 && (sign == "-" || sign == "+")))
    && digits != "" && AllDigits(digits) && StartsNoDigit(rest)
    && v == Signed(sign == "-", DecimalValue(digits)) && lo <= v <= hi
  }

  lemma ScansPlain(t: string, lo: int, hi: int)
    requires t != "" && IsDigit(t[0])
    ensures ScanNumber(t, lo, hi) == ScanMagnitude(t, false, lo, hi)
  {
  }

  lemma ScansSigned(t: string, lo: int, hi: int)
    requires t != "" && (t[0] == '-' || t[0] == '+') && lo < 0
    ensures ScanNumber(t, lo, hi) == ScanMagnitude(t[1..], t[0] == '-', lo, hi)
  {
  }

  lemma ScansPast(pad: string, t: string, lo: int, hi: int)
    requires Blanks(pad) && StartsNoBlank(t)
    ensures ScanNumber(pad + t, lo, hi) == ScanNumber(t, lo, hi)
  {
    SkipsBlanks(pad, t);
    SkipsBlanks("", t);
    assert "" + t == t;
  }

  lemma ReadsScans(s: string, lo: int, hi: int, pad: string, sign: string, digits: string, v: int, rest: string)
    requires Reads(s, lo, hi, pad, sign, digits, v, rest)
    ensures ScanNumber(s, lo, hi) == Some((v, rest))
  {
    var t := sign + (digits + rest);
    ScanMagnitudeOf(digits, rest, sign == "-", lo, hi);
    assert t[0] == if sign == "" then digits[0] else sign[0];
    ScansPast(pad, t, lo, hi);
    if sign == "" {
      assert t == digits + rest;
      ScansPlain(t, lo, hi);
    } else {
      assert t[1..] == digits + rest;
      ScansSigned(t, lo, hi);
    }
  }

  lemma MagnitudeReads(u: string, negative: bool, lo: int, hi: int) returns (digits: string)
    requires ScanMagnitude(u, negative, lo, hi).Some?
    ensures var (v, rest) := ScanMagnitude(u, negative, lo, hi).value;
            && u == digits + rest && digits != "" && AllDigits(digits) && StartsNoDigit(rest)
            && v == Signed(negative, DecimalValue(digits)) && lo <= v <= hi
  {
    digits := u[..DigitRun(u)];
    assert u == digits + u[DigitRun(u)..];
  }

  lemma ScansReads(s: string, lo: int, hi: int) returns (pad: string, sign: string, digits: string)
    requires ScanNumber(s, lo, hi).Some?
    ensures var (v, rest) := ScanNumber(s, lo, hi).value; Reads(s, lo, hi, pad, sign, digits, v, rest)
  {
    pad := SkippedBlanks(s);
    var t := SkipBlanks(s);
    if lo < 0 && t != "" && (t[0] == '-' || t[0] == '+') {
      sign := [t[0]];
      digits := MagnitudeReads(t[1..], t[0] == '-', lo, hi);
      assert t == sign + t[1..];
    } else {
      sign := "";
      digits := MagnitudeReads(t, false, lo, hi);
      assert t == sign + t;
    }
  }

  /** One verb accepts exactly blanks, a sign where the type has one, and digits whose value is in range, all of them. */
  lemma ScanNumberExactly(s: string, lo: int, hi: int, v: int, rest: string)
    ensures ScanNumber(s, lo, hi) == Some((v, rest)) <==>
              exists pad, sign, digits :: Reads(s, lo, hi, pad, sign, digits, v, rest)
  {
    if pad, sign, digits :| Reads(s, lo, hi, pad, sign, digits, v, rest) {
      ReadsScans(s, lo, hi, pad, sign, digits, v, rest);
    }
    if ScanNumber(s, lo, hi) == Some((v, rest)) {
      var pad, sign, digits := ScansReads(s, lo, hi);
    }
  }
}
