/** The JSON number scanner against the number grammar of section 6 of RFC 7159. */
module JsonNumber {
  import opened Text

  // The grammar: number = [ minus ] int [ frac ] [ exp ]

  predicate IsMinus(s: string) {
    s == "" || s == "-"
  }

  predicate IsDigits(s: string) {
    s != "" && AllDigits(s)
  }

  predicate IsInt(s: string) {
    s == "0" || (IsDigits(s) && s[0] != '0')
  }

  predicate IsFrac(s: string) {
    s == "" || (s[0] == '.' && IsDigits(s[1..]))
  }

  predicate IsSign(s: string) {
    s == "" || s == "+" || s == "-"
  }

  ghost predicate IsExp(s: string) {
    || s == ""
    || ((s[0] == 'e' || s[0] == 'E')
        && exists sign, digits :: IsSign(sign) && IsDigits(digits) && s[1..] == sign + digits)
  }

  ghost predicate IsFracExp(s: string) {
    exists f, e :: IsFrac(f) && IsExp(e) && s == f + e
  }

  ghost predicate IsUnsigned(s: string) {
    exists i, t :: IsInt(i) && IsFracExp(t) && s == i + t
  }

  ghost predicate IsNumber(s: string) {
    exists m, u :: IsMinus(m) && IsUnsigned(u) && s == m + u
  }

  // How the scanner's branches relate to the grammar

  lemma ExpStarts(e: string)
    requires IsExp(e)
    ensures e == "" || (|e| >= 2 && (e[0] == 'e' || e[0] == 'E'))
  {
    if e != "" {
      var sign, digits :| IsSign(sign) && IsDigits(digits) && e[1..] == sign + digits;
    }
  }

  lemma ExpShort(s: string)
    requires !(|s| >= 2 && (s[0] == 'e' || s[0] == 'E'))
    ensures IsExp(s) <==> s == ""
  {
    if IsExp(s) {
      ExpStarts(s);
    }
  }

  lemma FracStarts(f: string)
    requires IsFrac(f)
    ensures f == "" || (|f| >= 2 && f[0] == '.' && IsDigit(f[1]))
  {
    if f != "" {
      assert IsDigit(f[1..][0]);
    }
  }

  lemma FracExpStarts(t: string)
    requires IsFracExp(t)
    ensures t == "" || t[0] == '.' || t[0] == 'e' || t[0] == 'E'
  {
    var f, e :| IsFrac(f) && IsExp(e) && t == f + e;
    ExpStarts(e);
    assert f == "" ==> t == e;
  }

  /** After the mark and an optional sign, all that is left must be digits. */
  lemma ExpBody(s: string, body: string)
    requires |s| >= 2 && (s[0] == 'e' || s[0] == 'E')
    requires body == if s[1] == '+' || s[1] == '-' then s[2..] else s[1..]
    ensures IsExp(s) <==> IsDigits(body)
  {
    if IsDigits(body) {
      var sign := if s[1] == '+' || s[1] == '-' then [s[1]] else "";
      assert s[1..] == sign + body;
    }
    if IsExp(s) {
      var sign, digits :| IsSign(sign) && IsDigits(digits) && s[1..] == sign + digits;
      assert s[1] == (sign + digits)[0];
      if sign == "" {
        assert IsDigit(digits[0]);
        assert body == digits;
      } else {
        assert s[1] == sign[0];
        assert s[2..] == s[1..][1..] == digits;
      }
    }
  }

  /** The scanner stands at n, with `rest` left, after reading digits from `from`. */
  predicate DigitsUpTo(s: string, from: nat, n: nat, rest: string) {
    from <= n <= |s| && rest == s[n..] && AllDigits(s[from..n])
  }

  lemma OneMoreDigit(s: string, from: nat, n: nat, rest: string)
    requires DigitsUpTo(s, from, n, rest) && rest != "" && IsDigit(rest[0])
    ensures DigitsUpTo(s, from, n + 1, rest[1..])
  {
    assert s[from..n + 1] == s[from..n] + [rest[0]];
  }

  lemma FracAndExp(s: string, n: nat, rest: string)
    requires 2 <= n && s != "" && s[0] == '.' && DigitsUpTo(s, 1, n, rest) && IsExp(rest)
    ensures IsFracExp(s)
  {
    assert s == s[..n] + rest;
    assert s[..n][1..] == s[1..n];
    assert IsFrac(s[..n]);
  }

  lemma FracTakesAll(s: string, n: nat, rest: string)
    requires 2 <= n && s != "" && s[0] == '.' && DigitsUpTo(s, 1, n, rest) && StartsNoDigit(rest) && IsFracExp(s)
    ensures IsExp(rest)
  {
    var f, e :| IsFrac(f) && IsExp(e) && s == f + e;
    ExpStarts(e);
    assert f == "" ==> s == e;
    var digits, tail := f[1..], s[1..];
    assert tail == digits + e;
    assert tail[..n - 1] == s[1..n] && tail[n - 1..] == rest;
    RunsAgree(tail, digits, e, n - 1);
  }

  /** A digit run that cannot be extended is the fraction. */
  lemma FracTaken(s: string, n: nat, rest: string)
    requires 2 <= n && s != "" && s[0] == '.' && DigitsUpTo(s, 1, n, rest) && StartsNoDigit(rest)
    ensures IsFracExp(s) <==> IsExp(rest)
  {
    if IsExp(rest) {
      FracAndExp(s, n, rest);
    }
    if IsFracExp(s) {
      FracTakesAll(s, n, rest);
    }
  }

  /** Two ways of cutting a digit run off the front, both stopping before a non-digit, cut at the same place. */
  lemma RunsAgree(s: string, digits: string, tail: string, n: nat)
    requires s == digits + tail && AllDigits(digits) && StartsNoDigit(tail)
    requires n <= |s| && AllDigits(s[..n]) && StartsNoDigit(s[n..])
    ensures n == |digits| && tail == s[n..]
  {
    DigitRunOf(digits, tail);
    DigitRunOf(s[..n], s[n..]);
    assert s == s[..n] + s[n..];
  }

  lemma NoFrac(s: string)
    requires !(|s| >= 2 && s[0] == '.' && IsDigit(s[1]))
    ensures IsFracExp(s) <==> IsExp(s)
  {
    if IsExp(s) {
      assert IsFrac("") && s == "" + s;
    }
    if IsFracExp(s) {
      var f, e :| IsFrac(f) && IsExp(e) && s == f + e;
      FracStarts(f);
      assert s == e;
    }
  }

  /** A digit run that starts with no zero and cannot be extended is the integer part. */
  lemma IntTaken(s: string, n: nat, rest: string)
    requires 1 <= n && s != "" && s[0] != '0' && DigitsUpTo(s, 0, n, rest) && StartsNoDigit(rest)
    ensures IsUnsigned(s) <==> IsFracExp(rest)
  {
    if IsFracExp(rest) {
      assert IsInt(s[..n]) && s == s[..n] + rest;
    }
    if IsUnsigned(s) {
      var i, t :| IsInt(i) && IsFracExp(t) && s == i + t;
      assert i[0] == s[0];
      FracExpStarts(t);
      RunsAgree(s, i, t, n);
    }
  }

  lemma ZeroTaken(s: string)
    requires s != "" && s[0] == '0'
    ensures IsUnsigned(s) <==> IsFracExp(s[1..])
  {
    if IsFracExp(s[1..]) {
      assert IsInt("0") && s == "0" + s[1..];
    }
    if IsUnsigned(s) {
      var i, t :| IsInt(i) && IsFracExp(t) && s == i + t;
      assert i[0] == s[0];
      assert i == "0" && t == s[1..];
    }
  }

  lemma NoInt(s: string)
    requires s == "" || !IsDigit(s[0])
    ensures !IsUnsigned(s)
  {
    forall i, t | IsInt(i) && IsFracExp(t)
      ensures s != i + t
    {
      assert IsDigit((i + t)[0]);
    }
  }

  lemma MinusTaken(s: string)
    ensures IsNumber(s) <==> IsUnsigned(if s != "" && s[0] == '-' then s[1..] else s)
  {
    var u := if s != "" && s[0] == '-' then s[1..] else s;
    if IsUnsigned(u) {
      var m := if s != "" && s[0] == '-' then "-" else "";
      assert IsMinus(m) && s == m + u;
    }
    if IsNumber(s) {
      var m, v :| IsMinus(m) && IsUnsigned(v) && s == m + v;
      if m == "" {
        assert s == v;
        UnsignedStarts(v);
      }
    }
  }

  lemma UnsignedStarts(v: string)
    requires IsUnsigned(v)
    ensures v != "" && IsDigit(v[0])
  {
    var i, t :| IsInt(i) && IsFracExp(t) && v == i + t;
    assert v[0] == i[0];
  }

  // The scanner, section by section

  /** A dot followed by one or more digits, if there is one. */
  method SkipFraction(input: string) returns (s: string)
    ensures IsFracExp(input) <==> IsExp(s)
  {
    s := input;
    if |s| >= 2 && s[0] == '.' && '0' <= s[1] <= '9' {
      s := s[2..];
      ghost var n := 2;
      while |s| > 0 && '0' <= s[0] <= '9'
        invariant 2 <= n && DigitsUpTo(input, 1, n, s)
      {
        OneMoreDigit(input, 1, n, s);
        s, n := s[1..], n + 1;
      }
      FracTaken(input, n, s);
    } else {
      NoFrac(s);
    }
  }

  /** e or E followed by an optional sign and digits, if there is one, and then the end. */
  method EndsAfterExponent(input: string) returns (valid: bool)
    ensures valid <==> IsExp(input)
  {
    var s := input;
    if |s| >= 2 && (s[0] == 'e' || s[0] == 'E') {
      s := s[1..];
      if s[0] == '+' || s[0] == '-' {
        s := s[1..];
        if s == "" {
          ExpBody(input, s);
          return false;
        }
      }
      ghost var body, n := s, 0;
      ExpBody(input, body);
      while |s| > 0 && '0' <= s[0] <= '9'
        invariant DigitsUpTo(body, 0, n, s)
      {
        OneMoreDigit(body, 0, n, s);
        s, n := s[1..], n + 1;
      }
      assert s != "" ==> s[0] == body[n];
    } else {
      ExpShort(s);
    }
    return s == "";
  }

  /** `IsValidNumber`: true for exactly the strings of the grammar. */
  method IsValidNumber(input: string) returns (valid: bool)
    ensures valid <==> IsNumber(input)
  {
    var s := input;
    MinusTaken(s);
    if s == "" {
      NoInt(s);
      return false;
    }
    if s[0] == '-' {
      s := s[1..];
      if s == "" {
        NoInt(s);
        return false;
      }
    }

    ghost var whole := s;
    if s[0] == '0' {
      ZeroTaken(s);
      s := s[1..];
    } else if '1' <= s[0] <= '9' {
      s := s[1..];
      ghost var n := 1;
      while |s| > 0 && '0' <= s[0] <= '9'
        invariant 1 <= n && DigitsUpTo(whole, 0, n, s)
      {
        OneMoreDigit(whole, 0, n, s);
        s, n := s[1..], n + 1;
      }
      IntTaken(whole, n, s);
    } else {
      NoInt(s);
      return false;
    }

    s := SkipFraction(s);
    valid := EndsAfterExponent(s);
  }
}
