/** The configured ciphers: hexadecimal text over an authenticated cipher, tried with every configured key. */
module Ciphers {
  import opened Wrappers

  type Byte = bv8
  type Nibble = bv4
  type Bytes = seq<Byte>
  type Key = k: Bytes | |k| == 32 witness seq(32, i => 0)

  // Hexadecimal

  function DigitAt(i: int): char
    requires 0 <= i < 16
  {
    if i < 10 then ('0' as int + i) as char else ('a' as int + (i - 10)) as char
  }

  function DigitIndex(c: char): (i: Option<int>)
    ensures i.Some? ==> 0 <= i.value < 16
  {
    if '0' <= c <= '9' then Some(c as int - '0' as int)
    else if 'a' <= c <= 'f' then Some(c as int - 'a' as int + 10)
    else if 'A' <= c <= 'F' then Some(c as int - 'A' as int + 10)
    else None
  }

  function Digit(n: Nibble): char {
    DigitAt(n as int)
  }

  function NibbleOf(c: char): Option<Nibble> {
    var i :- DigitIndex(c);
    Some(i as bv4)
  }

  function High(b: Byte): Nibble {
    (b >> 4) as bv4
  }

  function Low(b: Byte): Nibble {
    (b & 15) as bv4
  }

  function Glue(high: Nibble, low: Nibble): Byte {
    (high as bv8 << 4) | low as bv8
  }

  function HexEncode(b: Bytes): string {
    if b == [] then "" else [Digit(High(b[0])), Digit(Low(b[0]))] + HexEncode(b[1..])
  }

  function HexDecode(s: string): Option<Bytes> {
    if s == "" then Some([])
    else if |s| == 1 then None
    else
      var high :- NibbleOf(s[0]);
      var low :- NibbleOf(s[1]);
      var rest :- HexDecode(s[2..]);
      Some([Glue(high, low)] + rest)
  }

  lemma DigitNibble(n: Nibble)
    ensures NibbleOf(Digit(n)) == Some(n)
  {
    assert DigitIndex(DigitAt(n as int)) == Some(n as int);
  }

  lemma GlueHalves(b: Byte)
    ensures Glue(High(b), Low(b)) == b
  {
  }

  lemma {:induction false} HexRoundTrip(b: Bytes)
    ensures HexDecode(HexEncode(b)) == Some(b) && |HexEncode(b)| == 2 * |b|
  {
    if b != [] {
      DigitNibble(High(b[0]));
      DigitNibble(Low(b[0]));
      GlueHalves(b[0]);
      HexRoundTrip(b[1..]);
      assert HexEncode(b)[2..] == HexEncode(b[1..]);
      assert b == [b[0]] + b[1..];
    }
  }

  lemma {:induction false} HexHalves(s: string)
    requires HexDecode(s).Some?
    ensures |s| == 2 * |HexDecode(s).value|
  {
    if |s| >= 2 {
      HexHalves(s[2..]);
    }
  }

  predicate IsHex(c: char) {
    '0' <= c <= '9' || 'a' <= c <= 'f' || 'A' <= c <= 'F'
  }

  /** Exactly the texts of an even number of hexadecimal digits decode. */
  lemma {:induction false} HexDecodes(s: string)
    ensures HexDecode(s).Some? <==> |s| % 2 == 0 && forall i :: 0 <= i < |s| ==> IsHex(s[i])
  {
    if |s| >= 2 {
      HexDecodes(s[2..]);
      assert forall i :: 2 <= i < |s| ==> s[i] == s[2..][i - 2];
    }
  }

  // The ciphers

  /** An authenticated cipher: what it makes of a key, a nonce and a message, and how it opens that again. */
  datatype Aead = Aead(
    seal: (Key, Bytes, Bytes) -> Bytes,
    open: (Key, Bytes, Bytes) -> Option<Bytes>)

  /** The box a key seals opens again under that key, and under no other key of a list. */
  ghost predicate Authentic(a: Aead, k: Key, others: seq<Key>, nonce: Bytes, message: Bytes) {
    var box := a.seal(k, nonce, message);
    && a.open(k, nonce, box) == Some(message)
    && forall k' :: k' in others && k' != k ==> a.open(k', nonce, box).None?
  }

  datatype Outcome = Plaintext(bytes: Bytes) | Failed | Panicked

  datatype Ciphertext = Text(hex: string) | NoSecrets

  const XCHACHA_NONCE: nat := 24
  const GCM_NONCE: nat := 12

  /** `Encrypt` of both ciphers: the nonce drawn from the random source goes in front of what is sealed under the
      first key. */
  function Encrypt(a: Aead, secrets: seq<Key>, nonce: Bytes, message: Bytes): Ciphertext {
    if message == [] then Text("")
    else if secrets == [] then NoSecrets
    else Text(HexEncode(nonce + a.seal(secrets[0], nonce, message)))
  }

  /** What one key makes of a raw ciphertext; one shorter than its nonce opens under no key. */
  function Opened(a: Aead, size: nat, k: Key, raw: Bytes): Option<Bytes> {
    if |raw| < size then None else a.open(k, raw[..size], raw[size..])
  }

  /** What the first key to open the ciphertext makes of it. */
  function Recovered(a: Aead, size: nat, secrets: seq<Key>, raw: Bytes): Option<Bytes> {
    if secrets == [] then None
    else
      var p := Opened(a, size, secrets[0], raw);
      if p.Some? then p else Recovered(a, size, secrets[1..], raw)
  }

  /** The meaning of a ciphertext under a list of keys. */
  function Deciphered(a: Aead, size: nat, secrets: seq<Key>, ciphertext: string): Outcome {
    if ciphertext == "" then Plaintext([])
    else
      match HexDecode(ciphertext)
      case None => Failed
      case Some(raw) => match Recovered(a, size, secrets, raw) case None => Failed case Some(p) => Plaintext(p)
  }

  /** `AES.Decrypt`. */
  method DecryptAES(a: Aead, secrets: seq<Key>, ciphertext: string) returns (r: Outcome)
    ensures r == Deciphered(a, GCM_NONCE, secrets, ciphertext)
  {
    if ciphertext == "" {
      return Plaintext([]);
    }
    if secrets == [] {
      return Failed;
    }
    var decoded := HexDecode(ciphertext);
    if decoded.None? {
      return Failed;
    }
    var raw := decoded.value;
    for i := 0 to |secrets|
      invariant Recovered(a, GCM_NONCE, secrets[i..], raw) == Recovered(a, GCM_NONCE, secrets, raw)
    {
      assert secrets[i..][1..] == secrets[i + 1..];
      var p := Opened(a, GCM_NONCE, secrets[i], raw);
      if p.Some? {
        return Plaintext(p.value);
      }
    }
    return Failed;
  }

  /** A hexadecimal ciphertext that passes the length check, which counts digits, although it has fewer bytes than a
      nonce: the slice behind the check is out of range. */
  predicate SlicesOutOfRange(secrets: seq<Key>, ciphertext: string) {
    secrets != [] && HexDecode(ciphertext).Some? && XCHACHA_NONCE <= |ciphertext| < 2 * XCHACHA_NONCE
  }

  /** `XChaCha20Poly1305.Decrypt`. It panics exactly on the ciphertexts of `SlicesOutOfRange`. */
  method DecryptXChaCha(a: Aead, secrets: seq<Key>, ciphertext: string) returns (r: Outcome)
    ensures r == if SlicesOutOfRange(secrets, ciphertext) then Panicked
                 else Deciphered(a, XCHACHA_NONCE, secrets, ciphertext)
    ensures r == Panicked <==> secrets != [] && HexDecode(ciphertext).Some? && 24 <= |ciphertext| < 48
  {
    if ciphertext == "" {
      return Plaintext([]);
    }
    if secrets == [] {
      return Failed;
    }
    var decoded := HexDecode(ciphertext);
    if decoded.None? {
      return Failed;
    }
    var raw := decoded.value;
    HexHalves(ciphertext);
    NothingRecovered(a, XCHACHA_NONCE, secrets, raw);
    for i := 0 to |secrets|
      invariant Recovered(a, XCHACHA_NONCE, secrets[i..], raw) == Recovered(a, XCHACHA_NONCE, secrets, raw)
      invariant i > 0 ==> |raw| >= XCHACHA_NONCE
    {
      assert secrets[i..][1..] == secrets[i + 1..];
      if |ciphertext| < XCHACHA_NONCE {
        return Failed;
      }
      if |raw| < XCHACHA_NONCE {
        return Panicked;
      }
      var p := a.open(secrets[i], raw[..XCHACHA_NONCE], raw[XCHACHA_NONCE..]);
      if p.Some? {
        return Plaintext(p.value);
      }
    }
    return Failed;
  }

  /** The inputs it panics on: every text of 12 to 23 bytes in hexadecimal, whatever the keys. */
  lemma ShortTextsPanic(secrets: seq<Key>, raw: Bytes)
    requires secrets != [] && 12 <= |raw| < 24
    ensures SlicesOutOfRange(secrets, HexEncode(raw))
  {
    HexRoundTrip(raw);
  }

  /** Nothing is recovered exactly when no key opens the ciphertext. */
  lemma {:induction false} NothingRecovered(a: Aead, size: nat, secrets: seq<Key>, raw: Bytes)
    ensures Recovered(a, size, secrets, raw).None? <==> forall k :: k in secrets ==> Opened(a, size, k, raw).None?
  {
    if secrets != [] {
      NothingRecovered(a, size, secrets[1..], raw);
      assert forall k :: k in secrets <==> k == secrets[0] || k in secrets[1..];
    }
  }

  /** An empty text is an empty message. One that is no hexadecimal, or that no key opens, fails; otherwise the first key
      that opens it decides. */
  lemma DecipheredExactly(a: Aead, size: nat, secrets: seq<Key>, ciphertext: string)
    ensures ciphertext == "" ==> Deciphered(a, size, secrets, ciphertext) == Plaintext([])
    ensures ciphertext != "" && HexDecode(ciphertext).None? ==> Deciphered(a, size, secrets, ciphertext) == Failed
    ensures ciphertext != "" && HexDecode(ciphertext).Some? ==>
              var raw := HexDecode(ciphertext).value;
              && (Deciphered(a, size, secrets, ciphertext) == Failed <==>
                    forall k :: k in secrets ==> |raw| < size || a.open(k, raw[..size], raw[size..]).None?)
              && (forall n, plain ::
                    0 <= n < |secrets| && |raw| >= size && a.open(secrets[n], raw[..size], raw[size..]) == Some(plain) &&
                    (forall m :: 0 <= m < n ==> a.open(secrets[m], raw[..size], raw[size..]).None?) ==>
                      Deciphered(a, size, secrets, ciphertext) == Plaintext(plain))
  {
    if ciphertext != "" && HexDecode(ciphertext).Some? {
      var raw := HexDecode(ciphertext).value;
      NothingRecovered(a, size, secrets, raw);
      forall n, plain |
        0 <= n < |secrets| && |raw| >= size && a.open(secrets[n], raw[..size], raw[size..]) == Some(plain) &&
        (forall m :: 0 <= m < n ==> a.open(secrets[m], raw[..size], raw[size..]).None?)
        ensures Deciphered(a, size, secrets, ciphertext) == Plaintext(plain)
      {
        FirstRecovers(a, size, secrets, raw, n);
      }
    }
  }

  lemma {:induction false} FirstRecovers(a: Aead, size: nat, secrets: seq<Key>, raw: Bytes, n: nat)
    requires n < |secrets| && Opened(a, size, secrets[n], raw).Some?
    requires forall m :: 0 <= m < n ==> Opened(a, size, secrets[m], raw).None?
    ensures Recovered(a, size, secrets, raw) == Opened(a, size, secrets[n], raw)
  {
    if n > 0 {
      FirstRecovers(a, size, secrets[1..], raw, n - 1);
    }
  }

  /** Only `key` may open the ciphertext: it is recovered from any list, in whatever position that key stands there. */
  lemma {:induction false} RecoveredByKey(a: Aead, size: nat, secrets: seq<Key>, raw: Bytes, key: Key)
    requires forall k :: k in secrets && k != key ==> Opened(a, size, k, raw).None?
    ensures Recovered(a, size, secrets, raw) == if key in secrets then Opened(a, size, key, raw) else None
  {
    if secrets != [] {
      RecoveredByKey(a, size, secrets[1..], raw, key);
      assert forall k :: k in secrets <==> k == secrets[0] || k in secrets[1..];
    }
  }

  /** Key rotation: what was encrypted under the first key of one list deciphers under another list to the message
      itself if that key still stands anywhere in it, and fails if it does not. */
  lemma Rotation(a: Aead, size: nat, was: seq<Key>, now: seq<Key>, nonce: Bytes, message: Bytes)
    requires was != [] && |nonce| == size > 0 && Authentic(a, was[0], now, nonce, message)
    ensures Encrypt(a, was, nonce, message).Text?
    ensures Deciphered(a, size, now, Encrypt(a, was, nonce, message).hex)
         == if message == [] || was[0] in now then Plaintext(message) else Failed
    ensures size == XCHACHA_NONCE ==> !SlicesOutOfRange(now, Encrypt(a, was, nonce, message).hex)
  {
    if message != [] {
      var box := a.seal(was[0], nonce, message);
      var raw := nonce + box;
      HexRoundTrip(raw);
      assert raw[..size] == nonce && raw[size..] == box;
      RecoveredByKey(a, size, now, raw, was[0]);
    }
  }

  /** The same with the nonces of the two ciphers, 12 and 24 bytes: neither ever panics on what it encrypted. */
  lemma RotationOfBoth(
    aes: Aead, chacha: Aead, was: seq<Key>, now: seq<Key>, short: Bytes, long: Bytes, message: Bytes)
    requires was != [] && |short| == 12 && |long| == 24
    requires Authentic(aes, was[0], now, short, message) && Authentic(chacha, was[0], now, long, message)
    ensures var kept := message == [] || was[0] in now;
            var one, other := Encrypt(aes, was, short, message), Encrypt(chacha, was, long, message);
            && one.Text? && other.Text? && !SlicesOutOfRange(now, other.hex)
            && Deciphered(aes, GCM_NONCE, now, one.hex) == (if kept then Plaintext(message) else Failed)
            && Deciphered(chacha, XCHACHA_NONCE, now, other.hex) == (if kept then Plaintext(message) else Failed)
  {
    Rotation(aes, 12, was, now, short, message);
    Rotation(chacha, 24, was, now, long, message);
  }

  /** The text of a ciphertext: the nonce and the box under the first key, in hexadecimal. Without a key there is none,
      and an empty message is an empty text. */
  lemma EncryptedText(a: Aead, secrets: seq<Key>, nonce: Bytes, message: Bytes)
    ensures message == [] ==> Encrypt(a, secrets, nonce, message) == Text("")
    ensures message != [] && secrets == [] ==> Encrypt(a, secrets, nonce, message) == NoSecrets
    ensures message != [] && secrets != [] ==>
              Encrypt(a, secrets, nonce, message) == Text(HexEncode(nonce + a.seal(secrets[0], nonce, message)))
  {
  }

  const HEX: string := "0123456789abcdef"

  lemma DigitsAre(i: int)
    requires 0 <= i < 16
    ensures |HEX| == 16 && DigitAt(i) == HEX[i]
  {
  }

  lemma {:induction false} HexLength(b: Bytes)
    ensures |HexEncode(b)| == 2 * |b|
  {
    if b != [] {
      HexLength(b[1..]);
    }
  }

  lemma HexTail(b: Bytes, k: nat)
    requires b != [] && 2 <= k < 2 * |b|
    ensures |HexEncode(b)| == 2 * |b| && |HexEncode(b[1..])| == 2 * |b| - 2 && HexEncode(b)[k] == HexEncode(b[1..])[k - 2]
  {
    HexLength(b);
    HexLength(b[1..]);
  }

  lemma HexFirst(b: Bytes)
    requires b != []
    ensures |HexEncode(b)| >= 2 && HexEncode(b)[0] == Digit(High(b[0])) && HexEncode(b)[1] == Digit(Low(b[0]))
  {
  }

  lemma {:induction false} HexAt(b: Bytes, n: nat)
    requires n < |b|
    ensures |HexEncode(b)| == 2 * |b|
    ensures HexEncode(b)[2 * n] == Digit(High(b[n])) && HexEncode(b)[2 * n + 1] == Digit(Low(b[n]))
  {
    HexLength(b);
    if n == 0 {
      HexFirst(b);
    } else {
      HexAt(b[1..], n - 1);
      HexTail(b, 2 * n);
      HexTail(b, 2 * n + 1);
    }
  }

  lemma DigitIs(n: Nibble)
    ensures |HEX| == 16 && Digit(n) == HEX[n as int]
  {
    DigitsAre(n as int);
  }

  /** Every byte is written as two hexadecimal digits, the upper half first. */
  lemma HexDigits(b: Bytes, n: nat)
    requires n < |b|
    ensures |HexEncode(b)| == 2 * |b| && |HEX| == 16
    ensures HexEncode(b)[2 * n] == HEX[((b[n] >> 4) as bv4) as int]
    ensures HexEncode(b)[2 * n + 1] == HEX[((b[n] & 15) as bv4) as int]
  {
    HexAt(b, n);
    DigitIs(High(b[n]));
    DigitIs(Low(b[n]));
  }

  /** Digits are read in either case, and anything else is refused. */
  lemma HexReads(c: char)
    ensures DigitIndex(c) ==
            if '0' <= c <= '9' then Some(c as int - '0' as int)
            else if 'a' <= c <= 'f' then Some(10 + (c as int - 'a' as int))
            else if 'A' <= c <= 'F' then Some(10 + (c as int - 'A' as int))
            else None
  {
  }

  // The keys

  type Secret = Bytes

  function Clean(secrets: seq<Secret>): seq<Secret> {
    if secrets == [] then []
    else if |secrets[0]| == 32 then [secrets[0]] + Clean(secrets[1..])
    else Clean(secrets[1..])
  }

  /** The 32-byte secrets and no others, in order. */
  lemma {:induction false} CleanExactly(some: seq<Secret>, more: seq<Secret>, one: Secret)
    ensures Clean(some + more) == Clean(some) + Clean(more)
    ensures Clean([one]) == if |one| == 32 then [one] else []
    ensures Clean([]) == []
    decreases |some|
  {
    assert [one][1..] == [];
    if some == [] {
      assert some + more == more;
    } else {
      assert (some + more)[1..] == some[1..] + more;
      CleanExactly(some[1..], more, one);
    }
  }

  const ZEROS: Bytes := seq(32, _ => 0)

  /** The first `c` secrets have 32 bytes and all later ones are empty. */
  predicate FullThenEmpty(secrets: seq<Secret>, c: nat) {
    && c <= |secrets|
    && (forall i :: 0 <= i < c ==> |secrets[i]| == 32)
    && forall i :: c <= i < |secrets| ==> secrets[i] == []
  }

  lemma {:induction false} CleanFits(secrets: seq<Secret>)
    ensures |Clean(secrets)| <= |secrets|
  {
    if secrets != [] {
      CleanFits(secrets[1..]);
    }
  }

  lemma {:induction false} CleanEmpties(secrets: seq<Secret>)
    requires forall i :: 0 <= i < |secrets| ==> secrets[i] == []
    ensures Clean(secrets) == []
  {
    if secrets != [] {
      CleanEmpties(secrets[1..]);
    }
  }

  /** If only the first `c` secrets are not empty, `c` of them can be clean only by being all of these. */
  lemma {:induction false} CleanPrefix(secrets: seq<Secret>, c: nat)
    requires c <= |secrets| && forall i :: c <= i < |secrets| ==> secrets[i] == []
    ensures |Clean(secrets)| <= c
    ensures |Clean(secrets)| == c ==> FullThenEmpty(secrets, c) && Clean(secrets) == secrets[..c]
  {
    if c == 0 {
      CleanEmpties(secrets);
    } else {
      CleanPrefix(secrets[1..], c - 1);
      if |Clean(secrets)| == c {
        assert |secrets[0]| == 32;
        assert forall i :: 1 <= i < c ==> secrets[i] == secrets[1..][i - 1];
        assert secrets[..c] == [secrets[0]] + secrets[1..][..c - 1];
      }
    }
  }

  /** `SecretsCipher`. The copy ranges over the unfiltered list while the result has room for the clean secrets only:
      `None` is the index out of range. It returns exactly when the 32-byte secrets come first and all others are
      empty, and then it returns the clean secrets in order. */
  method SecretsCipher(secrets: seq<Secret>) returns (r: Option<seq<Secret>>)
    ensures Clean(secrets) == [] ==> r == Some([])
    ensures Clean(secrets) != [] && FullThenEmpty(secrets, |Clean(secrets)|) ==> r == Some(Clean(secrets))
    ensures Clean(secrets) != [] && !FullThenEmpty(secrets, |Clean(secrets)|) ==> r == None
  {
    var clean := [];
    for k := 0 to |secrets|
      invariant clean + Clean(secrets[k..]) == Clean(secrets)
    {
      assert secrets[k..][1..] == secrets[k + 1..];
      if |secrets[k]| == 32 {
        clean := clean + [secrets[k]];
      }
    }
    assert clean == Clean(secrets);
    CleanFits(secrets);
    if clean == [] {
      return Some([]);
    }
    var result := seq(|clean|, _ => ZEROS);
    for n := 0 to |secrets|
      invariant |result| == |clean| && forall i :: 0 <= i < |clean| ==> |result[i]| == 32
      invariant forall i :: 0 <= i < n ==> Copied(secrets[i], result, i)
    {
      var s := secrets[n];
      for k := 0 to |s|
        invariant |result| == |clean| && forall i :: 0 <= i < |clean| ==> |result[i]| == 32
        invariant forall i :: 0 <= i < n ==> Copied(secrets[i], result, i)
        invariant k > 0 ==> n < |clean| && k <= 32 && result[n][..k] == s[..k]
      {
        if n >= |result| || k >= |result[n]| {
          return None;
        }
        result := result[n := result[n][k := s[k]]];
        assert s[..k + 1] == s[..k] + [s[k]] && result[n][..k + 1] == result[n][..k] + [s[k]];
      }
    }
    CopiedIsClean(secrets, result);
    return Some(result);
  }

  ghost predicate Copied(s: Secret, result: seq<Bytes>, i: nat) {
    s == [] || (i < |result| && |s| <= |result[i]| && result[i][..|s|] == s)
  }

  lemma CopiedIsClean(secrets: seq<Secret>, result: seq<Bytes>)
    requires |result| == |Clean(secrets)| <= |secrets|
    requires forall i :: 0 <= i < |result| ==> |result[i]| == 32
    requires forall i :: 0 <= i < |secrets| ==> Copied(secrets[i], result, i)
    ensures FullThenEmpty(secrets, |result|) && result == Clean(secrets)
  {
    var c := |result|;
    CleanPrefix(secrets, c);
    forall i | 0 <= i < c ensures result[i] == Clean(secrets)[i] {
      assert Copied(secrets[i], result, i);
      assert result[i][..32] == result[i];
    }
  }

  /** A list it panics on: a short secret before a full one. */
  lemma ShortSecretPanics(full: Secret)
    requires |full| == 32
    ensures Clean([[1], full]) == [full] && !FullThenEmpty([[1], full], |Clean([[1], full])|)
  {
    var secrets := [[1], full];
    assert secrets[1..] == [full] && [full][1..] == [];
    assert Clean([full]) == [full];
    assert |secrets[0]| != 32;
  }
}
