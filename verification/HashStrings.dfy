/** Password hash strings: the Argon2id (RFC 9106) and PBKDF2 (section 5.2 of RFC 8018) printers, the
    decoders that read them back, and the comparison that recognises the algorithm first. */
module HashStrings {
  import opened Wrappers
  import opened Base64
  import opened Text

  const TWO_32 := 0x1_0000_0000
  const TWO_63 := 0x8000_0000_0000_0000
  const TWO_64 := 0x1_0000_0000_0000_0000

  type Uint8 = x: int | 0 <= x < 256
  type Uint32 = x: int | 0 <= x < TWO_32
  type Uint64 = x: int | 0 <= x < TWO_64

  const ARGON2_VERSION := 0x13
  const KB := 1024

  datatype HashError =
    | InvalidHash
    | IncompatibleVersion
    | Mismatched
    | UnknownAlgorithm
    | ScanFailed
    | CorruptBase64
    | PasswordTooLong
    | BcryptFailed

  /** The hash function PBKDF2 runs on. */
  datatype Prf = Sha1 | Sha3_224 | Sha256 | Sha3_384 | Sha512

  /** The key derivations, kept abstract. Argon2id takes password, salt, iterations, memory in KB, parallelism
      and key length; PBKDF2 takes the hash function, password, salt, iterations and key length. */
  datatype Primitives = Primitives(
    argon2id: (seq<Byte>, seq<Byte>, Uint32, Uint32, Uint8, Uint32) -> seq<Byte>,
    pbkdf2: (Prf, seq<Byte>, seq<Byte>, Uint32, Uint32) -> seq<Byte>,
    bcrypt: (string, seq<Byte>) -> bool)

  /** All that is known of the derivations: a key has the length asked for. */
  ghost predicate KeyLengths(k: Primitives) {
    && (forall pw, salt, t, m, p, n :: |k.argon2id(pw, salt, t, m, p, n)| == n)
    && (forall f, pw, salt, i, n :: |k.pbkdf2(f, pw, salt, i, n)| == n)
  }

  datatype Argon2 = Argon2(
    memory: Uint64,
    iterations: Uint32,
    parallelism: Uint8,
    saltLength: Uint32,
    keyLength: Uint32)

  datatype Pbkdf2 = Pbkdf2(
    algorithm: string,
    iterations: Uint32,
    saltLength: Uint32,
    keyLength: Uint32)

  /** A decoded string: the parameters it names, the salt and the derived key. */
  datatype Decoded<P> = Decoded(params: P, salt: seq<Byte>, key: seq<Byte>)

  const VERSION_FORMAT: Format := [Field("v=", -TWO_63, TWO_63 - 1)]
  const ARGON2_FORMAT: Format := [Field("m=", 0, TWO_64 - 1), Field(",t=", 0, TWO_32 - 1), Field(",p=", 0, 255)]
  const PBKDF2_FORMAT: Format := [Field("i=", 0, TWO_32 - 1), Field(",l=", 0, TWO_32 - 1)]

  /** Bytes to kilobytes, truncated to 32 bits. */
  function ToKB(mem: Uint64): Uint32 {
    mem / KB % TWO_32
  }

  function Truncate32(n: nat): Uint32 {
    n % TWO_32
  }

  function PseudorandomFunction(algorithm: string): Prf {
    if algorithm == "sha1" then Sha1
    else if algorithm == "sha224" then Sha3_224
    else if algorithm == "sha256" then Sha256
    else if algorithm == "sha384" then Sha3_384
    else if algorithm == "sha512" then Sha512
    else Sha256
  }

  /** Memory is rounded down to units of 1024 bytes, as long as these fit 32 bits. */
  lemma KilobytesOf(mem: Uint64)
    requires mem < 1024 * 0x1_0000_0000
    ensures 1024 * ToKB(mem) <= mem < 1024 * (ToKB(mem) + 1)
  {
  }

  /** The hash function of every algorithm name; SHA-3 stands behind two of them, and SHA-256 behind all unknown ones. */
  lemma HashFunctions(algorithm: string)
    ensures PseudorandomFunction("sha1") == Sha1 && PseudorandomFunction("sha224") == Sha3_224
    ensures PseudorandomFunction("sha256") == Sha256 && PseudorandomFunction("sha384") == Sha3_384
    ensures PseudorandomFunction("sha512") == Sha512
    ensures algorithm !in {"sha1", "sha224", "sha384", "sha512"} ==> PseudorandomFunction(algorithm) == Sha256
  {
  }

  // Printers. The salt is the outcome of reading the random source.

  function Argon2Key(k: Primitives, p: Argon2, password: seq<Byte>, salt: seq<Byte>): seq<Byte> {
    k.argon2id(password, salt, p.iterations, ToKB(p.memory), p.parallelism, p.keyLength)
  }

  /** What stands between the dollar signs of "$argon2id$v=%d$m=%d,t=%d,p=%d$%s$%s". */
  function Argon2Fields(k: Primitives, p: Argon2, password: seq<Byte>, salt: seq<Byte>): seq<string> {
    ["", "argon2id",
     Print(VERSION_FORMAT, [ARGON2_VERSION]),
     Print(ARGON2_FORMAT, [ToKB(p.memory), p.iterations, p.parallelism]),
     Encode(salt),
     Encode(Argon2Key(k, p, password, salt))]
  }

  function GenerateArgon2(k: Primitives, p: Argon2, password: seq<Byte>, salt: seq<Byte>): string
    requires |salt| == p.saltLength
  {
    Join(Argon2Fields(k, p, password, salt), '$')
  }

  function Pbkdf2Key(k: Primitives, p: Pbkdf2, password: seq<Byte>, salt: seq<Byte>): seq<Byte> {
    k.pbkdf2(PseudorandomFunction(p.algorithm), password, salt, p.iterations, p.keyLength)
  }

  /** What stands between the dollar signs of "$pbkdf2-%s$i=%d,l=%d$%s$%s". */
  function Pbkdf2Fields(k: Primitives, p: Pbkdf2, password: seq<Byte>, salt: seq<Byte>): seq<string> {
    ["", "pbkdf2-" + p.algorithm,
     Print(PBKDF2_FORMAT, [p.iterations, p.keyLength]),
     Encode(salt),
     Encode(Pbkdf2Key(k, p, password, salt))]
  }

  function GeneratePbkdf2(k: Primitives, p: Pbkdf2, password: seq<Byte>, salt: seq<Byte>): string
    requires |salt| == p.saltLength
  {
    Join(Pbkdf2Fields(k, p, password, salt), '$')
  }

  // Recognisers

  predicate IsBcryptHash(hash: string) {
    && "$2" <= hash
    && (|| (|hash| > 2 && hash[2] == '$')
        || (|hash| > 3 && hash[2] in "abzy" && hash[3] == '$'))
  }

  predicate IsArgon2idHash(hash: string) {
    "$argon2id$" <= hash
  }

  predicate IsPbkdf2Hash(hash: string) {
    "$pbkdf2-" <= hash && StartsWithSha(hash[8..])
  }

  /** "sha", one to three digits and a dollar sign. */
  predicate StartsWithSha(s: string) {
    && "sha" <= s
    && var digits := DigitRun(s[3..]);
       1 <= digits <= 3 && 3 + digits < |s| && s[3 + digits] == '$'
  }

  // Decoders

  function DecodeBase64(s: string): Result<seq<Byte>, HashError> {
    match Base64.Decode(s)
    case Some(b) => Ok(b)
    case None => Err(CorruptBase64)
  }

  function ScanFields(format: Format, s: string): (r: Scanned)
    ensures ScannedBy(format, r)
  {
    match Scan(format, s)
    case Some(v) => Ok(v)
    case None => Err(ScanFailed)
  }

  type Scanned = Result<seq<int>, HashError>
  type Bytes = Result<seq<Byte>, HashError>

  predicate ScannedBy(format: Format, r: Scanned) {
    r.Ok? ==> |r.value| == |format| && Fits(format, r.value)
  }

  function DecodeArgon2id(encoded: string): Result<Decoded<Argon2>, HashError> {
    var parts := Split(encoded, '$');
    if |parts| != 6 then Err(InvalidHash)
    else
      Argon2From(ScanFields(VERSION_FORMAT, parts[2]), ScanFields(ARGON2_FORMAT, parts[3]),
                 DecodeBase64(parts[4]), DecodeBase64(parts[5]))
  }

  /** The decoder after the split: the first part that does not decode is the error. */
  function Argon2From(v: Scanned, f: Scanned, s: Bytes, h: Bytes): Result<Decoded<Argon2>, HashError>
    requires ScannedBy(VERSION_FORMAT, v) && ScannedBy(ARGON2_FORMAT, f)
  {
    var version :- v;
    if version[0] != ARGON2_VERSION then Err(IncompatibleVersion)
    else
      var fields :- f;
      var salt :- s;
      var key :- h;
      Ok(Decoded(Argon2(fields[0], fields[1], fields[2], Truncate32(|salt|), Truncate32(|key|)), salt, key))
  }

  function DecodePbkdf2(encoded: string): Result<Decoded<Pbkdf2>, HashError> {
    var parts := Split(encoded, '$');
    if |parts| != 5 then Err(InvalidHash)
    else
      var digest := SplitOnce(parts[1], '-');
      if |digest| != 2 then Err(InvalidHash)
      else
        Pbkdf2From(digest[1], ScanFields(PBKDF2_FORMAT, parts[2]), DecodeBase64(parts[3]), DecodeBase64(parts[4]))
  }

  function Pbkdf2From(algorithm: string, f: Scanned, s: Bytes, h: Bytes): Result<Decoded<Pbkdf2>, HashError>
    requires ScannedBy(PBKDF2_FORMAT, f)
  {
    var fields :- f;
    var salt :- s;
    var key :- h;
    Ok(Decoded(Pbkdf2(algorithm, fields[0], Truncate32(|salt|), Truncate32(|key|)), salt, key))
  }

  /** `decodeArgon2idHash`: fills in the parameters part by part and leaves at the first part that does not decode. */
  method DecodeArgon2idHash(encoded: string) returns (r: Result<Decoded<Argon2>, HashError>)
    ensures r == DecodeArgon2id(encoded)
  {
    var parts := Split(encoded, '$');
    if |parts| != 6 {
      return Err(InvalidHash);
    }
    var version := ScanFields(VERSION_FORMAT, parts[2]);
    if version.Err? {
      return Err(version.error);
    }
    if version.value[0] != ARGON2_VERSION {
      return Err(IncompatibleVersion);
    }
    var p := Argon2(0, 0, 0, 0, 0);
    var fields := ScanFields(ARGON2_FORMAT, parts[3]);
    if fields.Err? {
      return Err(fields.error);
    }
    p := p.(memory := fields.value[0], iterations := fields.value[1], parallelism := fields.value[2]);
    var salt := DecodeBase64(parts[4]);
    if salt.Err? {
      return Err(salt.error);
    }
    p := p.(saltLength := Truncate32(|salt.value|));
    var key := DecodeBase64(parts[5]);
    if key.Err? {
      return Err(key.error);
    }
    p := p.(keyLength := Truncate32(|key.value|));
    return Ok(Decoded(p, salt.value, key.value));
  }

  /** `decodePbkdf2Hash`. The key length scanned from the string is overwritten by that of the decoded key. */
  method DecodePbkdf2Hash(encoded: string) returns (r: Result<Decoded<Pbkdf2>, HashError>)
    ensures r == DecodePbkdf2(encoded)
  {
    var parts := Split(encoded, '$');
    if |parts| != 5 {
      return Err(InvalidHash);
    }
    var p := Pbkdf2("", 0, 0, 0);
    var digest := SplitOnce(parts[1], '-');
    if |digest| != 2 {
      return Err(InvalidHash);
    }
    p := p.(algorithm := digest[1]);
    var fields := ScanFields(PBKDF2_FORMAT, parts[2]);
    if fields.Err? {
      return Err(fields.error);
    }
    p := p.(iterations := fields.value[0], keyLength := fields.value[1]);
    var salt := DecodeBase64(parts[3]);
    if salt.Err? {
      return Err(salt.error);
    }
    p := p.(saltLength := Truncate32(|salt.value|));
    var key := DecodeBase64(parts[4]);
    if key.Err? {
      return Err(key.error);
    }
    p := p.(keyLength := Truncate32(|key.value|));
    return Ok(Decoded(p, salt.value, key.value));
  }

  // Comparison

  function CompareBcrypt(k: Primitives, password: seq<Byte>, hash: string): Result<(), HashError> {
    if |password| > 72 then Err(PasswordTooLong)
    else if k.bcrypt(hash, password) then Ok(())
    else Err(BcryptFailed)
  }

  function CompareArgon2id(k: Primitives, password: seq<Byte>, hash: string): Result<(), HashError> {
    var d :- DecodeArgon2id(hash);
    var p := d.params;
    var other := k.argon2id(password, d.salt, p.iterations, Truncate32(p.memory), p.parallelism, p.keyLength);
    if d.key == other then Ok(()) else Err(Mismatched)
  }

  function ComparePbkdf2(k: Primitives, password: seq<Byte>, hash: string): Result<(), HashError> {
    var d :- DecodePbkdf2(hash);
    var other := Pbkdf2Key(k, d.params, password, d.salt);
    if d.key == other then Ok(()) else Err(Mismatched)
  }

  function Compare(k: Primitives, password: seq<Byte>, hash: string): Result<(), HashError> {
    if IsBcryptHash(hash) then CompareBcrypt(k, password, hash)
    else if IsArgon2idHash(hash) then CompareArgon2id(k, password, hash)
    else if IsPbkdf2Hash(hash) then ComparePbkdf2(k, password, hash)
    else Err(UnknownAlgorithm)
  }

  // Theorems

  /** No string is recognised as two algorithms. */
  lemma RecognisersDisjoint(hash: string)
    ensures !(IsBcryptHash(hash) && IsArgon2idHash(hash))
    ensures !(IsBcryptHash(hash) && IsPbkdf2Hash(hash))
    ensures !(IsArgon2idHash(hash) && IsPbkdf2Hash(hash))
  {
    if "$2" <= hash { assert hash[1] == '2'; }
    if "$argon2id$" <= hash { assert hash[1] == 'a'; }
    if "$pbkdf2-" <= hash { assert hash[1] == 'p'; }
  }

  lemma EncodedAvoidsDollar(b: seq<Byte>)
    ensures '$' !in Encode(b)
  {
    DecodeEncoded(b);
    assert Value('$').None?;
  }

  lemma JoinLead(parts: seq<string>)
    requires |parts| > 2 && parts[0] == ""
    ensures Join(parts, '$') == "$" + parts[1] + "$" + Join(parts[2..], '$')
  {
    var rest := parts[1..];
    assert rest[1..] == parts[2..];
    assert Join(rest, '$') == parts[1] + ['$'] + Join(parts[2..], '$');
    assert Join(parts, '$') == parts[0] + ['$'] + Join(rest, '$');
  }

  lemma Argon2Parts(k: Primitives, p: Argon2, password: seq<Byte>, salt: seq<Byte>)
    requires |salt| == p.saltLength
    ensures Split(GenerateArgon2(k, p, password, salt), '$') == Argon2Fields(k, p, password, salt)
  {
    PrintAvoids('$', VERSION_FORMAT, [ARGON2_VERSION]);
    PrintAvoids('$', ARGON2_FORMAT, [ToKB(p.memory), p.iterations, p.parallelism]);
    EncodedAvoidsDollar(salt);
    EncodedAvoidsDollar(Argon2Key(k, p, password, salt));
    SplitJoined(Argon2Fields(k, p, password, salt), '$');
  }

  lemma JoinMore(head: string, rest: seq<string>)
    requires rest != []
    ensures Join([head] + rest, '$') == head + "$" + Join(rest, '$')
  {
    assert ([head] + rest)[1..] == rest;
  }

  lemma JoinSix(a: string, b: string, c: string, d: string, e: string, f: string)
    ensures Join([a, b, c, d, e, f], '$') == a + "$" + (b + "$" + (c + "$" + (d + "$" + (e + "$" + f))))
  {
    assert [a, b, c, d, e, f] == [a] + [b, c, d, e, f] && [b, c, d, e, f] == [b] + [c, d, e, f];
    assert [c, d, e, f] == [c] + [d, e, f] && [d, e, f] == [d] + [e, f] && [e, f] == [e] + [f];
    JoinMore(a, [b, c, d, e, f]);
    JoinMore(b, [c, d, e, f]);
    JoinMore(c, [d, e, f]);
    JoinMore(d, [e, f]);
    JoinMore(e, [f]);
  }

  lemma JoinFive(a: string, b: string, c: string, d: string, e: string)
    ensures Join([a, b, c, d, e], '$') == a + "$" + (b + "$" + (c + "$" + (d + "$" + e)))
  {
    assert [a, b, c, d, e] == [a] + [b, c, d, e] && [b, c, d, e] == [b] + [c, d, e];
    assert [c, d, e] == [c] + [d, e] && [d, e] == [d] + [e];
    JoinMore(a, [b, c, d, e]);
    JoinMore(b, [c, d, e]);
    JoinMore(c, [d, e]);
    JoinMore(d, [e]);
  }

  lemma PrintTwo(f: Field, g: Field, m: int, n: int)
    ensures Print([f, g], [m, n]) == f.lead + PrintInt(m) + (g.lead + PrintInt(n))
  {
    assert [f, g] == [f] + [g] && [m, n] == [m] + [n];
    PrintMore(f, [g], m, [n]);
    PrintOne(g, n);
  }

  lemma PrintThree(f: Field, g: Field, h: Field, m: int, n: int, o: int)
    ensures Print([f, g, h], [m, n, o]) == f.lead + PrintInt(m) + (g.lead + PrintInt(n) + (h.lead + PrintInt(o)))
  {
    assert [f, g, h] == [f] + [g, h] && [m, n, o] == [m] + [n, o];
    PrintMore(f, [g, h], m, [n, o]);
    PrintTwo(g, h, n, o);
  }

  /** The text of an Argon2id string, character for character. */
  lemma Argon2Layout(k: Primitives, p: Argon2, password: seq<Byte>, salt: seq<Byte>)
    requires |salt| == p.saltLength
    ensures GenerateArgon2(k, p, password, salt) ==
            "$" + ("argon2id" + "$" + ("v=" + PrintInt(19) + "$" +
            ("m=" + PrintInt(ToKB(p.memory)) + (",t=" + PrintInt(p.iterations) + (",p=" + PrintInt(p.parallelism))) + "$" +
            (Encode(salt) + "$" + Encode(
               k.argon2id(password, salt, p.iterations, ToKB(p.memory), p.parallelism, p.keyLength))))))
  {
    var f := Argon2Fields(k, p, password, salt);
    JoinSix(f[0], f[1], f[2], f[3], f[4], f[5]);
    PrintOne(VERSION_FORMAT[0], ARGON2_VERSION);
    PrintThree(ARGON2_FORMAT[0], ARGON2_FORMAT[1], ARGON2_FORMAT[2], ToKB(p.memory), p.iterations, p.parallelism);
  }

  /** The text of a PBKDF2 string, character for character. */
  lemma Pbkdf2Layout(k: Primitives, p: Pbkdf2, password: seq<Byte>, salt: seq<Byte>)
    requires |salt| == p.saltLength
    ensures GeneratePbkdf2(k, p, password, salt) ==
            "$" + ("pbkdf2-" + p.algorithm + "$" +
            ("i=" + PrintInt(p.iterations) + (",l=" + PrintInt(p.keyLength)) + "$" +
            (Encode(salt) + "$" + Encode(
               k.pbkdf2(PseudorandomFunction(p.algorithm), password, salt, p.iterations, p.keyLength)))))
  {
    var f := Pbkdf2Fields(k, p, password, salt);
    JoinFive(f[0], f[1], f[2], f[3], f[4]);
    PrintTwo(PBKDF2_FORMAT[0], PBKDF2_FORMAT[1], p.iterations, p.keyLength);
  }

  lemma PrintedFields(format: Format, args: seq<int>)
    requires |args| == |format| && Separated(format) && Fits(format, args)
    ensures ScanFields(format, Print(format, args)) == Ok(args)
  {
    ScanPrinted(format, args);
  }

  lemma EncodedBytes(b: seq<Byte>)
    ensures DecodeBase64(Encode(b)) == Ok(b)
  {
    DecodeEncoded(b);
  }

  lemma Argon2Assembles(p: Argon2, v: Scanned, f: Scanned, s: Bytes, h: Bytes)
    requires v == Ok([ARGON2_VERSION]) && f == Ok([p.memory, p.iterations, p.parallelism])
    requires s.Ok? && |s.value| == p.saltLength && h.Ok? && |h.value| == p.keyLength
    ensures ScannedBy(VERSION_FORMAT, v) && ScannedBy(ARGON2_FORMAT, f)
    ensures Argon2From(v, f, s, h) == Ok(Decoded(p, s.value, h.value))
  {
  }

  lemma Argon2ScansBack(p: Argon2)
    ensures ScanFields(VERSION_FORMAT, Print(VERSION_FORMAT, [ARGON2_VERSION])) == Ok([ARGON2_VERSION])
    ensures ScanFields(ARGON2_FORMAT, Print(ARGON2_FORMAT, [p.memory, p.iterations, p.parallelism])) ==
            Ok([p.memory, p.iterations, p.parallelism])
  {
    PrintedFields(VERSION_FORMAT, [ARGON2_VERSION]);
    PrintedFields(ARGON2_FORMAT, [p.memory, p.iterations, p.parallelism]);
  }

  lemma Argon2FieldsDecode(p: Argon2, salt: seq<Byte>, key: seq<Byte>)
    requires |salt| == p.saltLength && |key| == p.keyLength
    ensures Argon2From(ScanFields(VERSION_FORMAT, Print(VERSION_FORMAT, [ARGON2_VERSION])),
                       ScanFields(ARGON2_FORMAT, Print(ARGON2_FORMAT, [p.memory, p.iterations, p.parallelism])),
                       DecodeBase64(Encode(salt)), DecodeBase64(Encode(key)))
            == Ok(Decoded(p, salt, key))
  {
    Argon2ScansBack(p);
    EncodedBytes(salt);
    EncodedBytes(key);
    Argon2Assembles(p, ScanFields(VERSION_FORMAT, Print(VERSION_FORMAT, [ARGON2_VERSION])),
                    ScanFields(ARGON2_FORMAT, Print(ARGON2_FORMAT, [p.memory, p.iterations, p.parallelism])),
                    DecodeBase64(Encode(salt)), DecodeBase64(Encode(key)));
  }

  /** The printed Argon2id string has six parts and decodes to the parameters, salt and key it was printed from. */
  lemma Argon2Decodes(k: Primitives, p: Argon2, password: seq<Byte>, salt: seq<Byte>)
    requires |salt| == p.saltLength && KeyLengths(k)
    ensures var hash := GenerateArgon2(k, p, password, salt);
            && |Split(hash, '$')| == 6
            && DecodeArgon2id(hash) == Ok(Decoded(p.(memory := ToKB(p.memory)), salt, Argon2Key(k, p, password, salt)))
  {
    Argon2Parts(k, p, password, salt);
    Argon2FieldsDecode(p.(memory := ToKB(p.memory)), salt, Argon2Key(k, p, password, salt));
  }

  /** A password is accepted against the string printed for another exactly when both derive the same key. */
  lemma Argon2Accepts(k: Primitives, p: Argon2, password: seq<Byte>, salt: seq<Byte>, attempt: seq<Byte>)
    requires |salt| == p.saltLength && KeyLengths(k)
    ensures var derive := (pw: seq<Byte>) =>
              k.argon2id(pw, salt, p.iterations, ToKB(p.memory), p.parallelism, p.keyLength);
            Compare(k, attempt, GenerateArgon2(k, p, password, salt))
            == if derive(attempt) == derive(password) then Ok(()) else Err(Mismatched)
  {
    var hash := GenerateArgon2(k, p, password, salt);
    Argon2Recognised(k, p, password, salt);
    Argon2Decodes(k, p, password, salt);
    Argon2Decides(k, p, attempt, hash, salt, Argon2Key(k, p, password, salt));
  }

  /** In particular every password is accepted against its own string. */
  lemma Argon2RoundTrip(k: Primitives, p: Argon2, password: seq<Byte>, salt: seq<Byte>)
    requires |salt| == p.saltLength && KeyLengths(k)
    ensures Compare(k, password, GenerateArgon2(k, p, password, salt)) == Ok(())
  {
    Argon2Accepts(k, p, password, salt, password);
  }

  lemma Argon2Recognised(k: Primitives, p: Argon2, password: seq<Byte>, salt: seq<Byte>)
    requires |salt| == p.saltLength
    ensures IsArgon2idHash(GenerateArgon2(k, p, password, salt))
  {
    var fields := Argon2Fields(k, p, password, salt);
    JoinLead(fields);
    Argon2Lead(GenerateArgon2(k, p, password, salt), Join(fields[2..], '$'));
  }

  lemma Argon2Lead(hash: string, rest: string)
    requires hash == "$" + "argon2id" + "$" + rest
    ensures IsArgon2idHash(hash)
  {
    assert hash == "$argon2id$" + rest;
  }

  lemma ComparesByPrefix(k: Primitives, attempt: seq<Byte>, hash: string)
    ensures IsArgon2idHash(hash) ==> Compare(k, attempt, hash) == CompareArgon2id(k, attempt, hash)
    ensures IsPbkdf2Hash(hash) ==> Compare(k, attempt, hash) == ComparePbkdf2(k, attempt, hash)
  {
    RecognisersDisjoint(hash);
  }

  /** The memory, once in KB, fits the 32 bits it is cut to. */
  lemma TruncatedKB(memory: Uint64)
    ensures Truncate32(ToKB(memory)) == ToKB(memory)
  {
  }

  lemma Argon2ComparesKeys(k: Primitives, d: Decoded<Argon2>, attempt: seq<Byte>, hash: string)
    requires DecodeArgon2id(hash) == Ok(d)
    ensures var p := d.params;
            CompareArgon2id(k, attempt, hash)
            == if d.key == k.argon2id(attempt, d.salt, p.iterations, Truncate32(p.memory), p.parallelism, p.keyLength)
               then Ok(()) else Err(Mismatched)
  {
  }

  lemma Argon2Decides(k: Primitives, p: Argon2, attempt: seq<Byte>, hash: string, salt: seq<Byte>, key: seq<Byte>)
    requires IsArgon2idHash(hash)
    requires DecodeArgon2id(hash) == Ok(Decoded(p.(memory := ToKB(p.memory)), salt, key))
    ensures Compare(k, attempt, hash) == if Argon2Key(k, p, attempt, salt) == key then Ok(()) else Err(Mismatched)
  {
    ComparesByPrefix(k, attempt, hash);
    Argon2ComparesKeys(k, Decoded(p.(memory := ToKB(p.memory)), salt, key), attempt, hash);
    TruncatedKB(p.memory);
  }

  /** The algorithm names the recogniser allows: "sha" and one to three digits. */
  predicate IsShaName(algorithm: string) {
    && "sha" <= algorithm
    && 1 <= |algorithm| - 3 <= 3
    && AllDigits(algorithm[3..])
  }

  /** The printed PBKDF2 string splits back into its fields when the name holds no dollar sign, and into more
      than five parts when it does. */
  lemma Pbkdf2Parts(k: Primitives, p: Pbkdf2, password: seq<Byte>, salt: seq<Byte>)
    requires |salt| == p.saltLength
    ensures var parts := Split(GeneratePbkdf2(k, p, password, salt), '$');
            if '$' in p.algorithm then |parts| > 5 else parts == Pbkdf2Fields(k, p, password, salt)
  {
    PrintAvoids('$', PBKDF2_FORMAT, [p.iterations, p.keyLength]);
    EncodedAvoidsDollar(salt);
    EncodedAvoidsDollar(Pbkdf2Key(k, p, password, salt));
    var fields := Pbkdf2Fields(k, p, password, salt);
    SplitJoined(fields, '$');
    if '$' in p.algorithm {
      assert '$' in fields[1];
    }
  }

  lemma Pbkdf2Assembles(p: Pbkdf2, f: Scanned, s: Bytes, h: Bytes)
    requires f == Ok([p.iterations, p.keyLength])
    requires s.Ok? && |s.value| == p.saltLength && h.Ok? && |h.value| == p.keyLength
    ensures ScannedBy(PBKDF2_FORMAT, f)
    ensures Pbkdf2From(p.algorithm, f, s, h) == Ok(Decoded(p, s.value, h.value))
  {
  }

  lemma Pbkdf2ScansBack(p: Pbkdf2)
    ensures ScanFields(PBKDF2_FORMAT, Print(PBKDF2_FORMAT, [p.iterations, p.keyLength])) ==
            Ok([p.iterations, p.keyLength])
  {
    PrintedFields(PBKDF2_FORMAT, [p.iterations, p.keyLength]);
  }

  lemma Pbkdf2FieldsDecode(p: Pbkdf2, salt: seq<Byte>, key: seq<Byte>)
    requires |salt| == p.saltLength && |key| == p.keyLength
    ensures Pbkdf2From(p.algorithm, ScanFields(PBKDF2_FORMAT, Print(PBKDF2_FORMAT, [p.iterations, p.keyLength])),
                       DecodeBase64(Encode(salt)), DecodeBase64(Encode(key)))
            == Ok(Decoded(p, salt, key))
  {
    Pbkdf2ScansBack(p);
    EncodedBytes(salt);
    EncodedBytes(key);
    Pbkdf2Assembles(p, ScanFields(PBKDF2_FORMAT, Print(PBKDF2_FORMAT, [p.iterations, p.keyLength])),
                    DecodeBase64(Encode(salt)), DecodeBase64(Encode(key)));
  }

  lemma DigestSplits(algorithm: string)
    ensures SplitOnce("pbkdf2-" + algorithm, '-') == ["pbkdf2", algorithm]
  {
    SplitHead("pbkdf2", algorithm, '-');
    assert "pbkdf2" + ['-'] + algorithm == "pbkdf2-" + algorithm;
  }

  /** For a name without a dollar sign the printed PBKDF2 string decodes to exactly the settings, salt and key. */
  lemma Pbkdf2Decodes(k: Primitives, p: Pbkdf2, password: seq<Byte>, salt: seq<Byte>)
    requires |salt| == p.saltLength && KeyLengths(k) && '$' !in p.algorithm
    ensures DecodePbkdf2(GeneratePbkdf2(k, p, password, salt)) ==
            Ok(Decoded(p, salt, Pbkdf2Key(k, p, password, salt)))
  {
    Pbkdf2Parts(k, p, password, salt);
    DigestSplits(p.algorithm);
    Pbkdf2FieldsDecode(p, salt, Pbkdf2Key(k, p, password, salt));
  }

  lemma ShaPrefix(algorithm: string, rest: string)
    requires '$' !in algorithm
    ensures "sha" <= algorithm + "$" + rest <==> "sha" <= algorithm
  {
    var s, n := algorithm + "$" + rest, |algorithm|;
    assert s[n] == '$';
    if n >= 3 {
      assert s[..3] == algorithm[..3];
    }
  }

  /** The digits before a dollar sign reach up to it exactly if there is nothing else. */
  lemma DigitsBeforeDollar(digits: string, rest: string)
    requires '$' !in digits
    ensures var s := digits + "$" + rest;
            var j := DigitRun(s);
            j <= |digits| && (s[j] == '$' <==> j == |digits|) && (j == |digits| <==> AllDigits(digits))
  {
    var s, j := digits + "$" + rest, DigitRun(digits);
    var tail := digits[j..] + "$" + rest;
    assert s == digits[..j] + tail;
    DigitRunOf(digits[..j], tail);
    assert s[j] == tail[0];
    if j == |digits| {
      assert digits[..j] == digits;
    } else {
      assert tail[0] == digits[j] && !IsDigit(digits[j]);
    }
  }

  lemma ShaRecognised(algorithm: string, rest: string)
    requires '$' !in algorithm
    ensures StartsWithSha(algorithm + "$" + rest) <==> IsShaName(algorithm)
  {
    var s := algorithm + "$" + rest;
    ShaPrefix(algorithm, rest);
    if "sha" <= algorithm {
      assert s[3..] == algorithm[3..] + "$" + rest;
      DigitsBeforeDollar(algorithm[3..], rest);
    }
  }

  lemma Pbkdf2Decides(k: Primitives, attempt: seq<Byte>, hash: string)
    requires |hash| > 1 && hash[1] == 'p'
    ensures Compare(k, attempt, hash).Ok? <==> IsPbkdf2Hash(hash) && ComparePbkdf2(k, attempt, hash).Ok?
  {
  }

  lemma LeadRecognised(algorithm: string, rest: string)
    ensures var hash := "$" + ("pbkdf2-" + algorithm) + "$" + rest;
            && |hash| > 1 && hash[1] == 'p'
            && ('$' !in algorithm ==> (IsPbkdf2Hash(hash) <==> IsShaName(algorithm)))
  {
    var hash := "$" + ("pbkdf2-" + algorithm) + "$" + rest;
    var tail := algorithm + "$" + rest;
    assert hash == "$pbkdf2-" + tail && hash[8..] == tail;
    if '$' !in algorithm {
      ShaRecognised(algorithm, rest);
    }
  }

  lemma Pbkdf2Lead(k: Primitives, p: Pbkdf2, password: seq<Byte>, salt: seq<Byte>)
    requires |salt| == p.saltLength
    ensures var hash := GeneratePbkdf2(k, p, password, salt);
            && |hash| > 1 && hash[1] == 'p'
            && ('$' !in p.algorithm ==> (IsPbkdf2Hash(hash) <==> IsShaName(p.algorithm)))
  {
    var fields := Pbkdf2Fields(k, p, password, salt);
    JoinLead(fields);
    LeadRecognised(p.algorithm, Join(fields[2..], '$'));
  }

  /** Against a printed PBKDF2 string a password is accepted exactly when the algorithm is "sha" and one to three
      digits and both passwords derive the same key. Any other algorithm name is either not recognised or breaks
      the string into too many parts. */
  lemma Pbkdf2Accepts(k: Primitives, p: Pbkdf2, password: seq<Byte>, salt: seq<Byte>, attempt: seq<Byte>)
    requires |salt| == p.saltLength && KeyLengths(k)
    ensures var derive := (pw: seq<Byte>) =>
              k.pbkdf2(PseudorandomFunction(p.algorithm), pw, salt, p.iterations, p.keyLength);
            Compare(k, attempt, GeneratePbkdf2(k, p, password, salt)).Ok? <==>
              IsShaName(p.algorithm) && derive(attempt) == derive(password)
  {
    Pbkdf2Lead(k, p, password, salt);
    Pbkdf2Decides(k, attempt, GeneratePbkdf2(k, p, password, salt));
    if '$' in p.algorithm {
      Pbkdf2Parts(k, p, password, salt);
      ShaNameAvoidsDollar(p.algorithm);
    } else {
      Pbkdf2Decodes(k, p, password, salt);
    }
  }

  lemma ShaNameAvoidsDollar(algorithm: string)
    requires '$' in algorithm
    ensures !IsShaName(algorithm)
  {
    if "sha" <= algorithm {
      assert algorithm == "sha" + algorithm[3..];
    }
  }

  /** In particular every password is accepted against its own string when the algorithm name is recognised. */
  lemma Pbkdf2RoundTrip(k: Primitives, p: Pbkdf2, password: seq<Byte>, salt: seq<Byte>)
    requires |salt| == p.saltLength && KeyLengths(k)
    ensures Compare(k, password, GeneratePbkdf2(k, p, password, salt)) == Ok(()) <==> IsShaName(p.algorithm)
  {
    Pbkdf2Accepts(k, p, password, salt, password);
  }

  // Any other string

  /** Bcrypt is recognised by "$2$", or "$2", one of the letters a, b, z and y, and "$". */
  lemma BcryptExactly(hash: string)
    ensures IsBcryptHash(hash) <==>
              "$2$" <= hash || "$2a$" <= hash || "$2b$" <= hash || "$2z$" <= hash || "$2y$" <= hash
  {
  }

  /** Against a bcrypt hash a password is accepted exactly if it has at most 72 bytes and bcrypt accepts it. */
  lemma BcryptAccepts(k: Primitives, password: seq<Byte>, hash: string)
    requires "$2$" <= hash || "$2a$" <= hash || "$2b$" <= hash || "$2z$" <= hash || "$2y$" <= hash
    ensures Compare(k, password, hash)
         == if |password| > 72 then Err(PasswordTooLong) else if k.bcrypt(hash, password) then Ok(()) else Err(BcryptFailed)
  {
    BcryptExactly(hash);
  }

  /** "sha", one to three digits, a dollar sign and whatever follows. */
  ghost predicate ShaStart(s: string, digits: string, rest: string) {
    1 <= |digits| <= 3 && AllDigits(digits) && s == "sha" + (digits + ("$" + rest))
  }

  lemma ShaStarts(s: string, digits: string, rest: string)
    requires ShaStart(s, digits, rest)
    ensures StartsWithSha(s)
  {
    assert s[3..] == digits + ("$" + rest);
    DigitRunOf(digits, "$" + rest);
    assert s[3..][|digits|] == '$';
  }

  lemma StartsSha(s: string) returns (digits: string, rest: string)
    requires StartsWithSha(s)
    ensures ShaStart(s, digits, rest)
  {
    var n := DigitRun(s[3..]);
    digits, rest := s[3..][..n], s[3..][n + 1..];
    assert s[3..][n] == s[3 + n] == '$';
    assert s[3..] == digits + ("$" + rest);
    assert s == "sha" + s[3..];
  }

  /** A PBKDF2 hash starts with "$pbkdf2-sha", one to three digits and "$". */
  lemma Pbkdf2Exactly(hash: string)
    ensures IsPbkdf2Hash(hash) <==>
              |hash| >= 8 && hash[..8] == "$pbkdf2-" && exists digits, rest :: ShaStart(hash[8..], digits, rest)
  {
    if |hash| >= 8 {
      if digits, rest :| ShaStart(hash[8..], digits, rest) {
        ShaStarts(hash[8..], digits, rest);
      }
      if StartsWithSha(hash[8..]) {
        var digits, rest := StartsSha(hash[8..]);
      }
    }
  }

  /** A string with none of these beginnings is of no known algorithm. */
  lemma UnknownExactly(k: Primitives, password: seq<Byte>, hash: string)
    ensures Compare(k, password, hash) == Err(UnknownAlgorithm) <==>
              && !("$2$" <= hash || "$2a$" <= hash || "$2b$" <= hash || "$2z$" <= hash || "$2y$" <= hash)
              && !("$argon2id$" <= hash) && !IsPbkdf2Hash(hash)
  {
    BcryptExactly(hash);
    ErrorsOtherwise(k, password, hash);
  }

  lemma ErrorsOtherwise(k: Primitives, password: seq<Byte>, hash: string)
    ensures CompareBcrypt(k, password, hash) != Err(UnknownAlgorithm)
    ensures CompareArgon2id(k, password, hash) != Err(UnknownAlgorithm)
    ensures ComparePbkdf2(k, password, hash) != Err(UnknownAlgorithm)
  {
  }

  /** The Argon2id decoder accepts exactly six parts, of which the third is version 19, the fourth memory, iterations and
      parallelism in range, and the last two strict Base64. */
  lemma Argon2DecodesExactly(encoded: string, p: Argon2, salt: seq<Byte>, key: seq<Byte>)
    ensures var parts := Split(encoded, '$');
            DecodeArgon2id(encoded) == Ok(Decoded(p, salt, key)) <==>
              && |parts| == 6
              && Scan([Field("v=", -0x8000_0000_0000_0000, 0x7fff_ffff_ffff_ffff)], parts[2]) == Some([19])
              && Scan([Field("m=", 0, 0xffff_ffff_ffff_ffff), Field(",t=", 0, 0xffff_ffff), Field(",p=", 0, 255)], parts[3])
                 == Some([p.memory, p.iterations, p.parallelism])
              && Base64.Decode(parts[4]) == Some(salt) && Base64.Decode(parts[5]) == Some(key)
              && p.saltLength == |salt| % 0x1_0000_0000 && p.keyLength == |key| % 0x1_0000_0000
  {
    var parts := Split(encoded, '$');
    if |parts| == 6 {
      Argon2FromExactly(ScanFields(VERSION_FORMAT, parts[2]), ScanFields(ARGON2_FORMAT, parts[3]),
                        DecodeBase64(parts[4]), DecodeBase64(parts[5]), p, salt, key);
      ScannedExactly(VERSION_FORMAT, parts[2], [19]);
      ScannedExactly(ARGON2_FORMAT, parts[3], [p.memory, p.iterations, p.parallelism]);
      DecodedExactly(parts[4], salt);
      DecodedExactly(parts[5], key);
    }
  }

  lemma ScannedExactly(format: Format, s: string, vs: seq<int>)
    ensures ScanFields(format, s) == Ok(vs) <==> Scan(format, s) == Some(vs)
  {
  }

  lemma DecodedExactly(s: string, b: seq<Byte>)
    ensures DecodeBase64(s) == Ok(b) <==> Base64.Decode(s) == Some(b)
  {
  }

  lemma Argon2FromExactly(v: Scanned, f: Scanned, s: Bytes, h: Bytes, p: Argon2, salt: seq<Byte>, key: seq<Byte>)
    requires ScannedBy(VERSION_FORMAT, v) && ScannedBy(ARGON2_FORMAT, f)
    ensures Argon2From(v, f, s, h) == Ok(Decoded(p, salt, key)) <==>
              && v == Ok([19]) && f == Ok([p.memory, p.iterations, p.parallelism]) && s == Ok(salt) && h == Ok(key)
              && p.saltLength == |salt| % 0x1_0000_0000 && p.keyLength == |key| % 0x1_0000_0000
  {
    if v.Ok? && f.Ok? {
      assert v.value == [v.value[0]] && f.value == [f.value[0], f.value[1], f.value[2]];
    }
  }

  /** The PBKDF2 decoder accepts exactly five parts: after the first dash of the second the algorithm, then iterations and
      length in range, of which the length is not used, and twice strict Base64. */
  lemma Pbkdf2DecodesExactly(encoded: string, p: Pbkdf2, salt: seq<Byte>, key: seq<Byte>)
    ensures var parts := Split(encoded, '$');
            DecodePbkdf2(encoded) == Ok(Decoded(p, salt, key)) <==>
              && |parts| == 5
              && |SplitOnce(parts[1], '-')| == 2 && SplitOnce(parts[1], '-')[1] == p.algorithm
              && (exists l :: Scan([Field("i=", 0, 0xffff_ffff), Field(",l=", 0, 0xffff_ffff)], parts[2])
                              == Some([p.iterations, l]))
              && Base64.Decode(parts[3]) == Some(salt) && Base64.Decode(parts[4]) == Some(key)
              && p.saltLength == |salt| % 0x1_0000_0000 && p.keyLength == |key| % 0x1_0000_0000
  {
    var parts := Split(encoded, '$');
    if |parts| == 5 && |SplitOnce(parts[1], '-')| == 2 {
      Pbkdf2FromExactly(SplitOnce(parts[1], '-')[1], ScanFields(PBKDF2_FORMAT, parts[2]), DecodeBase64(parts[3]),
                        DecodeBase64(parts[4]), p, salt, key);
    }
  }

  lemma Pbkdf2FromExactly(
    algorithm: string, f: Scanned, s: Bytes, h: Bytes, p: Pbkdf2, salt: seq<Byte>, key: seq<Byte>)
    requires ScannedBy(PBKDF2_FORMAT, f)
    ensures Pbkdf2From(algorithm, f, s, h) == Ok(Decoded(p, salt, key)) <==>
              && algorithm == p.algorithm && (exists l :: f == Ok([p.iterations, l])) && s == Ok(salt) && h == Ok(key)
              && p.saltLength == |salt| % 0x1_0000_0000 && p.keyLength == |key| % 0x1_0000_0000
  {
    if f.Ok? {
      assert f.value == [f.value[0], f.value[1]];
    }
  }

  /** The errors of the decoders: a wrong number of parts, another version, a part that does not scan, or one that is not
      strict Base64, the first of these that applies. */
  lemma Argon2Errors(encoded: string)
    ensures var parts := Split(encoded, '$');
            && (|parts| != 6 ==> DecodeArgon2id(encoded) == Err(InvalidHash))
            && (|parts| == 6 ==>
                  var version := Scan([Field("v=", -0x8000_0000_0000_0000, 0x7fff_ffff_ffff_ffff)], parts[2]);
                  var fields := Scan(ARGON2_FORMAT, parts[3]);
                  if version.None? then DecodeArgon2id(encoded) == Err(ScanFailed)
                  else if version.value != [19] then DecodeArgon2id(encoded) == Err(IncompatibleVersion)
                  else if fields.None? then DecodeArgon2id(encoded) == Err(ScanFailed)
                  else if Base64.Decode(parts[4]).None? || Base64.Decode(parts[5]).None?
                  then DecodeArgon2id(encoded) == Err(CorruptBase64)
                  else DecodeArgon2id(encoded).Ok?)
  {
    var parts := Split(encoded, '$');
    if |parts| == 6 {
      var v := ScanFields(VERSION_FORMAT, parts[2]);
      assert v.Ok? ==> v.value == [v.value[0]];
    }
  }

  lemma Pbkdf2Errors(encoded: string)
    ensures var parts := Split(encoded, '$');
            if |parts| != 5 || |SplitOnce(parts[1], '-')| != 2 then DecodePbkdf2(encoded) == Err(InvalidHash)
            else if Scan(PBKDF2_FORMAT, parts[2]).None? then DecodePbkdf2(encoded) == Err(ScanFailed)
            else if Base64.Decode(parts[3]).None? || Base64.Decode(parts[4]).None?
            then DecodePbkdf2(encoded) == Err(CorruptBase64)
            else DecodePbkdf2(encoded).Ok?
  {
  }
}
