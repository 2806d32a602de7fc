/** Publishing the tokens of OpenID Connect credentials: the encrypted config is rebuilt in the clear, one kind of token
    after the other. */
module OidcCredentials {
  import opened Basics
  import opened Wrappers

  /** The string members of a JSON object. */
  type Object = map<string, string>

  /** A credential's config: no bytes at all, a document with a list of providers, or any other document. */
  datatype Config = Empty | Providers(list: seq<Object>) | Other(raw: string)

  datatype Credentials = Credentials(kind: CredentialsType, identifiers: seq<string>, config: Config)

  const OIDC: CredentialsType := "oidc"
  const TOKENS: seq<string> := ["initial_id_token", "initial_access_token", "initial_refresh_token"]

  type Cipher = string -> Option<string>

  function ProvidersOf(c: Config): seq<Object> {
    if c.Providers? then c.list else []
  }

  /** A member's text, which is empty if there is none. */
  function Text(o: Object, key: string): string {
    if key in o then o[key] else ""
  }

  /** Setting `providers.<i>.<key>` in a document: the list grows by an object when `i` is its length. */
  function Set(c: Config, i: nat, key: string, value: string): Config
    requires i <= |ProvidersOf(c)|
  {
    var list := ProvidersOf(c);
    Providers(if i == |list| then list + [map[key := value]] else list[i := list[i][key := value]])
  }

  // The simple form

  predicate Decrypts(decrypt: Cipher, p: Object) {
    forall t :: t in TOKENS ==> decrypt(Text(p, t)).Some?
  }

  function Plain(decrypt: Cipher, p: Object, token: string): string {
    var r := decrypt(Text(p, token));
    if r.Some? then r.value else ""
  }

  const NAMES: set<string> := {"subject", "provider"}

  function Member(decrypt: Cipher, p: Object, key: string): string {
    if key in NAMES then Text(p, key) else Plain(decrypt, p, key)
  }

  /** What is published of one provider: its names, and its tokens decrypted. */
  function Published(decrypt: Cipher, p: Object): Object {
    map key | key in NAMES + (set t | t in TOKENS) :: Member(decrypt, p, key)
  }

  function PublishedConfig(decrypt: Cipher, c: Config): Config {
    var ps := ProvidersOf(c);
    if ps == [] then Empty else Providers(seq(|ps|, i requires 0 <= i < |ps| => Published(decrypt, ps[i])))
  }

  // The loop

  /** What a provider has got after some kinds of token. */
  function Partial(decrypt: Cipher, p: Object, tokens: nat): Object
    requires tokens <= |TOKENS|
  {
    if tokens == 0 then map[]
    else
      Partial(decrypt, p, tokens - 1)[TOKENS[tokens - 1] := Plain(decrypt, p, TOKENS[tokens - 1])]
        ["subject" := Text(p, "subject")]["provider" := Text(p, "provider")]
  }

  lemma TokensAreNoNames(t: nat)
    requires t < |TOKENS|
    ensures TOKENS[t] !in NAMES
  {
    assert TOKENS[t][0] == 'i';
  }

  function Tabulated(member: string -> string, keys: set<string>): Object {
    map key | key in keys :: member(key)
  }

  lemma TabulateMore(member: string -> string, keys: set<string>, a: string, b: string, c: string)
    ensures Tabulated(member, keys)[a := member(a)][b := member(b)][c := member(c)] == Tabulated(member, keys + {a, b, c})
  {
  }

  function Keys(tokens: nat): set<string>
    requires tokens <= |TOKENS|
  {
    if tokens == 0 then {} else Keys(tokens - 1) + {TOKENS[tokens - 1], "subject", "provider"}
  }

  lemma MemberKinds(decrypt: Cipher, p: Object, t: nat)
    requires t < |TOKENS|
    ensures Member(decrypt, p, TOKENS[t]) == Plain(decrypt, p, TOKENS[t])
    ensures Member(decrypt, p, "subject") == Text(p, "subject") && Member(decrypt, p, "provider") == Text(p, "provider")
  {
    TokensAreNoNames(t);
  }

  lemma {:induction false} SomeTokens(decrypt: Cipher, p: Object, tokens: nat)
    requires tokens <= |TOKENS|
    ensures Partial(decrypt, p, tokens) == Tabulated(key => Member(decrypt, p, key), Keys(tokens))
  {
    if tokens > 0 {
      SomeTokens(decrypt, p, tokens - 1);
      MemberKinds(decrypt, p, tokens - 1);
      TabulateMore(key => Member(decrypt, p, key), Keys(tokens - 1), TOKENS[tokens - 1], "subject", "provider");
    }
  }

  lemma AllKeys()
    ensures Keys(3) == NAMES + set t | t in TOKENS
  {
    assert Keys(1) == {TOKENS[0], "subject", "provider"};
    assert Keys(2) == {TOKENS[0], TOKENS[1], "subject", "provider"};
    assert Keys(3) == {TOKENS[0], TOKENS[1], TOKENS[2], "subject", "provider"};
  }

  lemma AllTokens(decrypt: Cipher, p: Object)
    ensures Partial(decrypt, p, |TOKENS|) == Published(decrypt, p)
  {
    SomeTokens(decrypt, p, |TOKENS|);
    AllKeys();
  }

  /** What is published of a provider, member by member. */
  lemma PublishedMembers(decrypt: Cipher, p: Object, key: string)
    ensures var out := Published(decrypt, p);
            && out.Keys == {"initial_id_token", "initial_access_token", "initial_refresh_token", "subject", "provider"}
            && out["subject"] == Text(p, "subject") && out["provider"] == Text(p, "provider")
            && (key in {"initial_id_token", "initial_access_token", "initial_refresh_token"} ==>
                  out[key] == match decrypt(Text(p, key)) case Some(plain) => plain case None => "")
    ensures Decrypts(decrypt, p) <==>
              && decrypt(Text(p, "initial_id_token")).Some? && decrypt(Text(p, "initial_access_token")).Some?
              && decrypt(Text(p, "initial_refresh_token")).Some?
  {
    PublishedKeys();
    TokensAreNoNames(0);
    TokensAreNoNames(1);
    TokensAreNoNames(2);
    assert TOKENS[0] in TOKENS && TOKENS[1] in TOKENS && TOKENS[2] in TOKENS;
  }

  lemma PublishedKeys()
    ensures NAMES + (set t | t in TOKENS)
         == {"initial_id_token", "initial_access_token", "initial_refresh_token", "subject", "provider"}
  {
    assert TOKENS == [TOKENS[0], TOKENS[1], TOKENS[2]];
    assert (set t | t in TOKENS) == {TOKENS[0], TOKENS[1], TOKENS[2]};
  }

  /** The config in the middle of the loops: the first `n` providers have one kind of token more than the others. */
  ghost predicate Progress(decrypt: Cipher, ps: seq<Object>, c: Config, tokens: nat, n: nat) {
    && tokens < |TOKENS| && n <= |ps| && !c.Other?
    && (c.Empty? <==> ProvidersOf(c) == [])
    && |ProvidersOf(c)| == (if tokens == 0 then n else |ps|)
    && forall j :: 0 <= j < |ProvidersOf(c)| ==>
         ProvidersOf(c)[j] == Partial(decrypt, ps[j], if j < n then tokens + 1 else tokens)
  }

  /** One pass over the providers, for one kind of token. */
  method PublishToken(decrypt: Cipher, ps: seq<Object>, c: Config, t: nat) returns (r: Option<Config>)
    requires Progress(decrypt, ps, c, t, 0)
    ensures r.Some? <==> forall p :: p in ps ==> decrypt(Text(p, TOKENS[t])).Some?
    ensures r.Some? ==> Progress(decrypt, ps, r.value, t, |ps|)
  {
    var config, token := c, TOKENS[t];
    for i := 0 to |ps|
      invariant Progress(decrypt, ps, config, t, i)
      invariant forall j :: 0 <= j < i ==> decrypt(Text(ps[j], token)).Some?
    {
      var v := ps[i];
      var plaintext := decrypt(Text(v, token));
      if plaintext.None? {
        assert v in ps;
        return None;
      }
      ghost var was := config;
      config := Set(config, i, token, plaintext.value);
      config := Set(config, i, "subject", Text(v, "subject"));
      config := Set(config, i, "provider", Text(v, "provider"));
      Advance(decrypt, ps, was, t, i);
    }
    return Some(config);
  }

  /** The config of the OpenID Connect credentials, token by token and provider by provider within it. That amounts to
      publishing every provider on its own, and fails exactly if some token of some provider does not decrypt. */
  method Declassify(decrypt: Cipher, original: Config) returns (r: Option<Config>)
    ensures r.Some? <==> forall p :: p in ProvidersOf(original) ==> Decrypts(decrypt, p)
    ensures r.Some? ==> r.value == PublishedConfig(decrypt, original)
  {
    var config := Empty;
    var ps := ProvidersOf(original);
    for t := 0 to |TOKENS|
      invariant if t < |TOKENS| then Progress(decrypt, ps, config, t, 0) else Progress(decrypt, ps, config, t - 1, |ps|)
      invariant forall p, u :: p in ps && 0 <= u < t ==> decrypt(Text(p, TOKENS[u])).Some?
    {
      var next := PublishToken(decrypt, ps, config, t);
      if next.None? {
        assert TOKENS[t] in TOKENS;
        return None;
      }
      config := next.value;
      if t + 1 < |TOKENS| {
        NextToken(decrypt, ps, config, t);
      }
    }
    Complete(decrypt, ps, config);
    return Some(config);
  }

  lemma NextToken(decrypt: Cipher, ps: seq<Object>, c: Config, t: nat)
    requires t + 1 < |TOKENS| && Progress(decrypt, ps, c, t, |ps|)
    ensures Progress(decrypt, ps, c, t + 1, 0)
  {
  }

  lemma Complete(decrypt: Cipher, ps: seq<Object>, c: Config)
    requires Progress(decrypt, ps, c, |TOKENS| - 1, |ps|)
    ensures c == PublishedConfig(decrypt, Providers(ps))
  {
    forall i | 0 <= i < |ps| ensures Partial(decrypt, ps[i], |TOKENS|) == Published(decrypt, ps[i]) {
      AllTokens(decrypt, ps[i]);
    }
  }

  /** Three settings in one object. */
  lemma SetThree(c: Config, i: nat, a: string, b: string, d: string, x: string, y: string, z: string)
    requires i <= |ProvidersOf(c)|
    ensures var list := ProvidersOf(c);
            Set(Set(Set(c, i, a, x), i, b, y), i, d, z)
            == Providers(if i == |list| then list + [map[a := x][b := y][d := z]]
                         else list[i := list[i][a := x][b := y][d := z]])
  {
  }

  /** The list when one provider has got one kind of token more. */
  lemma ListAdvances(decrypt: Cipher, ps: seq<Object>, c: Config, t: nat, i: nat, now: Config)
    requires Progress(decrypt, ps, c, t, i) && i < |ps|
    requires var list := ProvidersOf(c);
             now == Providers(if i == |list| then list + [Partial(decrypt, ps[i], t + 1)]
                              else list[i := Partial(decrypt, ps[i], t + 1)])
    ensures Progress(decrypt, ps, now, t, i + 1)
  {
  }

  lemma PartialStep(decrypt: Cipher, p: Object, t: nat)
    requires t < |TOKENS|
    ensures Partial(decrypt, p, t + 1)
         == Partial(decrypt, p, t)[TOKENS[t] := Plain(decrypt, p, TOKENS[t])]
              ["subject" := Text(p, "subject")]["provider" := Text(p, "provider")]
    ensures Partial(decrypt, p, 0) == map[]
  {
  }

  lemma FreshObject(a: string, x: string)
    ensures map[][a := x] == map[a := x]
  {
  }

  lemma Advance(decrypt: Cipher, ps: seq<Object>, c: Config, t: nat, i: nat)
    requires Progress(decrypt, ps, c, t, i) && i < |ps|
    ensures var c1 := Set(c, i, TOKENS[t], Plain(decrypt, ps[i], TOKENS[t]));
            var c2 := Set(c1, i, "subject", Text(ps[i], "subject"));
            Progress(decrypt, ps, Set(c2, i, "provider", Text(ps[i], "provider")), t, i + 1)
  {
    var p, token := ps[i], TOKENS[t];
    SetThree(c, i, token, "subject", "provider", Plain(decrypt, p, token), Text(p, "subject"), Text(p, "provider"));
    PartialStep(decrypt, p, t);
    FreshObject(token, Plain(decrypt, p, token));
    var c1 := Set(c, i, token, Plain(decrypt, p, token));
    var c2 := Set(c1, i, "subject", Text(p, "subject"));
    ListAdvances(decrypt, ps, c, t, i, Set(c2, i, "provider", Text(p, "provider")));
  }

  class Identity {
    var id: nat
    var credentials: map<CredentialsType, Credentials>

    constructor (id: nat, credentials: map<CredentialsType, Credentials>)
      ensures this.id == id && this.credentials == credentials
    {
      this.id, this.credentials := id, credentials;
    }

    /** A copy with every config blanked, except that of the OpenID Connect credentials, which is published. The
        receiver stays as it is. */
    method WithDeclassifiedCredentialsOIDC(decrypt: Cipher) returns (r: Identity?)
      ensures r == null <==>
                "oidc" in credentials && exists p :: p in ProvidersOf(credentials["oidc"].config) && !Decrypts(decrypt, p)
      ensures r != null ==>
                && fresh(r) && r.id == id && r.credentials.Keys == credentials.Keys
                && forall ct :: ct in credentials ==>
                     r.credentials[ct] == credentials[ct].(config :=
                       if ct == "oidc" then PublishedConfig(decrypt, credentials[ct].config) else Empty)
    {
      var toPublish := map[];
      var rest := credentials.Keys;
      while rest != {}
        invariant rest <= credentials.Keys && toPublish.Keys == credentials.Keys - rest
        invariant OIDC in toPublish ==> forall p :: p in ProvidersOf(credentials[OIDC].config) ==> Decrypts(decrypt, p)
        invariant forall ct :: ct in toPublish ==>
                    toPublish[ct] == credentials[ct].(config :=
                      if ct == OIDC then PublishedConfig(decrypt, credentials[ct].config) else Empty)
      {
        var ct :| ct in rest;
        rest := rest - {ct};
        var original := credentials[ct];
        if ct != OIDC {
          toPublish := toPublish[ct := original.(config := Empty)];
        } else {
          var config := Declassify(decrypt, original.config);
          if config.None? {
            return null;
          }
          toPublish := toPublish[ct := original.(config := config.value)];
        }
      }
      r := new Identity(id, toPublish);
    }
  }
}
