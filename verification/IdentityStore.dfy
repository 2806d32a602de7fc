/** What the identity store makes of an identity, what it may hand back instead, and the identities that survive being
    validated and stored again. */
module IdentityStore {
  import opened Basics
  import opened Wrappers
  import opened Addresses
  import opened IdentityValidation

  type CredentialsMap = map<CredentialsType, Credentials>

  // Writing

  function NormalForms(s: Schemas, names: seq<string>): seq<string> {
    seq(|names|, n requires 0 <= n < |names| => s.normal(names[n]))
  }

  function ConfigOrDefault(config: string): string {
    if config == "" then "{}" else config
  }

  /** `createIdentityCredentials` for one type: a missing config is filled in, password identifiers are normalised. */
  function WrittenCredentials(s: Schemas, t: CredentialsType, c: Credentials): Credentials {
    var names := c.identifiers.Elements();
    c.(config := ConfigOrDefault(c.config), identifiers := Items(if t == PASSWORD then NormalForms(s, names) else names))
  }

  function WrittenAll(s: Schemas, credentials: CredentialsMap): CredentialsMap {
    map t | t in credentials :: WrittenCredentials(s, t, credentials[t])
  }

  /** The identity as it is stored. */
  function Written(s: Schemas, i: Identity): Identity {
    i.(credentials := WrittenAll(s, i.credentials))
  }

  /** The identity as the caller holds it after the write: only missing configs are filled in. */
  function Filled(i: Identity): Identity {
    i.(credentials := map t | t in i.credentials ::
         i.credentials[t].(config := ConfigOrDefault(i.credentials[t].config)))
  }

  /** The store refuses empty identifiers. */
  predicate Refused(s: Schemas, i: Identity) {
    exists t :: t in i.credentials && "" in WrittenCredentials(s, t, i.credentials[t]).identifiers.Elements()
  }

  /** What is stored of credentials of one type, and what the caller holds then: "{}" in place of a missing config, and
      password identifiers in normal form in the store only. Nothing else changes. */
  lemma WrittenExactly(s: Schemas, i: Identity, t: CredentialsType, n: nat)
    requires t in i.credentials
    ensures var stored, caller := Written(s, i), Filled(i);
            && stored == i.(credentials := stored.credentials) && stored.credentials.Keys == i.credentials.Keys
            && caller == i.(credentials := caller.credentials) && caller.credentials.Keys == i.credentials.Keys
            && stored.credentials[t].id == i.credentials[t].id
            && stored.credentials[t].config == (if i.credentials[t].config == "" then "{}" else i.credentials[t].config)
            && caller.credentials[t] == i.credentials[t].(config := stored.credentials[t].config)
            && var was, now := i.credentials[t].identifiers.Elements(), stored.credentials[t].identifiers;
               && now.Items? && |now.list| == |was|
               && (n < |was| ==> now.list[n] == if t == "password" then s.normal(was[n]) else was[n])
  {
  }

  lemma EmptyStored(s: Schemas, t: CredentialsType, c: Credentials)
    ensures "" in WrittenCredentials(s, t, c).identifiers.Elements() <==>
              exists x :: x in c.identifiers.Elements() && "" == StoredAs(s, t, x)
  {
    var was, now := c.identifiers.Elements(), WrittenCredentials(s, t, c).identifiers.list;
    assert |now| == |was| && forall n :: 0 <= n < |was| ==> now[n] == StoredAs(s, t, was[n]);
    if "" in now {
      var n :| 0 <= n < |now| && now[n] == "";
      assert was[n] in was;
    }
    if x :| x in was && "" == StoredAs(s, t, x) {
      var n :| 0 <= n < |was| && was[n] == x;
      assert now[n] == "";
    }
  }

  function StoredAs(s: Schemas, t: CredentialsType, x: string): string {
    if t == "password" then s.normal(x) else x
  }

  /** The store refuses an identity exactly if some identifier, as it would be stored, is empty. */
  lemma RefusedExactly(s: Schemas, i: Identity)
    ensures Refused(s, i) <==>
              exists t, x :: t in i.credentials && x in i.credentials[t].identifiers.Elements() && "" == StoredAs(s, t, x)
  {
    forall t | t in i.credentials
      ensures "" in WrittenCredentials(s, t, i.credentials[t]).identifiers.Elements() <==>
                exists x :: x in i.credentials[t].identifiers.Elements() && "" == StoredAs(s, t, x)
    {
      EmptyStored(s, t, i.credentials[t]);
    }
  }

  // Up to the order in which the store hands things back

  /** The same config, and the same identifiers in some order. */
  ghost predicate Alike(a: Credentials, b: Credentials) {
    && a.config == b.config && a.identifiers.Nil? == b.identifiers.Nil?
    && Permuted(a.identifiers.Elements(), b.identifiers.Elements())
  }

  ghost predicate AlikeAll(a: CredentialsMap, b: CredentialsMap) {
    a.Keys == b.Keys && forall t :: t in a ==> Alike(a[t], b[t])
  }

  /** The same identity, but for the order of its addresses and its identifiers. */
  ghost predicate SameButOrder(a: Identity, b: Identity) {
    && b == a.(credentials := b.credentials, verifiable := b.verifiable, recovery := b.recovery)
    && AlikeAll(a.credentials, b.credentials)
    && Permuted(a.verifiable.Elements(), b.verifiable.Elements())
    && Permuted(a.recovery.Elements(), b.recovery.Elements())
  }

  lemma AlikeOn(a: CredentialsMap, b: CredentialsMap, c: CredentialsMap)
    requires AlikeAll(a, b) && AlikeAll(b, c)
    ensures AlikeAll(a, c)
  {
    forall t | t in a ensures Alike(a[t], c[t]) {
      assert Alike(a[t], b[t]) && Alike(b[t], c[t]);
    }
  }

  // Credentials in step

  /** Writing these credentials again would neither change nor refuse them. */
  ghost predicate Clean(s: Schemas, t: CredentialsType, c: Credentials) {
    && c.config != "" && c.identifiers.Items?
    && "" !in c.identifiers.Elements()
    && (t == PASSWORD ==> forall x :: x in c.identifiers.Elements() ==> s.normal(x) == x)
  }

  /** The password's identifiers are, in some order, the normal forms of those visited, if any were. */
  ghost predicate NamesMatch(s: Schemas, credentials: CredentialsMap, names: seq<string>) {
    names == [] ||
    (PASSWORD in credentials &&
     Permuted(credentials[PASSWORD].identifiers.Elements(), NormalForms(s, FirstOccurrences(names))))
  }

  ghost predicate CleanAll(s: Schemas, credentials: CredentialsMap) {
    forall t :: t in credentials ==> Clean(s, t, credentials[t])
  }

  lemma NormalAgain(s: Schemas, names: seq<string>)
    ensures NormalForms(s, NormalForms(s, names)) == NormalForms(s, names)
  {
    forall n | 0 <= n < |names| ensures s.normal(s.normal(names[n])) == s.normal(names[n]) {
    }
  }

  lemma NormalFixed(s: Schemas, names: seq<string>)
    ensures NormalForms(s, names) == names <==> forall x :: x in names ==> s.normal(x) == x
  {
    if NormalForms(s, names) == names {
      forall x | x in names ensures s.normal(x) == x {
        var n :| 0 <= n < |names| && names[n] == x;
        assert NormalForms(s, names)[n] == x;
      }
    }
  }

  /** What is in normal form up to its order is in normal form. */
  lemma NormalPermuted(s: Schemas, names: seq<string>, origin: seq<string>)
    requires Permuted(names, NormalForms(s, origin))
    ensures NormalForms(s, names) == names
  {
    var forms := NormalForms(s, origin);
    forall x | x in names ensures s.normal(x) == x {
      PermutedElements(names, forms, x);
      var n :| 0 <= n < |forms| && forms[n] == x;
      assert s.normal(s.normal(origin[n])) == s.normal(origin[n]);
    }
    NormalFixed(s, names);
  }

  /** Credentials come out of a write as they went in, up to the order of identifiers, exactly if they are clean. */
  lemma CleanIsFixpoint(s: Schemas, t: CredentialsType, c: Credentials)
    ensures Clean(s, t, c) <==>
              var w := WrittenCredentials(s, t, c); Alike(c, w) && "" !in w.identifiers.Elements()
    ensures Clean(s, t, c) ==> WrittenCredentials(s, t, c) == c
  {
    var names, w := c.identifiers.Elements(), WrittenCredentials(s, t, c);
    NormalFixed(s, names);
    if Alike(c, w) && t == PASSWORD {
      NormalPermuted(s, names, names);
    }
  }

  /** What was written is clean, unless the store refused it. */
  lemma WrittenIsClean(s: Schemas, t: CredentialsType, c: Credentials)
    requires "" !in WrittenCredentials(s, t, c).identifiers.Elements()
    ensures Clean(s, t, WrittenCredentials(s, t, c))
  {
    var names := c.identifiers.Elements();
    NormalAgain(s, names);
    NormalFixed(s, NormalForms(s, names));
  }

  predicate NoneEmpty(credentials: CredentialsMap) {
    forall t :: t in credentials ==> "" !in credentials[t].identifiers.Elements()
  }

  /** The credentials after validating and writing them. */
  function Rewritten(s: Schemas, credentials: CredentialsMap, names: seq<string>): CredentialsMap {
    WrittenAll(s, Renamed(credentials, names))
  }

  /** The keys are those there were, and the password's if some identifier was visited. */
  lemma RewrittenKeys(s: Schemas, credentials: CredentialsMap, names: seq<string>)
    ensures Rewritten(s, credentials, names).Keys == credentials.Keys + if names == [] then {} else {PASSWORD}
  {
  }

  lemma RewrittenOthers(s: Schemas, credentials: CredentialsMap, names: seq<string>, t: CredentialsType)
    requires t in credentials && (t != PASSWORD || names == [])
    ensures t in Rewritten(s, credentials, names)
    ensures Rewritten(s, credentials, names)[t] == WrittenCredentials(s, t, credentials[t])
  {
  }

  lemma RewrittenPassword(s: Schemas, credentials: CredentialsMap, names: seq<string>)
    requires names != []
    ensures PASSWORD in Rewritten(s, credentials, names)
    ensures var c := PasswordOf(credentials);
            Rewritten(s, credentials, names)[PASSWORD]
            == c.(config := ConfigOrDefault(c.config), identifiers := Items(NormalForms(s, FirstOccurrences(names))))
  {
  }

  ghost predicate Matches(s: Schemas, t: CredentialsType, c: Credentials, names: seq<string>) {
    && Clean(s, t, c)
    && (t == PASSWORD && names != [] ==> Permuted(c.identifiers.Elements(), NormalForms(s, FirstOccurrences(names))))
  }

  /** One type of credentials survives exactly if it is clean and matches the names visited. */
  lemma MatchesIsFixpoint(s: Schemas, credentials: CredentialsMap, names: seq<string>, t: CredentialsType)
    requires t in credentials && t in Rewritten(s, credentials, names)
    ensures var w := Rewritten(s, credentials, names)[t];
            Matches(s, t, credentials[t], names) <==> Alike(credentials[t], w) && "" !in w.identifiers.Elements()
  {
    var c := credentials[t];
    if t == PASSWORD && names != [] {
      RewrittenPassword(s, credentials, names);
      var origin := FirstOccurrences(names);
      if Permuted(c.identifiers.Elements(), NormalForms(s, origin)) {
        NormalPermuted(s, c.identifiers.Elements(), origin);
        NormalFixed(s, c.identifiers.Elements());
        PermutedElements(c.identifiers.Elements(), NormalForms(s, origin), "");
      }
    } else {
      RewrittenOthers(s, credentials, names, t);
      CleanIsFixpoint(s, t, c);
    }
  }

  lemma MatchingSurvive(s: Schemas, credentials: CredentialsMap, names: seq<string>)
    requires CleanAll(s, credentials) && NamesMatch(s, credentials, names)
    ensures var w := Rewritten(s, credentials, names); AlikeAll(credentials, w) && NoneEmpty(w)
  {
    var w := Rewritten(s, credentials, names);
    RewrittenKeys(s, credentials, names);
    forall t | t in credentials ensures t in w && Alike(credentials[t], w[t]) && "" !in w[t].identifiers.Elements() {
      assert Clean(s, t, credentials[t]);
      MatchesIsFixpoint(s, credentials, names, t);
    }
  }

  lemma SurvivorsMatch(s: Schemas, credentials: CredentialsMap, names: seq<string>)
    requires var w := Rewritten(s, credentials, names); AlikeAll(credentials, w) && NoneEmpty(w)
    ensures CleanAll(s, credentials) && NamesMatch(s, credentials, names)
  {
    RewrittenKeys(s, credentials, names);
    forall t | t in credentials ensures Matches(s, t, credentials[t], names) {
      MatchesIsFixpoint(s, credentials, names, t);
    }
  }

  /** Credentials survive exactly if they are clean and match the names visited. */
  lemma CredentialsInStep(s: Schemas, credentials: CredentialsMap, names: seq<string>)
    ensures CleanAll(s, credentials) && NamesMatch(s, credentials, names) <==>
              var w := Rewritten(s, credentials, names); AlikeAll(credentials, w) && NoneEmpty(w)
  {
    if CleanAll(s, credentials) && NamesMatch(s, credentials, names) {
      MatchingSurvive(s, credentials, names);
    }
    var w := Rewritten(s, credentials, names);
    if AlikeAll(credentials, w) && NoneEmpty(w) {
      SurvivorsMatch(s, credentials, names);
    }
  }

  /** The password's identifiers are as they were written. */
  ghost predicate NamesExact(s: Schemas, credentials: CredentialsMap, names: seq<string>) {
    names == [] || PASSWORD !in credentials ||
    credentials[PASSWORD].identifiers == Items(NormalForms(s, FirstOccurrences(names)))
  }

  lemma ExactIsFixpoint(s: Schemas, credentials: CredentialsMap, names: seq<string>, t: CredentialsType)
    requires t in credentials && t in Rewritten(s, credentials, names) && Matches(s, t, credentials[t], names)
    ensures Rewritten(s, credentials, names)[t] == credentials[t] <==>
              (t == PASSWORD && names != [] ==>
                 credentials[t].identifiers == Items(NormalForms(s, FirstOccurrences(names))))
  {
    if t == PASSWORD && names != [] {
      RewrittenPassword(s, credentials, names);
    } else {
      RewrittenOthers(s, credentials, names, t);
      CleanIsFixpoint(s, t, credentials[t]);
    }
  }

  lemma AlikeItself(credentials: CredentialsMap)
    ensures AlikeAll(credentials, credentials)
  {
  }

  lemma ExactSurvives(s: Schemas, credentials: CredentialsMap, names: seq<string>)
    requires CleanAll(s, credentials) && NamesMatch(s, credentials, names) && NamesExact(s, credentials, names)
    ensures Rewritten(s, credentials, names) == credentials && NoneEmpty(credentials)
  {
    var w := Rewritten(s, credentials, names);
    RewrittenKeys(s, credentials, names);
    forall t | t in credentials ensures w[t] == credentials[t] {
      assert Clean(s, t, credentials[t]);
      ExactIsFixpoint(s, credentials, names, t);
    }
  }

  lemma SurvivesExact(s: Schemas, credentials: CredentialsMap, names: seq<string>)
    requires Rewritten(s, credentials, names) == credentials && NoneEmpty(credentials)
    ensures CleanAll(s, credentials) && NamesMatch(s, credentials, names) && NamesExact(s, credentials, names)
  {
    AlikeItself(credentials);
    CredentialsInStep(s, credentials, names);
    if names != [] {
      RewrittenPassword(s, credentials, names);
    }
  }

  lemma CredentialsExact(s: Schemas, credentials: CredentialsMap, names: seq<string>)
    ensures CleanAll(s, credentials) && NamesMatch(s, credentials, names) && NamesExact(s, credentials, names) <==>
              Rewritten(s, credentials, names) == credentials && NoneEmpty(credentials)
  {
    if CleanAll(s, credentials) && NamesMatch(s, credentials, names) && NamesExact(s, credentials, names) {
      ExactSurvives(s, credentials, names);
    }
    if Rewritten(s, credentials, names) == credentials && NoneEmpty(credentials) {
      SurvivesExact(s, credentials, names);
    }
  }

  // Identities in step

  /** The visits of a document its schema accepts. */
  function VisitsOf(s: Schemas, i: Identity): Option<seq<Visit>> {
    var walk :- WalkOf(s, i.schemaID, i.traits);
    if walk.verdict(Accepted(walk.visits)) then Some(walk.visits) else None
  }

  /** The addresses and the identifiers stored are those of the traits, in whatever order. */
  ghost predicate InStep(s: Schemas, i: Identity) {
    var visits := VisitsOf(s, i);
    && visits.Some?
    && Permuted(Keys(i.verifiable.Elements()), FirstOccurrences(Keys(VerifiablesOf(i.id, visits.value))))
    && Permuted(Keys(i.recovery.Elements()), FirstOccurrences(Keys(RecoveriesOf(i.id, visits.value))))
    && CleanAll(s, i.credentials) && NamesMatch(s, i.credentials, NamesOf(s, visits.value))
  }

  /** And they are in the order of the traits. */
  ghost predicate InOrder(s: Schemas, i: Identity) {
    var visits := VisitsOf(s, i);
    && visits.Some?
    && Keys(i.verifiable.Elements()) == FirstOccurrences(Keys(VerifiablesOf(i.id, visits.value)))
    && Keys(i.recovery.Elements()) == FirstOccurrences(Keys(RecoveriesOf(i.id, visits.value)))
    && i.verifiable == ToSlice(i.verifiable.Elements()) && i.recovery == ToSlice(i.recovery.Elements())
    && NamesExact(s, i.credentials, NamesOf(s, visits.value))
  }

  lemma ValidatedIs(s: Schemas, i: Identity)
    ensures Validated(s, i).1.None? <==> VisitsOf(s, i).Some?
    ensures VisitsOf(s, i).Some? ==>
              var visits := VisitsOf(s, i).value;
              Validated(s, i).0 ==
                i.(credentials := Renamed(i.credentials, NamesOf(s, visits)),
                   verifiable := ToSlice(Collected(i.verifiable.Elements(), VerifiablesOf(i.id, visits))),
                   recovery := ToSlice(Collected(i.recovery.Elements(), RecoveriesOf(i.id, visits))))
  {
  }

  /** Valid, and not refused by the store. */
  predicate Storable(s: Schemas, i: Identity) {
    Validated(s, i).1.None? && !Refused(s, Validated(s, i).0)
  }

  function Restored(s: Schemas, i: Identity): Identity {
    Written(s, Validated(s, i).0)
  }

  lemma RefusedIs(s: Schemas, i: Identity)
    ensures Refused(s, i) <==> !NoneEmpty(WrittenAll(s, i.credentials))
  {
    if !NoneEmpty(WrittenAll(s, i.credentials)) {
      var t :| t in WrittenAll(s, i.credentials) && "" in WrittenAll(s, i.credentials)[t].identifiers.Elements();
      assert t in i.credentials;
    }
    if t :| t in i.credentials && "" in WrittenCredentials(s, t, i.credentials[t]).identifiers.Elements() {
      assert WrittenAll(s, i.credentials)[t] == WrittenCredentials(s, t, i.credentials[t]);
    }
  }

  /** The parts of an identity that validation and the store rebuild. */
  function Rebuilt(
    i: Identity, credentials: CredentialsMap, verifiable: seq<VerifiableAddress>, recovery: seq<RecoveryAddress>): Identity
  {
    i.(credentials := credentials, verifiable := ToSlice(verifiable), recovery := ToSlice(recovery))
  }

  lemma RestoredIs(s: Schemas, i: Identity)
    requires VisitsOf(s, i).Some?
    ensures var visits := VisitsOf(s, i).value;
            var credentials := Rewritten(s, i.credentials, NamesOf(s, visits));
            && (Storable(s, i) <==> NoneEmpty(credentials))
            && Restored(s, i)
               == Rebuilt(i, credentials, Collected(i.verifiable.Elements(), VerifiablesOf(i.id, visits)),
                          Collected(i.recovery.Elements(), RecoveriesOf(i.id, visits)))
  {
    ValidatedIs(s, i);
    RefusedIs(s, Validated(s, i).0);
  }

  lemma RebuiltAlike(
    i: Identity, credentials: CredentialsMap, verifiable: seq<VerifiableAddress>, recovery: seq<RecoveryAddress>)
    ensures SameButOrder(i, Rebuilt(i, credentials, verifiable, recovery)) <==>
              && AlikeAll(i.credentials, credentials)
              && Permuted(i.verifiable.Elements(), verifiable) && Permuted(i.recovery.Elements(), recovery)
    ensures Rebuilt(i, credentials, verifiable, recovery) == i <==>
              && credentials == i.credentials
              && i.verifiable == ToSlice(verifiable) && i.recovery == ToSlice(recovery)
  {
  }

  /** The identities that come out as they were, but for the order of addresses and identifiers, when they are validated
      and stored again, are exactly those in step. */
  lemma InStepIsFixpoint(s: Schemas, i: Identity)
    ensures InStep(s, i) <==> Storable(s, i) && SameButOrder(i, Restored(s, i))
  {
    ValidatedIs(s, i);
    if VisitsOf(s, i).Some? {
      var visits := VisitsOf(s, i).value;
      var verifiable, recovery := VerifiablesOf(i.id, visits), RecoveriesOf(i.id, visits);
      RestoredIs(s, i);
      RebuiltAlike(i, Rewritten(s, i.credentials, NamesOf(s, visits)),
                   Collected(i.verifiable.Elements(), verifiable), Collected(i.recovery.Elements(), recovery));
      CredentialsInStep(s, i.credentials, NamesOf(s, visits));
      CollectedReorders(i.verifiable.Elements(), verifiable);
      CollectedReorders(i.recovery.Elements(), recovery);
    }
  }

  /** Those that come out exactly as they were are exactly those that are also in order. */
  lemma InOrderIsFixpoint(s: Schemas, i: Identity)
    ensures InStep(s, i) && InOrder(s, i) <==> Storable(s, i) && Restored(s, i) == i
  {
    ValidatedIs(s, i);
    if VisitsOf(s, i).Some? {
      var visits := VisitsOf(s, i).value;
      var verifiable, recovery := VerifiablesOf(i.id, visits), RecoveriesOf(i.id, visits);
      RestoredIs(s, i);
      RebuiltAlike(i, Rewritten(s, i.credentials, NamesOf(s, visits)),
                   Collected(i.verifiable.Elements(), verifiable), Collected(i.recovery.Elements(), recovery));
      CredentialsExact(s, i.credentials, NamesOf(s, visits));
      CollectedSettled(i.verifiable.Elements(), verifiable);
      CollectedSettled(i.recovery.Elements(), recovery);
    }
  }

  // What is stored

  lemma RewrittenIsExact(s: Schemas, credentials: CredentialsMap, names: seq<string>)
    requires NoneEmpty(Rewritten(s, credentials, names))
    ensures var w := Rewritten(s, credentials, names);
            CleanAll(s, w) && NamesMatch(s, w, names) && NamesExact(s, w, names)
  {
    var named, w := Renamed(credentials, names), Rewritten(s, credentials, names);
    forall t | t in w ensures Clean(s, t, w[t]) {
      assert w[t] == WrittenCredentials(s, t, named[t]);
      WrittenIsClean(s, t, named[t]);
    }
    if names != [] {
      RewrittenPassword(s, credentials, names);
    }
  }

  lemma RebuiltInOrder(
    s: Schemas, i: Identity, credentials: CredentialsMap, verifiable: seq<VerifiableAddress>,
    recovery: seq<RecoveryAddress>, visits: seq<Visit>)
    requires VisitsOf(s, i) == Some(visits)
    requires Keys(verifiable) == FirstOccurrences(Keys(VerifiablesOf(i.id, visits)))
    requires Keys(recovery) == FirstOccurrences(Keys(RecoveriesOf(i.id, visits)))
    requires CleanAll(s, credentials) && NamesMatch(s, credentials, NamesOf(s, visits))
    requires NamesExact(s, credentials, NamesOf(s, visits))
    ensures var now := Rebuilt(i, credentials, verifiable, recovery); InStep(s, now) && InOrder(s, now)
  {
    var now := Rebuilt(i, credentials, verifiable, recovery);
    assert VisitsOf(s, now) == VisitsOf(s, i);
    assert now.verifiable.Elements() == verifiable && now.recovery.Elements() == recovery;
  }

  /** What is stored of a valid identity is in step and in order. */
  lemma RestoredInOrder(s: Schemas, i: Identity)
    requires Storable(s, i)
    ensures InStep(s, Restored(s, i)) && InOrder(s, Restored(s, i))
  {
    ValidatedIs(s, i);
    RestoredIs(s, i);
    var visits := VisitsOf(s, i).value;
    var verifiable, recovery := VerifiablesOf(i.id, visits), RecoveriesOf(i.id, visits);
    RewrittenIsExact(s, i.credentials, NamesOf(s, visits));
    CollectedKeys(i.verifiable.Elements(), verifiable);
    CollectedKeys(i.recovery.Elements(), recovery);
    RebuiltInOrder(s, i, Rewritten(s, i.credentials, NamesOf(s, visits)),
                   Collected(i.verifiable.Elements(), verifiable), Collected(i.recovery.Elements(), recovery), visits);
  }

  // What the store may hand back

  ghost predicate SameAddresses<D>(was: Slice<Address<D>>, now: Slice<Address<D>>) {
    Permuted(Keys(was.Elements()), Keys(now.Elements()))
  }

  /** The same identity with its address records rewritten, but not what identifies them, and with addresses and
      identifiers in another order. */
  ghost predicate HandsBack(was: Identity, now: Identity) {
    && now == was.(credentials := now.credentials, verifiable := now.verifiable, recovery := now.recovery)
    && AlikeAll(was.credentials, now.credentials)
    && SameAddresses(was.verifiable, now.verifiable) && SameAddresses(was.recovery, now.recovery)
  }

  lemma AlikeClean(s: Schemas, t: CredentialsType, c: Credentials, d: Credentials)
    requires Clean(s, t, c) && Alike(c, d)
    ensures Clean(s, t, d)
  {
    forall x ensures x in c.identifiers.Elements() <==> x in d.identifiers.Elements() {
      PermutedElements(c.identifiers.Elements(), d.identifiers.Elements(), x);
    }
  }

  lemma AlikeMatches(s: Schemas, a: CredentialsMap, b: CredentialsMap, names: seq<string>)
    requires AlikeAll(a, b) && CleanAll(s, a) && NamesMatch(s, a, names)
    ensures CleanAll(s, b) && NamesMatch(s, b, names)
  {
    forall t | t in b ensures Clean(s, t, b[t]) {
      assert Alike(a[t], b[t]) && Clean(s, t, a[t]);
      AlikeClean(s, t, a[t], b[t]);
    }
    assert PASSWORD in a ==> Alike(a[PASSWORD], b[PASSWORD]);
  }

  lemma HandedBackInStep(s: Schemas, was: Identity, now: Identity)
    requires InStep(s, was) && HandsBack(was, now)
    ensures InStep(s, now)
  {
    assert VisitsOf(s, now) == VisitsOf(s, was);
    AlikeMatches(s, was.credentials, now.credentials, NamesOf(s, VisitsOf(s, was).value));
  }
}
