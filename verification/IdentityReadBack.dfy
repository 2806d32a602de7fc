/** Identities that an unprivileged caller cannot save as they were read. */
module IdentityReadBack {
  import opened Basics
  import opened Wrappers
  import opened Addresses
  import opened IdentityValidation
  import opened IdentityStore
  import opened IdentityManager

  /** A schema that visits two values, whatever the document. */
  function Visiting(v: Visit, w: Visit, normal: Folding): Schemas {
    Schemas((_, _) => Some(Walk([v, w], _ => true)), x => x, normal)
  }

  function Emailed(text: string): Visit {
    Visit(false, "email", "", text, true, false)
  }

  function Named(text: string): Visit {
    Visit(true, "", "", text, false, false)
  }

  function Sample(credentials: CredentialsMap, addresses: Slice<VerifiableAddress>): Identity {
    Identity(1, "default", "{}", "active", credentials, addresses, Nil)
  }

  function Login(names: seq<string>): CredentialsMap {
    map[PASSWORD := Credentials(0, Items(names), "{}")]
  }

  lemma SampleVisits(v: Visit, w: Visit, normal: Folding, i: Identity)
    requires i == Sample(i.credentials, i.verifiable)
    ensures VisitsOf(Visiting(v, w, normal), i) == Some([v, w])
  {
  }

  lemma OneMoreVisit(s: Schemas, visits: seq<Visit>, v: Visit)
    ensures NamesOf(s, visits + [v]) == NamesOf(s, visits) + if v.identifier then [s.lower(v.text)] else []
    ensures VerifiablesOf(1, visits + [v])
         == VerifiablesOf(1, visits)
            + if VerifyOk(v) && v.verifyVia != "" then [NewVerifiable(v.text, v.verifyVia, 1)] else []
    ensures RecoveriesOf(1, visits + [v])
         == RecoveriesOf(1, visits) + if VisitOk(v) && v.recoverVia != "" then [NewRecovery(v.text, 1)] else []
  {
    assert (visits + [v])[..|visits|] == visits;
  }

  lemma TwoEmailed(s: Schemas, a: string, b: string)
    ensures VerifiablesOf(1, [Emailed(a), Emailed(b)]) == [NewVerifiable(a, "email", 1), NewVerifiable(b, "email", 1)]
    ensures RecoveriesOf(1, [Emailed(a), Emailed(b)]) == [] && NamesOf(s, [Emailed(a), Emailed(b)]) == []
  {
    OneMoreVisit(s, [], Emailed(a));
    OneMoreVisit(s, [] + [Emailed(a)], Emailed(b));
    assert [] + [Emailed(a)] + [Emailed(b)] == [Emailed(a), Emailed(b)];
  }

  lemma TwoNamed(s: Schemas, a: string, b: string)
    ensures NamesOf(s, [Named(a), Named(b)]) == [s.lower(a), s.lower(b)]
    ensures VerifiablesOf(1, [Named(a), Named(b)]) == [] && RecoveriesOf(1, [Named(a), Named(b)]) == []
  {
    OneMoreVisit(s, [], Named(a));
    OneMoreVisit(s, [] + [Named(a)], Named(b));
    assert [] + [Named(a)] + [Named(b)] == [Named(a), Named(b)];
  }

  lemma TwoFirst<T>(a: T, b: T)
    requires a != b
    ensures FirstOccurrences([a, b]) == [a, b]
  {
    FirstOccurrencesOfDistinct([a, b]);
  }

  lemma TwoCollected(a: VerifiableAddress, b: VerifiableAddress)
    requires KeyOf(a) != KeyOf(b)
    ensures Collected([], [a, b]) == [a, b]
  {
    assert [a, b][..1] == [a] && [a][..0] == [];
    assert Kept([], a) == a && Kept([], b) == b;
    assert Collected([], [a]) == [a];
    assert Find([a][1..], KeyOf(b)) == None;
  }

  lemma CreatedIs(s: Schemas, i: Identity, now: Identity)
    requires Storable(s, i) && Restored(s, i) == now && Defaults(now) == now
    ensures Created(s, map[], i, true).pool == map[now.id := now]
  {
    DefaultsWritten(s, Validated(s, i).0);
  }

  /** A run that creates an identity, and one that then hands it back changed. */
  lemma CreatedThenHandedBack(s: Schemas, i: Identity, now: Identity, back: Identity)
    requires Storable(s, i) && Restored(s, i) == now && Defaults(now) == now && now.id == 1
    requires HandsBack(now, back)
    ensures Run(s, map[], [Create(i, true)]) == map[1 := now]
    ensures Run(s, map[], [Create(i, true), Restamp(1, back)]) == map[1 := back]
  {
    CreatedIs(s, i, now);
    RunOne(s, map[], Create(i, true));
    RunTwo(s, Create(i, true), Restamp(1, back));
    RestampedIs(now, back);
  }

  lemma RestampedIs(now: Identity, back: Identity)
    requires HandsBack(now, back)
    ensures Restamped(map[1 := now], 1, back) == map[1 := back]
  {
  }

  lemma RunOne(s: Schemas, pool: Pool, e: Event)
    ensures Run(s, pool, [e]) == Step(s, pool, e)
  {
    assert [e][1..] == [];
    assert Run(s, Step(s, pool, e), []) == Step(s, pool, e);
  }

  lemma RunTwo(s: Schemas, e: Event, f: Event)
    ensures Run(s, map[], [e, f]) == Step(s, Step(s, map[], e), f)
  {
    assert [e, f][1..] == [f];
    RunOne(s, Step(s, map[], e), f);
  }

  lemma AddressesRestored(s: Schemas, a: string, b: string)
    requires a != b && s == Visiting(Emailed(a), Emailed(b), s.normal)
    ensures var x, y := NewVerifiable(a, "email", 1), NewVerifiable(b, "email", 1);
            Storable(s, Sample(map[], Nil)) && Restored(s, Sample(map[], Nil)) == Sample(map[], Items([x, y]))
  {
    var i := Sample(map[], Nil);
    SampleVisits(Emailed(a), Emailed(b), s.normal, i);
    TwoEmailed(s, a, b);
    TwoCollected(NewVerifiable(a, "email", 1), NewVerifiable(b, "email", 1));
    ValidatedIs(s, i);
    RestoredIs(s, i);
    RewrittenKeys(s, map[], []);
    assert Rewritten(s, map[], []) == map[];
  }

  lemma RewrittenLogin(s: Schemas, names: seq<string>)
    requires names != []
    ensures Rewritten(s, map[], names) == Login(NormalForms(s, FirstOccurrences(names)))
  {
    RewrittenKeys(s, map[], names);
    RewrittenPassword(s, map[], names);
  }

  lemma LoginNotEmpty(names: seq<string>)
    ensures NoneEmpty(Login(names)) <==> "" !in names
  {
    assert Login(names)[PASSWORD].identifiers.Elements() == names;
  }

  lemma NamesRestored(s: Schemas, a: string, b: string, firsts: seq<string>)
    requires s == Visiting(Named(a), Named(b), s.normal) && firsts == FirstOccurrences([a, b])
    requires "" !in NormalForms(s, firsts)
    ensures Storable(s, Sample(map[], Nil))
    ensures Restored(s, Sample(map[], Nil)) == Sample(Login(NormalForms(s, firsts)), Nil)
  {
    var i := Sample(map[], Nil);
    SampleVisits(Named(a), Named(b), s.normal, i);
    TwoNamed(s, a, b);
    RestoredIs(s, i);
    RewrittenLogin(s, [a, b]);
    LoginNotEmpty(NormalForms(s, firsts));
  }

  lemma SwappedPairs(x: VerifiableAddress, y: VerifiableAddress)
    ensures Keys([x, y]) == [KeyOf(x), KeyOf(y)] && Permuted(Keys([x, y]), Keys([y, x]))
  {
    assert Keys([x, y]) == [KeyOf(x), KeyOf(y)] && Keys([y, x]) == [KeyOf(y), KeyOf(x)];
  }

  lemma SavingRefused(s: Schemas, es: seq<Event>, i: Identity, visits: seq<Visit>)
    requires Run(s, map[], es) == map[1 := i] && VisitsOf(s, i) == Some(visits) && !Untouched(s, i, visits)
    ensures Updated(s, Run(s, map[], es), i, false, true).error == Some(ProtectedFieldModified)
  {
    SavingUnchanged(s, es, 1);
  }

  lemma HandedBackRefused(s: Schemas, i: Identity, now: Identity, back: Identity, visits: seq<Visit>)
    requires Storable(s, i) && Restored(s, i) == now && Defaults(now) == now && now.id == 1 && HandsBack(now, back)
    requires VisitsOf(s, back) == Some(visits) && !Untouched(s, back, visits)
    ensures var pool := Run(s, map[], [Create(i, true), Restamp(1, back)]);
            pool == map[1 := back] && Updated(s, pool, back, false, true).error == Some(ProtectedFieldModified)
  {
    CreatedThenHandedBack(s, i, now, back);
    SavingRefused(s, [Create(i, true), Restamp(1, back)], back, visits);
  }

  /** Two addresses handed back the other way round. */
  lemma AddressOrderRefused(a: string, b: string)
    requires a != b
    ensures var s := Visiting(Emailed(a), Emailed(b), x => x);
            var back := Sample(map[], Items([NewVerifiable(b, "email", 1), NewVerifiable(a, "email", 1)]));
            var pool := Run(s, map[], [Create(Sample(map[], Nil), true), Restamp(1, back)]);
            pool == map[1 := back] && Updated(s, pool, back, false, true).error == Some(ProtectedFieldModified)
  {
    var s := Visiting(Emailed(a), Emailed(b), x => x);
    var x, y := NewVerifiable(a, "email", 1), NewVerifiable(b, "email", 1);
    var now, back := Sample(map[], Items([x, y])), Sample(map[], Items([y, x]));
    AddressesRestored(s, a, b);
    SwappedPairs(x, y);
    SwappedAddresses(s, a, b);
    HandedBackRefused(s, Sample(map[], Nil), now, back, [Emailed(a), Emailed(b)]);
  }

  lemma SwappedAddresses(s: Schemas, a: string, b: string)
    requires a != b && s == Visiting(Emailed(a), Emailed(b), s.normal)
    ensures var i := Sample(map[], Items([NewVerifiable(b, "email", 1), NewVerifiable(a, "email", 1)]));
            VisitsOf(s, i) == Some([Emailed(a), Emailed(b)]) && !Untouched(s, i, [Emailed(a), Emailed(b)])
  {
    var x, y := NewVerifiable(a, "email", 1), NewVerifiable(b, "email", 1);
    SampleVisits(Emailed(a), Emailed(b), s.normal, Sample(map[], Items([y, x])));
    TwoEmailed(s, a, b);
    SwappedPairs(x, y);
    SwappedPairs(y, x);
    TwoFirst(KeyOf(x), KeyOf(y));
  }

  /** Stored names other than those visited. */
  lemma OtherNames(s: Schemas, a: string, b: string, names: seq<string>)
    requires s == Visiting(Named(a), Named(b), s.normal) && names != FirstOccurrences([a, b])
    ensures var i := Sample(Login(names), Nil);
            VisitsOf(s, i) == Some([Named(a), Named(b)]) && !Untouched(s, i, [Named(a), Named(b)])
  {
    SampleVisits(Named(a), Named(b), s.normal, Sample(Login(names), Nil));
    TwoNamed(s, a, b);
  }

  lemma LoginsAlike(names: seq<string>, others: seq<string>)
    requires Permuted(names, others)
    ensures HandsBack(Sample(Login(names), Nil), Sample(Login(others), Nil))
  {
  }

  lemma NothingNormalised(s: Schemas, names: seq<string>)
    requires forall x :: s.normal(x) == x
    ensures NormalForms(s, names) == names
  {
  }

  lemma TwoNamesRestored(s: Schemas, a: string, b: string)
    requires a != b && a != "" && b != ""
    requires s == Visiting(Named(a), Named(b), s.normal) && forall x :: s.normal(x) == x
    ensures Storable(s, Sample(map[], Nil)) && Restored(s, Sample(map[], Nil)) == Sample(Login([a, b]), Nil)
    ensures FirstOccurrences([a, b]) == [a, b]
  {
    TwoFirst(a, b);
    NothingNormalised(s, [a, b]);
    NamesRestored(s, a, b, [a, b]);
  }

  lemma TwoSwapped(a: string, b: string)
    requires a != b
    ensures Permuted([a, b], [b, a]) && [b, a] != [a, b]
  {
    assert [b, a][0] != [a, b][0];
  }

  lemma NamesSwapped(s: Schemas, a: string, b: string)
    requires a != b && a != "" && b != ""
    requires s == Visiting(Named(a), Named(b), s.normal) && forall x :: s.normal(x) == x
    ensures var back := Sample(Login([b, a]), Nil);
            var pool := Run(s, map[], [Create(Sample(map[], Nil), true), Restamp(1, back)]);
            pool == map[1 := back] && Updated(s, pool, back, false, true).error == Some(ProtectedFieldModified)
  {
    TwoNamesRestored(s, a, b);
    TwoSwapped(a, b);
    LoginsAlike([a, b], [b, a]);
    OtherNames(s, a, b, [b, a]);
    HandedBackRefused(s, Sample(map[], Nil), Sample(Login([a, b]), Nil), Sample(Login([b, a]), Nil), [Named(a), Named(b)]);
  }

  /** Two password identifiers handed back the other way round. */
  lemma IdentifierOrderRefused(a: string, b: string)
    requires a != b && a != "" && b != ""
    ensures var s := Visiting(Named(a), Named(b), x => x);
            var back := Sample(Login([b, a]), Nil);
            var pool := Run(s, map[], [Create(Sample(map[], Nil), true), Restamp(1, back)]);
            pool == map[1 := back] && Updated(s, pool, back, false, true).error == Some(ProtectedFieldModified)
  {
    NamesSwapped(Visiting(Named(a), Named(b), x => x), a, b);
  }

  lemma OneFirst<T>(a: T)
    ensures FirstOccurrences([a, a]) == [a]
  {
    FirstOccurrencesOneMore([a], a);
    assert [a] + [a] == [a, a];
    FirstOccurrencesOfDistinct([a]);
  }

  /** A password identifier that the store writes differently, such as one with blanks around it. */
  lemma TrimmedRefused(name: string, normal: Folding)
    requires normal(name) != name && normal(name) != ""
    ensures var s := Visiting(Named(name), Named(name), normal);
            var pool := Run(s, map[], [Create(Sample(map[], Nil), true)]);
            && pool == map[1 := Sample(Login([normal(name)]), Nil)]
            && Updated(s, pool, pool[1], false, true).error == Some(ProtectedFieldModified)
  {
    var s := Visiting(Named(name), Named(name), normal);
    var now := Sample(Login([normal(name)]), Nil);
    OneFirst(name);
    assert NormalForms(s, [name]) == [normal(name)];
    NamesRestored(s, name, name, [name]);
    LoginsAlike([normal(name)], [normal(name)]);
    CreatedThenHandedBack(s, Sample(map[], Nil), now, now);
    OtherNames(s, name, name, [normal(name)]);
    SavingRefused(s, [Create(Sample(map[], Nil), true)], now, [Named(name), Named(name)]);
  }
}
