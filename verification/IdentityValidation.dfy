/** Validating an identity against its schema: the trait values visited rebuild its password identifiers and its
    verifiable and recovery addresses in place. */
module IdentityValidation {
  import opened Basics
  import opened Wrappers
  import opened Addresses

  const PASSWORD: CredentialsType := "password"

  /** A slice, which is nil before anything was appended to it. */
  datatype Slice<T> = Nil | Items(list: seq<T>) {
    function Elements(): seq<T> {
      if Nil? then [] else list
    }
  }

  /** What appending a sequence to the nil slice makes. */
  function ToSlice<T>(list: seq<T>): Slice<T> {
    if list == [] then Nil else Items(list)
  }

  datatype Verification = Verification(id: Uuid, verified: bool, status: string)
  datatype Recovery = Recovery(id: Uuid)

  type VerifiableAddress = Address<Verification>
  type RecoveryAddress = Address<Recovery>

  /** The credentials of one type, which is the key they are filed under. */
  datatype Credentials = Credentials(id: Uuid, identifiers: Slice<string>, config: string)

  datatype Identity = Identity(
    id: Uuid, schemaID: string, traits: string, state: string,
    credentials: map<CredentialsType, Credentials>,
    verifiable: Slice<VerifiableAddress>, recovery: Slice<RecoveryAddress>)

  /** A trait value with the extension of its schema: what it is used for, its text, and the formats it has. */
  datatype Visit = Visit(
    identifier: bool, verifyVia: string, recoverVia: string, text: string, isEmail: bool, isPhone: bool)

  /** The values a schema visits in a document, and its verdict on the document, given for every visit whether the
      extensions accepted it: a schema may tolerate a failure in one of several branches. */
  datatype Walk = Walk(visits: seq<Visit>, verdict: seq<bool> -> bool)

  /** A normal form of texts. */
  type Folding = f: string -> string | forall x :: f(f(x)) == f(x) witness x => x

  /** The configured schemas, as functions of a schema identifier and traits, lower-casing, and what the store does to
      password identifiers: lower-casing of the text without the blanks around it. */
  datatype Schemas = Schemas(walk: (string, string) -> Option<Walk>, lower: string -> string, normal: Folding)

  datatype Error = SchemaMissing | Invalid | NotFound | Conflict | ProtectedFieldModified | StoreFailed

  // What the visits amount to

  function NewVerifiable(value: string, via: string, owner: Uuid): VerifiableAddress {
    Address(value, via, owner, Verification(0, false, "pending"))
  }

  function NewRecovery(value: string, owner: Uuid): RecoveryAddress {
    Address(value, "email", owner, Recovery(0))
  }

  function NamesOf(s: Schemas, visits: seq<Visit>): seq<string> {
    if visits == [] then []
    else
      var init, last := visits[..|visits| - 1], visits[|visits| - 1];
      NamesOf(s, init) + if last.identifier then [s.lower(last.text)] else []
  }

  function VerifiablesOf(owner: Uuid, visits: seq<Visit>): seq<VerifiableAddress> {
    if visits == [] then []
    else
      var init, last := visits[..|visits| - 1], visits[|visits| - 1];
      VerifiablesOf(owner, init)
      + if VerifyOk(last) && last.verifyVia != "" then [NewVerifiable(last.text, last.verifyVia, owner)] else []
  }

  function RecoveriesOf(owner: Uuid, visits: seq<Visit>): seq<RecoveryAddress> {
    if visits == [] then []
    else
      var init, last := visits[..|visits| - 1], visits[|visits| - 1];
      RecoveriesOf(owner, init)
      + if VisitOk(last) && last.recoverVia != "" then [NewRecovery(last.text, owner)] else []
  }

  predicate VerifyOk(v: Visit) {
    v.verifyVia == "" || (v.verifyVia == "email" && v.isEmail) || (v.verifyVia == "phone" && v.isPhone)
  }

  predicate RecoverOk(v: Visit) {
    v.recoverVia == "" || (v.recoverVia == "email" && v.isEmail)
  }

  /** All extensions accept the value. The recovery extension only runs if the verification extension accepts it. */
  predicate VisitOk(v: Visit) {
    VerifyOk(v) && RecoverOk(v)
  }

  function Accepted(visits: seq<Visit>): seq<bool> {
    seq(|visits|, i requires 0 <= i < |visits| => VisitOk(visits[i]))
  }

  function PasswordOf(credentials: map<CredentialsType, Credentials>): Credentials {
    if PASSWORD in credentials then credentials[PASSWORD] else Credentials(0, Items([]), "")
  }

  /** The credentials once some identifiers were visited: the password's identifiers are these, its config is kept. */
  function WithIdentifiers(credentials: map<CredentialsType, Credentials>, names: Slice<string>)
    : map<CredentialsType, Credentials>
  {
    credentials[PASSWORD := PasswordOf(credentials).(identifiers := names)]
  }

  function Renamed(credentials: map<CredentialsType, Credentials>, names: seq<string>): map<CredentialsType, Credentials> {
    if names == [] then credentials else WithIdentifiers(credentials, Items(FirstOccurrences(names)))
  }

  function WalkOf(s: Schemas, schemaID: string, traits: string): Option<Walk> {
    var walk :- s.walk(if schemaID == "" then "default" else schemaID, traits);
    Some(if traits == "" then Walk([], _ => false) else walk)
  }

  /** What validation makes of an identity, and the error if there is one. A failure keeps the addresses, but not the
      identifiers. */
  function Validated(s: Schemas, i: Identity): (Identity, Option<Error>) {
    match WalkOf(s, i.schemaID, i.traits)
    case None => (i, Some(SchemaMissing))
    case Some(walk) =>
      var named := i.(credentials := Renamed(i.credentials, NamesOf(s, walk.visits)));
      if !walk.verdict(Accepted(walk.visits)) then (named, Some(Invalid))
      else
        (named.(verifiable := ToSlice(Collected(i.verifiable.Elements(), VerifiablesOf(i.id, walk.visits))),
                recovery := ToSlice(Collected(i.recovery.Elements(), RecoveriesOf(i.id, walk.visits)))),
         None)
  }

  // The code

  /** A pointer to an identity. */
  class IdentityRef {
    var value: Identity

    constructor (value: Identity)
      ensures this.value == value
    {
      this.value := value;
    }

    method SetCredentials(t: CredentialsType, c: Credentials)
      modifies this
      ensures value == old(value).(credentials := old(value).credentials[t := c])
    {
      value := value.(credentials := value.credentials[t := c]);
    }

    function GetCredentials(t: CredentialsType): (r: Option<Credentials>)
      reads this
      ensures r.Some? <==> t in value.credentials
      ensures r.Some? ==> r.value == value.credentials[t]
    {
      if t in value.credentials then Some(value.credentials[t]) else None
    }
  }

  method Has<D>(haystack: seq<Address<D>>, needle: Address<D>) returns (r: Option<Address<D>>)
    ensures r == Find(haystack, KeyOf(needle))
  {
    for k := 0 to |haystack|
      invariant Find(haystack[k..], KeyOf(needle)) == Find(haystack, KeyOf(needle))
    {
      assert haystack[k..][1..] == haystack[k + 1..];
      if haystack[k].value == needle.value && haystack[k].via == needle.via {
        return Some(haystack[k]);
      }
    }
    return None;
  }

  class SchemaExtensionCredentials {
    const i: IdentityRef
    var v: Slice<string>

    constructor (i: IdentityRef)
      ensures this.i == i && v == Nil
    {
      this.i, v := i, Nil;
    }

    method Run(s: Schemas, visit: Visit)
      modifies this, i
      ensures v == if visit.identifier then Items(FirstOccurrences(old(v).Elements() + [s.lower(visit.text)])) else old(v)
      ensures i.value == if visit.identifier
                         then old(i.value).(credentials := WithIdentifiers(old(i.value).credentials, v)) else old(i.value)
    {
      if visit.identifier {
        var found := i.GetCredentials(PASSWORD);
        var cred := if found.Some? then found.value else Credentials(0, Items([]), "");
        v := Items(FirstOccurrences(v.Elements() + [s.lower(visit.text)]));
        cred := cred.(identifiers := v);
        i.SetCredentials(PASSWORD, cred);
      }
    }
  }

  class SchemaExtensionVerification {
    const i: IdentityRef
    var v: Slice<VerifiableAddress>

    constructor (i: IdentityRef)
      ensures this.i == i && v == Nil
    {
      this.i, v := i, Nil;
    }

    method AppendAddress(address: VerifiableAddress)
      modifies this
      ensures v == Appended(i.value.verifiable.Elements(), old(v), address)
    {
      var h := Has(i.value.verifiable.Elements(), address);
      if h.Some? {
        var seen := Has(v.Elements(), address);
        if seen.None? {
          v := Items(v.Elements() + [h.value]);
        }
        return;
      }
      var seen := Has(v.Elements(), address);
      if seen.None? {
        v := Items(v.Elements() + [address]);
      }
    }

    method Run(visit: Visit) returns (ok: bool)
      modifies this
      ensures ok == VerifyOk(visit)
      ensures v == if ok && visit.verifyVia != ""
                   then Appended(i.value.verifiable.Elements(), old(v), NewVerifiable(visit.text, visit.verifyVia, i.value.id))
                   else old(v)
    {
      match visit.verifyVia {
        case "email" =>
          if !visit.isEmail {
            return false;
          }
          AppendAddress(NewVerifiable(visit.text, "email", i.value.id));
          return true;
        case "phone" =>
          if !visit.isPhone {
            return false;
          }
          AppendAddress(NewVerifiable(visit.text, "phone", i.value.id));
          return true;
        case "" => return true;
        case _ => return false;
      }
    }

    method Finish()
      modifies i
      ensures i.value == old(i.value).(verifiable := v)
    {
      i.value := i.value.(verifiable := v);
    }
  }

  class SchemaExtensionRecovery {
    const i: IdentityRef
    var v: Slice<RecoveryAddress>

    constructor (i: IdentityRef)
      ensures this.i == i && v == Nil
    {
      this.i, v := i, Nil;
    }

    method Run(visit: Visit) returns (ok: bool)
      modifies this
      ensures ok == RecoverOk(visit)
      ensures v == if ok && visit.recoverVia != ""
                   then Appended(i.value.recovery.Elements(), old(v), NewRecovery(visit.text, i.value.id)) else old(v)
    {
      match visit.recoverVia {
        case "email" =>
          if !visit.isEmail {
            return false;
          }
          var address := NewRecovery(visit.text, i.value.id);
          var has := Has(i.value.recovery.Elements(), address);
          if has.Some? {
            var seen := Has(v.Elements(), address);
            if seen.None? {
              v := Items(v.Elements() + [has.value]);
            }
            return true;
          }
          var seen := Has(v.Elements(), address);
          if seen.None? {
            v := Items(v.Elements() + [address]);
          }
          return true;
        case "" => return true;
        case _ => return false;
      }
    }

    method Finish()
      modifies i
      ensures i.value == old(i.value).(recovery := v)
    {
      i.value := i.value.(recovery := v);
    }
  }

  /** One more address appended to a list unless its key is there already. */
  ghost function Appended<D>(existing: seq<Address<D>>, v: Slice<Address<D>>, a: Address<D>): Slice<Address<D>> {
    if Find(v.Elements(), KeyOf(a)).Some? then v else Items(v.Elements() + [Kept(existing, a)])
  }

  lemma AppendedCollects<D>(existing: seq<Address<D>>, visited: seq<Address<D>>, a: Address<D>)
    ensures Appended(existing, ToSlice(Collected(existing, visited)), a)
         == ToSlice(Collected(existing, visited + [a]))
  {
    assert (visited + [a])[..|visited|] == visited;
  }

  lemma IdentifiersOverwrite(credentials: map<CredentialsType, Credentials>, names: Slice<string>, more: Slice<string>)
    ensures WithIdentifiers(WithIdentifiers(credentials, names), more) == WithIdentifiers(credentials, more)
  {
  }

  lemma SomeOccurrence(names: seq<string>, name: string)
    ensures FirstOccurrences(names + [name]) != []
  {
    FirstOccurrencesExact(names + [name]);
    assert name in names + [name];
  }

  lemma RenamedStep(credentials: map<CredentialsType, Credentials>, names: seq<string>, name: string)
    ensures Renamed(credentials, names + [name])
         == WithIdentifiers(Renamed(credentials, names), Items(FirstOccurrences(names + [name])))
  {
    IdentifiersOverwrite(credentials, Items(FirstOccurrences(names)), Items(FirstOccurrences(names + [name])));
  }

  /** What the three extensions hold after some visits to an identity. */
  ghost predicate Progress(
    s: Schemas, start: Identity, visits: seq<Visit>, i: Identity, names: Slice<string>, verifiable: Slice<VerifiableAddress>)
  {
    && names == ToSlice(FirstOccurrences(NamesOf(s, visits)))
    && i == start.(credentials := Renamed(start.credentials, NamesOf(s, visits)))
    && verifiable == ToSlice(Collected(start.verifiable.Elements(), VerifiablesOf(start.id, visits)))
  }

  ghost predicate RecoveryProgress(start: Identity, visits: seq<Visit>, recovery: Slice<RecoveryAddress>) {
    recovery == ToSlice(Collected(start.recovery.Elements(), RecoveriesOf(start.id, visits)))
  }

  lemma NoProgress(s: Schemas, start: Identity)
    ensures Progress(s, start, [], start, Nil, Nil) && RecoveryProgress(start, [], Nil) && Accepted([]) == []
  {
  }

  lemma AcceptedStep(visits: seq<Visit>, v: Visit)
    ensures Accepted(visits + [v]) == Accepted(visits) + [VisitOk(v)]
  {
  }

  lemma VisitNames(s: Schemas, credentials: map<CredentialsType, Credentials>, visits: seq<Visit>, v: Visit)
    ensures var was, now := NamesOf(s, visits), NamesOf(s, visits + [v]);
            if v.identifier
            then
              && ToSlice(FirstOccurrences(now))
                 == Items(FirstOccurrences(ToSlice(FirstOccurrences(was)).Elements() + [s.lower(v.text)]))
              && Renamed(credentials, now) == WithIdentifiers(Renamed(credentials, was), ToSlice(FirstOccurrences(now)))
            else now == was
  {
    assert (visits + [v])[..|visits|] == visits;
    if v.identifier {
      var was := NamesOf(s, visits);
      RenamedStep(credentials, was, s.lower(v.text));
      FirstOccurrencesStep(was, s.lower(v.text));
      SomeOccurrence(was, s.lower(v.text));
    }
  }

  lemma VisitVerifiables(existing: seq<VerifiableAddress>, owner: Uuid, visits: seq<Visit>, v: Visit)
    ensures var was := ToSlice(Collected(existing, VerifiablesOf(owner, visits)));
            ToSlice(Collected(existing, VerifiablesOf(owner, visits + [v])))
            == if VerifyOk(v) && v.verifyVia != "" then Appended(existing, was, NewVerifiable(v.text, v.verifyVia, owner)) else was
  {
    assert (visits + [v])[..|visits|] == visits;
    AppendedCollects(existing, VerifiablesOf(owner, visits), NewVerifiable(v.text, v.verifyVia, owner));
    assert VerifiablesOf(owner, visits) + [] == VerifiablesOf(owner, visits);
  }

  lemma VisitRecoveries(existing: seq<RecoveryAddress>, owner: Uuid, visits: seq<Visit>, v: Visit)
    ensures var was := ToSlice(Collected(existing, RecoveriesOf(owner, visits)));
            ToSlice(Collected(existing, RecoveriesOf(owner, visits + [v])))
            == if VisitOk(v) && v.recoverVia != "" then Appended(existing, was, NewRecovery(v.text, owner)) else was
  {
    assert (visits + [v])[..|visits|] == visits;
    AppendedCollects(existing, RecoveriesOf(owner, visits), NewRecovery(v.text, owner));
    assert RecoveriesOf(owner, visits) + [] == RecoveriesOf(owner, visits);
  }

  lemma ProgressStep(
    s: Schemas, start: Identity, visits: seq<Visit>, v: Visit,
    was: Identity, names: Slice<string>, verifiable: Slice<VerifiableAddress>,
    now: Identity, names': Slice<string>, verifiable': Slice<VerifiableAddress>)
    requires Progress(s, start, visits, was, names, verifiable)
    requires names' == if v.identifier then Items(FirstOccurrences(names.Elements() + [s.lower(v.text)])) else names
    requires now == if v.identifier then was.(credentials := WithIdentifiers(was.credentials, names')) else was
    requires verifiable' == if VerifyOk(v) && v.verifyVia != ""
                            then Appended(was.verifiable.Elements(), verifiable, NewVerifiable(v.text, v.verifyVia, was.id))
                            else verifiable
    ensures Progress(s, start, visits + [v], now, names', verifiable')
  {
    VisitNames(s, start.credentials, visits, v);
    VisitVerifiables(start.verifiable.Elements(), start.id, visits, v);
  }

  /** The extensions an identity is validated with, in the order in which they run. */
  class ExtensionRunner {
    const i: IdentityRef
    const credentials: SchemaExtensionCredentials
    const verification: SchemaExtensionVerification
    const recovery: SchemaExtensionRecovery

    ghost predicate Valid()
      reads this
    {
      credentials.i == i && verification.i == i && recovery.i == i
    }

    constructor (i: IdentityRef)
      ensures Valid() && this.i == i
      ensures fresh(credentials) && fresh(verification) && fresh(recovery)
      ensures credentials.v == Nil && verification.v == Nil && recovery.v == Nil
    {
      this.i := i;
      credentials := new SchemaExtensionCredentials(i);
      verification := new SchemaExtensionVerification(i);
      recovery := new SchemaExtensionRecovery(i);
    }

    /** One visit: the extensions run until one of them fails. */
    method Visit(s: Schemas, ghost start: Identity, ghost visits: seq<Visit>, v: Visit) returns (ok: bool)
      requires Valid()
      requires Progress(s, start, visits, i.value, credentials.v, verification.v)
      requires RecoveryProgress(start, visits, recovery.v)
      modifies credentials, verification, recovery, i
      ensures ok == VisitOk(v)
      ensures Progress(s, start, visits + [v], i.value, credentials.v, verification.v)
      ensures RecoveryProgress(start, visits + [v], recovery.v)
    {
      ghost var was, names, verifiable := i.value, credentials.v, verification.v;
      VisitRecoveries(start.recovery.Elements(), start.id, visits, v);
      credentials.Run(s, v);
      ok := verification.Run(v);
      ProgressStep(s, start, visits, v, was, names, verifiable, i.value, credentials.v, verification.v);
      if ok {
        ok := recovery.Run(v);
      }
    }

    /** All visits: the ones that fail are only noted. */
    method VisitAll(s: Schemas, visits: seq<Visit>) returns (accepted: seq<bool>)
      requires Valid() && credentials.v == Nil && verification.v == Nil && recovery.v == Nil
      modifies credentials, verification, recovery, i
      ensures accepted == Accepted(visits)
      ensures Progress(s, old(i.value), visits, i.value, credentials.v, verification.v)
      ensures RecoveryProgress(old(i.value), visits, recovery.v)
    {
      ghost var start := i.value;
      accepted := [];
      NoProgress(s, start);
      assert visits[..0] == [];
      for n := 0 to |visits|
        invariant Progress(s, start, visits[..n], i.value, credentials.v, verification.v)
        invariant RecoveryProgress(start, visits[..n], recovery.v)
        invariant accepted == Accepted(visits[..n])
      {
        var ok := Visit(s, start, visits[..n], visits[n]);
        assert visits[..n + 1] == visits[..n] + [visits[n]];
        AcceptedStep(visits[..n], visits[n]);
        accepted := accepted + [ok];
      }
      assert visits[..|visits|] == visits;
    }

    method Finish()
      requires Valid()
      modifies i
      ensures i.value == old(i.value).(verifiable := verification.v, recovery := recovery.v)
    {
      verification.Finish();
      recovery.Finish();
    }
  }

  /** `Validate`: the document is walked first, and only if its schema accepts it do the extensions finish. */
  method Validate(s: Schemas, i: IdentityRef) returns (err: Option<Error>)
    modifies i
    ensures (i.value, err) == Validated(s, old(i.value))
  {
    var runner := new ExtensionRunner(i);
    var found := WalkOf(s, i.value.schemaID, i.value.traits);
    if found.None? {
      return Some(SchemaMissing);
    }
    var walk := found.value;
    var accepted := runner.VisitAll(s, walk.visits);
    if !walk.verdict(accepted) {
      return Some(Invalid);
    }
    runner.Finish();
    return None;
  }

  // Fixpoints

  /** Nothing that validation rebuilds is out of step with the traits. */
  ghost predicate Settled(s: Schemas, i: Identity) {
    var walk := WalkOf(s, i.schemaID, i.traits);
    && walk.Some? && walk.value.verdict(Accepted(walk.value.visits))
    && var visits := walk.value.visits;
       && Keys(i.verifiable.Elements()) == FirstOccurrences(Keys(VerifiablesOf(i.id, visits)))
       && Keys(i.recovery.Elements()) == FirstOccurrences(Keys(RecoveriesOf(i.id, visits)))
       && i.verifiable == ToSlice(i.verifiable.Elements()) && i.recovery == ToSlice(i.recovery.Elements())
       && Renamed(i.credentials, NamesOf(s, visits)) == i.credentials
  }

  /** The identities validation accepts as they are, are exactly the settled ones. */
  lemma SettledIsFixpoint(s: Schemas, i: Identity)
    ensures Settled(s, i) <==> Validated(s, i) == (i, None)
  {
    var walk := WalkOf(s, i.schemaID, i.traits);
    if walk.Some? {
      CollectedSettled(i.verifiable.Elements(), VerifiablesOf(i.id, walk.value.visits));
      CollectedSettled(i.recovery.Elements(), RecoveriesOf(i.id, walk.value.visits));
    }
  }

  lemma RenamedAgain(credentials: map<CredentialsType, Credentials>, names: seq<string>)
    ensures var once := Renamed(credentials, names); Renamed(once, names) == once
  {
  }

  /** Validation is idempotent: what it accepts, it accepts again without a change. */
  lemma ValidatedAgain(s: Schemas, i: Identity)
    requires Validated(s, i).1 == None
    ensures Validated(s, Validated(s, i).0) == Validated(s, i)
  {
    var visits := WalkOf(s, i.schemaID, i.traits).value.visits;
    RenamedAgain(i.credentials, NamesOf(s, visits));
    CollectedAgain(i.verifiable.Elements(), VerifiablesOf(i.id, visits));
    CollectedAgain(i.recovery.Elements(), RecoveriesOf(i.id, visits));
  }

  // The address lists

  lemma {:induction false} VerifiablesHold(owner: Uuid, visits: seq<Visit>, a: VerifiableAddress)
    ensures a in VerifiablesOf(owner, visits) <==>
            exists v :: v in visits && VerifyOk(v) && v.verifyVia != "" && a == NewVerifiable(v.text, v.verifyVia, owner)
  {
    if visits != [] {
      var init, last := visits[..|visits| - 1], visits[|visits| - 1];
      VerifiablesHold(owner, init, a);
      assert visits == init + [last];
    }
  }

  lemma {:induction false} RecoveriesHold(owner: Uuid, visits: seq<Visit>, a: RecoveryAddress)
    ensures a in RecoveriesOf(owner, visits) <==>
            exists v :: v in visits && VisitOk(v) && v.recoverVia != "" && a == NewRecovery(v.text, owner)
  {
    if visits != [] {
      var init, last := visits[..|visits| - 1], visits[|visits| - 1];
      RecoveriesHold(owner, init, a);
      assert visits == init + [last];
    }
  }

  lemma VerifiableKeys(owner: Uuid, visits: seq<Visit>, key: Key)
    ensures key in FirstOccurrences(Keys(VerifiablesOf(owner, visits))) <==>
            exists v :: v in visits && key == (v.text, v.verifyVia) &&
                        ((v.verifyVia == "email" && v.isEmail) || (v.verifyVia == "phone" && v.isPhone))
  {
    var visited := VerifiablesOf(owner, visits);
    FirstOccurrencesExact(Keys(visited));
    KeysHold(visited, key);
    if a :| a in visited && KeyOf(a) == key {
      VerifiablesHold(owner, visits, a);
    }
    if v :| v in visits && key == (v.text, v.verifyVia) &&
            ((v.verifyVia == "email" && v.isEmail) || (v.verifyVia == "phone" && v.isPhone)) {
      VerifiablesHold(owner, visits, NewVerifiable(v.text, v.verifyVia, owner));
    }
  }

  lemma RecoveryKeys(owner: Uuid, visits: seq<Visit>, key: Key)
    ensures key in FirstOccurrences(Keys(RecoveriesOf(owner, visits))) <==>
            exists v :: v in visits && VerifyOk(v) && key == (v.text, "email") && v.recoverVia == "email" && v.isEmail
  {
    var visited := RecoveriesOf(owner, visits);
    FirstOccurrencesExact(Keys(visited));
    KeysHold(visited, key);
    if a :| a in visited && KeyOf(a) == key {
      RecoveriesHold(owner, visits, a);
    }
    if v :| v in visits && VerifyOk(v) && key == (v.text, "email") && v.recoverVia == "email" && v.isEmail {
      RecoveriesHold(owner, visits, NewRecovery(v.text, owner));
    }
  }

  /** After validation the verifiable addresses are those of the values visited with a channel whose format they have, once
      each and in order of their first visit: those of any first `m` visited come first. Each is the identity's own record
      if it had one and otherwise a new one of the identity, pending and not verified. */
  lemma VerifiableList(s: Schemas, i: Identity, m: nat, n: nat, key: Key)
    requires Validated(s, i).1 == None
    ensures var list := Validated(s, i).0.verifiable.Elements();
            var visits := WalkOf(s, i.schemaID, i.traits).value.visits;
            var visited := VerifiablesOf(i.id, visits);
            && Keys(list) == FirstOccurrences(Keys(visited)) && Distinct(Keys(list))
            && (key in Keys(list) <==>
                  exists v :: v in visits && key == (v.text, v.verifyVia) &&
                              ((v.verifyVia == "email" && v.isEmail) || (v.verifyVia == "phone" && v.isPhone)))
            && (m <= |visited| ==> FirstOccurrences(Keys(visited)[..m]) <= Keys(list))
            && (n < |list| ==>
                  if KeyOf(list[n]) in Keys(i.verifiable.Elements())
                  then Find(i.verifiable.Elements(), KeyOf(list[n])) == Some(list[n])
                  else list[n].owner == i.id && !list[n].detail.verified && list[n].detail.status == "pending")
  {
    var existing := i.verifiable.Elements();
    var visits := WalkOf(s, i.schemaID, i.traits).value.visits;
    var visited := VerifiablesOf(i.id, visits);
    CollectedKeys(existing, visited);
    FirstOccurrencesExact(Keys(visited));
    VerifiableKeys(i.id, visits, key);
    if m <= |visited| {
      FirstOccurrencesOrdered(Keys(visited), m);
    }
    if n < |Collected(existing, visited)| {
      CollectedRecords(existing, visited, n);
      VerifiablesHold(i.id, visits, Collected(existing, visited)[n]);
    }
  }

  /** The same for the recovery addresses, whose only channel is email, and for which the verification of the same value
      must not have failed. */
  lemma RecoveryList(s: Schemas, i: Identity, m: nat, n: nat, key: Key)
    requires Validated(s, i).1 == None
    ensures var list := Validated(s, i).0.recovery.Elements();
            var visits := WalkOf(s, i.schemaID, i.traits).value.visits;
            var visited := RecoveriesOf(i.id, visits);
            && Keys(list) == FirstOccurrences(Keys(visited)) && Distinct(Keys(list))
            && (key in Keys(list) <==>
                  exists v :: v in visits && VerifyOk(v) && key == (v.text, "email") && v.recoverVia == "email" && v.isEmail)
            && (m <= |visited| ==> FirstOccurrences(Keys(visited)[..m]) <= Keys(list))
            && (n < |list| ==>
                  if KeyOf(list[n]) in Keys(i.recovery.Elements())
                  then Find(i.recovery.Elements(), KeyOf(list[n])) == Some(list[n])
                  else list[n].owner == i.id && list[n].via == "email")
  {
    var existing := i.recovery.Elements();
    var visits := WalkOf(s, i.schemaID, i.traits).value.visits;
    var visited := RecoveriesOf(i.id, visits);
    CollectedKeys(existing, visited);
    FirstOccurrencesExact(Keys(visited));
    RecoveryKeys(i.id, visits, key);
    if m <= |visited| {
      FirstOccurrencesOrdered(Keys(visited), m);
    }
    if n < |Collected(existing, visited)| {
      CollectedRecords(existing, visited, n);
      RecoveriesHold(i.id, visits, Collected(existing, visited)[n]);
    }
  }

  /** The extensions accept a value exactly if it has the format of the channels it is used for, and these are known. */
  lemma FormatsEnforced(v: Visit)
    ensures VerifyOk(v) <==>
              && v.verifyVia in {"", "email", "phone"}
              && (v.verifyVia == "email" ==> v.isEmail) && (v.verifyVia == "phone" ==> v.isPhone)
    ensures VisitOk(v) <==>
              && v.verifyVia in {"", "email", "phone"} && v.recoverVia in {"", "email"}
              && (v.verifyVia == "email" || v.recoverVia == "email" ==> v.isEmail)
              && (v.verifyVia == "phone" ==> v.isPhone)
  {
  }

  /** Why validation fails: the schema, "default" if none is named, is missing, or it does not accept the document; a
      document without traits is never accepted. A schema that tolerates nothing accepts exactly if all formats hold. */
  lemma ValidationErrors(s: Schemas, i: Identity)
    ensures var walk := s.walk(if i.schemaID == "" then "default" else i.schemaID, i.traits);
            && (walk.None? ==> Validated(s, i) == (i, Some(SchemaMissing)))
            && (walk.Some? ==>
                  Validated(s, i).1 == if i.traits != "" && walk.value.verdict(Accepted(walk.value.visits)) then None
                                       else Some(Invalid))
            && (walk.Some? && i.traits != "" && Strict(walk.value) ==>
                  (Validated(s, i).1.None? <==>
                     forall n :: 0 <= n < |walk.value.visits| ==> VisitOk(walk.value.visits[n])))
  {
    var walk := s.walk(if i.schemaID == "" then "default" else i.schemaID, i.traits);
    if walk.Some? && i.traits != "" && Strict(walk.value) {
      var accepted := Accepted(walk.value.visits);
      assert forall n :: 0 <= n < |accepted| ==> accepted[n] == VisitOk(walk.value.visits[n]);
      assert walk.value.verdict(accepted) <==> forall n :: 0 <= n < |accepted| ==> accepted[n];
    }
  }

  ghost predicate Strict(walk: Walk) {
    forall accepted: seq<bool> ::
      walk.verdict(accepted) <==> forall n :: 0 <= n < |accepted| ==> accepted[n]
  }

  /** Visiting the same trait values in another order yields the same addresses. */
  lemma VisitingOrder(
    owner: Uuid, one: seq<Visit>, other: seq<Visit>,
    verifiable: seq<VerifiableAddress>, recovery: seq<RecoveryAddress>, a: VerifiableAddress, r: RecoveryAddress)
    requires multiset(one) == multiset(other)
    ensures a in Collected(verifiable, VerifiablesOf(owner, one)) <==> a in Collected(verifiable, VerifiablesOf(owner, other))
    ensures r in Collected(recovery, RecoveriesOf(owner, one)) <==> r in Collected(recovery, RecoveriesOf(owner, other))
  {
    assert forall v :: v in one <==> v in multiset(one);
    assert forall v :: v in other <==> v in multiset(other);
    forall x ensures x in VerifiablesOf(owner, one) <==> x in VerifiablesOf(owner, other) {
      VerifiablesHold(owner, one, x);
      VerifiablesHold(owner, other, x);
    }
    forall x ensures x in RecoveriesOf(owner, one) <==> x in RecoveriesOf(owner, other) {
      RecoveriesHold(owner, one, x);
      RecoveriesHold(owner, other, x);
    }
    VisitedUniform(owner, one);
    OrderIrrelevant(verifiable, VerifiablesOf(owner, one), VerifiablesOf(owner, other), a);
    OrderIrrelevant(recovery, RecoveriesOf(owner, one), RecoveriesOf(owner, other), r);
  }

  lemma VisitedUniform(owner: Uuid, visits: seq<Visit>)
    ensures Uniform(VerifiablesOf(owner, visits)) && Uniform(RecoveriesOf(owner, visits))
  {
    forall x | x in VerifiablesOf(owner, visits) ensures x == NewVerifiable(x.value, x.via, owner) {
      VerifiablesHold(owner, visits, x);
    }
    forall x | x in RecoveriesOf(owner, visits) ensures x == NewRecovery(x.value, owner) {
      RecoveriesHold(owner, visits, x);
    }
  }

  // The identifiers

  lemma {:induction false} NamesHold(s: Schemas, visits: seq<Visit>, name: string)
    ensures name in NamesOf(s, visits) <==> exists v :: v in visits && v.identifier && name == s.lower(v.text)
  {
    if visits != [] {
      var init, last := visits[..|visits| - 1], visits[|visits| - 1];
      NamesHold(s, init, name);
      assert visits == init + [last];
    }
  }

  /** Every credential but the password's is kept, and so is that, its identifiers apart. */
  lemma RenamedKeeps(credentials: map<CredentialsType, Credentials>, names: seq<string>)
    ensures var now := Renamed(credentials, names);
            && (forall t :: t != PASSWORD ==> (t in now <==> t in credentials))
            && (forall t :: t != PASSWORD && t in credentials ==> now[t] == credentials[t])
            && (names == [] ==> now == credentials)
            && (names != [] ==>
                  && PASSWORD in now && now[PASSWORD].identifiers == Items(FirstOccurrences(names))
                  && now[PASSWORD].config == (if PASSWORD in credentials then credentials[PASSWORD].config else ""))
  {
  }

  lemma NamesEmpty(s: Schemas, visits: seq<Visit>)
    ensures NamesOf(s, visits) == [] <==> forall v :: v in visits ==> !v.identifier
  {
    var names := NamesOf(s, visits);
    if v :| v in visits && v.identifier {
      NamesHold(s, visits, s.lower(v.text));
    } else if names != [] {
      NamesHold(s, visits, names[0]);
    }
  }

  /** Whether validation succeeds or not, the password's identifiers become the lower-cased identifiers visited, each
      once, if there are any; its config and all other credentials are kept. Only a success touches the addresses. */
  lemma IdentifierList(s: Schemas, i: Identity, name: string)
    requires WalkOf(s, i.schemaID, i.traits).Some?
    ensures var (now, error) := Validated(s, i);
            var visits := WalkOf(s, i.schemaID, i.traits).value.visits;
            && (forall t :: t != PASSWORD ==> (t in now.credentials <==> t in i.credentials))
            && (forall t :: t != PASSWORD && t in i.credentials ==> now.credentials[t] == i.credentials[t])
            && ((forall v :: v in visits ==> !v.identifier) ==> now.credentials == i.credentials)
            && ((exists v :: v in visits && v.identifier) ==>
                  && PASSWORD in now.credentials
                  && now.credentials[PASSWORD].config
                     == (if PASSWORD in i.credentials then i.credentials[PASSWORD].config else "")
                  && var names := now.credentials[PASSWORD].identifiers.Elements();
                     && Distinct(names)
                     && (name in names <==> exists v :: v in visits && v.identifier && name == s.lower(v.text)))
            && (error.Some? ==> now.verifiable == i.verifiable && now.recovery == i.recovery)
  {
    var visits := WalkOf(s, i.schemaID, i.traits).value.visits;
    var names := NamesOf(s, visits);
    assert Validated(s, i).0.credentials == Renamed(i.credentials, names);
    NamesHold(s, visits, name);
    NamesEmpty(s, visits);
    FirstOccurrencesExact(names);
    RenamedKeeps(i.credentials, names);
  }
}
