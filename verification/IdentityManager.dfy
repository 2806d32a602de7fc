/** The identity manager: who may store what, over every run of its operations. */
module IdentityManager {
  import opened Basics
  import opened Wrappers
  import opened Addresses
  import opened IdentityValidation
  import opened IdentityStore

  type Pool = map<Uuid, Identity>

  // Comparing credentials

  /** The same types of credentials, each with the same config and identifiers. */
  predicate SameCredentials(a: map<CredentialsType, Credentials>, b: map<CredentialsType, Credentials>) {
    && a.Keys == b.Keys
    && forall k :: k in a ==> a[k].config == b[k].config && a[k].identifiers == b[k].identifiers
  }

  /** A set within another of the same size is all of it. */
  lemma {:induction false} WithinSameSize<T>(small: set<T>, large: set<T>)
    requires small <= large && |small| == |large|
    ensures small == large
    decreases |small|
  {
    if x :| x in small {
      WithinSameSize(small - {x}, large - {x});
      assert small == small - {x} + {x} && large == large - {x} + {x};
    } else {
      assert |large| == 0;
    }
  }

  /** `CredentialsEqual`. It looks up the keys of one map only; the sizes make up for the keys of the other. */
  method CredentialsEqual(a: map<CredentialsType, Credentials>, b: map<CredentialsType, Credentials>) returns (equal: bool)
    ensures equal <==> SameCredentials(a, b)
    ensures equal <==>
              a.Keys == b.Keys && forall k :: k in a ==> a[k].config == b[k].config && a[k].identifiers == b[k].identifiers
  {
    if |a| != |b| {
      assert a.Keys != b.Keys by {
        assert |a.Keys| == |a| && |b.Keys| == |b|;
      }
      return false;
    }
    if |a| == 0 && |b| == 0 {
      assert a.Keys == {} && b.Keys == {};
      return true;
    }
    var rest := b.Keys;
    while rest != {}
      invariant rest <= b.Keys
      invariant forall k :: k in b.Keys - rest ==>
                  k in a && a[k].config == b[k].config && a[k].identifiers == b[k].identifiers
    {
      var k :| k in rest;
      if k !in a || b[k].config != a[k].config || b[k].identifiers != a[k].identifiers {
        return false;
      }
      rest := rest - {k};
    }
    assert |a.Keys| == |a| && |b.Keys| == |b|;
    assert b.Keys - rest == b.Keys;
    WithinSameSize(b.Keys, a.Keys);
    return true;
  }

  lemma SameIsEquivalence(
    a: map<CredentialsType, Credentials>, b: map<CredentialsType, Credentials>, c: map<CredentialsType, Credentials>)
    ensures SameCredentials(a, a)
    ensures SameCredentials(a, b) <==> SameCredentials(b, a)
    ensures SameCredentials(a, b) && SameCredentials(b, c) ==> SameCredentials(a, c)
  {
  }

  // What the operations amount to

  /** An unprivileged caller may replace the one by the other. */
  predicate Unprotected(original: Identity, updated: Identity) {
    && SameCredentials(updated.credentials, original.credentials)
    && original.verifiable.Elements() == updated.verifiable.Elements()
  }

  function Defaults(i: Identity): Identity {
    i.(schemaID := if i.schemaID == "" then "default" else i.schemaID, state := if i.state == "" then "active" else i.state)
  }

  /** Whether a write succeeds: the store takes it, and refuses no identifier. */
  predicate Takes(s: Schemas, i: Identity, stored: bool) {
    stored && !Refused(s, i)
  }

  /** What a call leaves in the caller's identity, what it returns and what is stored then. */
  datatype Outcome = Outcome(caller: Identity, error: Option<Error>, pool: Pool)

  function Created(s: Schemas, pool: Pool, i: Identity, stored: bool): Outcome {
    var (valid, error) := Validated(s, i);
    if error.Some? then Outcome(valid, error, pool)
    else
      var made := Defaults(valid);
      if made.id in pool then Outcome(made, Some(Conflict), pool)
      else if !Takes(s, made, stored) then Outcome(made, Some(StoreFailed), pool)
      else Outcome(Filled(made), None, pool[made.id := Written(s, made)])
  }

  function Updated(s: Schemas, pool: Pool, i: Identity, privileged: bool, stored: bool): Outcome {
    var (valid, error) := Validated(s, i);
    if error.Some? then Outcome(valid, error, pool)
    else if valid.id !in pool then Outcome(valid, Some(NotFound), pool)
    else if !privileged && !Unprotected(pool[valid.id], valid) then
      Outcome(pool[valid.id], Some(ProtectedFieldModified), pool)
    else if !Takes(s, valid, stored) then Outcome(valid, Some(StoreFailed), pool)
    else Outcome(Filled(valid), None, pool[valid.id := Written(s, valid)])
  }

  function WithTraits(s: Schemas, pool: Pool, id: Uuid, traits: string, privileged: bool): Result<Identity, Error> {
    if id !in pool then Err(NotFound)
    else
      var (valid, error) := Validated(s, pool[id].(traits := traits));
      if error.Some? then Err(error.value)
      else if !privileged && !Unprotected(pool[id], valid) then Err(ProtectedFieldModified)
      else Ok(valid)
  }

  function WithSchema(s: Schemas, pool: Pool, id: Uuid, schemaID: string, privileged: bool): Result<Identity, Error> {
    if id !in pool then Err(NotFound)
    else if !privileged && pool[id].schemaID != schemaID then Err(ProtectedFieldModified)
    else
      var (valid, error) := Validated(s, pool[id].(schemaID := schemaID));
      if error.Some? then Err(error.value) else Ok(valid)
  }

  /** The store after writing a result to one of its identities. */
  function Put(s: Schemas, pool: Pool, id: Uuid, r: Result<Identity, Error>, stored: bool): Pool {
    if r.Ok? && Takes(s, r.value, stored) then pool[id := Written(s, r.value)] else pool
  }

  function ErrorOf(s: Schemas, r: Result<Identity, Error>, stored: bool): Option<Error> {
    if r.Err? then Some(r.error) else if Takes(s, r.value, stored) then None else Some(StoreFailed)
  }

  function TraitsUpdated(s: Schemas, pool: Pool, id: Uuid, traits: string, privileged: bool, stored: bool): Pool {
    Put(s, pool, id, WithTraits(s, pool, id, traits, privileged), stored)
  }

  function SchemaUpdated(s: Schemas, pool: Pool, id: Uuid, schemaID: string, privileged: bool, stored: bool): Pool {
    Put(s, pool, id, WithSchema(s, pool, id, schemaID, privileged), stored)
  }

  // The code

  class Manager {
    const schemas: Schemas
    var pool: Pool

    constructor (schemas: Schemas)
      ensures this.schemas == schemas && pool == map[] && Keyed()
    {
      this.schemas, pool := schemas, map[];
    }

    ghost predicate Keyed()
      reads this
    {
      forall id :: id in pool ==> pool[id].id == id
    }

    /** `createIdentityCredentials`, within the transaction of a write. It fills in missing configs in the caller's
        identity and refuses empty identifiers. */
    method Write(i: IdentityRef, stored: bool) returns (ok: bool)
      requires Keyed()
      modifies this, i
      ensures Keyed()
      ensures ok == Takes(schemas, old(i.value), stored)
      ensures i.value == if ok then Filled(old(i.value)) else old(i.value)
      ensures pool == if ok then old(pool)[old(i.value.id) := Written(schemas, old(i.value))] else old(pool)
    {
      if !stored || Refused(schemas, i.value) {
        return false;
      }
      pool := pool[i.value.id := Written(schemas, i.value)];
      i.value := Filled(i.value);
      return true;
    }

    method CreateIdentity(i: IdentityRef, stored: bool) returns (error: Option<Error>)
      requires Keyed()
      modifies this, i
      ensures Keyed()
      ensures var made := Defaults(old(i.value));
              && error == (if made.id in old(pool) then Some(Conflict)
                           else if Takes(schemas, made, stored) then None
                           else Some(StoreFailed))
              && i.value == (if error.None? then Filled(made) else made)
              && pool == if error.None? then old(pool)[made.id := Written(schemas, made)] else old(pool)
    {
      i.value := Defaults(i.value);
      if i.value.id in pool {
        return Some(Conflict);
      }
      var ok := Write(i, stored);
      return if ok then None else Some(StoreFailed);
    }

    method UpdateIdentity(i: IdentityRef, stored: bool) returns (error: Option<Error>)
      requires Keyed() && i.value.id in pool
      modifies this, i
      ensures Keyed()
      ensures error == if Takes(schemas, old(i.value), stored) then None else Some(StoreFailed)
      ensures i.value == if error.None? then Filled(old(i.value)) else old(i.value)
      ensures pool == if error.None? then old(pool)[old(i.value.id) := Written(schemas, old(i.value))] else old(pool)
    {
      var ok := Write(i, stored);
      return if ok then None else Some(StoreFailed);
    }

    method Create(i: IdentityRef, stored: bool) returns (error: Option<Error>)
      requires Keyed()
      modifies this, i
      ensures Keyed()
      ensures Outcome(i.value, error, pool) == Created(schemas, old(pool), old(i.value), stored)
      ensures error.None? <==> Storable(schemas, old(i.value)) && old(i.value.id) !in old(pool) && stored
      ensures error.None? ==>
                && i.value.id == old(i.value.id) && i.value.id in pool && pool == old(pool)[i.value.id := pool[i.value.id]]
                && pool[i.value.id] == i.value.(credentials := pool[i.value.id].credentials)
                && pool[i.value.id] == Written(schemas, Defaults(Validated(schemas, old(i.value)).0))
                && i.value.traits == old(i.value.traits)
                && i.value.schemaID == (if old(i.value.schemaID) == "" then "default" else old(i.value.schemaID))
                && i.value.state == (if old(i.value.state) == "" then "active" else old(i.value.state))
      ensures error.Some? ==> pool == old(pool)
      ensures error == Some(Conflict) <==> Validated(schemas, old(i.value)).1.None? && old(i.value.id) in old(pool)
      ensures var (valid, invalid) := Validated(schemas, old(i.value));
              i.value == if invalid.Some? then valid else if error.Some? then Defaults(valid) else Filled(Defaults(valid))
    {
      error := Validate(schemas, i);
      if error.Some? {
        return;
      }
      error := CreateIdentity(i, stored);
    }

    method RequiresPrivilegedAccess(original: Identity, updated: IdentityRef, privileged: bool) returns (error: Option<Error>)
      modifies updated
      ensures error == if privileged || Unprotected(original, old(updated.value)) then None else Some(ProtectedFieldModified)
      ensures updated.value == if error.None? then old(updated.value) else original
    {
      if !privileged {
        var same := CredentialsEqual(updated.value.credentials, original.credentials);
        if !same {
          updated.value := original;
          return Some(ProtectedFieldModified);
        }
        if original.verifiable != updated.value.verifiable &&
           |original.verifiable.Elements()| + |updated.value.verifiable.Elements()| != 0 {
          updated.value := original;
          return Some(ProtectedFieldModified);
        }
      }
      return None;
    }

    method Update(updated: IdentityRef, privileged: bool, stored: bool) returns (error: Option<Error>)
      requires Keyed()
      modifies this, updated
      ensures Keyed()
      ensures Outcome(updated.value, error, pool) == Updated(schemas, old(pool), old(updated.value), privileged, stored)
      ensures error == Some(ProtectedFieldModified) <==>
                var (valid, invalid) := Validated(schemas, old(updated.value));
                && invalid.None? && valid.id in old(pool) && !privileged
                && !(&& SameCredentials(valid.credentials, old(pool)[valid.id].credentials)
                     && valid.verifiable.Elements() == old(pool)[valid.id].verifiable.Elements())
      ensures error == Some(ProtectedFieldModified) ==> old(updated.value.id) in pool && updated.value == pool[old(updated.value.id)]
      ensures error.Some? ==> pool == old(pool)
      ensures error.None? ==>
                && updated.value.id == old(updated.value.id) && updated.value.id in pool
                && pool == old(pool)[updated.value.id := pool[updated.value.id]]
                && pool[updated.value.id] == updated.value.(credentials := pool[updated.value.id].credentials)
                && pool[updated.value.id] == Written(schemas, Validated(schemas, old(updated.value)).0)
      ensures error == Some(NotFound) <==>
                Validated(schemas, old(updated.value)).1.None? && old(updated.value.id) !in old(pool)
      ensures error != Some(ProtectedFieldModified) ==>
                var valid := Validated(schemas, old(updated.value)).0;
                updated.value == if error.None? then Filled(valid) else valid
    {
      error := Validate(schemas, updated);
      if error.Some? {
        return;
      }
      if updated.value.id !in pool {
        return Some(NotFound);
      }
      var original := pool[updated.value.id];
      error := RequiresPrivilegedAccess(original, updated, privileged);
      if error.Some? {
        return;
      }
      error := UpdateIdentity(updated, stored);
    }

    method UpdateSchemaID(id: Uuid, schemaID: string, privileged: bool, stored: bool) returns (error: Option<Error>)
      requires Keyed()
      modifies this
      ensures Keyed()
      ensures pool == SchemaUpdated(schemas, old(pool), id, schemaID, privileged, stored)
      ensures error == ErrorOf(schemas, WithSchema(schemas, old(pool), id, schemaID, privileged), stored)
      ensures error.Some? ==> pool == old(pool)
      ensures error.None? ==>
                && id in old(pool) && id in pool && pool == old(pool)[id := pool[id]]
                && pool[id] == old(pool)[id].(schemaID := schemaID, credentials := pool[id].credentials,
                                              verifiable := pool[id].verifiable, recovery := pool[id].recovery)
                && pool[id] == Written(schemas, Validated(schemas, old(pool)[id].(schemaID := schemaID)).0)
                && VisitsOf(schemas, pool[id]).Some?
      ensures error == Some(NotFound) <==> id !in old(pool)
      ensures error == Some(ProtectedFieldModified) <==>
                id in old(pool) && !privileged && old(pool)[id].schemaID != schemaID
    {
      if id !in pool {
        return Some(NotFound);
      }
      var original := new IdentityRef(pool[id]);
      if !privileged && original.value.schemaID != schemaID {
        return Some(ProtectedFieldModified);
      }
      original.value := original.value.(schemaID := schemaID);
      error := Validate(schemas, original);
      if error.Some? {
        return;
      }
      error := UpdateIdentity(original, stored);
    }

    method SetTraits(id: Uuid, traits: string, privileged: bool) returns (r: Result<IdentityRef, Error>)
      requires Keyed()
      ensures r.Ok? ==> fresh(r.value)
      ensures var expected := WithTraits(schemas, pool, id, traits, privileged);
              if r.Ok? then expected == Ok(r.value.value) else expected == Err(r.error)
      ensures r.Ok? ==>
                && id in pool && Validated(schemas, pool[id].(traits := traits)) == (r.value.value, None)
                && (privileged ||
                    (&& SameCredentials(r.value.value.credentials, pool[id].credentials)
                     && r.value.value.verifiable.Elements() == pool[id].verifiable.Elements()))
      ensures r == Err(NotFound) <==> id !in pool
    {
      if id !in pool {
        return Err(NotFound);
      }
      var updated := new IdentityRef(pool[id]);
      updated.value := updated.value.(traits := traits);
      var error := Validate(schemas, updated);
      if error.Some? {
        return Err(error.value);
      }
      error := RequiresPrivilegedAccess(pool[id], updated, privileged);
      if error.Some? {
        return Err(error.value);
      }
      return Ok(updated);
    }

    method UpdateTraits(id: Uuid, traits: string, privileged: bool, stored: bool) returns (error: Option<Error>)
      requires Keyed()
      modifies this
      ensures Keyed()
      ensures pool == TraitsUpdated(schemas, old(pool), id, traits, privileged, stored)
      ensures error == ErrorOf(schemas, WithTraits(schemas, old(pool), id, traits, privileged), stored)
      ensures error.Some? ==> pool == old(pool)
      ensures error.None? ==>
                && id in old(pool) && id in pool && pool == old(pool)[id := pool[id]]
                && pool[id] == old(pool)[id].(traits := traits, credentials := pool[id].credentials,
                                              verifiable := pool[id].verifiable, recovery := pool[id].recovery)
                && pool[id] == Written(schemas, Validated(schemas, old(pool)[id].(traits := traits)).0)
      ensures error == Some(NotFound) <==> id !in old(pool)
      ensures error == Some(ProtectedFieldModified) <==>
                && id in old(pool) && !privileged
                && var (valid, invalid) := Validated(schemas, old(pool)[id].(traits := traits));
                   && invalid.None?
                   && !(&& SameCredentials(valid.credentials, old(pool)[id].credentials)
                        && valid.verifiable.Elements() == old(pool)[id].verifiable.Elements())
    {
      var updated := SetTraits(id, traits, privileged);
      if updated.Err? {
        return Some(updated.error);
      }
      error := UpdateIdentity(updated.value, stored);
    }
  }

  // Runs

  /** `Restamp`: the store or the verification flow rewrites address records, but not what identifies them; the store may
      also hand addresses and identifiers back in another order. */
  datatype Event =
    | Create(identity: Identity, stored: bool)
    | Update(identity: Identity, privileged: bool, stored: bool)
    | UpdateSchemaID(id: Uuid, schemaID: string, privileged: bool, stored: bool)
    | UpdateTraits(id: Uuid, traits: string, privileged: bool, stored: bool)
    | Restamp(id: Uuid, identity: Identity)

  ghost function Restamped(pool: Pool, id: Uuid, now: Identity): Pool {
    if id in pool && HandsBack(pool[id], now) then pool[id := now] else pool
  }

  ghost function Step(s: Schemas, pool: Pool, e: Event): Pool {
    match e
    case Create(i, stored) => Created(s, pool, i, stored).pool
    case Update(i, privileged, stored) => Updated(s, pool, i, privileged, stored).pool
    case UpdateSchemaID(id, schemaID, privileged, stored) => SchemaUpdated(s, pool, id, schemaID, privileged, stored)
    case UpdateTraits(id, traits, privileged, stored) => TraitsUpdated(s, pool, id, traits, privileged, stored)
    case Restamp(id, now) => Restamped(pool, id, now)
  }

  ghost function Run(s: Schemas, pool: Pool, es: seq<Event>): Pool
    decreases |es|
  {
    if es == [] then pool else Run(s, Step(s, pool, es[0]), es[1..])
  }

  predicate NoRestamp(es: seq<Event>) {
    es == [] || (!es[0].Restamp? && NoRestamp(es[1..]))
  }

  /** Every stored identity is in step with its traits, and, if `exact`, in their order. */
  ghost predicate Inv(s: Schemas, pool: Pool, exact: bool) {
    forall id :: id in pool ==> pool[id].id == id && Good(s, pool[id], exact)
  }

  ghost predicate Good(s: Schemas, i: Identity, exact: bool) {
    InStep(s, i) && (exact ==> InOrder(s, i))
  }

  // What every step keeps

  lemma ValidatedKeepsRest(s: Schemas, i: Identity)
    ensures var now := Validated(s, i).0;
            now == i.(credentials := now.credentials, verifiable := now.verifiable, recovery := now.recovery)
  {
  }

  /** Filling in the default schema and state does not touch what is in step. */
  lemma DefaultsGood(s: Schemas, i: Identity)
    requires InStep(s, i) && InOrder(s, i)
    ensures InStep(s, Defaults(i)) && InOrder(s, Defaults(i))
  {
    assert VisitsOf(s, Defaults(i)) == VisitsOf(s, i);
  }

  ghost predicate AllWithin(good: iset<Identity>, pool: Pool) {
    forall id :: id in pool ==> pool[id].id == id && pool[id] in good
  }

  lemma PutWithin(good: iset<Identity>, pool: Pool, i: Identity)
    requires AllWithin(good, pool) && i in good
    ensures AllWithin(good, pool[i.id := i])
  {
  }

  lemma InvIsAllWithin(s: Schemas, pool: Pool, exact: bool, good: iset<Identity>)
    requires forall i :: i in good <==> Good(s, i, exact)
    ensures Inv(s, pool, exact) <==> AllWithin(good, pool)
  {
  }

  lemma StoredKeeps(s: Schemas, pool: Pool, i: Identity, exact: bool)
    requires Inv(s, pool, exact) && Good(s, i, exact)
    ensures Inv(s, pool[i.id := i], exact)
  {
    var good := iset i | Good(s, i, exact);
    InvIsAllWithin(s, pool, exact, good);
    PutWithin(good, pool, i);
    InvIsAllWithin(s, pool[i.id := i], exact, good);
  }

  /** Storing what validation accepts, with or without the defaults, keeps every stored identity in step. */
  lemma ValidKeeps(s: Schemas, pool: Pool, i: Identity, exact: bool)
    requires Inv(s, pool, exact) && Storable(s, i)
    ensures Inv(s, pool[i.id := Restored(s, i)], exact) && Inv(s, pool[i.id := Defaults(Restored(s, i))], exact)
  {
    ValidatedKeepsRest(s, i);
    var now := Restored(s, i);
    RestoredInOrder(s, i);
    DefaultsGood(s, now);
    StoredKeeps(s, pool, now, exact);
    StoredKeeps(s, pool, Defaults(now), exact);
  }

  /** The defaults concern neither what the store changes nor what it refuses. */
  lemma DefaultsWritten(s: Schemas, i: Identity)
    ensures Written(s, Defaults(i)) == Defaults(Written(s, i)) && (Refused(s, Defaults(i)) <==> Refused(s, i))
  {
  }

  lemma Loosen(s: Schemas, pool: Pool, exact: bool)
    requires Inv(s, pool, exact)
    ensures Inv(s, pool, false)
  {
  }

  lemma RestampKeeps(s: Schemas, pool: Pool, id: Uuid, now: Identity)
    requires Inv(s, pool, false)
    ensures Inv(s, Restamped(pool, id, now), false)
  {
    if id in pool && HandsBack(pool[id], now) {
      HandedBackInStep(s, pool[id], now);
      StoredKeeps(s, pool, now, false);
    }
  }

  lemma CreateKeeps(s: Schemas, pool: Pool, i: Identity, stored: bool, exact: bool)
    requires Inv(s, pool, exact)
    ensures Inv(s, Created(s, pool, i, stored).pool, exact)
  {
    ValidatedKeepsRest(s, i);
    DefaultsWritten(s, Validated(s, i).0);
    if Storable(s, i) {
      ValidKeeps(s, pool, i, exact);
    }
  }

  lemma UpdateKeeps(s: Schemas, pool: Pool, i: Identity, privileged: bool, stored: bool, exact: bool)
    requires Inv(s, pool, exact)
    ensures Inv(s, Updated(s, pool, i, privileged, stored).pool, exact)
  {
    ValidatedKeepsRest(s, i);
    if Storable(s, i) {
      ValidKeeps(s, pool, i, exact);
    }
  }

  lemma SchemaUpdateKeeps(
    s: Schemas, pool: Pool, id: Uuid, schemaID: string, privileged: bool, stored: bool, exact: bool)
    requires Inv(s, pool, exact)
    ensures Inv(s, SchemaUpdated(s, pool, id, schemaID, privileged, stored), exact)
  {
    if id in pool && Storable(s, pool[id].(schemaID := schemaID)) {
      ValidKeeps(s, pool, pool[id].(schemaID := schemaID), exact);
    }
  }

  lemma TraitsUpdateKeeps(s: Schemas, pool: Pool, id: Uuid, traits: string, privileged: bool, stored: bool, exact: bool)
    requires Inv(s, pool, exact)
    ensures Inv(s, TraitsUpdated(s, pool, id, traits, privileged, stored), exact)
  {
    if id in pool && Storable(s, pool[id].(traits := traits)) {
      ValidKeeps(s, pool, pool[id].(traits := traits), exact);
    }
  }

  lemma StepKeeps(s: Schemas, pool: Pool, e: Event, exact: bool)
    requires Inv(s, pool, exact)
    ensures Inv(s, Step(s, pool, e), exact && !e.Restamp?)
  {
    match e
    case Create(i, stored) => CreateKeeps(s, pool, i, stored, exact);
    case Update(i, privileged, stored) => UpdateKeeps(s, pool, i, privileged, stored, exact);
    case UpdateSchemaID(id, schemaID, privileged, stored) =>
      SchemaUpdateKeeps(s, pool, id, schemaID, privileged, stored, exact);
    case UpdateTraits(id, traits, privileged, stored) => TraitsUpdateKeeps(s, pool, id, traits, privileged, stored, exact);
    case Restamp(id, now) =>
      Loosen(s, pool, exact);
      RestampKeeps(s, pool, id, now);
  }

  lemma {:induction false} RunKeeps(s: Schemas, pool: Pool, es: seq<Event>, exact: bool)
    requires Inv(s, pool, exact)
    ensures Inv(s, Run(s, pool, es), exact && NoRestamp(es))
    decreases |es|
  {
    if es != [] {
      StepKeeps(s, pool, es[0], exact);
      RunKeeps(s, Step(s, pool, es[0]), es[1..], exact && !es[0].Restamp?);
    }
  }

  // The promises

  /** In every run each stored identity is valid, and comes out as it was when it is validated and stored again, but for
      the order in which the store handed its addresses and identifiers back. */
  lemma StoredAreFixpoints(s: Schemas, es: seq<Event>, id: Uuid)
    requires id in Run(s, map[], es)
    ensures var i := Run(s, map[], es)[id];
            && i.id == id && Storable(s, i) && SameButOrder(i, Restored(s, i))
            && (NoRestamp(es) ==> Restored(s, i) == i)
  {
    RunKeeps(s, map[], es, true);
    InStepIsFixpoint(s, Run(s, map[], es)[id]);
    InOrderIsFixpoint(s, Run(s, map[], es)[id]);
  }

  /** `was` and `now` hold the same identities, but for the order of addresses and identifiers. */
  ghost predicate SamePool(was: Pool, now: Pool) {
    was.Keys == now.Keys && forall id :: id in was ==> SameButOrder(was[id], now[id])
  }

  lemma SameItself(i: Identity)
    ensures SameButOrder(i, i)
  {
  }

  lemma SamePoolItself(pool: Pool)
    ensures SamePool(pool, pool)
  {
    forall id | id in pool ensures SameButOrder(pool[id], pool[id]) {
      SameItself(pool[id]);
    }
  }

  lemma PutReorders(pool: Pool, id: Uuid, now: Identity)
    requires id in pool && SameButOrder(pool[id], now)
    ensures SamePool(pool, pool[id := now])
    ensures now == pool[id] ==> pool[id := now] == pool
  {
    var next := pool[id := now];
    forall k | k in pool ensures SameButOrder(pool[k], next[k]) {
      if k != id {
        SameItself(pool[k]);
      }
    }
  }

  lemma SchemaStepIs(s: Schemas, pool: Pool, id: Uuid, schemaID: string, stored: bool)
    ensures SchemaUpdated(s, pool, id, schemaID, false, stored)
         == if id in pool && pool[id].schemaID == schemaID && Storable(s, pool[id]) && stored
            then pool[id := Restored(s, pool[id])] else pool
  {
    assert id in pool && pool[id].schemaID == schemaID ==> pool[id].(schemaID := schemaID) == pool[id];
  }

  lemma SchemaStepReorders(s: Schemas, pool: Pool, id: Uuid, schemaID: string, stored: bool, exact: bool)
    requires Inv(s, pool, exact)
    ensures SamePool(pool, SchemaUpdated(s, pool, id, schemaID, false, stored))
    ensures exact ==> SchemaUpdated(s, pool, id, schemaID, false, stored) == pool
  {
    SchemaStepIs(s, pool, id, schemaID, stored);
    if id in pool && pool[id].schemaID == schemaID && Storable(s, pool[id]) && stored {
      assert Good(s, pool[id], exact);
      InStepIsFixpoint(s, pool[id]);
      InOrderIsFixpoint(s, pool[id]);
      PutReorders(pool, id, Restored(s, pool[id]));
    } else {
      SamePoolItself(pool);
    }
  }

  /** So an unprivileged `UpdateSchemaID`, which compares no protected field, changes no field at all, whatever it returns;
      at most it puts addresses and identifiers in the order of the traits. */
  lemma UnprivilegedSchemaUpdate(s: Schemas, es: seq<Event>, id: Uuid, schemaID: string, stored: bool)
    ensures var pool := Run(s, map[], es);
            && SamePool(pool, SchemaUpdated(s, pool, id, schemaID, false, stored))
            && (NoRestamp(es) ==> SchemaUpdated(s, pool, id, schemaID, false, stored) == pool)
  {
    RunKeeps(s, map[], es, true);
    SchemaStepReorders(s, Run(s, map[], es), id, schemaID, stored, NoRestamp(es));
  }

  // Saving what was read

  /** The verifiable addresses are in the order of the traits, and so are the password's identifiers, which are also those
      of the traits character by character. */
  ghost predicate Untouched(s: Schemas, i: Identity, visits: seq<Visit>) {
    && Keys(i.verifiable.Elements()) == FirstOccurrences(Keys(VerifiablesOf(i.id, visits)))
    && (NamesOf(s, visits) == [] ||
        (PASSWORD in i.credentials && i.credentials[PASSWORD].identifiers == Items(FirstOccurrences(NamesOf(s, visits)))))
  }

  /** Storing an identity just as it was read is refused to an unprivileged caller exactly when the store handed its
      verifiable addresses or its password identifiers back in another order than that of the traits, or has rewritten
      such an identifier. */
  lemma SavingUnchanged(s: Schemas, es: seq<Event>, id: Uuid)
    requires id in Run(s, map[], es)
    ensures var pool := Run(s, map[], es);
            && VisitsOf(s, pool[id]).Some?
            && Updated(s, pool, pool[id], false, true).error
               == if Untouched(s, pool[id], VisitsOf(s, pool[id]).value) then None else Some(ProtectedFieldModified)
  {
    RunKeeps(s, map[], es, true);
    assert Good(s, Run(s, map[], es)[id], NoRestamp(es));
    SavingInStep(s, Run(s, map[], es), id);
  }

  lemma RenamedSame(credentials: CredentialsMap, names: seq<string>)
    ensures SameCredentials(Renamed(credentials, names), credentials) <==>
              names == [] ||
              (PASSWORD in credentials && credentials[PASSWORD].identifiers == Items(FirstOccurrences(names)))
  {
    RenamedKeeps(credentials, names);
  }

  lemma SavingInStep(s: Schemas, pool: Pool, id: Uuid)
    requires id in pool && pool[id].id == id && InStep(s, pool[id])
    ensures Updated(s, pool, pool[id], false, true).error
         == if Untouched(s, pool[id], VisitsOf(s, pool[id]).value) then None else Some(ProtectedFieldModified)
  {
    var i, visits := pool[id], VisitsOf(s, pool[id]).value;
    InStepIsFixpoint(s, i);
    ValidatedIs(s, i);
    CollectedSettled(i.verifiable.Elements(), VerifiablesOf(id, visits));
    RenamedSame(i.credentials, NamesOf(s, visits));
    assert Unprotected(i, Validated(s, i).0) <==> Untouched(s, i, visits);
  }

  // Protected fields over whole runs

  predicate Privileged(e: Event) {
    (e.Update? && e.privileged) || (e.UpdateTraits? && e.privileged) || (e.UpdateSchemaID? && e.privileged)
  }

  /** How closely protected fields are kept. Credentials: as lists of identifiers, or in any order. Verifiable addresses: as
      the very list, by their records in any order, or by what identifies them. */
  datatype Closeness = ByKey | ByRecord | ByList

  function Looser(a: Closeness, b: Closeness): Closeness {
    if a == ByKey || b == ByKey then ByKey else if a == ByRecord || b == ByRecord then ByRecord else ByList
  }

  ghost predicate Close(was: seq<VerifiableAddress>, now: seq<VerifiableAddress>, c: Closeness) {
    match c
    case ByKey => Permuted(Keys(was), Keys(now))
    case ByRecord => Permuted(was, now)
    case ByList => was == now
  }

  lemma CloseOn(a: seq<VerifiableAddress>, b: seq<VerifiableAddress>, c: seq<VerifiableAddress>, x: Closeness, y: Closeness)
    requires Close(a, b, x) && Close(b, c, y)
    ensures Close(a, c, Looser(x, y))
  {
    if x.ByRecord? {
      PermutedKeys(a, b);
    }
    if y.ByRecord? {
      PermutedKeys(b, c);
    }
  }

  ghost predicate CloseCredentials(was: CredentialsMap, now: CredentialsMap, c: Closeness) {
    if c == ByList then SameCredentials(was, now) else AlikeAll(was, now)
  }

  lemma SameIsAlike(was: CredentialsMap, now: CredentialsMap)
    requires SameCredentials(was, now)
    ensures AlikeAll(was, now)
  {
  }

  lemma CloseIsAlike(was: CredentialsMap, now: CredentialsMap, c: Closeness)
    requires CloseCredentials(was, now, c)
    ensures AlikeAll(was, now)
  {
    if c == ByList {
      SameIsAlike(was, now);
    }
  }

  lemma CredentialsOn(a: CredentialsMap, b: CredentialsMap, c: CredentialsMap, x: Closeness, y: Closeness)
    requires CloseCredentials(a, b, x) && CloseCredentials(b, c, y)
    ensures CloseCredentials(a, c, Looser(x, y))
  {
    if x == ByList && y == ByList {
      SameIsEquivalence(a, b, c);
    } else {
      CloseIsAlike(a, b, x);
      CloseIsAlike(b, c, y);
      AlikeOn(a, b, c);
    }
  }

  /** The same credentials and the same verifiable addresses. */
  ghost predicate Safe(was: Identity, now: Identity, c: Closeness) {
    CloseCredentials(was.credentials, now.credentials, c) && Close(was.verifiable.Elements(), now.verifiable.Elements(), c)
  }

  ghost predicate Protects(was: Pool, now: Pool, c: Closeness) {
    forall id :: id in was ==> id in now && Safe(was[id], now[id], c)
  }

  lemma SafeItself(i: Identity, c: Closeness)
    ensures Safe(i, i, c)
  {
    AlikeItself(i.credentials);
  }

  lemma ProtectsItself(pool: Pool, c: Closeness)
    ensures Protects(pool, pool, c)
  {
    forall id | id in pool ensures Safe(pool[id], pool[id], c) {
      SafeItself(pool[id], c);
    }
  }

  lemma PutProtects(pool: Pool, id: Uuid, i: Identity, c: Closeness)
    requires id in pool ==> Safe(pool[id], i, c)
    ensures Protects(pool, pool[id := i], c)
  {
    forall k | k in pool ensures k in pool[id := i] && Safe(pool[k], pool[id := i][k], c) {
      if k != id {
        SafeItself(pool[k], c);
      }
    }
  }

  /** What an unprivileged caller may store comes out of the write with the credentials that were stored. */
  lemma WrittenSame(s: Schemas, original: CredentialsMap, updated: CredentialsMap)
    requires CleanAll(s, original) && SameCredentials(updated, original)
    ensures SameCredentials(original, WrittenAll(s, updated))
  {
    var w := WrittenAll(s, updated);
    forall t | t in original ensures w[t].config == original[t].config && w[t].identifiers == original[t].identifiers {
      assert Clean(s, t, original[t]);
      CleanIsFixpoint(s, t, original[t]);
    }
  }

  lemma UnprotectedSafe(s: Schemas, original: Identity, updated: Identity)
    requires CleanAll(s, original.credentials) && Unprotected(original, updated)
    ensures Safe(original, Written(s, updated), ByList)
  {
    WrittenSame(s, original.credentials, updated.credentials);
  }

  lemma InvClean(s: Schemas, pool: Pool, id: Uuid, exact: bool)
    requires Inv(s, pool, exact) && id in pool
    ensures pool[id].id == id && CleanAll(s, pool[id].credentials)
  {
    assert Good(s, pool[id], exact);
  }

  lemma RestampProtects(pool: Pool, id: Uuid, now: Identity)
    ensures Protects(pool, Restamped(pool, id, now), ByKey)
  {
    ProtectsItself(pool, ByKey);
    if id in pool && HandsBack(pool[id], now) {
      PutProtects(pool, id, now, ByKey);
    }
  }

  lemma UpdateProtects(s: Schemas, pool: Pool, i: Identity, stored: bool)
    requires i.id in pool ==> CleanAll(s, pool[i.id].credentials)
    ensures Protects(pool, Updated(s, pool, i, false, stored).pool, ByList)
  {
    ProtectsItself(pool, ByList);
    ValidatedKeepsRest(s, i);
    var valid := Validated(s, i).0;
    if i.id in pool && Unprotected(pool[i.id], valid) {
      UnprotectedSafe(s, pool[i.id], valid);
      PutProtects(pool, i.id, Written(s, valid), ByList);
    }
  }

  lemma TraitsUpdateProtects(s: Schemas, pool: Pool, id: Uuid, traits: string, stored: bool)
    requires id in pool ==> CleanAll(s, pool[id].credentials)
    ensures Protects(pool, TraitsUpdated(s, pool, id, traits, false, stored), ByList)
  {
    ProtectsItself(pool, ByList);
    if id in pool {
      var valid := Validated(s, pool[id].(traits := traits)).0;
      if Unprotected(pool[id], valid) {
        UnprotectedSafe(s, pool[id], valid);
        PutProtects(pool, id, Written(s, valid), ByList);
      }
    }
  }

  lemma CreateProtects(s: Schemas, pool: Pool, i: Identity, stored: bool)
    ensures Protects(pool, Created(s, pool, i, stored).pool, ByList)
  {
    ProtectsItself(pool, ByList);
    var made := Defaults(Validated(s, i).0);
    if made.id !in pool {
      PutProtects(pool, made.id, Written(s, made), ByList);
    }
  }

  lemma SamePoolProtects(pool: Pool, now: Pool)
    requires SamePool(pool, now)
    ensures Protects(pool, now, ByRecord)
  {
    forall id | id in pool ensures id in now && Safe(pool[id], now[id], ByRecord) {
      assert SameButOrder(pool[id], now[id]);
    }
  }

  lemma SchemaUpdateProtects(s: Schemas, pool: Pool, id: Uuid, schemaID: string, stored: bool, exact: bool)
    requires Inv(s, pool, exact)
    ensures Protects(pool, SchemaUpdated(s, pool, id, schemaID, false, stored), if exact then ByList else ByRecord)
  {
    SchemaStepReorders(s, pool, id, schemaID, stored, exact);
    SamePoolProtects(pool, SchemaUpdated(s, pool, id, schemaID, false, stored));
    ProtectsItself(pool, ByList);
  }

  lemma SafeIsClose(was: Identity, now: Identity, c: Closeness)
    requires Safe(was, now, ByList)
    ensures Safe(was, now, c)
  {
    SameIsAlike(was.credentials, now.credentials);
  }

  lemma ListIsClose(was: Pool, now: Pool, c: Closeness)
    requires Protects(was, now, ByList)
    ensures Protects(was, now, c)
  {
    forall id | id in was ensures id in now && Safe(was[id], now[id], c) {
      assert Safe(was[id], now[id], ByList);
      SafeIsClose(was[id], now[id], c);
    }
  }

  /** How close an event keeps the protected fields of stored identities. */
  function Keeping(e: Event, exact: bool): Closeness {
    if e.Restamp? then ByKey else if exact then ByList else ByRecord
  }

  lemma UnprivilegedCreate(s: Schemas, pool: Pool, e: Event, exact: bool)
    requires e.Create?
    ensures Protects(pool, Step(s, pool, e), Keeping(e, exact))
  {
    CreateProtects(s, pool, e.identity, e.stored);
    ListIsClose(pool, Step(s, pool, e), Keeping(e, exact));
  }

  lemma UnprivilegedUpdate(s: Schemas, pool: Pool, e: Event, exact: bool)
    requires e.Update? && !e.privileged && (e.identity.id in pool ==> CleanAll(s, pool[e.identity.id].credentials))
    ensures Protects(pool, Step(s, pool, e), Keeping(e, exact))
  {
    UpdateProtects(s, pool, e.identity, e.stored);
    ListIsClose(pool, Step(s, pool, e), Keeping(e, exact));
  }

  lemma UnprivilegedTraits(s: Schemas, pool: Pool, e: Event, exact: bool)
    requires e.UpdateTraits? && !e.privileged && (e.id in pool ==> CleanAll(s, pool[e.id].credentials))
    ensures Protects(pool, Step(s, pool, e), Keeping(e, exact))
  {
    TraitsUpdateProtects(s, pool, e.id, e.traits, e.stored);
    ListIsClose(pool, Step(s, pool, e), Keeping(e, exact));
  }

  lemma UnprivilegedSchema(s: Schemas, pool: Pool, e: Event, exact: bool)
    requires e.UpdateSchemaID? && !e.privileged && Inv(s, pool, exact)
    ensures Protects(pool, Step(s, pool, e), Keeping(e, exact))
  {
    SchemaUpdateProtects(s, pool, e.id, e.schemaID, e.stored, exact);
  }

  lemma UnprivilegedStep(s: Schemas, pool: Pool, e: Event, exact: bool)
    requires Inv(s, pool, exact) && !Privileged(e)
    ensures Protects(pool, Step(s, pool, e), Keeping(e, exact))
  {
    if e.Create? {
      UnprivilegedCreate(s, pool, e, exact);
    } else if e.Update? {
      if e.identity.id in pool {
        InvClean(s, pool, e.identity.id, exact);
      }
      UnprivilegedUpdate(s, pool, e, exact);
    } else if e.UpdateTraits? {
      if e.id in pool {
        InvClean(s, pool, e.id, exact);
      }
      UnprivilegedTraits(s, pool, e, exact);
    } else if e.UpdateSchemaID? {
      UnprivilegedSchema(s, pool, e, exact);
    } else {
      RestampProtects(pool, e.id, e.identity);
    }
  }

  lemma SafeOn(a: Identity, b: Identity, c: Identity, x: Closeness, y: Closeness)
    requires Safe(a, b, x) && Safe(b, c, y)
    ensures Safe(a, c, Looser(x, y))
  {
    CredentialsOn(a.credentials, b.credentials, c.credentials, x, y);
    CloseOn(a.verifiable.Elements(), b.verifiable.Elements(), c.verifiable.Elements(), x, y);
  }

  lemma ProtectsOn(a: Pool, b: Pool, c: Pool, x: Closeness, y: Closeness)
    requires Protects(a, b, x) && Protects(b, c, y)
    ensures Protects(a, c, Looser(x, y))
  {
    forall id | id in a ensures id in c && Safe(a[id], c[id], Looser(x, y)) {
      SafeOn(a[id], b[id], c[id], x, y);
    }
  }

  /** How close a whole run keeps them. */
  function RunKeeping(es: seq<Event>, exact: bool): Closeness {
    if !NoRestamp(es) then ByKey else if exact then ByList else ByRecord
  }

  lemma KeepingFirst(es: seq<Event>, exact: bool)
    requires es != []
    ensures Looser(Keeping(es[0], exact), RunKeeping(es[1..], exact && !es[0].Restamp?)) == RunKeeping(es, exact)
  {
  }

  lemma {:induction false} UnprivilegedRun(s: Schemas, pool: Pool, es: seq<Event>, exact: bool)
    requires Inv(s, pool, exact) && forall i :: 0 <= i < |es| ==> !Privileged(es[i])
    ensures Protects(pool, Run(s, pool, es), RunKeeping(es, exact))
    decreases |es|
  {
    if es == [] {
      ProtectsItself(pool, RunKeeping(es, exact));
    } else {
      var next, rest, still := Step(s, pool, es[0]), es[1..], exact && !es[0].Restamp?;
      StepKeeps(s, pool, es[0], exact);
      UnprivilegedStep(s, pool, es[0], exact);
      UnprivilegedRun(s, next, rest, still);
      KeepingFirst(es, exact);
      ProtectsOn(pool, next, Run(s, next, rest), Keeping(es[0], exact), RunKeeping(rest, still));
    }
  }

  /** Whatever was stored by any run, no later unprivileged calls change its credential configs, its identifiers or its
      verifiable addresses. Only the store itself may rewrite address records or hand things back in another order. */
  lemma ProtectedForever(s: Schemas, es: seq<Event>, fs: seq<Event>)
    requires forall i :: 0 <= i < |fs| ==> !Privileged(fs[i])
    ensures var pool := Run(s, map[], es);
            Protects(pool, Run(s, pool, fs), if !NoRestamp(fs) then ByKey else if NoRestamp(es) then ByList else ByRecord)
  {
    RunKeeps(s, map[], es, true);
    UnprivilegedRun(s, Run(s, map[], es), fs, NoRestamp(es));
  }
}
