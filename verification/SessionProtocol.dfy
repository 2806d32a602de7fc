/** Sessions as rows of a store, what happens to them over time, and which requests they let in. */
module SessionProtocol {
  import opened Basics
  import opened Assurance

  datatype Method = Method(name: CredentialsType, completedAt: int)

  datatype Row = Row(
    id: Uuid, token: string, identity: Uuid, active: bool, issuedAt: int, expiresAt: int,
    amr: seq<Method>, level: Level)

  datatype Account = Account(enabled: bool, credentials: set<CredentialsType>)

  /** `ids` and `used`: every identifier and every token ever drawn for a session. */
  datatype State = State(rows: map<Uuid, Row>, accounts: map<Uuid, Account>, now: int, ids: set<Uuid>, used: set<string>)

  const INITIAL: State := State(map[], map[], 0, {}, {})

  function Names(amr: seq<Method>): set<CredentialsType> {
    set m | m in amr :: m.name
  }

  function Stamped(methods: seq<CredentialsType>, now: int): seq<Method> {
    seq(|methods|, i requires 0 <= i < |methods| => Method(methods[i], now))
  }

  // Operations on the rows

  function WithToken(rows: map<Uuid, Row>, token: string): set<Uuid> {
    set id | id in rows && rows[id].token == token
  }

  function OfIdentity(rows: map<Uuid, Row>, identity: Uuid): set<Uuid> {
    set id | id in rows && rows[id].identity == identity
  }

  function Revoked(rows: map<Uuid, Row>, hits: set<Uuid>): map<Uuid, Row> {
    map id | id in rows :: if id in hits then rows[id].(active := false) else rows[id]
  }

  /** What `NewActiveSession` makes of an enabled identity. */
  ghost function Fresh(
    id: Uuid, token: string, identity: Uuid, means: CredentialsType, now: int, at: int, lifespan: int): Row
  {
    Row(id, token, identity, true, at, at + lifespan, [Method(means, now)], LevelOf({means}))
  }

  ghost function Extended(row: Row, methods: seq<CredentialsType>, now: int): Row {
    row.(amr := row.amr + Stamped(methods, now), level := LevelOf(Names(row.amr) + ToSet(methods)))
  }

  /** What a login makes of a session it has fetched: one more method, and activated anew from `at`. */
  ghost function Reactivated(row: Row, means: CredentialsType, now: int, at: int, lifespan: int): Row {
    Extended(row, [means], now).(active := true, issuedAt := at, expiresAt := at + lifespan)
  }

  /** `IsActive` for a session whose identity the store has loaded. */
  predicate Admits(st: State, row: Row) {
    row.active && row.expiresAt > st.now && row.identity in st.accounts && st.accounts[row.identity].enabled
  }

  // Runs

  /** `seenEnabled` is the state of the identity a login was done with, `stored` whether the store took the session. A
      `Reactivate` is a login on top of a session that was fetched before. */
  datatype Event =
    | NewAccount(identity: Uuid)
    | SetEnabled(identity: Uuid, enabled: bool)
    | SetCredentials(identity: Uuid, credentials: set<CredentialsType>)
    | Issue(
        id: Uuid, token: string, identity: Uuid, seenEnabled: bool, means: CredentialsType, at: int, lifespan: int,
        stored: bool)
    | Reactivate(id: Uuid, seenEnabled: bool, means: CredentialsType, at: int, lifespan: int, stored: bool)
    | AddMethods(id: Uuid, methods: seq<CredentialsType>, stored: bool)
    | RevokeToken(token: string)
    | Revoke(identity: Uuid, id: Uuid)
    | RevokeExcept(identity: Uuid, id: Uuid)
    | Delete(id: Uuid)
    | DeleteToken(token: string)
    | DeleteAll(identity: Uuid)
    | Tick(elapsed: nat)

  predicate IsAlphaNum(c: char) {
    'a' <= c <= 'z' || 'A' <= c <= 'Z' || '0' <= c <= '9'
  }

  /** The tokens the random source can draw. */
  predicate Drawable(token: string) {
    |token| == 32 && forall i :: 0 <= i < 32 ==> IsAlphaNum(token[i])
  }

  /** Identifiers and tokens that are drawn are new, sessions are issued to identities there are, and a session is
      activated again only if it could be fetched. */
  predicate Possible(st: State, e: Event) {
    match e
    case NewAccount(identity) => identity !in st.accounts
    case Issue(id, token, identity, _, _, _, _, _) =>
      id !in st.ids && Drawable(token) && token !in st.used && identity in st.accounts
    case Reactivate(id, _, _, _, _, _) => id in st.rows && Admits(st, st.rows[id])
    case _ => true
  }

  /** The rows a revoking or a deleting event concerns. */
  function Hits(rows: map<Uuid, Row>, e: Event): set<Uuid> {
    match e
    case RevokeToken(token) => WithToken(rows, token)
    case Revoke(identity, id) => OfIdentity(rows, identity) * {id}
    case RevokeExcept(identity, id) => OfIdentity(rows, identity) - {id}
    case Delete(id) => {id}
    case DeleteToken(token) => WithToken(rows, token)
    case DeleteAll(identity) => OfIdentity(rows, identity)
    case _ => {}
  }

  ghost function Rows(st: State, e: Event): map<Uuid, Row> {
    var rows := st.rows;
    match e
    case Issue(id, token, identity, seenEnabled, means, at, lifespan, stored) =>
      if seenEnabled && stored then rows[id := Fresh(id, token, identity, means, st.now, at, lifespan)] else rows
    case Reactivate(id, seenEnabled, means, at, lifespan, stored) =>
      if id in rows && seenEnabled && stored then rows[id := Reactivated(rows[id], means, st.now, at, lifespan)] else rows
    case AddMethods(id, methods, stored) =>
      if id in rows && stored then rows[id := Extended(rows[id], methods, st.now)] else rows
    case RevokeToken(_) => Revoked(rows, Hits(rows, e))
    case Revoke(_, _) => Revoked(rows, Hits(rows, e))
    case RevokeExcept(_, _) => Revoked(rows, Hits(rows, e))
    case Delete(_) => rows - Hits(rows, e)
    case DeleteToken(_) => rows - Hits(rows, e)
    case DeleteAll(_) => rows - Hits(rows, e)
    case _ => rows
  }

  function Accounts(accounts: map<Uuid, Account>, e: Event): map<Uuid, Account> {
    match e
    case NewAccount(identity) => accounts[identity := Account(true, {})]
    case SetEnabled(identity, enabled) =>
      if identity in accounts then accounts[identity := accounts[identity].(enabled := enabled)] else accounts
    case SetCredentials(identity, credentials) =>
      if identity in accounts then accounts[identity := accounts[identity].(credentials := credentials)] else accounts
    case _ => accounts
  }

  ghost function After(st: State, e: Event): State {
    State(
      Rows(st, e), Accounts(st.accounts, e), st.now + if e.Tick? then e.elapsed else 0,
      st.ids + (if e.Issue? then {e.id} else {}), st.used + (if e.Issue? then {e.token} else {}))
  }

  ghost function Step(st: State, e: Event): State {
    if Possible(st, e) then After(st, e) else st
  }

  ghost function Run(st: State, es: seq<Event>): State
    decreases |es|
  {
    if es == [] then st else Run(Step(st, es[0]), es[1..])
  }

  // What every step keeps

  ghost predicate RowOk(st: State, id: Uuid)
    requires id in st.rows
  {
    var row := st.rows[id];
    && row.id == id && id in st.ids && row.token in st.used && row.identity in st.accounts && row.level == LevelOf(Names(row.amr))
  }

  ghost predicate TokensUnique(rows: map<Uuid, Row>) {
    forall i, j :: i in rows && j in rows && rows[i].token == rows[j].token ==> i == j
  }

  ghost predicate Inv(st: State) {
    && (forall id :: id in st.rows ==> RowOk(st, id))
    && TokensUnique(st.rows)
    && forall t :: t in st.used ==> Drawable(t)
  }

  /** Revoked or expired. */
  predicate Dead(st: State, row: Row) {
    !row.active || row.expiresAt <= st.now
  }

  /** How far a row may move: it keeps its identity and its token, is not activated once it was revoked, and its methods
      and its level only grow. */
  ghost predicate RowGrows(was: Row, now: Row) {
    && now.token == was.token && now.identity == was.identity
    && (now.active ==> was.active) && was.amr <= now.amr && was.level <= now.level
  }

  /** Every row that was there has only grown if it is still there, and is dead if it was dead; every other row is new. */
  ghost predicate Grows(was: State, now: State) {
    && was.ids <= now.ids && was.used <= now.used && was.now <= now.now && was.accounts.Keys <= now.accounts.Keys
    && forall id :: id in now.rows ==>
         if id in was.rows
         then RowGrows(was.rows[id], now.rows[id]) && (Dead(was, was.rows[id]) ==> Dead(now, now.rows[id]))
         else id !in was.ids && now.rows[id].token !in was.used
  }

  lemma NamesExtend(amr: seq<Method>, methods: seq<CredentialsType>, now: int)
    ensures Names(amr + Stamped(methods, now)) == Names(amr) + ToSet(methods)
  {
    var more := Stamped(methods, now);
    forall name | name in ToSet(methods) ensures name in Names(more) {
      var i :| 0 <= i < |methods| && methods[i] == name;
      assert more[i] in more;
    }
    assert forall m :: m in amr + more <==> m in amr || m in more;
  }

  lemma ExtendedGrows(row: Row, methods: seq<CredentialsType>, now: int)
    requires row.level == LevelOf(Names(row.amr))
    ensures var r := Extended(row, methods, now); r.level == LevelOf(Names(r.amr)) && RowGrows(row, r)
  {
    NamesExtend(row.amr, methods, now);
    LevelGrows(Names(row.amr), Names(row.amr) + ToSet(methods));
  }

  ghost predicate Keeps(was: State, now: State) {
    Inv(now) && Grows(was, now)
  }

  lemma RevokedKeeps(st: State, hits: set<Uuid>)
    requires Inv(st)
    ensures Keeps(st, st.(rows := Revoked(st.rows, hits)))
  {
    var now := st.(rows := Revoked(st.rows, hits));
    forall id | id in now.rows ensures RowOk(now, id) {
      assert RowOk(st, id);
    }
  }

  lemma DeletedKeeps(st: State, hits: set<Uuid>)
    requires Inv(st)
    ensures Keeps(st, st.(rows := st.rows - hits))
  {
    var now := st.(rows := st.rows - hits);
    forall id | id in now.rows ensures RowOk(now, id) {
      assert RowOk(st, id);
    }
  }

  lemma TokensStay(rows: map<Uuid, Row>, id: Uuid, row: Row)
    requires TokensUnique(rows) && id in rows && row.token == rows[id].token
    ensures TokensUnique(rows[id := row])
  {
  }

  lemma GrownGrows(st: State, id: Uuid, row: Row)
    requires id in st.rows && RowGrows(st.rows[id], row) && (Dead(st, st.rows[id]) ==> Dead(st, row))
    ensures Grows(st, st.(rows := st.rows[id := row]))
  {
  }

  lemma GrownInv(st: State, id: Uuid, row: Row)
    requires Inv(st) && id in st.rows && row.id == id && RowGrows(st.rows[id], row)
    requires row.level == LevelOf(Names(row.amr))
    ensures Inv(st.(rows := st.rows[id := row]))
  {
    var now := st.(rows := st.rows[id := row]);
    TokensStay(st.rows, id, row);
    assert RowOk(st, id);
    forall i | i in now.rows ensures RowOk(now, i) {
      assert i != id ==> RowOk(st, i);
    }
  }

  lemma GrownKeeps(st: State, id: Uuid, row: Row)
    requires Inv(st) && id in st.rows && row.id == id && RowGrows(st.rows[id], row)
    requires Dead(st, st.rows[id]) ==> Dead(st, row)
    requires row.level == LevelOf(Names(row.amr))
    ensures Keeps(st, st.(rows := st.rows[id := row]))
  {
    GrownGrows(st, id, row);
    GrownInv(st, id, row);
  }

  lemma ExtendedKeeps(st: State, id: Uuid, methods: seq<CredentialsType>)
    requires Inv(st) && id in st.rows
    ensures Keeps(st, st.(rows := st.rows[id := Extended(st.rows[id], methods, st.now)]))
  {
    assert RowOk(st, id);
    ExtendedGrows(st.rows[id], methods, st.now);
    GrownKeeps(st, id, Extended(st.rows[id], methods, st.now));
  }

  lemma ReactivatedKeeps(st: State, id: Uuid, means: CredentialsType, at: int, lifespan: int)
    requires Inv(st) && id in st.rows && Admits(st, st.rows[id])
    ensures Keeps(st, st.(rows := st.rows[id := Reactivated(st.rows[id], means, st.now, at, lifespan)]))
  {
    assert RowOk(st, id);
    ExtendedGrows(st.rows[id], [means], st.now);
    GrownKeeps(st, id, Reactivated(st.rows[id], means, st.now, at, lifespan));
  }

  lemma RowsAreDrawn(st: State)
    requires Inv(st)
    ensures st.rows.Keys <= st.ids
  {
    assert forall id :: id in st.rows ==> RowOk(st, id);
  }

  lemma IssuedKeeps(st: State, row: Row, issued: bool)
    requires Inv(st) && row.id !in st.ids && row.token !in st.used && Drawable(row.token)
    requires row.identity in st.accounts && row.level == LevelOf(Names(row.amr))
    ensures Keeps(st, State(if issued then st.rows[row.id := row] else st.rows, st.accounts, st.now,
                            st.ids + {row.id}, st.used + {row.token}))
  {
    var now := State(if issued then st.rows[row.id := row] else st.rows, st.accounts, st.now,
                     st.ids + {row.id}, st.used + {row.token});
    forall i | i in now.rows && i != row.id ensures i in st.rows && RowOk(now, i) {
      assert RowOk(st, i);
    }
    RowsAreDrawn(st);
    forall i | i in st.rows ensures st.rows[i].token != row.token {
      assert RowOk(st, i);
    }
  }

  lemma OutsideKeeps(st: State, accounts: map<Uuid, Account>, elapsed: nat)
    requires Inv(st) && st.accounts.Keys <= accounts.Keys
    ensures Keeps(st, st.(accounts := accounts, now := st.now + elapsed))
  {
    var now := st.(accounts := accounts, now := st.now + elapsed);
    forall i | i in now.rows ensures RowOk(now, i) {
      assert RowOk(st, i);
    }
  }

  lemma StepKeeps(st: State, e: Event)
    requires Inv(st)
    ensures Keeps(st, Step(st, e))
  {
    OutsideKeeps(st, st.accounts, 0);
    assert st.ids + {} == st.ids && st.used + {} == st.used;
    if Possible(st, e) {
      if e.Issue? {
        var row := Fresh(e.id, e.token, e.identity, e.means, st.now, e.at, e.lifespan);
        assert Names([Method(e.means, st.now)]) == {e.means};
        IssuedKeeps(st, row, e.seenEnabled && e.stored);
      } else if e.Reactivate? {
        ReactivatedKeeps(st, e.id, e.means, e.at, e.lifespan);
      } else if e.AddMethods? {
        if e.id in st.rows {
          ExtendedKeeps(st, e.id, e.methods);
        }
      } else if e.RevokeToken? || e.Revoke? || e.RevokeExcept? {
        RevokedKeeps(st, Hits(st.rows, e));
      } else if e.Delete? || e.DeleteToken? || e.DeleteAll? {
        DeletedKeeps(st, Hits(st.rows, e));
      } else {
        OutsideKeeps(st, Accounts(st.accounts, e), if e.Tick? then e.elapsed else 0);
      }
    }
  }

  lemma GrowsOn(a: State, b: State, c: State)
    requires Inv(a) && Grows(a, b) && Grows(b, c)
    ensures Grows(a, c)
  {
    assert forall id :: id in a.rows ==> RowOk(a, id) && id in b.ids;
    forall id | id in c.rows && id in b.rows && id in a.rows
      ensures RowGrows(a.rows[id], c.rows[id]) && (Dead(a, a.rows[id]) ==> Dead(c, c.rows[id]))
    {
      assert RowGrows(a.rows[id], b.rows[id]) && RowGrows(b.rows[id], c.rows[id]);
    }
  }

  lemma {:induction false} RunKeeps(st: State, es: seq<Event>)
    requires Inv(st)
    ensures Keeps(st, Run(st, es))
    decreases |es|
  {
    if es == [] {
      OutsideKeeps(st, st.accounts, 0);
    } else {
      var next := Step(st, es[0]);
      StepKeeps(st, es[0]);
      RunKeeps(next, es[1..]);
      GrowsOn(st, next, Run(next, es[1..]));
    }
  }

  // Assurance over whole runs

  datatype Answer = Satisfied | NotSatisfied | NoIdentity | UnknownLevel

  /** What `DoesSessionSatisfy` answers. Below level 1 a request for "aal1" ends as a request for an unknown level. */
  ghost function Satisfaction(row: Row, accounts: map<Uuid, Account>, requested: string): Answer {
    var level := LevelOf(Names(row.amr));
    if requested == "aal1" && level >= 1 then Satisfied
    else if requested != "highest_available" then UnknownLevel
    else if row.identity !in accounts then NoIdentity
    else if level >= LevelOf(accounts[row.identity].credentials) then Satisfied
    else NotSatisfied
  }

  /** "highest_available" is satisfied exactly if the session has a first factor whenever the identity has one, and then a
      second factor whenever the identity has one; "aal1" exactly with a first factor. Anything else is unknown. */
  lemma SatisfiedExactly(row: Row, accounts: map<Uuid, Account>, requested: string)
    ensures var did := Names(row.amr);
            && (Satisfaction(row, accounts, "aal1").Satisfied? <==> !(did !! FIRST_FACTORS))
            && (did !! FIRST_FACTORS ==> Satisfaction(row, accounts, "aal1") == UnknownLevel)
            && (row.identity !in accounts ==> Satisfaction(row, accounts, "highest_available") == NoIdentity)
            && (row.identity in accounts ==>
                  var has := accounts[row.identity].credentials;
                  Satisfaction(row, accounts, "highest_available")
                  == if has !! FIRST_FACTORS ||
                        (!(did !! FIRST_FACTORS) && (has !! SECOND_FACTORS || !(did !! SECOND_FACTORS)))
                     then Satisfied else NotSatisfied)
            && (requested != "aal1" && requested != "highest_available" ==>
                  Satisfaction(row, accounts, requested) == UnknownLevel)
  {
  }

  /** The rows that logins make, field by field. */
  lemma RowsMade(
    row: Row, id: Uuid, token: string, identity: Uuid, means: CredentialsType, methods: seq<CredentialsType>,
    now: int, at: int, lifespan: int, j: nat)
    ensures var first := Fresh(id, token, identity, means, now, at, lifespan);
            && first.id == id && first.token == token && first.identity == identity && first.active
            && first.issuedAt == at && first.expiresAt == at + lifespan
            && first.amr == [Method(means, now)] && first.level == LevelOf({means})
    ensures var more := Extended(row, methods, now);
            && more == row.(amr := more.amr, level := more.level)
            && |more.amr| == |row.amr| + |methods| && row.amr <= more.amr
            && (j < |methods| ==> more.amr[|row.amr| + j] == Method(methods[j], now))
            && more.level == LevelOf(Names(more.amr))
    ensures var again := Reactivated(row, means, now, at, lifespan);
            && again == row.(active := true, issuedAt := at, expiresAt := at + lifespan, amr := again.amr, level := again.level)
            && again.amr == row.amr + [Method(means, now)] && again.level == LevelOf(Names(again.amr))
  {
    NamesExtend(row.amr, methods, now);
    NamesExtend(row.amr, [means], now);
    assert Stamped([means], now) == [Method(means, now)];
  }

  /** Nothing is stored for a disabled identity, for a session that is not there, or when the store fails. */
  lemma FailuresStoreNothing(st: State, e: Event)
    requires (e.Issue? && !(e.seenEnabled && e.stored)) || (e.AddMethods? && !(e.id in st.rows && e.stored))
          || (e.Reactivate? && !(e.id in st.rows && Admits(st, st.rows[e.id]) && e.seenEnabled && e.stored))
    ensures Step(st, e).rows == st.rows && Step(st, e).accounts == st.accounts && Step(st, e).now == st.now
  {
  }

  lemma NamesExactly(amr: seq<Method>, name: CredentialsType)
    ensures name in Names(amr) <==> exists j :: 0 <= j < |amr| && amr[j].name == name
  {
    if name in Names(amr) {
      var m :| m in amr && m.name == name;
      var j :| 0 <= j < |amr| && amr[j] == m;
    }
    if j :| 0 <= j < |amr| && amr[j].name == name {
      assert amr[j] in amr;
    }
  }

  /** In every run, every stored session has the level its methods give it. */
  lemma LevelIsDetermined(es: seq<Event>, id: Uuid)
    requires id in Run(INITIAL, es).rows
    ensures var row := Run(INITIAL, es).rows[id]; row.level == LevelOf(Names(row.amr))
  {
    RunKeeps(INITIAL, es);
    assert RowOk(Run(INITIAL, es), id);
  }

  /** Whatever happens to a session, it keeps its token and its owner, never comes back to life once it is revoked or
      expired, and its methods and its level never shrink. */
  lemma SessionOnlyGrows(es: seq<Event>, fs: seq<Event>, id: Uuid)
    requires id in Run(INITIAL, es).rows && id in Run(Run(INITIAL, es), fs).rows
    ensures var was, now := Run(INITIAL, es), Run(Run(INITIAL, es), fs);
            RowGrows(was.rows[id], now.rows[id]) && (Dead(was, was.rows[id]) ==> Dead(now, now.rows[id]))
  {
    RunKeeps(INITIAL, es);
    RunKeeps(Run(INITIAL, es), fs);
  }

  /** A session that satisfies a request keeps satisfying it, as long as the identity has gained no credentials. */
  lemma SatisfactionStays(es: seq<Event>, fs: seq<Event>, id: Uuid, requested: string)
    requires id in Run(INITIAL, es).rows && id in Run(Run(INITIAL, es), fs).rows
    requires var was, now := Run(INITIAL, es), Run(Run(INITIAL, es), fs);
             var owner := was.rows[id].identity;
             && Satisfaction(was.rows[id], was.accounts, requested).Satisfied?
             && (owner in was.accounts && owner in now.accounts ==>
                   now.accounts[owner].credentials <= was.accounts[owner].credentials)
    ensures var now := Run(Run(INITIAL, es), fs); Satisfaction(now.rows[id], now.accounts, requested).Satisfied?
  {
    var was, now := Run(INITIAL, es), Run(Run(INITIAL, es), fs);
    SessionOnlyGrows(es, fs, id);
    RunKeeps(INITIAL, es);
    RunKeeps(was, fs);
    assert RowOk(was, id) && RowOk(now, id);
    var owner := was.rows[id].identity;
    LevelGrows(now.accounts[owner].credentials, was.accounts[owner].credentials);
  }

  // Acceptance over whole runs

  ghost predicate Accepts(st: State, token: string) {
    exists id :: id in st.rows && st.rows[id].token == token && Admits(st, st.rows[id])
  }

  /** A token that cannot be drawn, or was drawn for a session that is deleted, revoked or expired. */
  ghost predicate Gone(st: State, token: string) {
    !Drawable(token) ||
    (token in st.used && forall id :: id in st.rows && st.rows[id].token == token ==> Dead(st, st.rows[id]))
  }

  lemma GoneStays(st: State, token: string, es: seq<Event>)
    requires Inv(st) && Gone(st, token)
    ensures Gone(Run(st, es), token) && !Accepts(Run(st, es), token)
  {
    RunKeeps(st, es);
    var now := Run(st, es);
    forall id | id in now.rows && now.rows[id].token == token ensures Dead(now, now.rows[id]) {
      assert RowOk(now, id);
      if id in st.rows {
        assert RowGrows(st.rows[id], now.rows[id]);
      }
    }
  }

  lemma {:induction false} Bound(s: set<nat>) returns (b: nat)
    ensures forall x :: x in s ==> x < b
    decreases |s|
  {
    if s == {} {
      b := 0;
    } else {
      var x :| x in s;
      var rest := Bound(s - {x});
      b := if rest <= x then x + 1 else rest;
      assert forall y :: y in s ==> y == x || y in s - {x};
    }
  }

  /** As long as a token is not gone, something can still happen that makes it accepted. */
  lemma NotGoneCanReturn(st: State, token: string) returns (es: seq<Event>)
    requires Inv(st) && !Gone(st, token)
    ensures Accepts(Run(st, es), token)
  {
    if token in st.used {
      var id :| id in st.rows && st.rows[id].token == token && !Dead(st, st.rows[id]);
      assert RowOk(st, id);
      var e := SetEnabled(st.rows[id].identity, true);
      es := [e];
      var now := After(st, e);
      assert Run(st, es) == Run(now, []) == now;
      assert now.rows[id].token == token && Admits(now, now.rows[id]);
    } else {
      var id := Bound(st.ids);
      var owner := Bound(st.accounts.Keys);
      var e, f := NewAccount(owner), Issue(id, token, owner, true, "password", st.now, 1, true);
      es := [e, f];
      var mid := After(st, e);
      var now := After(mid, f);
      assert es[1..] == [f] && [f][1..] == [];
      assert Possible(st, e) && Possible(mid, f);
      assert Run(st, es) == Run(mid, [f]) == Run(now, []) == now;
      assert now.rows[id].token == token && Admits(now, now.rows[id]);
    }
  }

  ghost predicate AcceptsAfter(st: State, es: seq<Event>, token: string) {
    Accepts(Run(st, es), token)
  }

  lemma ForeverIsGone(st: State, token: string)
    requires Inv(st)
    ensures (forall es :: !AcceptsAfter(st, es, token)) <==> Gone(st, token)
  {
    if Gone(st, token) {
      forall es ensures !AcceptsAfter(st, es, token) {
        GoneStays(st, token, es);
      }
    } else {
      var es := NotGoneCanReturn(st, token);
      assert AcceptsAfter(st, es, token);
    }
  }

  /** In any reachable state a token is rejected for ever exactly when it is gone: a disabled identity alone does not
      do that, for it may be enabled again. */
  lemma RejectedForever(es: seq<Event>, token: string)
    ensures (forall fs :: !AcceptsAfter(Run(INITIAL, es), fs, token)) <==> Gone(Run(INITIAL, es), token)
  {
    RunKeeps(INITIAL, es);
    ForeverIsGone(Run(INITIAL, es), token);
  }

  predicate Enables(e: Event) {
    e.SetEnabled? && e.enabled
  }

  /** Whether an event revokes or deletes a session. */
  predicate Ends(row: Row, e: Event) {
    match e
    case RevokeToken(token) => token == row.token
    case Revoke(identity, id) => identity == row.identity && id == row.id
    case RevokeExcept(identity, id) => identity == row.identity && id != row.id
    case Delete(id) => id == row.id
    case DeleteToken(token) => token == row.token
    case DeleteAll(identity) => identity == row.identity
    case _ => false
  }

  /** Whether an event activates a session anew, given that it would be fetched. */
  predicate Renews(row: Row, e: Event) {
    e.Reactivate? && e.id == row.id && e.seenEnabled && e.stored
  }

  lemma SparedStays(rows: map<Uuid, Row>, id: Uuid, e: Event)
    requires id in rows && rows[id].id == id && !Ends(rows[id], e)
    ensures var hits := Hits(rows, e);
            id !in hits && Revoked(rows, hits)[id] == rows[id] && id in rows - hits && (rows - hits)[id] == rows[id]
  {
  }

  /** What an event that neither ends nor issues a session makes of it. */
  lemma RowsAt(st: State, e: Event, id: Uuid)
    requires id in st.rows && st.rows[id].id == id && !Ends(st.rows[id], e) && (e.Issue? ==> e.id != id)
    ensures id in Rows(st, e)
    ensures var row, next := st.rows[id], Rows(st, e)[id];
            next == if Renews(row, e) then Reactivated(row, e.means, st.now, e.at, e.lifespan)
                    else if e.AddMethods? && e.id == id && e.stored then Extended(row, e.methods, st.now)
                    else row
  {
    SparedStays(st.rows, id, e);
  }

  /** Only a session that could be fetched is ever activated anew. */
  lemma ExpiryStays(st: State, e: Event, id: Uuid)
    requires Inv(st) && id in st.rows && id in Step(st, e).rows
    requires !Admits(st, st.rows[id]) || !e.Reactivate? || e.id != id
    ensures Step(st, e).rows[id].expiresAt == st.rows[id].expiresAt
  {
    assert RowOk(st, id);
    if Possible(st, e) {
      if Ends(st.rows[id], e) {
        EndedRow(st.rows, id, e);
      } else {
        RowsAt(st, e, id);
      }
    }
  }

  lemma EndedRow(rows: map<Uuid, Row>, id: Uuid, e: Event)
    requires id in rows && rows[id].id == id && Ends(rows[id], e)
    ensures var hits := Hits(rows, e);
            && id in hits && id !in rows - hits
            && id in Revoked(rows, hits) && Revoked(rows, hits)[id] == rows[id].(active := false)
  {
  }

  lemma StepRejects(st: State, token: string, e: Event)
    requires Inv(st) && token in st.used && !Accepts(st, token) && !Enables(e)
    ensures !Accepts(Step(st, e), token)
  {
    StepKeeps(st, e);
    var now := Step(st, e);
    forall id | id in now.rows && now.rows[id].token == token ensures !Admits(now, now.rows[id]) {
      assert id in st.rows && RowGrows(st.rows[id], now.rows[id]);
      assert RowOk(st, id) && !Admits(st, st.rows[id]);
      ExpiryStays(st, e, id);
      AccountsStayDisabled(st, e, st.rows[id].identity);
    }
  }

  lemma AccountsStayDisabled(st: State, e: Event, owner: Uuid)
    requires owner in st.accounts && !Enables(e)
    ensures owner in Step(st, e).accounts
    ensures Step(st, e).accounts[owner].enabled ==> st.accounts[owner].enabled
  {
  }

  /** Unless some identity is enabled again, a token once drawn and now rejected is rejected for ever. */
  lemma {:induction false} RejectedStays(st: State, token: string, es: seq<Event>)
    requires Inv(st) && token in st.used && !Accepts(st, token)
    requires forall e :: e in es ==> !Enables(e)
    ensures !Accepts(Run(st, es), token)
    decreases |es|
  {
    if es != [] {
      StepKeeps(st, es[0]);
      assert es[0] in es;
      StepRejects(st, token, es[0]);
      RejectedStays(Step(st, es[0]), token, es[1..]);
    }
  }

  // The life of a session

  lemma EndedIsGone(st: State, id: Uuid, e: Event)
    requires Inv(st) && id in st.rows && Ends(st.rows[id], e)
    ensures Gone(Step(st, e), st.rows[id].token)
  {
    assert RowOk(st, id) && Possible(st, e);
    assert id in Hits(st.rows, e);
    var now := Step(st, e);
    forall i | i in now.rows && now.rows[i].token == st.rows[id].token ensures !now.rows[i].active {
      assert i in st.rows && st.rows[i].token == st.rows[id].token;
      assert i == id;
    }
  }

  lemma OthersStay(st: State, id: Uuid, e: Event)
    requires Inv(st) && id in st.rows && !Ends(st.rows[id], e)
    ensures var next := Step(st, e);
            && id in next.rows && SameSession(st.rows[id], next.rows[id])
            && (st.rows[id].active ==> next.rows[id].active)
            && next.rows[id].expiresAt
               == if Renews(st.rows[id], e) && Admits(st, st.rows[id]) then e.at + e.lifespan else st.rows[id].expiresAt
  {
    assert RowOk(st, id);
    if Possible(st, e) {
      RowsAt(st, e, id);
    }
  }

  predicate SameSession(was: Row, now: Row) {
    now.id == was.id && now.token == was.token && now.identity == was.identity
  }

  /** Whether some event of a run revokes or deletes a session. */
  predicate EndedBy(row: Row, es: seq<Event>) {
    exists i :: 0 <= i < |es| && Ends(row, es[i])
  }

  lemma EndedByLast(row: Row, es: seq<Event>)
    requires es != []
    ensures EndedBy(row, es) <==> EndedBy(row, es[..|es| - 1]) || Ends(row, es[|es| - 1])
  {
    var init := es[..|es| - 1];
    assert forall i :: 0 <= i < |init| ==> init[i] == es[i];
  }

  lemma {:induction false} RunLast(st: State, es: seq<Event>)
    requires es != []
    ensures Run(st, es) == Step(Run(st, es[..|es| - 1]), es[|es| - 1])
    decreases |es|
  {
    if |es| > 1 {
      var rest := es[1..];
      RunLast(Step(st, es[0]), rest);
      assert es[..|es| - 1][1..] == rest[..|rest| - 1];
    } else {
      assert Run(st, es) == Run(Step(st, es[0]), []);
    }
  }

  /** A clock and accounts under which a session with a given deadline is served. */
  ghost predicate Serves(st: State, row: Row, deadline: int) {
    st.now < deadline && row.identity in st.accounts && st.accounts[row.identity].enabled
  }

  /** When a session expires after a run: as set by the last login in it that still found the session served, or else as
      it was. */
  ghost function Deadline(st: State, row: Row, es: seq<Event>): int {
    if es == [] then row.expiresAt
    else
      var init, last := es[..|es| - 1], es[|es| - 1];
      if Renews(row, last) && Serves(Run(st, init), row, Deadline(st, row, init)) then last.at + last.lifespan
      else Deadline(st, row, init)
  }

  /** An active session after any run: gone if something revoked or deleted it, and else the same session, still active,
      with that deadline. */
  lemma {:induction false} RowAfter(st: State, id: Uuid, es: seq<Event>)
    requires Inv(st) && id in st.rows && st.rows[id].active
    ensures Inv(Run(st, es))
    ensures var row, end := st.rows[id], Run(st, es);
            if EndedBy(row, es) then Gone(end, row.token)
            else
              && id in end.rows && SameSession(row, end.rows[id])
              && end.rows[id].active && end.rows[id].expiresAt == Deadline(st, row, es)
    decreases |es|
  {
    if es != [] {
      RowAfter(st, id, es[..|es| - 1]);
      RunLast(st, es);
      EndedByLast(st.rows[id], es);
      RowStep(Run(st, es[..|es| - 1]), id, st.rows[id], es[|es| - 1]);
    }
  }

  lemma RowStep(st: State, id: Uuid, row: Row, e: Event)
    requires Inv(st)
    ensures Inv(Step(st, e))
    ensures Gone(st, row.token) ==> Gone(Step(st, e), row.token)
    ensures id in st.rows && SameSession(row, st.rows[id]) && Ends(row, e) ==> Gone(Step(st, e), row.token)
    ensures id in st.rows && SameSession(row, st.rows[id]) && st.rows[id].active && !Ends(row, e) ==>
              var next := Step(st, e);
              && id in next.rows && SameSession(row, next.rows[id]) && next.rows[id].active
              && next.rows[id].expiresAt
                 == if Renews(row, e) && Serves(st, row, st.rows[id].expiresAt) then e.at + e.lifespan
                    else st.rows[id].expiresAt
  {
    StepKeeps(st, e);
    if Gone(st, row.token) {
      GoneStays(st, row.token, [e]);
      assert Run(st, [e]) == Run(Step(st, e), []);
    }
    if id in st.rows && SameSession(row, st.rows[id]) {
      if Ends(row, e) {
        EndedIsGone(st, id, e);
      } else {
        OthersStay(st, id, e);
      }
    }
  }

  lemma AcceptsRow(st: State, id: Uuid)
    requires Inv(st) && id in st.rows
    ensures Accepts(st, st.rows[id].token) <==> Admits(st, st.rows[id])
  {
  }

  /** A session that is active is accepted after any run exactly if nothing in it revoked or deleted the session, its
      deadline, which logins may have moved, has not passed, and its identity is enabled. */
  lemma SessionLife(st: State, id: Uuid, es: seq<Event>)
    requires Inv(st) && id in st.rows && st.rows[id].active
    ensures AcceptsAfter(st, es, st.rows[id].token) <==>
              && !EndedBy(st.rows[id], es)
              && Serves(Run(st, es), st.rows[id], Deadline(st, st.rows[id], es))
  {
    var row, end := st.rows[id], Run(st, es);
    RowAfter(st, id, es);
    if EndedBy(row, es) {
      GoneStays(end, row.token, []);
    } else {
      AcceptsRow(end, id);
    }
  }

  /** A deadline that moved was set by a login of the run, with the lifespan of that login. */
  lemma {:induction false} DeadlineIsSet(st: State, row: Row, es: seq<Event>)
    ensures Deadline(st, row, es) == row.expiresAt ||
            exists i :: 0 <= i < |es| && Renews(row, es[i]) && Deadline(st, row, es) == es[i].at + es[i].lifespan
    ensures (forall i :: 0 <= i < |es| ==> !Renews(row, es[i])) ==> Deadline(st, row, es) == row.expiresAt
    decreases |es|
  {
    if es != [] {
      var init, last := es[..|es| - 1], es[|es| - 1];
      DeadlineIsSet(st, row, init);
      assert forall i :: 0 <= i < |init| ==> init[i] == es[i];
    }
  }

  /** So a session that was issued is accepted, whatever happens, exactly until something revokes or deletes it or the
      lifespan of the last login on it ends, and while its identity is enabled. Without such a login that is the lifespan
      it was issued with. */
  lemma IssuedLife(es: seq<Event>, e: Event, fs: seq<Event>)
    requires e.Issue? && e.seenEnabled && e.stored && Possible(Run(INITIAL, es), e)
    ensures var st := Run(INITIAL, es);
            var row := Fresh(e.id, e.token, e.identity, e.means, st.now, e.at, e.lifespan);
            && (AcceptsAfter(Step(st, e), fs, e.token) <==>
                  && !EndedBy(row, fs)
                  && Serves(Run(Step(st, e), fs), row, Deadline(Step(st, e), row, fs)))
            && ((forall i :: 0 <= i < |fs| ==> !Renews(row, fs[i])) ==> Deadline(Step(st, e), row, fs) == e.at + e.lifespan)
  {
    var st := Run(INITIAL, es);
    RunKeeps(INITIAL, es);
    StepKeeps(st, e);
    SessionLife(Step(st, e), e.id, fs);
    DeadlineIsSet(Step(st, e), Step(st, e).rows[e.id], fs);
  }

  lemma RunAdds(st: State, es: seq<Event>, e: Event)
    ensures Run(st, es + [e]) == Step(Run(st, es), e)
  {
    RunLast(st, es + [e]);
    assert (es + [e])[..|es|] == es;
  }

  const LOGIN := "password"

  /** An identity and its session, issued at time 0 with a lifespan of 2. */
  function Beginning(token: string): seq<Event> {
    [] + [NewAccount(1)] + [Issue(1, token, 1, true, LOGIN, 0, 2, true)]
  }

  lemma Begun(token: string)
    requires Drawable(token)
    ensures Run(INITIAL, Beginning(token))
         == State(map[1 := Fresh(1, token, 1, LOGIN, 0, 0, 2)], map[1 := Account(true, {})], 0, {1}, {token})
  {
    RunAdds(INITIAL, [], NewAccount(1));
    RunAdds(INITIAL, [] + [NewAccount(1)], Issue(1, token, 1, true, LOGIN, 0, 2, true));
    assert Run(INITIAL, []) == INITIAL;
  }

  /** A login on a session moves its end: the token outlives the lifespan it was issued with. */
  lemma LoginExtends(token: string, means: CredentialsType)
    requires Drawable(token)
    ensures var es := Beginning(token) + [Tick(1)];
            && Gone(Run(INITIAL, es + [Tick(1)]), token)
            && Accepts(Run(INITIAL, es + [Reactivate(1, true, means, 1, 2, true)] + [Tick(1)]), token)
  {
    var es, login := Beginning(token) + [Tick(1)], Reactivate(1, true, means, 1, 2, true);
    Begun(token);
    RunAdds(INITIAL, Beginning(token), Tick(1));
    RunAdds(INITIAL, es, Tick(1));
    RunAdds(INITIAL, es, login);
    RunAdds(INITIAL, es + [login], Tick(1));
    OneMoreLogin(Run(INITIAL, Beginning(token)), token, login);
  }

  lemma OneMoreLogin(st: State, token: string, login: Event)
    requires st.rows.Keys == {1} && st.rows[1].token == token && st.rows[1].active && st.rows[1].expiresAt == st.now + 2
    requires st.rows[1].id == 1 && token in st.used
    requires st.rows[1].identity in st.accounts && st.accounts[st.rows[1].identity].enabled
    requires Renews(st.rows[1], login) && login.at == st.now + 1 && login.lifespan == 2
    ensures Gone(Step(Step(st, Tick(1)), Tick(1)), token)
    ensures Accepts(Step(Step(Step(st, Tick(1)), login), Tick(1)), token)
  {
    var mid := Step(st, Tick(1));
    RowsAt(mid, login, 1);
    var end := Step(Step(mid, login), Tick(1));
    assert end.rows[1].token == token && Admits(end, end.rows[1]);
  }

  /** A rejected token may be accepted again: a disabled identity is all that stands against it here. */
  lemma DisabledReturns(token: string)
    requires Drawable(token)
    ensures var es := Beginning(token) + [SetEnabled(1, false)];
            && !Accepts(Run(INITIAL, es), token)
            && Accepts(Run(INITIAL, es + [SetEnabled(1, true)]), token)
  {
    var es := Beginning(token) + [SetEnabled(1, false)];
    Begun(token);
    RunAdds(INITIAL, Beginning(token), SetEnabled(1, false));
    RunAdds(INITIAL, es, SetEnabled(1, true));
    var end := Run(INITIAL, es + [SetEnabled(1, true)]);
    assert end.rows[1].token == token && Admits(end, end.rows[1]);
  }
}
