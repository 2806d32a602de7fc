/** The session manager: sessions as objects, the tokens a request carries, and fetching and purging by request. */
module SessionManager {
  import opened Basics
  import opened Wrappers
  import opened Assurance
  import opened SessionProtocol
  import Text

  // Requests

  /** The session cookie of a request as the cookie store sees it. */
  datatype Jar = NoCookie | Undecodable | Values(token: Option<string>)

  /** `sessionCookie` is the decoded content of the `X-Session-Cookie` header, if there is one. */
  datatype Request = Request(sessionToken: string, sessionCookie: Option<Jar>, cookie: Jar, authorization: string)

  function LowerChar(c: char): char {
    if 'A' <= c <= 'Z' then (c as int - 'A' as int + 'a' as int) as char else c
  }

  function Lower(s: string): string {
    seq(|s|, i requires 0 <= i < |s| => LowerChar(s[i]))
  }

  /** The token of an `Authorization` header with the bearer scheme. */
  function BearerToken(authorization: string): Option<string> {
    var parts := Text.Split(authorization, ' ');
    if |parts| == 2 && Lower(parts[0]) == "bearer" then Some(parts[1]) else None
  }

  function CookieToken(jar: Jar): Option<string> {
    if jar.Values? then jar.token else None
  }

  function OrEmpty(t: Option<string>): string {
    if t.Some? then t.value else ""
  }

  /** `extractToken`. The `X-Session-Cookie` header replaces all other headers, `Authorization` among them. */
  function ExtractToken(req: Request): string {
    if req.sessionToken != "" then req.sessionToken
    else
      var jar := if req.sessionCookie.Some? then req.sessionCookie.value else req.cookie;
      var authorization := if req.sessionCookie.Some? then "" else req.authorization;
      if CookieToken(jar).Some? then CookieToken(jar).value else OrEmpty(BearerToken(authorization))
  }

  /** The token `PurgeFromRequest` revokes: it looks at the bearer token first and at two of the four headers only. */
  function PurgedToken(req: Request): Option<string> {
    var bearer := BearerToken(req.authorization);
    if bearer.Some? then bearer else CookieToken(req.cookie)
  }

  // Sessions

  datatype Identity = Identity(id: Uuid, enabled: bool)

  datatype Error = IdentityDisabled | NoActiveSession | NotFound | CookieNotSaved | StoreFailed | AlreadyLoggedIn

  /** A session in memory. */
  class Session {
    var id: Uuid
    var token: string
    var active: bool
    var issuedAt: int
    var expiresAt: int
    var amr: seq<Method>
    var level: Level
    var identityId: Uuid
    var identity: Option<Identity>

    /** `NewInactiveSession`. */
    constructor Inactive(id: Uuid, token: string)
      ensures ToRow() == Row(id, token, 0, false, 0, 0, [], 0) && identity == None
    {
      this.id, this.token, this.active, this.level := id, token, false, 0;
      issuedAt, expiresAt, amr, identityId, identity := 0, 0, [], 0, None;
    }

    /** A session read from the store, with its identity. */
    constructor Loaded(row: Row, i: Identity)
      ensures ToRow() == row && identity == Some(i)
    {
      id, token, active, issuedAt, expiresAt := row.id, row.token, row.active, row.issuedAt, row.expiresAt;
      amr, level, identityId, identity := row.amr, row.level, row.identity, Some(i);
    }

    function ToRow(): Row
      reads this
    {
      Row(id, token, identityId, active, issuedAt, expiresAt, amr, level)
    }

    method CompletedLoginFor(means: CredentialsType, now: int)
      modifies this`amr
      ensures amr == old(amr) + [Method(means, now)]
    {
      amr := amr + [Method(means, now)];
    }

    method SetAuthenticatorAssuranceLevel()
      modifies this`level
      ensures level == LevelOf(Names(amr))
    {
      var cts := [];
      for k := 0 to |amr|
        invariant |cts| == k && forall j :: 0 <= j < k ==> cts[j] == amr[j].name
      {
        cts := cts + [amr[k].name];
      }
      NamesOf(amr, cts);
      level := DetermineAAL(cts);
    }

    method Activate(i: Identity, lifespan: int, authenticatedAt: int) returns (ok: bool)
      modifies this
      ensures ok == i.enabled
      ensures !ok ==> ToRow() == old(ToRow()) && identity == old(identity)
      ensures ok ==> identity == Some(i) && ToRow() == old(ToRow()).(active := true, issuedAt := authenticatedAt,
                       expiresAt := authenticatedAt + lifespan, identity := i.id, level := LevelOf(Names(old(amr))))
    {
      if !i.enabled {
        return false;
      }
      active := true;
      expiresAt := authenticatedAt + lifespan;
      issuedAt := authenticatedAt;
      identity := Some(i);
      identityId := i.id;
      SetAuthenticatorAssuranceLevel();
      return true;
    }

    /** The loop of `SessionAddAuthenticationMethod`, and the level after it. */
    method CompletedLogins(methods: seq<CredentialsType>, now: int)
      modifies this
      ensures ToRow() == Extended(old(ToRow()), methods, now)
    {
      ghost var was := ToRow();
      for k := 0 to |methods|
        invariant ToRow() == was.(amr := was.amr + Stamped(methods[..k], now))
      {
        CompletedLoginFor(methods[k], now);
        assert Stamped(methods[..k + 1], now) == Stamped(methods[..k], now) + [Method(methods[k], now)];
      }
      assert methods[..|methods|] == methods;
      NamesExtend(was.amr, methods, now);
      SetAuthenticatorAssuranceLevel();
    }

    /** One more method, and activation for the identity the session belongs to. */
    method LoginAgain(means: CredentialsType, enabled: bool, now: int, lifespan: int, at: int) returns (ok: bool)
      modifies this
      ensures ok == enabled
      ensures ok ==> ToRow() == Reactivated(old(ToRow()), means, now, at, lifespan)
      ensures id == old(id) && token == old(token)
    {
      ghost var was := ToRow();
      CompletedLoginFor(means, now);
      assert amr == was.amr + Stamped([means], now);
      NamesExtend(was.amr, [means], now);
      ok := Activate(Identity(identityId, enabled), lifespan, at);
    }

    predicate IsActive(now: int)
      reads this
    {
      active && expiresAt > now && (identity.None? || identity.value.enabled)
    }
  }

  lemma NamesOf(amr: seq<Method>, cts: seq<CredentialsType>)
    requires |cts| == |amr| && forall j :: 0 <= j < |amr| ==> cts[j] == amr[j].name
    ensures ToSet(cts) == Names(amr)
  {
    forall c | c in ToSet(cts) ensures c in Names(amr) {
      var j :| 0 <= j < |cts| && cts[j] == c;
      assert amr[j] in amr;
    }
    forall c | c in Names(amr) ensures c in ToSet(cts) {
      var m :| m in amr && m.name == c;
      var j :| 0 <= j < |amr| && amr[j] == m;
      assert cts[j] == c;
    }
  }

  method NewActiveSession(i: Identity, id: Uuid, token: string, means: CredentialsType, now: int, at: int, lifespan: int)
    returns (s: Session?)
    ensures s == null <==> !i.enabled
    ensures s != null ==> fresh(s) && s.ToRow() == Fresh(id, token, i.id, means, now, at, lifespan)
  {
    var session := new Session.Inactive(id, token);
    session.CompletedLoginFor(means, now);
    assert Names(session.amr) == {means};
    var ok := session.Activate(i, lifespan, at);
    return if ok then session else null;
  }

  // The manager

  lemma AddMethodsIs(st: State, id: Uuid, methods: seq<CredentialsType>, stored: bool)
    requires Inv(st)
    ensures After(st, AddMethods(id, methods, stored))
         == if id in st.rows && stored then st.(rows := st.rows[id := Extended(st.rows[id], methods, st.now)]) else st
    ensures id in st.rows ==> Extended(st.rows[id], methods, st.now).id == id
  {
    assert id in st.rows ==> RowOk(st, id);
  }

  lemma ReactivateIs(
    st: State, id: Uuid, seenEnabled: bool, means: CredentialsType, at: int, lifespan: int, stored: bool)
    requires id in st.rows && Admits(st, st.rows[id])
    ensures Step(st, Reactivate(id, seenEnabled, means, at, lifespan, stored))
         == if seenEnabled && stored then st.(rows := st.rows[id := Reactivated(st.rows[id], means, st.now, at, lifespan)])
            else st
  {
  }

  class ManagerHTTP {
    var rows: map<Uuid, Row>
    var accounts: map<Uuid, Account>
    ghost var ids: set<Uuid>
    ghost var used: set<string>

    constructor ()
      ensures Current(0) == INITIAL
    {
      rows, accounts, ids, used := map[], map[], {}, {};
    }

    ghost function Current(now: int): State
      reads this
    {
      State(rows, accounts, now, ids, used)
    }

    method UpsertSession(s: Session, stored: bool) returns (ok: bool)
      modifies this`rows
      ensures ok == stored
      ensures rows == if stored then old(rows)[s.id := s.ToRow()] else old(rows)
    {
      if stored {
        rows := rows[s.id := s.ToRow()];
      }
      return stored;
    }

    /** `UpsertAndIssueCookie`: the session is stored before the cookie with its token is handed out. */
    method UpsertAndIssueCookie(s: Session, stored: bool, saved: bool) returns (r: Result<Jar, Error>)
      modifies this`rows
      ensures rows == if stored then old(rows)[s.id := s.ToRow()] else old(rows)
      ensures r == if !stored then Err(StoreFailed) else if !saved then Err(CookieNotSaved) else Ok(Values(Some(s.token)))
    {
      var ok := UpsertSession(s, stored);
      if !ok {
        return Err(StoreFailed);
      }
      if !saved {
        return Err(CookieNotSaved);
      }
      return Ok(Values(Some(s.token)));
    }

    /** A login without a session: `NewActiveSession` followed by `UpsertAndIssueCookie`. */
    method Issue(e: Event, saved: bool, now: int) returns (r: Result<Jar, Error>)
      requires e.Issue? && Possible(Current(now), e)
      modifies this
      ensures Current(now) == After(old(Current(now)), e)
      ensures r == if !e.seenEnabled then Err(IdentityDisabled)
                   else if !e.stored then Err(StoreFailed)
                   else if !saved then Err(CookieNotSaved)
                   else Ok(Values(Some(e.token)))
    {
      ids, used := ids + {e.id}, used + {e.token};
      var s := NewActiveSession(
        Identity(e.identity, e.seenEnabled), e.id, e.token, e.means, now, e.at, e.lifespan);
      if s == null {
        return Err(IdentityDisabled);
      }
      r := UpsertAndIssueCookie(s, e.stored, saved);
    }

    /** A login on top of a session, of the identity it belongs to. It goes on only if the flow is to refresh the session
        or to raise its level: then the session the request carries is completed by one more method, activated anew and
        stored under its old token. */
    method Reauthenticate(
      req: Request, refresh: bool, requested: Level, seenEnabled: bool, means: CredentialsType, at: int, lifespan: int,
      read: bool, stored: bool, saved: bool, now: int)
      returns (r: Result<Jar, Error>)
      requires Inv(Current(now))
      modifies this
      ensures !read || !Accepts(old(Current(now)), ExtractToken(req)) ==> rows == old(rows) && r.Err?
      ensures read && Accepts(old(Current(now)), ExtractToken(req)) ==>
                exists id :: id in WithToken(old(rows), ExtractToken(req)) &&
                  if refresh || requested > old(rows)[id].level
                  then
                    && Current(now) == Step(old(Current(now)), Reactivate(id, seenEnabled, means, at, lifespan, stored))
                    && r == if !seenEnabled then Err(IdentityDisabled)
                            else if !stored then Err(StoreFailed)
                            else if !saved then Err(CookieNotSaved)
                            else Ok(Values(Some(ExtractToken(req))))
                  else rows == old(rows) && r == Err(AlreadyLoggedIn)
      ensures accounts == old(accounts) && ids == old(ids) && used == old(used)
    {
      var fetched := FetchFromRequest(req, read, now);
      if fetched.Err? {
        return Err(fetched.error);
      }
      ghost var row := fetched.value;
      assert row.id in WithToken(rows, ExtractToken(req));
      if !refresh && requested <= fetched.value.level {
        return Err(AlreadyLoggedIn);
      }
      ReactivateIs(Current(now), row.id, seenEnabled, means, at, lifespan, stored);
      var s := new Session.Loaded(fetched.value, Identity(fetched.value.identity, true));
      var ok := s.LoginAgain(means, seenEnabled, now, lifespan, at);
      if !ok {
        return Err(IdentityDisabled);
      }
      r := UpsertAndIssueCookie(s, stored, saved);
    }

    method GetSession(id: Uuid) returns (s: Session?)
      ensures s == null <==> id !in rows || rows[id].identity !in accounts
      ensures s != null ==> fresh(s) && s.ToRow() == rows[id]
      ensures s != null ==> s.identity == Some(Identity(s.identityId, accounts[rows[id].identity].enabled))
    {
      if id !in rows || rows[id].identity !in accounts {
        return null;
      }
      var owner := rows[id].identity;
      s := new Session.Loaded(rows[id], Identity(owner, accounts[owner].enabled));
    }

    method SessionAddAuthenticationMethod(
      id: Uuid, methods: seq<CredentialsType>, read: bool, stored: bool, now: int) returns (r: Option<Error>)
      requires Inv(Current(now))
      modifies this
      ensures Current(now) == After(old(Current(now)), AddMethods(id, methods, read && stored))
      ensures r == if !read then Some(StoreFailed)
                   else if id !in old(rows) then Some(NotFound)
                   else if !stored then Some(StoreFailed)
                   else None
    {
      AddMethodsIs(Current(now), id, methods, read && stored);
      if !read {
        return Some(StoreFailed);
      }
      assert id in rows ==> RowOk(Current(now), id);
      var s := GetSession(id);
      if s == null {
        return Some(NotFound);
      }
      s.CompletedLogins(methods, now);
      var ok := UpsertSession(s, stored);
      return if ok then None else Some(StoreFailed);
    }

    /** Fetching succeeds exactly when the store can be read and the token the request carries is accepted, and yields a
        session with it. */
    method FetchFromRequest(req: Request, read: bool, now: int) returns (r: Result<Row, Error>)
      requires Inv(Current(now))
      ensures r.Ok? <==> read && Accepts(Current(now), ExtractToken(req))
      ensures r.Ok? ==>
                && r.value.token == ExtractToken(req) && r.value.id in rows && rows[r.value.id] == r.value
                && Admits(Current(now), r.value)
      ensures r.Err? ==> r.error == if !read && ExtractToken(req) != "" then StoreFailed else NoActiveSession
    {
      assert forall id :: id in rows ==> RowOk(Current(now), id) && Drawable(rows[id].token);
      var token := ExtractToken(req);
      if token == "" {
        return Err(NoActiveSession);
      }
      if !read {
        return Err(StoreFailed);
      }
      var hits := WithToken(rows, token);
      if hits == {} {
        assert forall id :: id in rows && rows[id].token == token ==> id in hits;
        return Err(NoActiveSession);
      }
      var id :| id in hits;
      var s := GetSession(id);
      assert forall i :: i in rows && rows[i].token == token ==> i == id;
      if !s.IsActive(now) {
        return Err(NoActiveSession);
      }
      return Ok(s.ToRow());
    }

    /** `reached` says whether the store could be written to. */
    method RevokeSessionByToken(token: string, reached: bool) returns (r: Option<Error>)
      modifies this`rows
      ensures rows == if reached then Revoked(old(rows), WithToken(old(rows), token)) else old(rows)
      ensures r == if !reached then Some(StoreFailed) else if WithToken(old(rows), token) == {} then Some(NotFound) else None
    {
      if !reached {
        return Some(StoreFailed);
      }
      var hits := WithToken(rows, token);
      rows := Revoked(rows, hits);
      return if hits == {} then Some(NotFound) else None;
    }

    method PurgeFromRequest(req: Request, reached: bool, saved: bool, now: int) returns (r: Option<Error>)
      modifies this`rows
      ensures Current(now) == AfterPurge(old(Current(now)), req, reached)
      ensures r == PurgeOutcome(old(rows), req, reached, saved)
    {
      var bearer := BearerToken(req.authorization);
      if bearer.Some? {
        r := RevokeSessionByToken(bearer.value, reached);
        return;
      }
      var token := CookieToken(req.cookie);
      if token.None? {
        return None;
      }
      r := RevokeSessionByToken(token.value, reached);
      if r.Some? {
        return;
      }
      return if saved then None else Some(CookieNotSaved);
    }

    method DoesSessionSatisfy(s: Session, requested: string) returns (r: Answer)
      modifies s`level
      ensures s.ToRow() == old(s.ToRow()).(level := LevelOf(Names(old(s.amr))))
      ensures r == Satisfaction(old(s.ToRow()), accounts, requested)
    {
      s.SetAuthenticatorAssuranceLevel();
      match requested {
        case "aal1" =>
          if s.level >= 1 {
            return Satisfied;
          }
        case "highest_available" =>
          if s.identityId !in accounts {
            return NoIdentity;
          }
          var credentials := accounts[s.identityId].credentials;
          var hasCredentials := [];
          var rest := credentials;
          while rest != {}
            invariant rest !! ToSet(hasCredentials) && rest + ToSet(hasCredentials) == credentials
          {
            var ct :| ct in rest;
            assert ToSet(hasCredentials + [ct]) == ToSet(hasCredentials) + {ct};
            hasCredentials := hasCredentials + [ct];
            rest := rest - {ct};
          }
          var available := DetermineAAL(hasCredentials);
          return if s.level >= available then Satisfied else NotSatisfied;
        case _ =>
      }
      return UnknownLevel;
    }
  }

  // Purging and fetching by the same request

  function PurgeOutcome(rows: map<Uuid, Row>, req: Request, reached: bool, saved: bool): Option<Error> {
    match PurgedToken(req)
    case None => None
    case Some(token) =>
      if !reached then Some(StoreFailed)
      else if WithToken(rows, token) == {} then Some(NotFound)
      else if BearerToken(req.authorization).None? && !saved then Some(CookieNotSaved)
      else None
  }

  ghost function AfterPurge(st: State, req: Request, reached: bool): State {
    match PurgedToken(req)
    case None => st
    case Some(token) => if reached then After(st, RevokeToken(token)) else st
  }

  lemma RevokedIsGone(st: State, token: string, t: string)
    requires Inv(st) && WithToken(st.rows, token) != {}
    ensures var now := After(st, RevokeToken(token)); Inv(now) && (Gone(now, t) <==> t == token || Gone(st, t))
  {
    var now := After(st, RevokeToken(token));
    var hits := WithToken(st.rows, token);
    assert Possible(st, RevokeToken(token));
    StepKeeps(st, RevokeToken(token));
    var id :| id in hits;
    assert RowOk(st, id);
    assert now.used == st.used;
    if t == token {
      assert forall i :: i in now.rows && now.rows[i].token == t ==> i in hits;
    } else {
      forall i | i in st.rows && st.rows[i].token == t ensures now.rows[i] == st.rows[i] {
        assert i !in hits;
      }
    }
  }

  /** After a successful purge in any reachable state, the very same request is refused for ever exactly when it
      carries to the fetch the token that was purged, or one that was gone before. */
  lemma PurgedForever(es: seq<Event>, req: Request, reached: bool, saved: bool)
    requires PurgeOutcome(Run(INITIAL, es).rows, req, reached, saved) == None
    ensures var st := Run(INITIAL, es);
            (forall fs :: !AcceptsAfter(AfterPurge(st, req, reached), fs, ExtractToken(req))) <==>
              PurgedToken(req) == Some(ExtractToken(req)) || Gone(st, ExtractToken(req))
  {
    var st := Run(INITIAL, es);
    RunKeeps(INITIAL, es);
    var token := PurgedToken(req);
    if token.Some? {
      RevokedIsGone(st, token.value, ExtractToken(req));
    }
    ForeverIsGone(AfterPurge(st, req, reached), ExtractToken(req));
  }

  /** A request with only a bearer token or only the session cookie is one the purge refuses for ever. */
  lemma LogoutIsFinal(es: seq<Event>, req: Request, reached: bool, saved: bool, fs: seq<Event>)
    requires PurgeOutcome(Run(INITIAL, es).rows, req, reached, saved) == None
    requires req.sessionToken == "" && req.sessionCookie == None
    requires BearerToken(req.authorization).Some? != CookieToken(req.cookie).Some?
    ensures !AcceptsAfter(AfterPurge(Run(INITIAL, es), req, reached), fs, ExtractToken(req))
  {
    PurgedForever(es, req, reached, saved);
  }

  lemma BearerOf(token: string)
    requires ' ' !in token
    ensures BearerToken("Bearer " + token) == Some(token)
  {
    Text.SplitHead("Bearer", token, ' ');
    Text.SplitNothing(token, ' ');
    assert "Bearer" + [' '] + token == "Bearer " + token;
    assert Lower("Bearer") == "bearer";
  }

  /** Not every successful purge ends the request's session: with a bearer token beside the session cookie, the purge
      revokes the one and the fetch goes on reading the other. */
  lemma PurgeMissesCookie(cookie: string, bearer: string) returns (es: seq<Event>, req: Request)
    requires Drawable(cookie) && Drawable(bearer) && cookie != bearer
    ensures PurgeOutcome(Run(INITIAL, es).rows, req, true, true) == None
    ensures Accepts(AfterPurge(Run(INITIAL, es), req, true), ExtractToken(req))
  {
    var second := Issue(2, bearer, 1, true, LOGIN, 0, 2, true);
    es := Beginning(cookie) + [second];
    req := Request("", None, Values(Some(cookie)), "Bearer " + bearer);
    BearerOf(bearer);
    Begun(cookie);
    RunAdds(INITIAL, Beginning(cookie), second);
    OtherRevoked(Run(INITIAL, es), cookie, bearer);
  }

  lemma OtherRevoked(st: State, token: string, other: string)
    requires {1, 2} <= st.rows.Keys && st.rows[1].token == token && st.rows[2].token == other && token != other
    requires Admits(st, st.rows[1])
    ensures WithToken(st.rows, other) != {} && Accepts(After(st, RevokeToken(other)), token)
  {
    var hits := WithToken(st.rows, other);
    assert 2 in hits && 1 !in hits;
    var now := After(st, RevokeToken(other));
    assert now.rows[1].token == token && Admits(now, now.rows[1]);
  }

  // What a request carries

  /** `Authorization` carries a token exactly if it is a scheme that reads "bearer" in any case, one blank, and the token,
      with no other blank. */
  lemma BearerExactly(authorization: string, token: string)
    ensures BearerToken(authorization) == Some(token) <==>
              exists scheme :: BearerHeader(authorization, scheme, token)
  {
    if scheme :| BearerHeader(authorization, scheme, token) {
      Text.SplitHead(scheme, token, ' ');
      Text.SplitNothing(token, ' ');
      assert authorization == scheme + [' '] + token;
    }
    if BearerToken(authorization) == Some(token) {
      var parts := Text.Split(authorization, ' ');
      SplitsJoin(authorization);
      assert parts == [parts[0], parts[1]] && parts[1..] == [parts[1]];
      assert Text.Join(parts, ' ') == parts[0] + [' '] + Text.Join([parts[1]], ' ');
      assert BearerHeader(authorization, parts[0], token);
    }
  }

  predicate BearerHeader(authorization: string, scheme: string, token: string) {
    && authorization == scheme + " " + token && ' ' !in scheme && ' ' !in token
    && |scheme| == 6 && forall i :: 0 <= i < 6 ==> scheme[i] == "bearer"[i] || scheme[i] == "BEARER"[i]
  }

  /** Joining undoes splitting, and no part holds a blank. */
  lemma {:induction false} SplitsJoin(s: string)
    ensures var parts := Text.Split(s, ' '); Text.Join(parts, ' ') == s && Text.Free(' ', parts)
  {
    if s != "" {
      SplitsJoin(s[1..]);
      var rest := Text.Split(s[1..], ' ');
      assert s == [s[0]] + s[1..];
      if s[0] == ' ' {
        assert ([""] + rest)[1..] == rest;
      } else {
        var parts := [[s[0]] + rest[0]] + rest[1..];
        assert parts[1..] == rest[1..];
      }
    }
  }

  /** `X-Session-Token` goes before everything else. `X-Session-Cookie` goes before the cookie and `Authorization`, which
      are not looked at then. Without both, the cookie goes before `Authorization`. */
  lemma ExtractsExactly(req: Request)
    ensures ExtractToken(req) ==
            if req.sessionToken != "" then req.sessionToken
            else if req.sessionCookie.Some? then
              match req.sessionCookie.value
              case Values(Some(token)) => token
              case _ => ""
            else
              match req.cookie
              case Values(Some(token)) => token
              case _ => match BearerToken(req.authorization) case Some(token) => token case None => ""
  {
    assert Text.Split("", ' ') == [""];
  }

  /** So what else a request with one of these headers carries does not matter. */
  lemma HeadersPrevail(req: Request, other: Request)
    ensures req.sessionToken != "" && other.sessionToken == req.sessionToken ==> ExtractToken(other) == ExtractToken(req)
    ensures req.sessionCookie.Some? && other.sessionCookie == req.sessionCookie && other.sessionToken == req.sessionToken
            ==> ExtractToken(other) == ExtractToken(req)
  {
    ExtractsExactly(req);
    ExtractsExactly(other);
  }

  /** A purge reads `Authorization` before the cookie, and neither of the two other headers. Its errors are those of the
      store, and of the cookie if the token came from there. */
  lemma PurgesExactly(rows: map<Uuid, Row>, req: Request, reached: bool, saved: bool)
    ensures PurgedToken(req) ==
            match BearerToken(req.authorization)
            case Some(token) => Some(token)
            case None => (match req.cookie case Values(token) => token case _ => None)
    ensures PurgeOutcome(rows, req, reached, saved) ==
            if PurgedToken(req).None? then None
            else if !reached then Some(StoreFailed)
            else if forall id :: id in rows ==> rows[id].token != PurgedToken(req).value then Some(NotFound)
            else if BearerToken(req.authorization).Some? || saved then None
            else Some(CookieNotSaved)
  {
    if PurgedToken(req).Some? {
      var hits := WithToken(rows, PurgedToken(req).value);
      if id :| id in rows && rows[id].token == PurgedToken(req).value {
        assert id in hits;
      }
    }
  }
}
