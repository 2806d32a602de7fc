/** Paused flows: containers kept by the server, found again through a signed cookie kept by the browser. */
module Continuity {
  import opened Basics
  import opened Wrappers

  type Cookie = map<string, Uuid>

  /** The nil identifier, which is also what an unparsable one becomes. */
  const NIL: Uuid := 0
  const SECOND: int := 1_000_000_000

  /** The continuity cookies of a request, in order; `None` is one whose signature or content does not decode. */
  type Request = seq<Option<Cookie>>

  datatype Container = Container(id: Uuid, name: string, identity: Uuid, expiresAt: int, payload: Option<string>)

  datatype Options = Options(identity: Uuid, ttl: int, payload: Option<string>, target: bool)

  datatype Error = NameMissing | BadOptions | NotResumable | Expired | OtherPerson | BadPayload | CookieNotSaved | StoreFailed

  /** What the outside does with a call: which of its writes, reads and decodings succeed. */
  datatype Luck = Luck(cookieSaved: bool, stored: bool, fetched: bool, decodes: bool, deleted: bool)

  // Containers

  /** Rounding down to a multiple of a second since the zero time. */
  function TruncateToSecond(t: int): int {
    t / SECOND * SECOND
  }

  function NewContainer(id: Uuid, name: string, o: Options, now: int): Container {
    Container(id, name, o.identity, TruncateToSecond(now + o.ttl), o.payload)
  }

  function Valid(c: Container, identity: Uuid, now: int): Option<Error> {
    if c.expiresAt < now then Some(Expired)
    else if identity != NIL && c.identity != identity then Some(OtherPerson)
    else None
  }

  // Cookies

  /** What a cookie store makes of a request: the values, whether they are new, and whether decoding failed. */
  datatype Loaded = Loaded(values: Cookie, isNew: bool, broken: bool)

  function Get(req: Request): Loaded {
    if req == [] then Loaded(map[], true, false)
    else if req[0].None? then Loaded(map[], true, true)
    else Loaded(req[0].value, false, false)
  }

  predicate Has(c: Option<Cookie>, key: string) {
    c.Some? && key in c.value
  }

  /** The value of the first cookie of a request that has the key. */
  function FirstWith(req: Request, key: string): Option<Uuid> {
    if req == [] then None
    else if Has(req[0], key) then Some(req[0].value[key])
    else FirstWith(req[1..], key)
  }

  /** The identifier a request carries under a name, if it is one. */
  function Sought(req: Request, name: string): Option<Uuid> {
    var id :- FirstWith(req, name);
    if id == NIL then None else Some(id)
  }

  /** The cookie a browser gets back when a key is removed from the one it sent. */
  function Stripped(req: Request, name: string, saved: bool): set<Cookie> {
    if req == [] || !saved then {} else {Get(req).values - {name}}
  }

  method SessionGetString(req: Request, key: string) returns (r: Option<Uuid>)
    ensures r == FirstWith(req, key)
  {
    for i := 0 to |req|
      invariant FirstWith(req[i..], key) == FirstWith(req, key)
    {
      if Has(req[i], key) {
        return Some(req[i].value[key]);
      }
    }
    return None;
  }

  // The protocol's state and history

  /** What a Pause was asked for, and when. */
  datatype Ticket = Ticket(name: string, options: Options, at: int)

  datatype Resumption = Resumption(id: Uuid, name: string, identity: Uuid, at: int)

  /** `drawn`: every identifier a Pause has drawn. `saved`: those whose container reached the store. `dropped`: those
      an Abort removed from it. `resumed`: the successful Continues, in order. */
  datatype History = History(drawn: map<Uuid, Ticket>, saved: set<Uuid>, dropped: set<Uuid>, resumed: seq<Resumption>)

  /** `issued`: every cookie ever handed to a browser. Each may come back any number of times. */
  datatype State = State(store: map<Uuid, Container>, issued: set<Cookie>, history: History)

  const INITIAL: State := State(map[], {}, History(map[], {}, {}, []))

  datatype Event =
    | Pause(req: Request, name: string, options: Option<Options>, id: Uuid, now: int, luck: Luck)
    | Continue(req: Request, name: string, options: Option<Options>, now: int, luck: Luck)
    | Abort(req: Request, name: string, luck: Luck)

  // Pause

  function PauseOutcome(e: Event): Option<Error>
    requires e.Pause?
  {
    if e.name == "" then Some(NameMissing)
    else if e.options.None? then Some(BadOptions)
    else if !e.luck.cookieSaved then Some(CookieNotSaved)
    else if !e.luck.stored then Some(StoreFailed)
    else None
  }

  /** The cookie with the new identifier leaves for the browser before the container is stored. */
  function AfterPause(st: State, e: Event): State
    requires e.Pause?
  {
    match PauseOutcome(e)
    case Some(NameMissing) => st
    case Some(BadOptions) => st
    case outcome =>
      if e.options.None? then st
      else
        var h := st.history;
        var drawn := h.drawn[e.id := Ticket(e.name, e.options.value, e.now)];
        var issued := st.issued + if e.luck.cookieSaved then {Get(e.req).values[e.name := e.id]} else {};
        if outcome.Some? then State(st.store, issued, h.(drawn := drawn))
        else State(
               st.store[e.id := NewContainer(e.id, e.name, e.options.value, e.now)], issued,
               h.(drawn := drawn, saved := h.saved + {e.id}))
  }

  // Continue

  function ContinueOutcome(store: map<Uuid, Container>, e: Event): Result<Container, Error>
    requires e.Continue?
  {
    match Sought(e.req, e.name)
    case None => Err(NotResumable)
    case Some(id) =>
      if !e.luck.fetched then Err(StoreFailed)
      else if id !in store then Err(NotResumable)
      else if e.options.None? then Err(BadOptions)
      else
        var c := store[id];
        var invalid := Valid(c, e.options.value.identity, e.now);
        if invalid.Some? then Err(invalid.value)
        else if e.options.value.target && c.payload.Some? && !e.luck.decodes then Err(BadPayload)
        else if !e.luck.cookieSaved then Err(CookieNotSaved)
        else if !e.luck.deleted then Err(StoreFailed)
        else Ok(c)
  }

  /** The outcomes that leave the browser's cookie as it is. */
  predicate KeepsCookie(outcome: Result<Container, Error>) {
    outcome.Err? && outcome.error in {BadOptions, Expired, OtherPerson, BadPayload}
  }

  function AfterContinue(st: State, e: Event): State
    requires e.Continue?
  {
    var outcome := ContinueOutcome(st.store, e);
    var issued := st.issued + if KeepsCookie(outcome) then {} else Stripped(e.req, e.name, e.luck.cookieSaved);
    if outcome.Err? || e.options.None? then st.(issued := issued)
    else
      var id := Sought(e.req, e.name).value;
      State(st.store - {id}, issued, Resumed(st.history, Resumption(id, e.name, e.options.value.identity, e.now)))
  }

  function Resumed(h: History, r: Resumption): History {
    h.(resumed := h.resumed + [r])
  }

  // Abort

  function AbortOutcome(e: Event): Option<Error>
    requires e.Abort?
  {
    if Sought(e.req, e.name).None? then None
    else if !e.luck.cookieSaved then Some(CookieNotSaved)
    else if !e.luck.deleted then Some(StoreFailed)
    else None
  }

  function AfterAbort(st: State, e: Event): State
    requires e.Abort?
  {
    var issued := st.issued + Stripped(e.req, e.name, e.luck.cookieSaved);
    match Sought(e.req, e.name)
    case None => st.(issued := issued)
    case Some(id) =>
      if AbortOutcome(e).Some? then st.(issued := issued)
      else State(st.store - {id}, issued, Dropped(st.history, {id} * st.store.Keys))
  }

  function Dropped(h: History, ids: set<Uuid>): History {
    h.(dropped := h.dropped + ids)
  }

  // The code

  class ManagerCookie {
    var store: map<Uuid, Container>
    var issued: set<Cookie>
    ghost var history: History

    constructor ()
      ensures Keyed() && Current() == INITIAL
    {
      store, issued, history := map[], {}, INITIAL.history;
    }

    ghost predicate Keyed()
      reads this
    {
      forall id :: id in store ==> store[id].id == id
    }

    ghost function Current(): State
      reads this
    {
      State(store, issued, history)
    }

    method SessionPersistValue(req: Request, key: string, value: Uuid, saved: bool) returns (ok: bool)
      modifies this`issued
      ensures ok == saved
      ensures issued == old(issued) + if ok then {Get(req).values[key := value]} else {}
    {
      var cookie := Get(req);
      var values := cookie.values[key := value];
      if saved {
        issued := issued + {values};
      }
      return saved;
    }

    method SessionUnsetKey(req: Request, key: string, saved: bool) returns (ok: bool)
      modifies this`issued
      ensures ok == (req == [] || saved)
      ensures issued == old(issued) + Stripped(req, key, saved)
    {
      var cookie := Get(req);
      if !cookie.broken && cookie.isNew {
        return true;
      }
      var values := cookie.values - {key};
      if saved {
        issued := issued + {values};
      }
      return saved;
    }

    method Sid(req: Request, name: string, saved: bool) returns (r: Option<Uuid>)
      modifies this`issued
      ensures r == Sought(req, name)
      ensures issued == old(issued) + if r.None? then Stripped(req, name, saved) else {}
    {
      var s := SessionGetString(req, name);
      if s.None? || s.value == NIL {
        var _ := SessionUnsetKey(req, name, saved);
        return None;
      }
      return s;
    }

    method Pause(e: Event) returns (r: Option<Error>)
      requires Keyed() && e.Pause?
      modifies this
      ensures Keyed()
      ensures r == PauseOutcome(e)
      ensures Current() == AfterPause(old(Current()), e)
    {
      if |e.name| == 0 {
        return Some(NameMissing);
      }
      if e.options.None? {
        return Some(BadOptions);
      }
      var c := NewContainer(e.id, e.name, e.options.value, e.now);
      history := history.(drawn := history.drawn[c.id := Ticket(e.name, e.options.value, e.now)]);
      var ok := SessionPersistValue(e.req, e.name, c.id, e.luck.cookieSaved);
      if !ok {
        return Some(CookieNotSaved);
      }
      if !e.luck.stored {
        return Some(StoreFailed);
      }
      store := store[c.id := c];
      history := history.(saved := history.saved + {c.id});
      return None;
    }

    method Fetch(e: Event) returns (r: Result<Container, Error>)
      requires e.Continue?
      modifies this`issued
      ensures var sought := Sought(e.req, e.name);
              r == if sought.None? then Err(NotResumable)
                   else if !e.luck.fetched then Err(StoreFailed)
                   else if sought.value !in store then Err(NotResumable)
                   else Ok(store[sought.value])
      ensures issued == old(issued) + if r.Err? then Stripped(e.req, e.name, e.luck.cookieSaved) else {}
    {
      var id := Sid(e.req, e.name, e.luck.cookieSaved);
      if id.None? {
        return Err(NotResumable);
      }
      if !e.luck.fetched || id.value !in store {
        var _ := SessionUnsetKey(e.req, e.name, e.luck.cookieSaved);
        return Err(if e.luck.fetched then NotResumable else StoreFailed);
      }
      return Ok(store[id.value]);
    }

    method Continue(e: Event) returns (r: Result<Container, Error>)
      requires Keyed() && e.Continue?
      modifies this
      ensures Keyed()
      ensures r == ContinueOutcome(old(store), e)
      ensures Current() == AfterContinue(old(Current()), e)
    {
      var fetched := Fetch(e);
      if fetched.Err? {
        return fetched;
      }
      var container := fetched.value;
      if e.options.None? {
        return Err(BadOptions);
      }
      var o := e.options.value;
      var invalid := Valid(container, o.identity, e.now);
      if invalid.Some? {
        return Err(invalid.value);
      }
      if o.target && container.payload.Some? && !e.luck.decodes {
        return Err(BadPayload);
      }
      var ok := SessionUnsetKey(e.req, e.name, e.luck.cookieSaved);
      if !ok {
        return Err(CookieNotSaved);
      }
      if !e.luck.deleted {
        return Err(StoreFailed);
      }
      store := store - {container.id};
      history := Resumed(history, Resumption(container.id, e.name, o.identity, e.now));
      return Ok(container);
    }

    method Abort(e: Event) returns (r: Option<Error>)
      requires Keyed() && e.Abort?
      modifies this
      ensures Keyed()
      ensures r == AbortOutcome(e)
      ensures Current() == AfterAbort(old(Current()), e)
    {
      var id := Sid(e.req, e.name, e.luck.cookieSaved);
      if id.None? {
        return None;
      }
      var ok := SessionUnsetKey(e.req, e.name, e.luck.cookieSaved);
      if !ok {
        return Some(CookieNotSaved);
      }
      if !e.luck.deleted {
        return Some(StoreFailed);
      }
      history := Dropped(history, {id.value} * store.Keys);
      store := store - {id.value};
      return None;
    }
  }

  // Runs

  /** Cookies cannot be forged, and new identifiers are new. */
  predicate Possible(st: State, e: Event) {
    && (forall c :: c in e.req && c.Some? ==> c.value in st.issued)
    && (e.Pause? ==> e.id != NIL && e.id !in st.history.drawn)
  }

  function After(st: State, e: Event): State {
    match e
    case Pause(_, _, _, _, _, _) => AfterPause(st, e)
    case Continue(_, _, _, _, _) => AfterContinue(st, e)
    case Abort(_, _, _) => AfterAbort(st, e)
  }

  /** The state after any number of calls; impossible ones do not happen. */
  function Run(st: State, es: seq<Event>): State
    decreases |es|
  {
    if es == [] then st else Run(if Possible(st, es[0]) then After(st, es[0]) else st, es[1..])
  }

  function Ids(rs: seq<Resumption>): set<Uuid> {
    set r | r in rs :: r.id
  }

  /** A resumption matches what the Pause that drew its identifier was asked for. */
  predicate Honours(t: Ticket, r: Resumption) {
    && r.name == t.name
    && r.at <= t.at + t.options.ttl
    && (r.identity == NIL || r.identity == t.options.identity)
  }

  /** Every cookie maps a name to an identifier drawn for that very name. */
  ghost predicate Named(issued: set<Cookie>, drawn: map<Uuid, Ticket>) {
    forall c, n :: c in issued && n in c ==> c[n] in drawn && drawn[c[n]].name == n
  }

  /** Every container stored is the one its Pause made. */
  ghost predicate Made(store: map<Uuid, Container>, drawn: map<Uuid, Ticket>) {
    forall id :: id in store ==>
      id in drawn && store[id] == NewContainer(id, drawn[id].name, drawn[id].options, drawn[id].at)
  }

  ghost predicate Honoured(h: History) {
    forall i :: 0 <= i < |h.resumed| ==> h.resumed[i].id in h.drawn && Honours(h.drawn[h.resumed[i].id], h.resumed[i])
  }

  ghost predicate Once(rs: seq<Resumption>) {
    forall i, j :: 0 <= i < j < |rs| ==> rs[i].id != rs[j].id
  }

  /** The store holds what was saved and neither resumed nor dropped, and nothing is both of these. */
  ghost predicate Balanced(st: State) {
    var h := st.history;
    && h.saved <= h.drawn.Keys
    && Ids(h.resumed) <= h.saved && h.dropped <= h.saved && Ids(h.resumed) !! h.dropped
    && st.store.Keys == h.saved - Ids(h.resumed) - h.dropped
  }

  ghost predicate Inv(st: State) {
    && Named(st.issued, st.history.drawn) && Made(st.store, st.history.drawn)
    && Honoured(st.history) && Once(st.history.resumed) && Balanced(st)
  }

  // What every step keeps

  lemma {:induction false} FirstWithIsPresented(req: Request, key: string)
    requires FirstWith(req, key).Some?
    ensures exists c :: c in req && Has(c, key) && FirstWith(req, key) == Some(c.value[key])
  {
    if Has(req[0], key) {
      assert req[0] in req;
    } else {
      FirstWithIsPresented(req[1..], key);
    }
  }

  /** What a possible request seeks was drawn for the name it is sought under. */
  lemma SoughtWasDrawn(st: State, e: Event)
    requires Named(st.issued, st.history.drawn) && Possible(st, e) && Sought(e.req, e.name).Some?
    ensures var id := Sought(e.req, e.name).value; id in st.history.drawn && st.history.drawn[id].name == e.name
  {
    FirstWithIsPresented(e.req, e.name);
  }

  lemma StrippedKeepsNamed(st: State, e: Event, saved: bool)
    requires Named(st.issued, st.history.drawn) && Possible(st, e)
    ensures Named(st.issued + Stripped(e.req, e.name, saved), st.history.drawn)
  {
    if e.req != [] && e.req[0].Some? {
      assert e.req[0] in e.req;
    }
  }

  lemma PauseNames(st: State, e: Event, t: Ticket)
    requires Named(st.issued, st.history.drawn) && Possible(st, e) && e.Pause? && t.name == e.name
    ensures Named(st.issued + {Get(e.req).values[e.name := e.id]}, st.history.drawn[e.id := t])
    ensures Named(st.issued, st.history.drawn[e.id := t])
  {
    if e.req != [] && e.req[0].Some? {
      assert e.req[0] in e.req;
    }
  }

  lemma PauseKeeps(st: State, e: Event)
    requires Inv(st) && Possible(st, e) && e.Pause?
    ensures Inv(AfterPause(st, e))
  {
    if e.name != "" && e.options.Some? {
      PauseNames(st, e, Ticket(e.name, e.options.value, e.now));
      assert st.issued + {} == st.issued;
      assert e.id !in st.history.saved;
    }
  }

  /** Rounding goes down to a whole second, of 1,000,000,000 nanoseconds, and loses less than one. */
  lemma Truncation(t: int)
    ensures t - 1_000_000_000 < TruncateToSecond(t) <= t && TruncateToSecond(t) % 1_000_000_000 == 0
  {
  }

  lemma ContinueKeeps(st: State, e: Event)
    requires Inv(st) && Possible(st, e) && e.Continue?
    ensures Inv(AfterContinue(st, e))
  {
    StrippedKeepsNamed(st, e, e.luck.cookieSaved);
    assert st.issued + {} == st.issued;
    if ContinueOutcome(st.store, e).Ok? {
      SoughtWasDrawn(st, e);
      var id := Sought(e.req, e.name).value;
      var t := st.history.drawn[id];
      var r := Resumption(id, e.name, e.options.value.identity, e.now);
      Truncation(t.at + t.options.ttl);
      assert Honours(t, r);
      ResumedKeeps(st.history, r);
    }
  }

  lemma ResumedKeeps(h: History, r: Resumption)
    requires Honoured(h) && Once(h.resumed) && r.id !in Ids(h.resumed) && r.id in h.drawn && Honours(h.drawn[r.id], r)
    ensures Honoured(Resumed(h, r)) && Once(Resumed(h, r).resumed)
    ensures Ids(Resumed(h, r).resumed) == Ids(h.resumed) + {r.id}
  {
    forall i | 0 <= i < |h.resumed| ensures h.resumed[i].id != r.id {
      assert h.resumed[i] in h.resumed;
    }
    assert forall x :: x in Resumed(h, r).resumed <==> x in h.resumed || x == r;
  }

  lemma AbortKeeps(st: State, e: Event)
    requires Inv(st) && Possible(st, e) && e.Abort?
    ensures Inv(AfterAbort(st, e))
  {
    StrippedKeepsNamed(st, e, e.luck.cookieSaved);
  }

  lemma {:induction false} RunKeeps(st: State, es: seq<Event>)
    requires Inv(st)
    ensures Inv(Run(st, es))
    decreases |es|
  {
    if es != [] {
      if Possible(st, es[0]) {
        match es[0]
        case Pause(_, _, _, _, _, _) => PauseKeeps(st, es[0]);
        case Continue(_, _, _, _, _) => ContinueKeeps(st, es[0]);
        case Abort(_, _, _) => AbortKeeps(st, es[0]);
      }
      RunKeeps(if Possible(st, es[0]) then After(st, es[0]) else st, es[1..]);
    }
  }

  // The promises

  /** In every run no container is resumed twice, none is resumed after an Abort removed it, and each is resumed only
      under the name it was paused under, in time, and for the identity it was paused for when one is named. */
  lemma ResumedOnce(es: seq<Event>, i: nat, j: nat)
    requires i < |Run(INITIAL, es).history.resumed| && j < |Run(INITIAL, es).history.resumed|
    ensures var h := Run(INITIAL, es).history;
            && (h.resumed[i].id == h.resumed[j].id ==> i == j)
            && h.resumed[i].id in h.saved && h.resumed[i].id !in h.dropped
            && h.resumed[i].id in h.drawn && Honours(h.drawn[h.resumed[i].id], h.resumed[i])
  {
    RunKeeps(INITIAL, es);
    var h := Run(INITIAL, es).history;
    assert h.resumed[i] in h.resumed && h.resumed[i].id in Ids(h.resumed);
  }

  /** In every run the store holds exactly what was saved and neither resumed nor dropped. */
  lemma StoreAccounts(es: seq<Event>)
    ensures var st := Run(INITIAL, es);
            && st.store.Keys == st.history.saved - Ids(st.history.resumed) - st.history.dropped
            && forall id :: id in st.store ==> id in st.history.drawn && st.store[id].name == st.history.drawn[id].name
  {
    RunKeeps(INITIAL, es);
  }

  /** When a Continue succeeds, in any reachable state. The name is part of the condition only through the cookie. */
  lemma ContinueSucceeds(es: seq<Event>, e: Event)
    requires e.Continue? && Possible(Run(INITIAL, es), e)
    ensures var st := Run(INITIAL, es);
            var sought := Sought(e.req, e.name);
            ContinueOutcome(st.store, e).Ok? <==>
              && sought.Some? && sought.value in st.history.drawn && e.options.Some?
              && sought.value in st.history.saved - Ids(st.history.resumed) - st.history.dropped
              && var t := st.history.drawn[sought.value];
                 var o := e.options.value;
                 && e.now <= TruncateToSecond(t.at + t.options.ttl)
                 && (o.identity == NIL || o.identity == t.options.identity)
                 && (!o.target || t.options.payload.None? || e.luck.decodes)
                 && e.luck.fetched && e.luck.cookieSaved && e.luck.deleted
  {
    RunKeeps(INITIAL, es);
  }

  /** The container a Continue returns has the name asked for and comes in time. */
  lemma ContinueReturns(es: seq<Event>, e: Event)
    requires e.Continue? && Possible(Run(INITIAL, es), e) && ContinueOutcome(Run(INITIAL, es).store, e).Ok?
    ensures var c := ContinueOutcome(Run(INITIAL, es).store, e).value;
            var drawn := Run(INITIAL, es).history.drawn;
            && c.name == e.name && c.id in drawn
            && c == NewContainer(c.id, e.name, drawn[c.id].options, drawn[c.id].at)
            && c.identity == drawn[c.id].options.identity && c.payload == drawn[c.id].options.payload
            && Sought(e.req, e.name) == Some(c.id)
            && e.now <= drawn[c.id].at + drawn[c.id].options.ttl
            && (e.options.value.identity == NIL || e.options.value.identity == drawn[c.id].options.identity)
  {
    var st := Run(INITIAL, es);
    RunKeeps(INITIAL, es);
    SoughtWasDrawn(st, e);
    var t := st.history.drawn[Sought(e.req, e.name).value];
    Truncation(t.at + t.options.ttl);
  }

  /** Expiry never strikes more than a second early. */
  lemma NoEarlyExpiry(es: seq<Event>, e: Event)
    requires e.Continue? && Possible(Run(INITIAL, es), e) && Sought(e.req, e.name).Some?
    ensures var st := Run(INITIAL, es);
            var id := Sought(e.req, e.name).value;
            && id in st.history.drawn
            && var t := st.history.drawn[id];
               e.now <= t.at + t.options.ttl - 1_000_000_000 ==> ContinueOutcome(st.store, e) != Err(Expired)
  {
    var st := Run(INITIAL, es);
    RunKeeps(INITIAL, es);
    SoughtWasDrawn(st, e);
    var t := st.history.drawn[Sought(e.req, e.name).value];
    Truncation(t.at + t.options.ttl);
  }

  /** Identifiers that were drawn keep their ticket, and cookies once issued stay replayable. */
  lemma {:induction false} RunRemembers(st: State, es: seq<Event>)
    ensures st.issued <= Run(st, es).issued
    ensures forall id :: id in st.history.drawn ==>
              id in Run(st, es).history.drawn && Run(st, es).history.drawn[id] == st.history.drawn[id]
    ensures st.history.saved <= Run(st, es).history.saved
    decreases |es|
  {
    if es != [] {
      RunRemembers(if Possible(st, es[0]) then After(st, es[0]) else st, es[1..]);
    }
  }

  lemma {:induction false} RunSplits(st: State, es: seq<Event>, fs: seq<Event>)
    ensures Run(st, es + fs) == Run(Run(st, es), fs)
    decreases |es|
  {
    if es == [] {
      assert es + fs == fs;
    } else {
      assert (es + fs)[1..] == es[1..] + fs;
      RunSplits(if Possible(st, es[0]) then After(st, es[0]) else st, es[1..], fs);
    }
  }

  lemma PausedRemembered(es: seq<Event>, p: Event, fs: seq<Event>)
    requires p.Pause? && Possible(Run(INITIAL, es), p) && PauseOutcome(p).None?
    ensures var st := Run(INITIAL, es + [p] + fs);
            && Inv(st) && Get(p.req).values[p.name := p.id] in st.issued && p.id in st.history.saved
            && p.id in st.history.drawn && st.history.drawn[p.id] == Ticket(p.name, p.options.value, p.now) && p.id != NIL
  {
    var before := Run(INITIAL, es);
    var paused := AfterPause(before, p);
    RunSplits(INITIAL, es + [p], fs);
    RunSplits(INITIAL, es, [p]);
    assert Run(before, [p]) == Run(paused, []) == paused;
    RunRemembers(paused, fs);
    RunKeeps(INITIAL, es + [p] + fs);
  }

  /** Pause and Continue are inverse: whatever happens between them, the cookie a Pause hands out resumes the flow with
      the paused identity and payload, in time and for the same identity, unless it was resumed or aborted before. */
  lemma PauseThenContinue(es: seq<Event>, p: Event, fs: seq<Event>, c: Event)
    requires p.Pause? && Possible(Run(INITIAL, es), p) && PauseOutcome(p).None?
    requires c.Continue? && c.name == p.name && c.req == [Some(Get(p.req).values[p.name := p.id])]
    requires c.luck == Luck(true, true, true, true, true) && c.now <= p.now + p.options.value.ttl - 1_000_000_000
    requires c.options.Some? && c.options.value.identity in {NIL, p.options.value.identity}
    ensures var st := Run(INITIAL, es + [p] + fs);
            var r := ContinueOutcome(st.store, c);
            && Possible(st, c)
            && (p.id in Ids(st.history.resumed) + st.history.dropped ==> r == Err(NotResumable))
            && (p.id !in Ids(st.history.resumed) + st.history.dropped ==>
                  && r.Ok? && r.value.id == p.id && r.value.name == p.name
                  && r.value.identity == p.options.value.identity && r.value.payload == p.options.value.payload
                  && r.value.expiresAt == TruncateToSecond(p.now + p.options.value.ttl))
  {
    PausedRemembered(es, p, fs);
    Truncation(p.now + p.options.value.ttl);
    assert c.req[0] == Some(Get(p.req).values[p.name := p.id]);
  }

  /** The first cookie that decodes and has the key decides; there is nothing without one. */
  lemma {:induction false} FirstDecides(req: Request, key: string, i: nat)
    requires i <= |req| && forall j :: 0 <= j < i ==> req[j].None? || key !in req[j].value
    ensures i < |req| && req[i].Some? && key in req[i].value ==> FirstWith(req, key) == Some(req[i].value[key])
    ensures i == |req| ==> FirstWith(req, key) == None
  {
    if i > 0 {
      FirstDecides(req[1..], key, i - 1);
    }
  }

  /** The cookies handed out: a Pause adds its own name to the browser's cookie, or to an empty one if that is missing or
      does not decode. A Continue that succeeds or an Abort takes the name out of it; all other names stay. */
  lemma CookiesHandedOut(st: State, e: Event, cookie: Cookie)
    requires cookie == if e.req != [] && e.req[0].Some? then e.req[0].value else map[]
    requires e.luck.cookieSaved
    ensures e.Pause? && e.name != "" && e.options.Some? ==>
              After(st, e).issued == st.issued + {cookie[e.name := e.id]}
    ensures e.req != [] && (e.Abort? || (e.Continue? && ContinueOutcome(st.store, e).Ok?)) ==>
              exists c :: After(st, e).issued == st.issued + {c} && e.name !in c && forall n :: n != e.name ==>
                (n in c <==> n in cookie) && (n in c ==> c[n] == cookie[n])
    ensures e.req == [] && !e.Pause? ==> After(st, e).issued == st.issued
  {
    if e.req != [] && (e.Abort? || (e.Continue? && ContinueOutcome(st.store, e).Ok?)) {
      assert After(st, e).issued == st.issued + {cookie - {e.name}};
    }
  }

  /** A Pause fails without a name or with bad options before it has done anything, with the cookie not saved before the
      store has, and otherwise with the store; a success stores one more container. */
  lemma PauseExactly(st: State, e: Event)
    requires e.Pause?
    ensures PauseOutcome(e) == if e.name == "" then Some(NameMissing) else if e.options.None? then Some(BadOptions)
                               else if !e.luck.cookieSaved then Some(CookieNotSaved)
                               else if !e.luck.stored then Some(StoreFailed) else None
    ensures PauseOutcome(e) in {Some(NameMissing), Some(BadOptions)} ==> After(st, e) == st
    ensures PauseOutcome(e) == Some(CookieNotSaved) ==> After(st, e).store == st.store && After(st, e).issued == st.issued
    ensures PauseOutcome(e) == Some(StoreFailed) ==> After(st, e).store == st.store
    ensures PauseOutcome(e) == None ==>
              && After(st, e).store.Keys == st.store.Keys + {e.id}
              && (forall id :: id in st.store && id != e.id ==> After(st, e).store[id] == st.store[id])
              && var c := After(st, e).store[e.id];
                 && c.id == e.id && c.name == e.name && c.identity == e.options.value.identity
                 && c.payload == e.options.value.payload
                 && c.expiresAt == TruncateToSecond(e.now + e.options.value.ttl)
  {
  }

  /** Why a Continue fails, in the order of the checks, and what a failure leaves: the store as it was, and the cookie as
      it was once the container was found, until the cookie itself is written. */
  lemma ContinueFails(st: State, e: Event)
    requires e.Continue? && ContinueOutcome(st.store, e).Err?
    ensures After(st, e).store == st.store && After(st, e).history == st.history
    ensures var sought, why := Sought(e.req, e.name), ContinueOutcome(st.store, e).error;
            if sought.None? then why == NotResumable
            else if !e.luck.fetched then why == StoreFailed
            else if sought.value !in st.store then why == NotResumable
            else if e.options.None? then why == BadOptions && After(st, e) == st
            else
              var c, o := st.store[sought.value], e.options.value;
              if c.expiresAt < e.now then why == Expired && After(st, e) == st
              else if o.identity != NIL && o.identity != c.identity then why == OtherPerson && After(st, e) == st
              else if o.target && c.payload.Some? && !e.luck.decodes then why == BadPayload && After(st, e) == st
              else if !e.luck.cookieSaved then why == CookieNotSaved && After(st, e) == st
              else why == StoreFailed && !e.luck.deleted
    ensures var sought := Sought(e.req, e.name);
            var cookie: Cookie := if e.req != [] && e.req[0].Some? then e.req[0].value else map[];
            sought.None? || !e.luck.fetched || sought.value !in st.store ==>
              After(st, e).issued == st.issued + if e.req == [] || !e.luck.cookieSaved then {} else {cookie - {e.name}}
  {
    if !e.luck.cookieSaved {
      assert st.issued + {} == st.issued;
    }
  }

  /** An Abort without a container to look for is no error; otherwise it fails with the cookie or the store, and a success
      leaves no such container. */
  lemma AbortExactly(st: State, e: Event)
    requires e.Abort?
    ensures var sought := Sought(e.req, e.name);
            && (sought.None? ==> AbortOutcome(e) == None && After(st, e).store == st.store)
            && (sought.Some? ==>
                  && AbortOutcome(e) == (if !e.luck.cookieSaved then Some(CookieNotSaved)
                                         else if !e.luck.deleted then Some(StoreFailed) else None)
                  && After(st, e).store == if AbortOutcome(e).None? then st.store - {sought.value} else st.store)
  {
  }

  /** The nil identifier is never sought. */
  lemma SoughtExactly(req: Request, name: string)
    ensures Sought(req, name) == if FirstWith(req, name) == Some(0) then None else FirstWith(req, name)
  {
  }
}
