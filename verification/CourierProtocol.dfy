/** The courier's message queue as a protocol: any number of workers, interleaved at the granularity of their calls
    to the persister and to the SMTP server, over one shared table of messages. */
module CourierProtocol {
  import opened Basics

  type MessageId = nat
  type WorkerId = nat

  datatype Status = Queued | Sent | Processing

  datatype Kind = Email | Unexpected

  /** Where a worker stands inside its call of `DispatchQueue`. `k` is the index of the current message of its batch. */
  datatype Worker =
    | Idle
    | Dispatching(batch: seq<MessageId>, k: nat)
    | Delivered(batch: seq<MessageId>, k: nat)
    | Requeueing(batch: seq<MessageId>, k: nat)

  /** The table, in order of creation, and the workers. `delivered` counts how often a message went out, `failedWrites`
      how often writing its status "sent" failed, `stuck` holds the messages whose owner gave them up without a status
      write (a failed requeue write or a crash), `unrecorded` those that a crash hit right after their delivery. */
  datatype State = State(
    order: seq<MessageId>,
    status: map<MessageId, Status>,
    kind: map<MessageId, Kind>,
    workers: map<WorkerId, Worker>,
    delivered: map<MessageId, nat>,
    failedWrites: map<MessageId, nat>,
    stuck: set<MessageId>,
    unrecorded: set<MessageId>)

  /** One call of a worker and its outcome. */
  datatype Event =
    | Add(m: MessageId, kind: Kind)
    | Take(w: WorkerId)
    | Send(w: WorkerId, ok: bool)
    | WriteSent(w: WorkerId, ok: bool)
    | Requeue(w: WorkerId, ok: bool)
    | Crash(w: WorkerId)

  const BATCH_SIZE: nat := 10

  const INIT := State([], map[], map[], map[], map[], map[], {}, {})

  function WorkerOf(s: State, w: WorkerId): Worker {
    if w in s.workers then s.workers[w] else Idle
  }

  /** The queued messages, oldest first. */
  function QueuedIn(order: seq<MessageId>, status: map<MessageId, Status>): seq<MessageId> {
    if order == [] then []
    else if order[0] in status && status[order[0]] == Queued then [order[0]] + QueuedIn(order[1..], status)
    else QueuedIn(order[1..], status)
  }

  function Queue(s: State): seq<MessageId> {
    QueuedIn(s.order, s.status)
  }

  /** The batch that `NextMessages(ctx, 10)` returns. */
  function NextBatch(s: State): seq<MessageId> {
    if |Queue(s)| <= BATCH_SIZE then Queue(s) else Queue(s)[..BATCH_SIZE]
  }

  /** The table after writing one status to each listed message. */
  function Write(status: map<MessageId, Status>, ms: seq<MessageId>, to: Status): (r: map<MessageId, Status>)
    ensures r.Keys == status.Keys
  {
    map m | m in status :: if m in ms then to else status[m]
  }

  function Bump(counts: map<MessageId, nat>, m: MessageId): (r: map<MessageId, nat>)
    ensures r.Keys == counts.Keys
  {
    map n | n in counts :: if n == m then counts[n] + 1 else counts[n]
  }

  predicate InBatch(w: Worker) {
    !w.Idle? && w.k < |w.batch|
  }

  /** The part of a worker's batch that is not settled yet. */
  function Held(w: Worker): seq<MessageId> {
    if InBatch(w) then w.batch[w.k..] else []
  }

  /** The same messages in the same order. */
  predicate SameMessages(s: State, t: State) {
    && t.order == s.order && t.kind == s.kind && t.status.Keys == s.status.Keys
    && t.delivered.Keys == s.delivered.Keys && t.failedWrites.Keys == s.failedWrites.Keys
  }

  /** `AddMessage`, under an identifier not used before. */
  function AddStep(s: State, m: MessageId, kind: Kind): State {
    if m in s.status then s
    else s.(order := s.order + [m], status := s.status[m := Queued], kind := s.kind[m := kind],
            delivered := s.delivered[m := 0], failedWrites := s.failedWrites[m := 0])
  }

  /** `NextMessages`: an idle worker moves the oldest queued messages to processing. */
  function TakeStep(s: State, w: WorkerId): (t: State)
    ensures SameMessages(s, t)
  {
    var batch := NextBatch(s);
    if !WorkerOf(s, w).Idle? || batch == [] then s
    else s.(status := Write(s.status, batch, Processing), workers := s.workers[w := Dispatching(batch, 0)])
  }

  /** `DialAndSend`: goes out, fails, or is not attempted because the message is not an email. */
  function SendStep(s: State, w: WorkerId, ok: bool): (t: State)
    ensures SameMessages(s, t)
  {
    var v := WorkerOf(s, w);
    if !v.Dispatching? || !InBatch(v) then s
    else if v.batch[v.k] in s.kind && s.kind[v.batch[v.k]] == Email && ok then
      s.(workers := s.workers[w := Delivered(v.batch, v.k)], delivered := Bump(s.delivered, v.batch[v.k]))
    else s.(workers := s.workers[w := Requeueing(v.batch, v.k)])
  }

  /** `SetMessageStatus(…, sent)` after a delivery. */
  function WriteSentStep(s: State, w: WorkerId, ok: bool): (t: State)
    ensures SameMessages(s, t)
  {
    var v := WorkerOf(s, w);
    if !v.Delivered? || !InBatch(v) then s
    else if ok then s.(status := Write(s.status, [v.batch[v.k]], Sent), workers := s.workers[w := Advance(v)])
    else s.(workers := s.workers[w := Requeueing(v.batch, v.k)], failedWrites := Bump(s.failedWrites, v.batch[v.k]))
  }

  /** `SetMessageStatus(…, queued)` for the next message of the failed tail. */
  function RequeueStep(s: State, w: WorkerId, ok: bool): (t: State)
    ensures SameMessages(s, t)
  {
    var v := WorkerOf(s, w);
    if !v.Requeueing? || !InBatch(v) then s
    else
      var m := v.batch[v.k];
      var after := if v.k + 1 < |v.batch| then Requeueing(v.batch, v.k + 1) else Idle;
      if ok then s.(status := Write(s.status, [m], Queued), workers := s.workers[w := after])
      else s.(workers := s.workers[w := after], stuck := s.stuck + {m})
  }

  /** The worker's process ends inside its batch. */
  function CrashStep(s: State, w: WorkerId): (t: State)
    ensures SameMessages(s, t)
  {
    var v := WorkerOf(s, w);
    if !InBatch(v) then s
    else s.(workers := s.workers[w := Idle],
            stuck := s.stuck + (set m | m in Held(v)),
            unrecorded := s.unrecorded + (if v.Delivered? then {v.batch[v.k]} else {}))
  }

  /** The worker after its current message was recorded as sent. */
  function Advance(v: Worker): Worker
    requires InBatch(v)
  {
    if v.k + 1 < |v.batch| then Dispatching(v.batch, v.k + 1) else Idle
  }

  /** One step. An event that its worker cannot take does nothing. */
  function Next(s: State, e: Event): State {
    match e
    case Add(m, kind) => AddStep(s, m, kind)
    case Take(w) => TakeStep(s, w)
    case Send(w, ok) => SendStep(s, w, ok)
    case WriteSent(w, ok) => WriteSentStep(s, w, ok)
    case Requeue(w, ok) => RequeueStep(s, w, ok)
    case Crash(w) => CrashStep(s, w)
  }

  function Run(s: State, events: seq<Event>): State
    decreases |events|
  {
    if events == [] then s else Run(Next(s, events[0]), events[1..])
  }

  // The invariant

  predicate Holds(s: State, w: WorkerId, m: MessageId) {
    m in Held(WorkerOf(s, w))
  }

  /** The worker has delivered the message and not yet recorded it. */
  predicate InFlight(s: State, w: WorkerId, m: MessageId) {
    var v := WorkerOf(s, w);
    v.Delivered? && InBatch(v) && v.batch[v.k] == m
  }

  ghost predicate Tables(s: State) {
    && Distinct(s.order)
    && (forall m :: m in s.order <==> m in s.status)
    && s.status.Keys == s.kind.Keys == s.delivered.Keys == s.failedWrites.Keys
  }

  /** A worker is idle or inside its batch, whose unsettled messages are distinct. */
  predicate WellPlaced(v: Worker) {
    (v.Idle? || InBatch(v)) && Distinct(Held(v))
  }

  /** Every worker holds processing messages, which nobody else holds and which are not stuck; every processing
      message that is not stuck is held. */
  ghost predicate Ownership(s: State) {
    && (forall w :: w in s.workers ==> WellPlaced(s.workers[w]))
    && (forall w, m :: Holds(s, w, m) ==> m in s.status && s.status[m] == Processing && m !in s.stuck)
    && (forall v, w, m :: Holds(s, v, m) && Holds(s, w, m) ==> v == w)
    && (forall m :: m in s.status && s.status[m] == Processing && m !in s.stuck ==> exists w :: Holds(s, w, m))
    && (forall m :: m in s.stuck ==> m in s.status && s.status[m] == Processing)
    && s.unrecorded <= s.stuck
  }

  /** How many deliveries of m the table accounts for besides the failed status writes. */
  ghost function Accounted(s: State, m: MessageId): nat
    requires m in s.status
  {
    if s.status[m] == Sent || m in s.unrecorded || (exists w :: InFlight(s, w, m)) then 1 else 0
  }

  ghost predicate Accounts(s: State) {
    forall m :: m in s.status ==>
      m in s.delivered && m in s.failedWrites && s.delivered[m] == s.failedWrites[m] + Accounted(s, m)
  }

  ghost predicate Inv(s: State) {
    Tables(s) && Ownership(s) && Accounts(s)
  }

  // Every step keeps the invariant

  lemma {:induction false} QueuedInContents(order: seq<MessageId>, status: map<MessageId, Status>)
    ensures forall m :: m in QueuedIn(order, status) <==> m in order && m in status && status[m] == Queued
    ensures Distinct(order) ==> Distinct(QueuedIn(order, status))
  {
    if order != [] {
      QueuedInContents(order[1..], status);
      assert order == [order[0]] + order[1..];
      if Distinct(order) {
        assert Distinct(order[1..]);
        assert order[0] !in order[1..];
        var q := QueuedIn(order[1..], status);
        assert order[0] !in q;
      }
    }
  }

  lemma NextBatchContents(s: State)
    requires Tables(s)
    ensures Distinct(NextBatch(s))
    ensures forall m :: m in NextBatch(s) ==> m in s.status && s.status[m] == Queued
  {
    QueuedInContents(s.order, s.status);
  }

  /** A step of worker w from v to v': what it newly holds was queued, what it lets go is settled or stuck, and
      nothing else changes hands. */
  ghost predicate Handover(s: State, t: State, w: WorkerId, v': Worker) {
    var v := WorkerOf(s, w);
    && t.workers == s.workers[w := v']
    && t.status.Keys == s.status.Keys
    && s.stuck <= t.stuck
    && WellPlaced(v')
    && (forall m :: m in Held(v') ==>
          m in t.status && t.status[m] == Processing && m !in t.stuck && (m in Held(v) || s.status[m] == Queued))
    && (forall m :: m in Held(v) && m !in Held(v') ==> m in t.status && (t.status[m] == Processing <==> m in t.stuck))
    && (forall m :: m in s.status && m !in Held(v) && m !in Held(v') ==>
          t.status[m] == s.status[m] && (m in t.stuck <==> m in s.stuck))
  }

  lemma OthersHold(s: State, t: State, w: WorkerId, v': Worker)
    requires t.workers == s.workers[w := v']
    ensures forall m :: Holds(t, w, m) <==> m in Held(v')
    ensures forall v, m :: v != w ==> (Holds(t, v, m) <==> Holds(s, v, m))
    ensures forall v, m :: v != w ==> (InFlight(t, v, m) <==> InFlight(s, v, m))
  {
  }

  /** A processing message is settled, stuck or held after a handover if it was before. */
  lemma HandoverHolds(s: State, t: State, w: WorkerId, v': Worker, m: MessageId)
    requires Ownership(s) && Handover(s, t, w, v')
    requires m in t.status && t.status[m] == Processing && m !in t.stuck
    ensures exists v :: Holds(t, v, m)
  {
    OthersHold(s, t, w, v');
    if m in Held(v') {
      assert Holds(t, w, m);
    } else {
      assert m !in Held(WorkerOf(s, w));
      var v :| Holds(s, v, m);
      assert v != w;
      assert Holds(t, v, m);
    }
  }

  lemma HandoverOwned(s: State, t: State, w: WorkerId, v': Worker, v: WorkerId, m: MessageId)
    requires Ownership(s) && Handover(s, t, w, v') && Holds(t, v, m)
    ensures m in t.status && t.status[m] == Processing && m !in t.stuck
    ensures v != w ==> !Holds(t, w, m)
  {
    OthersHold(s, t, w, v');
    if v != w {
      assert Holds(s, v, m);
      assert !Holds(s, w, m);
    }
  }

  lemma HandoverKeeps(s: State, t: State, w: WorkerId, v': Worker)
    requires Ownership(s) && Handover(s, t, w, v')
    requires forall m :: m in t.stuck ==> m in t.status && t.status[m] == Processing
    requires t.unrecorded <= t.stuck
    ensures Ownership(t)
  {
    OthersHold(s, t, w, v');
    forall m | m in t.status && t.status[m] == Processing && m !in t.stuck ensures exists v :: Holds(t, v, m) {
      HandoverHolds(s, t, w, v', m);
    }
    forall v, m | Holds(t, v, m)
      ensures m in t.status && t.status[m] == Processing && m !in t.stuck && (v != w ==> !Holds(t, w, m))
    {
      HandoverOwned(s, t, w, v', v, m);
    }
  }

  lemma FlightElsewhere(s: State, t: State, w: WorkerId, v': Worker, m: MessageId)
    requires t.workers == s.workers[w := v'] && !InFlight(s, w, m) && !InFlight(t, w, m)
    ensures (exists v :: InFlight(s, v, m)) <==> (exists v :: InFlight(t, v, m))
  {
    OthersHold(s, t, w, v');
    if v :| InFlight(s, v, m) {
      assert InFlight(t, v, m);
    }
    if v :| InFlight(t, v, m) {
      assert InFlight(s, v, m);
    }
  }

  /** What a worker holds is not yet accounted for, unless that worker has just delivered it. */
  lemma HeldUnaccounted(s: State, w: WorkerId, m: MessageId)
    requires Ownership(s) && Holds(s, w, m)
    ensures Accounted(s, m) == if InFlight(s, w, m) then 1 else 0
  {
    if v :| InFlight(s, v, m) {
      assert Holds(s, v, m);
    }
  }

  /** A step that neither delivers nor records nor loses m leaves the account of m alone. */
  lemma AccountedAlike(s: State, t: State, w: WorkerId, v': Worker, m: MessageId)
    requires t.workers == s.workers[w := v'] && !InFlight(s, w, m) && !InFlight(t, w, m)
    requires m in s.status && m in t.status && (s.status[m] == Sent <==> t.status[m] == Sent)
    requires m in s.unrecorded <==> m in t.unrecorded
    ensures Accounted(t, m) == Accounted(s, m)
  {
    FlightElsewhere(s, t, w, v', m);
  }

  // Ownership, step by step

  lemma AddOwns(s: State, t: State, m: MessageId)
    requires Ownership(s) && m !in s.status && t.status == s.status[m := Queued]
    requires t.workers == s.workers && t.stuck == s.stuck && t.unrecorded == s.unrecorded
    ensures Ownership(t)
  {
    assert forall w, n :: Holds(t, w, n) <==> Holds(s, w, n);
    forall n | n in t.status && t.status[n] == Processing && n !in t.stuck ensures exists w :: Holds(t, w, n) {
      var w :| Holds(s, w, n);
      assert Holds(t, w, n);
    }
  }

  /** A step of an idle worker that takes a batch of queued messages. */
  lemma TakeOwns(s: State, t: State, w: WorkerId, batch: seq<MessageId>)
    requires Ownership(s) && WorkerOf(s, w).Idle? && batch != [] && Distinct(batch)
    requires forall m :: m in batch ==> m in s.status && s.status[m] == Queued
    requires t.workers == s.workers[w := Dispatching(batch, 0)] && t.status == Write(s.status, batch, Processing)
    requires t.stuck == s.stuck && t.unrecorded == s.unrecorded
    ensures Ownership(t)
  {
    var v' := Dispatching(batch, 0);
    assert Held(v') == batch;
    assert Handover(s, t, w, v');
    HandoverKeeps(s, t, w, v');
  }

  lemma HeldOwned(s: State, w: WorkerId)
    requires Ownership(s)
    ensures WellPlaced(WorkerOf(s, w))
    ensures forall m :: m in Held(WorkerOf(s, w)) ==> m in s.status && s.status[m] == Processing && m !in s.stuck
  {
    assert forall m :: m in Held(WorkerOf(s, w)) ==> Holds(s, w, m);
    assert w !in s.workers ==> Held(WorkerOf(s, w)) == [];
  }

  /** A step that only moves the worker on, keeping all it holds. */
  lemma MoveOwns(s: State, t: State, w: WorkerId, v': Worker)
    requires Ownership(s) && t.workers == s.workers[w := v']
    requires t.status == s.status && t.stuck == s.stuck && t.unrecorded == s.unrecorded
    requires InBatch(v') && Held(v') == Held(WorkerOf(s, w))
    ensures Ownership(t)
  {
    HeldOwned(s, w);
    assert Handover(s, t, w, v');
    HandoverKeeps(s, t, w, v');
  }

  /** A step that settles the current message with a status write. */
  lemma SettleOwns(s: State, t: State, w: WorkerId, v': Worker, to: Status)
    requires Ownership(s) && t.workers == s.workers[w := v'] && t.stuck == s.stuck && t.unrecorded == s.unrecorded
    requires InBatch(WorkerOf(s, w)) && to != Processing
    requires t.status == Write(s.status, [WorkerOf(s, w).batch[WorkerOf(s, w).k]], to)
    requires (v'.Idle? || InBatch(v')) && Held(v') == Held(WorkerOf(s, w))[1..]
    ensures Ownership(t)
  {
    HeldOwned(s, w);
    var held := Held(WorkerOf(s, w));
    DistinctCut(held, 1);
    assert held[..1] == [held[0]];
    assert Handover(s, t, w, v');
    HandoverKeeps(s, t, w, v');
  }

  lemma DistinctCut(ms: seq<MessageId>, n: nat)
    requires Distinct(ms) && n <= |ms|
    ensures Distinct(ms[n..])
    ensures forall m :: m in ms <==> m in ms[..n] || m in ms[n..]
    ensures forall m :: !(m in ms[..n] && m in ms[n..])
  {
    assert ms == ms[..n] + ms[n..];
  }

  /** A step that lets go of some messages without a status write. */
  lemma LoseOwns(s: State, t: State, w: WorkerId, v': Worker, lost: set<MessageId>)
    requires Ownership(s) && t.workers == s.workers[w := v'] && t.status == s.status && WellPlaced(v')
    requires forall m :: m in Held(WorkerOf(s, w)) <==> m in lost || m in Held(v')
    requires forall m :: !(m in lost && m in Held(v'))
    requires t.stuck == s.stuck + lost && t.unrecorded <= t.stuck
    ensures Ownership(t)
  {
    HeldOwned(s, w);
    assert Handover(s, t, w, v');
    HandoverKeeps(s, t, w, v');
  }

  lemma SendOwns(s: State, w: WorkerId, ok: bool)
    requires Ownership(s)
    ensures Ownership(SendStep(s, w, ok))
  {
    var v := WorkerOf(s, w);
    if v.Dispatching? && InBatch(v) {
      var t := SendStep(s, w, ok);
      MoveOwns(s, t, w, WorkerOf(t, w));
    }
  }

  lemma WriteSentOwns(s: State, w: WorkerId, ok: bool)
    requires Ownership(s)
    ensures Ownership(WriteSentStep(s, w, ok))
  {
    var v := WorkerOf(s, w);
    if v.Delivered? && InBatch(v) {
      var t := WriteSentStep(s, w, ok);
      if ok {
        assert Held(Advance(v)) == Held(v)[1..];
        SettleOwns(s, t, w, Advance(v), Sent);
      } else {
        MoveOwns(s, t, w, WorkerOf(t, w));
      }
    }
  }

  lemma RequeueLoses(s: State, w: WorkerId)
    requires Ownership(s) && WorkerOf(s, w).Requeueing? && InBatch(WorkerOf(s, w))
    ensures Ownership(RequeueStep(s, w, false))
  {
    var v, t := WorkerOf(s, w), RequeueStep(s, w, false);
    HeldOwned(s, w);
    DistinctCut(Held(v), 1);
    assert Held(v)[..1] == [v.batch[v.k]];
    assert Held(WorkerOf(t, w)) == Held(v)[1..];
    LoseOwns(s, t, w, WorkerOf(t, w), {v.batch[v.k]});
  }

  lemma RequeueOwns(s: State, w: WorkerId, ok: bool)
    requires Ownership(s)
    ensures Ownership(RequeueStep(s, w, ok))
  {
    var v := WorkerOf(s, w);
    if v.Requeueing? && InBatch(v) {
      if ok {
        var t := RequeueStep(s, w, true);
        assert Held(WorkerOf(t, w)) == Held(v)[1..];
        SettleOwns(s, t, w, WorkerOf(t, w), Queued);
      } else {
        RequeueLoses(s, w);
      }
    }
  }

  lemma CrashOwns(s: State, w: WorkerId)
    requires Ownership(s)
    ensures Ownership(CrashStep(s, w))
  {
    var v := WorkerOf(s, w);
    if InBatch(v) {
      LoseOwns(s, CrashStep(s, w), w, Idle, set m | m in Held(v));
    }
  }

  // The account, step by step

  lemma AddAccounts(s: State, m: MessageId, kind: Kind)
    requires Inv(s) && m !in s.status
    ensures Accounts(AddStep(s, m, kind))
  {
    var t := AddStep(s, m, kind);
    forall n | n in t.status
      ensures n in t.delivered && n in t.failedWrites && t.delivered[n] == t.failedWrites[n] + Accounted(t, n)
    {
      if n == m {
        NewUnaccounted(s, t, m);
      } else {
        AccountedSame(s, t, n);
      }
    }
  }

  lemma AccountedSame(s: State, t: State, n: MessageId)
    requires n in s.status && n in t.status && s.status[n] == t.status[n]
    requires t.workers == s.workers && t.unrecorded == s.unrecorded
    ensures Accounted(t, n) == Accounted(s, n)
  {
    assert forall w :: InFlight(t, w, n) <==> InFlight(s, w, n);
  }

  lemma NewUnaccounted(s: State, t: State, m: MessageId)
    requires Ownership(s) && m !in s.status && m in t.status && t.status[m] == Queued
    requires t.workers == s.workers && t.unrecorded == s.unrecorded
    ensures Accounted(t, m) == 0
  {
    assert forall w :: InFlight(t, w, m) ==> Holds(s, w, m);
  }

  /** A step of worker w that touches the account of its current message only. */
  lemma OneAccount(s: State, t: State, w: WorkerId, v': Worker, m: MessageId)
    requires Accounts(s) && t.workers == s.workers[w := v'] && t.status.Keys == s.status.Keys
    requires t.delivered.Keys == s.delivered.Keys && t.failedWrites.Keys == s.failedWrites.Keys
    requires forall n :: n in s.status && n != m ==>
               && !InFlight(s, w, n) && !InFlight(t, w, n)
               && (s.status[n] == Sent <==> t.status[n] == Sent)
               && (n in s.unrecorded <==> n in t.unrecorded)
               && t.delivered[n] == s.delivered[n] && t.failedWrites[n] == s.failedWrites[n]
    requires m in t.status ==>
               m in t.delivered && m in t.failedWrites && t.delivered[m] == t.failedWrites[m] + Accounted(t, m)
    ensures Accounts(t)
  {
    forall n | n in t.status && n != m
      ensures n in t.delivered && n in t.failedWrites && t.delivered[n] == t.failedWrites[n] + Accounted(t, n)
    {
      AccountedAlike(s, t, w, v', n);
    }
  }

  lemma TakeAccounts(s: State, w: WorkerId)
    requires Inv(s)
    ensures Accounts(TakeStep(s, w))
  {
    var t, batch := TakeStep(s, w), NextBatch(s);
    if WorkerOf(s, w).Idle? && batch != [] {
      NextBatchContents(s);
      AccountedAlike(s, t, w, Dispatching(batch, 0), batch[0]);
      OneAccount(s, t, w, Dispatching(batch, 0), batch[0]);
    }
  }

  /** The account of the current message before and after the step of its owner. */
  lemma CurrentAccounted(s: State, w: WorkerId)
    requires Ownership(s) && InBatch(WorkerOf(s, w))
    ensures var v := WorkerOf(s, w);
            && v.batch[v.k] in s.status && s.status[v.batch[v.k]] == Processing && v.batch[v.k] !in s.unrecorded
            && Accounted(s, v.batch[v.k]) == if v.Delivered? then 1 else 0
  {
    var v := WorkerOf(s, w);
    assert Holds(s, w, v.batch[v.k]);
    HeldUnaccounted(s, w, v.batch[v.k]);
  }

  lemma SendAccounts(s: State, w: WorkerId, ok: bool)
    requires Tables(s) && Accounts(s) && Ownership(s) && Ownership(SendStep(s, w, ok))
    ensures Accounts(SendStep(s, w, ok))
  {
    var v := WorkerOf(s, w);
    if v.Dispatching? && InBatch(v) {
      CurrentAccounted(s, w);
      CurrentAccounted(SendStep(s, w, ok), w);
      SendAccount(s, w, ok);
    }
  }

  lemma SendAccount(s: State, w: WorkerId, ok: bool)
    requires Tables(s) && Accounts(s) && WorkerOf(s, w).Dispatching? && InBatch(WorkerOf(s, w))
    requires var m := WorkerOf(s, w).batch[WorkerOf(s, w).k];
             var t := SendStep(s, w, ok);
             && m in s.status && Accounted(s, m) == 0
             && Accounted(t, m) == if WorkerOf(t, w).Delivered? then 1 else 0
    ensures Accounts(SendStep(s, w, ok))
  {
    var t, v := SendStep(s, w, ok), WorkerOf(s, w);
    OneAccount(s, t, w, WorkerOf(t, w), v.batch[v.k]);
  }

  lemma WriteSentAccounts(s: State, w: WorkerId, ok: bool)
    requires Tables(s) && Accounts(s) && Ownership(s) && Ownership(WriteSentStep(s, w, ok))
    ensures Accounts(WriteSentStep(s, w, ok))
  {
    var v := WorkerOf(s, w);
    if v.Delivered? && InBatch(v) {
      CurrentAccounted(s, w);
      if !ok {
        CurrentAccounted(WriteSentStep(s, w, ok), w);
      }
      WriteSentAccount(s, w, ok);
    }
  }

  lemma WriteSentAccount(s: State, w: WorkerId, ok: bool)
    requires Tables(s) && Accounts(s) && WorkerOf(s, w).Delivered? && InBatch(WorkerOf(s, w))
    requires var m := WorkerOf(s, w).batch[WorkerOf(s, w).k];
             m in s.status && Accounted(s, m) == 1 && (!ok ==> Accounted(WriteSentStep(s, w, ok), m) == 0)
    ensures Accounts(WriteSentStep(s, w, ok))
  {
    var t, v := WriteSentStep(s, w, ok), WorkerOf(s, w);
    OneAccount(s, t, w, WorkerOf(t, w), v.batch[v.k]);
  }

  lemma RequeueAccounts(s: State, w: WorkerId, ok: bool)
    requires Tables(s) && Accounts(s) && Ownership(s)
    ensures Accounts(RequeueStep(s, w, ok))
  {
    var v := WorkerOf(s, w);
    if v.Requeueing? && InBatch(v) {
      CurrentAccounted(s, w);
      var t := RequeueStep(s, w, ok);
      AccountedAlike(s, t, w, WorkerOf(t, w), v.batch[v.k]);
      OneAccount(s, t, w, WorkerOf(t, w), v.batch[v.k]);
    }
  }

  lemma CrashAccounts(s: State, w: WorkerId)
    requires Tables(s) && Accounts(s) && Ownership(s)
    ensures Accounts(CrashStep(s, w))
  {
    var v := WorkerOf(s, w);
    if InBatch(v) {
      CurrentAccounted(s, w);
      CrashAccount(s, w);
    }
  }

  lemma CrashAccount(s: State, w: WorkerId)
    requires Tables(s) && Accounts(s) && InBatch(WorkerOf(s, w))
    requires var v := WorkerOf(s, w);
             v.batch[v.k] in s.status && Accounted(s, v.batch[v.k]) == if v.Delivered? then 1 else 0
    ensures Accounts(CrashStep(s, w))
  {
    var t, v := CrashStep(s, w), WorkerOf(s, w);
    var m := v.batch[v.k];
    if !v.Delivered? {
      AccountedAlike(s, t, w, Idle, m);
    }
    OneAccount(s, t, w, Idle, m);
  }

  lemma SameTables(s: State, t: State)
    requires Tables(s) && SameMessages(s, t)
    ensures Tables(t)
  {
    assert forall m :: m in t.status <==> m in s.status.Keys;
  }

  lemma AddTables(s: State, m: MessageId, kind: Kind)
    requires Tables(s) && m !in s.status
    ensures Tables(AddStep(s, m, kind))
  {
    assert m !in s.order;
  }

  lemma StepTables(s: State, e: Event)
    requires Tables(s)
    ensures Tables(Next(s, e))
  {
    if !e.Add? {
      SameTables(s, Next(s, e));
    } else if e.m !in s.status {
      AddTables(s, e.m, e.kind);
    }
  }

  lemma StepKeeps(s: State, e: Event)
    requires Inv(s)
    ensures Inv(Next(s, e))
  {
    StepTables(s, e);
    match e
    case Add(m, kind) =>
      if m !in s.status {
        AddOwns(s, Next(s, e), m);
        AddAccounts(s, m, kind);
      }
    case Take(w) =>
      if WorkerOf(s, w).Idle? && NextBatch(s) != [] {
        NextBatchContents(s);
        TakeOwns(s, Next(s, e), w, NextBatch(s));
        TakeAccounts(s, w);
      }
    case Send(w, ok) =>
      SendOwns(s, w, ok);
      SendAccounts(s, w, ok);
    case WriteSent(w, ok) =>
      WriteSentOwns(s, w, ok);
      WriteSentAccounts(s, w, ok);
    case Requeue(w, ok) =>
      RequeueOwns(s, w, ok);
      RequeueAccounts(s, w, ok);
    case Crash(w) =>
      CrashOwns(s, w);
      CrashAccounts(s, w);
  }

  // Whole runs

  lemma {:induction false} RunKeeps(s: State, events: seq<Event>)
    requires Inv(s)
    ensures Inv(Run(s, events))
    decreases |events|
  {
    if events != [] {
      StepKeeps(s, events[0]);
      RunKeeps(Next(s, events[0]), events[1..]);
    }
  }

  /** In every run, a message is processing exactly when it is stuck or held by a worker, never both, and the worker
      that holds it is the only one. */
  lemma OneOwner(events: seq<Event>, m: MessageId)
    requires m in Run(INIT, events).status
    ensures var s := Run(INIT, events);
            && (s.status[m] == Processing <==> m in s.stuck || exists w :: Holds(s, w, m))
            && !(m in s.stuck && exists w :: Holds(s, w, m))
            && forall v, w :: Holds(s, v, m) && Holds(s, w, m) ==> v == w
  {
    RunKeeps(INIT, events);
  }

  /** In every run, a sent message went out once for every failed write of its status and once more. */
  lemma DeliveredOncePlusFailures(events: seq<Event>, m: MessageId)
    requires m in Run(INIT, events).status
    ensures var s := Run(INIT, events);
            && m in s.delivered && m in s.failedWrites
            && (s.status[m] == Sent ==> s.delivered[m] == 1 + s.failedWrites[m])
            && (s.status[m] == Queued ==> s.delivered[m] == s.failedWrites[m])
            && s.failedWrites[m] <= s.delivered[m] <= 1 + s.failedWrites[m]
  {
    RunKeeps(INIT, events);
    var s := Run(INIT, events);
    if s.status[m] == Queued {
      assert forall w :: InFlight(s, w, m) ==> Holds(s, w, m);
    }
  }

  lemma SentNotCurrent(s: State, w: WorkerId, m: MessageId)
    requires Inv(s) && m in s.status && s.status[m] == Sent
    ensures m !in Held(WorkerOf(s, w)) && m !in NextBatch(s)
  {
    NextBatchContents(s);
    assert m in Held(WorkerOf(s, w)) ==> Holds(s, w, m);
  }

  /** The message keeps its status and its number of deliveries. */
  predicate Untouched(s: State, t: State, m: MessageId) {
    && (m in s.status ==> m in t.status && t.status[m] == s.status[m])
    && (m in s.delivered ==> m in t.delivered && t.delivered[m] == s.delivered[m])
  }

  lemma AddSpares(s: State, m: MessageId, n: MessageId, kind: Kind)
    requires m in s.status
    ensures s.status.Keys == s.delivered.Keys ==> Untouched(s, AddStep(s, n, kind), m)
  {
  }

  lemma TakeSpares(s: State, m: MessageId, w: WorkerId)
    requires m !in NextBatch(s)
    ensures Untouched(s, TakeStep(s, w), m)
  {
  }

  lemma SendSpares(s: State, m: MessageId, w: WorkerId, ok: bool)
    requires m !in Held(WorkerOf(s, w))
    ensures Untouched(s, SendStep(s, w, ok), m)
  {
    CurrentIsHeld(WorkerOf(s, w));
  }

  lemma WriteSentSpares(s: State, m: MessageId, w: WorkerId, ok: bool)
    requires m !in Held(WorkerOf(s, w))
    ensures Untouched(s, WriteSentStep(s, w, ok), m)
  {
    CurrentIsHeld(WorkerOf(s, w));
  }

  lemma RequeueSpares(s: State, m: MessageId, w: WorkerId, ok: bool)
    requires m !in Held(WorkerOf(s, w))
    ensures Untouched(s, RequeueStep(s, w, ok), m)
  {
    CurrentIsHeld(WorkerOf(s, w));
  }

  lemma CurrentIsHeld(v: Worker)
    ensures InBatch(v) ==> v.batch[v.k] in Held(v)
  {
    assert InBatch(v) ==> v.batch[v.k] == Held(v)[0];
  }

  lemma SentStays(s: State, e: Event, m: MessageId)
    requires Inv(s) && m in s.status && s.status[m] == Sent
    ensures Untouched(s, Next(s, e), m)
  {
    match e
    case Add(n, kind) => AddSpares(s, m, n, kind);
    case Take(w) =>
      SentNotCurrent(s, w, m);
      TakeSpares(s, m, w);
    case Send(w, ok) =>
      SentNotCurrent(s, w, m);
      SendSpares(s, m, w, ok);
    case WriteSent(w, ok) =>
      SentNotCurrent(s, w, m);
      WriteSentSpares(s, m, w, ok);
    case Requeue(w, ok) =>
      SentNotCurrent(s, w, m);
      RequeueSpares(s, m, w, ok);
    case Crash(_) =>
  }

  /** Sent is terminal: in every continuation a sent message stays sent and is not delivered again. */
  lemma {:induction false} SentIsTerminal(s: State, events: seq<Event>, m: MessageId)
    requires Inv(s) && m in s.status && s.status[m] == Sent
    ensures var t := Run(s, events);
            && m in t.status && t.status[m] == Sent && m in t.delivered && t.delivered[m] == s.delivered[m]
    decreases |events|
  {
    if events != [] {
      StepKeeps(s, events[0]);
      SentStays(s, events[0], m);
      SentIsTerminal(Next(s, events[0]), events[1..], m);
    }
  }

  /** Messages are only ever added, at the end. */
  lemma {:induction false} MessagesOnlyAdded(s: State, events: seq<Event>)
    ensures s.order <= Run(s, events).order && s.status.Keys <= Run(s, events).status.Keys
    decreases |events|
  {
    if events != [] {
      var t := Next(s, events[0]);
      assert s.order <= t.order && s.status.Keys <= t.status.Keys;
      MessagesOnlyAdded(t, events[1..]);
    }
  }

  predicate Loses(e: Event) {
    e.Crash? || (e.Requeue? && !e.ok)
  }

  lemma {:induction false} NothingStuck(s: State, events: seq<Event>)
    requires s.stuck == {} && forall i :: 0 <= i < |events| ==> !Loses(events[i])
    ensures Run(s, events).stuck == {}
    decreases |events|
  {
    if events != [] {
      assert !Loses(events[0]);
      NothingStuck(Next(s, events[0]), events[1..]);
    }
  }

  /** Without crashes and failed requeue writes no message is lost: it is queued, sent or held by one worker. */
  lemma NothingLost(events: seq<Event>, m: MessageId)
    requires m in Run(INIT, events).status && forall i :: 0 <= i < |events| ==> !Loses(events[i])
    ensures var s := Run(INIT, events);
            s.status[m] == Queued || s.status[m] == Sent || exists w :: Holds(s, w, m)
  {
    NothingStuck(INIT, events);
    OneOwner(events, m);
  }

  // Messages that are no emails

  /** Only an email is ever on its way or goes out. */
  ghost predicate OnlyEmails(s: State) {
    && (forall m :: m in s.kind && s.kind[m] != Email && m in s.delivered ==> s.delivered[m] == 0)
    && s.delivered.Keys == s.kind.Keys
  }

  lemma StepOnlyEmails(s: State, e: Event)
    requires OnlyEmails(s) && Tables(s)
    ensures OnlyEmails(Next(s, e))
  {
  }

  lemma {:induction false} RunOnlyEmails(s: State, events: seq<Event>)
    requires OnlyEmails(s) && Tables(s)
    ensures OnlyEmails(Run(s, events))
    decreases |events|
  {
    if events != [] {
      StepTables(s, events[0]);
      StepOnlyEmails(s, events[0]);
      RunOnlyEmails(Next(s, events[0]), events[1..]);
    }
  }

  /** In every run, a message of an unexpected type never goes out and never becomes sent. */
  lemma UnexpectedNeverSent(events: seq<Event>, m: MessageId)
    requires var s := Run(INIT, events); m in s.status && m in s.kind && s.kind[m] == Unexpected
    ensures var s := Run(INIT, events); m in s.delivered && s.delivered[m] == 0 && s.status[m] != Sent
  {
    RunKeeps(INIT, events);
    RunOnlyEmails(INIT, events);
    DeliveredOncePlusFailures(events, m);
  }
}
