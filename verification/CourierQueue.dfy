/** One courier instance: `DispatchQueue` as its loops run it, proved to be a run of the protocol and to settle its
    batch as a sent prefix and a queued suffix. */
module CourierQueue {
  import opened Basics
  import opened CourierProtocol

  /** How the calls of one `DispatchQueue` turn out. Each message is sent, recorded and requeued at most once in it. */
  datatype Outcomes = Outcomes(
    send: MessageId -> bool,
    writeSent: MessageId -> bool,
    requeue: MessageId -> bool)

  predicate IsEmail(s: State, m: MessageId) {
    m in s.kind && s.kind[m] == Email
  }

  predicate Goes(s: State, o: Outcomes, m: MessageId) {
    IsEmail(s, m) && o.send(m)
  }

  /** `DispatchMessage` returns no error. */
  predicate Succeeds(s: State, o: Outcomes, m: MessageId) {
    Goes(s, o, m) && o.writeSent(m)
  }

  /** How many messages of the batch are dispatched before the first error. */
  function Cut(s: State, o: Outcomes, batch: seq<MessageId>): (k: nat)
    ensures k <= |batch|
    ensures forall i :: 0 <= i < k ==> Succeeds(s, o, batch[i])
    ensures k < |batch| ==> !Succeeds(s, o, batch[k])
  {
    if batch == [] || !Succeeds(s, o, batch[0]) then 0 else 1 + Cut(s, o, batch[1..])
  }

  /** Statuses when the first k messages of the batch are sent and the rest of it is processing. */
  function SentStatus(status: map<MessageId, Status>, batch: seq<MessageId>, k: nat): map<MessageId, Status>
    requires k <= |batch|
  {
    map m | m in status :: if m in batch[..k] then Sent else if m in batch then Processing else status[m]
  }

  /** Statuses when the given messages have been reset to queued, as far as that worked. */
  function ResetStatus(status: map<MessageId, Status>, ms: seq<MessageId>, o: Outcomes): map<MessageId, Status> {
    map m | m in status :: if m in ms && o.requeue(m) then Queued else status[m]
  }

  function BumpAll(counts: map<MessageId, nat>, ms: seq<MessageId>): map<MessageId, nat> {
    map m | m in counts :: counts[m] + if m in ms then 1 else 0
  }

  function Lost(ms: seq<MessageId>, o: Outcomes): set<MessageId> {
    set m | m in ms && !o.requeue(m)
  }

  /** The state when the first k messages of w's batch are sent and the rest is still processing. */
  function AfterSent(s: State, w: WorkerId, batch: seq<MessageId>, k: nat): State
    requires k <= |batch|
  {
    s.(status := SentStatus(s.status, batch, k),
       delivered := BumpAll(s.delivered, batch[..k]),
       workers := s.workers[w := if k < |batch| then Dispatching(batch, k) else Idle])
  }

  /** The state when message k of w's batch failed and the messages from k up to j have been reset. */
  function AfterReset(s: State, w: WorkerId, o: Outcomes, batch: seq<MessageId>, k: nat, j: nat): State
    requires k <= j <= |batch| && k < |batch|
  {
    var delivered := BumpAll(s.delivered, batch[..k]);
    var out := Goes(s, o, batch[k]);
    s.(status := ResetStatus(SentStatus(s.status, batch, k), batch[k..j], o),
       delivered := if out then Bump(delivered, batch[k]) else delivered,
       failedWrites := if out then Bump(s.failedWrites, batch[k]) else s.failedWrites,
       stuck := s.stuck + Lost(batch[k..j], o),
       workers := s.workers[w := if j < |batch| then Requeueing(batch, j) else Idle])
  }

  /** The state after dispatching a batch that was just taken. */
  function SettledBatch(s: State, w: WorkerId, o: Outcomes, batch: seq<MessageId>): State {
    var k := Cut(s, o, batch);
    if k == |batch| then AfterSent(s, w, batch, k) else AfterReset(s, w, o, batch, k, |batch|)
  }

  /** The state after a whole `DispatchQueue`. */
  function Settled(s: State, w: WorkerId, o: Outcomes): State {
    if NextBatch(s) == [] then s else SettledBatch(s, w, o, NextBatch(s))
  }

  lemma SlicesGrow(batch: seq<MessageId>, i: nat, k: nat)
    requires Distinct(batch) && i <= k < |batch|
    ensures batch[i..k + 1] == batch[i..k] + [batch[k]]
    ensures batch[k] !in batch[i..k]
  {
  }

  lemma NextBatchDistinct(s: State)
    requires Distinct(s.order)
    ensures Distinct(NextBatch(s))
  {
    QueuedInContents(s.order, s.status);
  }

  lemma TakeIs(s: State, w: WorkerId)
    requires WorkerOf(s, w).Idle? && NextBatch(s) != []
    ensures Next(s, Take(w)) == AfterSent(s, w, NextBatch(s), 0)
  {
    NothingSent(s.status, s.delivered, NextBatch(s));
  }

  lemma NothingSent(status: map<MessageId, Status>, delivered: map<MessageId, nat>, batch: seq<MessageId>)
    ensures SentStatus(status, batch, 0) == Write(status, batch, Processing)
    ensures BumpAll(delivered, batch[..0]) == delivered
  {
    assert batch[..0] == [];
  }

  lemma OneMoreSent(status: map<MessageId, Status>, delivered: map<MessageId, nat>, batch: seq<MessageId>, k: nat)
    requires Distinct(batch) && k < |batch|
    ensures Write(SentStatus(status, batch, k), [batch[k]], Sent) == SentStatus(status, batch, k + 1)
    ensures Bump(BumpAll(delivered, batch[..k]), batch[k]) == BumpAll(delivered, batch[..k + 1])
  {
    SlicesGrow(batch, 0, k);
    assert batch[..k + 1] == batch[..k] + [batch[k]] && batch[..k] == batch[0..k];
  }

  /** Sending and recording one message moves the sent prefix on by one. */
  lemma DispatchIs(s: State, w: WorkerId, batch: seq<MessageId>, k: nat)
    requires Distinct(batch) && k < |batch| && IsEmail(s, batch[k])
    ensures var t := AfterSent(s, w, batch, k);
            Next(Next(t, Send(w, true)), WriteSent(w, true)) == AfterSent(s, w, batch, k + 1)
  {
    OneMoreSent(s.status, s.delivered, batch, k);
    var t := AfterSent(s, w, batch, k);
    var u := SendStep(t, w, true);
    assert u == t.(workers := s.workers[w := Delivered(batch, k)], delivered := Bump(t.delivered, batch[k]));
    assert WriteSentStep(u, w, true).workers == AfterSent(s, w, batch, k + 1).workers;
  }

  lemma NothingReset(status: map<MessageId, Status>, batch: seq<MessageId>, k: nat, o: Outcomes)
    requires k <= |batch|
    ensures ResetStatus(status, batch[k..k], o) == status && Lost(batch[k..k], o) == {}
  {
    assert batch[k..k] == [];
  }

  /** A send that fails, or is not tried, starts the reset at the same message. */
  lemma SendFailureIs(s: State, w: WorkerId, o: Outcomes, batch: seq<MessageId>, k: nat)
    requires k < |batch| && !Goes(s, o, batch[k])
    ensures Next(AfterSent(s, w, batch, k), Send(w, o.send(batch[k]))) == AfterReset(s, w, o, batch, k, k)
  {
    NothingReset(SentStatus(s.status, batch, k), batch, k, o);
  }

  lemma SendIs(t: State, w: WorkerId, batch: seq<MessageId>, k: nat)
    requires WorkerOf(t, w) == Dispatching(batch, k) && k < |batch| && IsEmail(t, batch[k])
    ensures SendStep(t, w, true)
         == t.(workers := t.workers[w := Delivered(batch, k)], delivered := Bump(t.delivered, batch[k]))
  {
  }

  lemma WriteSentFails(t: State, w: WorkerId, batch: seq<MessageId>, k: nat)
    requires WorkerOf(t, w) == Delivered(batch, k) && k < |batch|
    ensures WriteSentStep(t, w, false)
         == t.(workers := t.workers[w := Requeueing(batch, k)], failedWrites := Bump(t.failedWrites, batch[k]))
  {
  }

  /** So does a failed status write after a send. */
  lemma WriteFailureIs(s: State, w: WorkerId, o: Outcomes, batch: seq<MessageId>, k: nat)
    requires k < |batch| && Goes(s, o, batch[k])
    ensures var t := AfterSent(s, w, batch, k);
            Next(Next(t, Send(w, true)), WriteSent(w, false)) == AfterReset(s, w, o, batch, k, k)
  {
    NothingReset(SentStatus(s.status, batch, k), batch, k, o);
    var t := AfterSent(s, w, batch, k);
    SendIs(t, w, batch, k);
    WriteSentFails(SendStep(t, w, true), w, batch, k);
  }

  lemma OneMoreReset(status: map<MessageId, Status>, batch: seq<MessageId>, k: nat, j: nat, o: Outcomes)
    requires Distinct(batch) && k <= j < |batch|
    ensures var now, after := ResetStatus(status, batch[k..j], o), ResetStatus(status, batch[k..j + 1], o);
            after == if o.requeue(batch[j]) then Write(now, [batch[j]], Queued) else now
    ensures Lost(batch[k..j + 1], o) == Lost(batch[k..j], o) + if o.requeue(batch[j]) then {} else {batch[j]}
  {
    SlicesGrow(batch, k, j);
  }

  lemma RequeueIs(t: State, w: WorkerId, batch: seq<MessageId>, j: nat, ok: bool)
    requires WorkerOf(t, w) == Requeueing(batch, j) && j < |batch|
    ensures Next(t, Requeue(w, ok)) ==
            t.(status := if ok then Write(t.status, [batch[j]], Queued) else t.status,
               stuck := t.stuck + (if ok then {} else {batch[j]}),
               workers := t.workers[w := if j + 1 < |batch| then Requeueing(batch, j + 1) else Idle])
  {
  }

  lemma ResetIs(s: State, w: WorkerId, o: Outcomes, batch: seq<MessageId>, k: nat, j: nat)
    requires Distinct(batch) && k <= j < |batch|
    ensures Next(AfterReset(s, w, o, batch, k, j), Requeue(w, o.requeue(batch[j]))) ==
            AfterReset(s, w, o, batch, k, j + 1)
  {
    var t, goal := AfterReset(s, w, o, batch, k, j), AfterReset(s, w, o, batch, k, j + 1);
    RequeueIs(t, w, batch, j, o.requeue(batch[j]));
    OneMoreReset(SentStatus(s.status, batch, k), batch, k, j, o);
    assert goal.stuck == t.stuck + (if o.requeue(batch[j]) then {} else {batch[j]});
    assert goal.workers == t.workers[w := if j + 1 < |batch| then Requeueing(batch, j + 1) else Idle];
  }

  lemma {:induction false} RunAppend(s: State, a: seq<Event>, b: seq<Event>)
    ensures Run(s, a + b) == Run(Run(s, a), b)
    decreases |a|
  {
    if a == [] {
      assert a + b == b;
    } else {
      assert (a + b)[0] == a[0] && (a + b)[1..] == a[1..] + b;
      RunAppend(Next(s, a[0]), a[1..], b);
    }
  }

  lemma RunCons(s: State, e: Event, rest: seq<Event>)
    ensures Run(s, [e] + rest) == Run(Next(s, e), rest)
  {
    assert ([e] + rest)[1..] == rest;
  }

  lemma RunOne(s: State, a: seq<Event>, e: Event)
    ensures Run(s, a + [e]) == Next(Run(s, a), e)
  {
    RunAppend(s, a, [e]);
    assert Run(Run(s, a), [e]) == Next(Run(s, a), e);
  }

  /** A courier instance and the table it shares. */
  class Courier {
    var s: State
    const me: WorkerId
    const host: string

    constructor (me: WorkerId, host: string)
      ensures s == INIT && this.me == me && this.host == host
    {
      this.me, this.host := me, host;
      s := INIT;
    }

    /** One call to the persister or the SMTP server: a step of the protocol. */
    method Call(e: Event)
      modifies this
      ensures s == Next(old(s), e)
    {
      s := Next(s, e);
    }

    /** `QueueEmail`: a message whose template renders joins the end of the queue, under an identifier of its own. */
    method QueueEmail(m: MessageId, renders: bool) returns (ok: bool)
      requires Inv(s) && m !in s.status
      modifies this
      ensures Inv(s) && ok == renders
      ensures !ok ==> s == old(s)
      ensures ok ==> s.order == old(s.order) + [m] && s.status == old(s.status)[m := Queued]
      ensures ok ==> Queue(s) == old(Queue(s)) + [m] && IsEmail(s, m)
    {
      ok := renders;
      if ok {
        StepKeeps(s, Add(m, Email));
        QueuedLast(s.order, s.status, m);
        Call(Add(m, Email));
      }
    }

    /** `DispatchMessage` for message k of the batch taken from `table`. */
    method DispatchMessage(ghost table: State, batch: seq<MessageId>, k: nat, o: Outcomes) returns (ok: bool)
      requires Distinct(batch) && k < |batch| && s == AfterSent(table, me, batch, k)
      modifies this
      ensures ok == Succeeds(table, o, batch[k])
      ensures ok <==> batch[k] in table.kind && table.kind[batch[k]] == Email && o.send(batch[k]) && o.writeSent(batch[k])
      ensures s == if ok then AfterSent(table, me, batch, k + 1) else AfterReset(table, me, o, batch, k, k)
    {
      var m := batch[k];
      if m in s.kind && s.kind[m] == Email {
        Call(Send(me, o.send(m)));
        if !o.send(m) {
          SendFailureIs(table, me, o, batch, k);
          return false;
        }
        Call(WriteSent(me, o.writeSent(m)));
        if !o.writeSent(m) {
          WriteFailureIs(table, me, o, batch, k);
          return false;
        }
        DispatchIs(table, me, batch, k);
        return true;
      }
      SendFailureIs(table, me, o, batch, k);
      Call(Send(me, o.send(m)));
      return false;
    }

    method ResetOne(ghost table: State, messages: seq<MessageId>, ghost k: nat, j: nat, o: Outcomes)
      requires Distinct(messages) && k <= j < |messages| && s == AfterReset(table, me, o, messages, k, j)
      modifies this
      ensures s == AfterReset(table, me, o, messages, k, j + 1)
    {
      ResetIs(table, me, o, messages, k, j);
      Call(Requeue(me, o.requeue(messages[j])));
    }

    /** The inner loop of `DispatchQueue`: reset message k and all that follow it. */
    method ResetFrom(ghost table: State, messages: seq<MessageId>, k: nat, o: Outcomes)
      requires Distinct(messages) && k < |messages| && s == AfterReset(table, me, o, messages, k, k)
      modifies this
      ensures s == AfterReset(table, me, o, messages, k, |messages|)
    {
      var j := k;
      while j < |messages|
        invariant k <= j <= |messages| && s == AfterReset(table, me, o, messages, k, j)
      {
        ResetOne(table, messages, k, j, o);
        j := j + 1;
      }
    }

    /** The outer loop of `DispatchQueue` over a batch that was just taken from `table`. */
    method DispatchBatch(ghost table: State, messages: seq<MessageId>, o: Outcomes) returns (failed: bool)
      requires Distinct(messages) && s == AfterSent(table, me, messages, 0)
      modifies this
      ensures s == SettledBatch(table, me, o, messages)
      ensures failed <==> Cut(table, o, messages) < |messages|
    {
      var k := 0;
      while k < |messages|
        invariant 0 <= k <= |messages| && s == AfterSent(table, me, messages, k)
        invariant forall i :: 0 <= i < k ==> Succeeds(table, o, messages[i])
      {
        var ok := DispatchMessage(table, messages, k, o);
        if !ok {
          ResetFrom(table, messages, k, o);
          CutIs(table, o, messages, k);
          return true;
        }
        k := k + 1;
      }
      CutIs(table, o, messages, k);
      return false;
    }

    /** `DispatchQueue`. `next` says whether `NextMessages` could read the table. */
    method DispatchQueue(next: bool, o: Outcomes) returns (failed: bool)
      requires Distinct(s.order) && WorkerOf(s, me).Idle?
      modifies this
      ensures host == "" || !next ==> failed && s == old(s)
      ensures host != "" && next ==> s == Settled(old(s), me, o)
      ensures host != "" && next ==> (failed <==> Cut(old(s), o, NextBatch(old(s))) < |NextBatch(old(s))|)
    {
      if host == "" || !next {
        return true;
      }
      var messages := NextBatch(s);
      if messages == [] {
        return false;
      }
      NextBatchDistinct(s);
      TakeIs(s, me);
      ghost var table := s;
      Call(Take(me));
      failed := DispatchBatch(table, messages, o);
    }
  }

  lemma CutIs(s: State, o: Outcomes, batch: seq<MessageId>, k: nat)
    requires k <= |batch| && forall i :: 0 <= i < k ==> Succeeds(s, o, batch[i])
    requires k < |batch| ==> !Succeeds(s, o, batch[k])
    ensures Cut(s, o, batch) == k
  {
    var c := Cut(s, o, batch);
    assert forall i :: 0 <= i < c || 0 <= i < k ==> Succeeds(s, o, batch[i]);
  }

  lemma {:induction false} QueuedLast(order: seq<MessageId>, status: map<MessageId, Status>, m: MessageId)
    requires m !in order
    ensures QueuedIn(order + [m], status[m := Queued]) == QueuedIn(order, status) + [m]
  {
    if order == [] {
      assert order + [m] == [m] && [m][1..] == [];
    } else {
      assert (order + [m])[1..] == order[1..] + [m];
      QueuedLast(order[1..], status, m);
    }
  }

  // A whole call is a run of the protocol

  predicate By(w: WorkerId, events: seq<Event>) {
    forall i :: 0 <= i < |events| ==> !events[i].Add? && !events[i].Crash? && events[i].w == w
  }

  lemma {:induction false} SentRun(s: State, w: WorkerId, o: Outcomes, batch: seq<MessageId>, k: nat)
    returns (events: seq<Event>)
    requires Distinct(batch) && k <= |batch| && forall i :: 0 <= i < k ==> Succeeds(s, o, batch[i])
    ensures By(w, events) && Run(AfterSent(s, w, batch, 0), events) == AfterSent(s, w, batch, k)
    decreases k
  {
    if k == 0 {
      events := [];
    } else {
      var before := SentRun(s, w, o, batch, k - 1);
      DispatchIs(s, w, batch, k - 1);
      var first := AfterSent(s, w, batch, 0);
      RunOne(first, before, Send(w, true));
      RunOne(first, before + [Send(w, true)], WriteSent(w, true));
      events := before + [Send(w, true)] + [WriteSent(w, true)];
    }
  }

  lemma {:induction false} ResetRun(s: State, w: WorkerId, o: Outcomes, batch: seq<MessageId>, k: nat, j: nat)
    returns (events: seq<Event>)
    requires Distinct(batch) && k <= j <= |batch| && k < |batch|
    ensures By(w, events) && Run(AfterReset(s, w, o, batch, k, k), events) == AfterReset(s, w, o, batch, k, j)
    decreases j
  {
    if j == k {
      events := [];
    } else {
      var before := ResetRun(s, w, o, batch, k, j - 1);
      ResetIs(s, w, o, batch, k, j - 1);
      RunOne(AfterReset(s, w, o, batch, k, k), before, Requeue(w, o.requeue(batch[j - 1])));
      events := before + [Requeue(w, o.requeue(batch[j - 1]))];
    }
  }

  lemma FailureRun(s: State, w: WorkerId, o: Outcomes, batch: seq<MessageId>, k: nat) returns (events: seq<Event>)
    requires Distinct(batch) && k < |batch| && !Succeeds(s, o, batch[k])
    ensures By(w, events) && Run(AfterSent(s, w, batch, k), events) == AfterReset(s, w, o, batch, k, k)
  {
    var t := AfterSent(s, w, batch, k);
    if Goes(s, o, batch[k]) {
      WriteFailureIs(s, w, o, batch, k);
      RunOne(t, [], Send(w, true));
      RunOne(t, [] + [Send(w, true)], WriteSent(w, false));
      events := [] + [Send(w, true)] + [WriteSent(w, false)];
    } else {
      SendFailureIs(s, w, o, batch, k);
      RunOne(t, [], Send(w, o.send(batch[k])));
      events := [] + [Send(w, o.send(batch[k]))];
    }
  }

  lemma BatchRun(s: State, w: WorkerId, o: Outcomes, batch: seq<MessageId>) returns (events: seq<Event>)
    requires Distinct(batch)
    ensures By(w, events) && Run(AfterSent(s, w, batch, 0), events) == SettledBatch(s, w, o, batch)
  {
    var taken, k := AfterSent(s, w, batch, 0), Cut(s, o, batch);
    events := SentRun(s, w, o, batch, k);
    if k < |batch| {
      var failed := FailureRun(s, w, o, batch, k);
      var reset := ResetRun(s, w, o, batch, k, |batch|);
      RunAppend(taken, events, failed);
      RunAppend(taken, events + failed, reset);
      events := events + failed + reset;
    }
  }

  /** `DispatchQueue` of worker w is a run of w's own steps, so whatever holds of all runs holds after it. */
  lemma SettledIsRun(s: State, w: WorkerId, o: Outcomes) returns (events: seq<Event>)
    requires Distinct(s.order) && WorkerOf(s, w).Idle?
    ensures By(w, events) && Run(s, events) == Settled(s, w, o)
  {
    var batch := NextBatch(s);
    if batch == [] {
      return [];
    }
    NextBatchDistinct(s);
    TakeIs(s, w);
    var rest := BatchRun(s, w, o, batch);
    RunCons(s, Take(w), rest);
    return [Take(w)] + rest;
  }

  lemma SettledKeeps(s: State, w: WorkerId, o: Outcomes)
    requires Inv(s) && WorkerOf(s, w).Idle?
    ensures Inv(Settled(s, w, o))
  {
    var events := SettledIsRun(s, w, o);
    RunKeeps(s, events);
  }

  // What a whole call means

  /** A call whose requeue writes succeed leaves its batch as a sent prefix and a queued suffix, in order. Every other
      message keeps its status, nothing new is stuck and the worker is idle again. */
  lemma SentPrefixQueuedSuffix(s: State, w: WorkerId, o: Outcomes, batch: seq<MessageId>)
    requires Distinct(batch) && forall n :: o.requeue(n)
    ensures var t := SettledBatch(s, w, o, batch);
            var k := Cut(s, o, batch);
            && SplitStatus(s.status, t.status, batch[..k], batch[k..])
            && t.order == s.order && t.stuck == s.stuck && t.workers == s.workers[w := Idle]
  {
    var k := Cut(s, o, batch);
    SentSplit(s.status, batch, k, o);
    if k < |batch| {
      assert batch[k..|batch|] == batch[k..];
      assert s.stuck + Lost(batch[k..], o) == s.stuck;
    }
  }

  /** Whatever fails: the messages before the first that did not succeed are sent; from it on each is queued if its
      requeue write succeeded, and otherwise left processing and stuck; all others keep their status. Every message that
      was sent went out once more, and so did the first failing one if only its status write failed. */
  lemma BatchSettles(s: State, w: WorkerId, o: Outcomes, batch: seq<MessageId>, m: MessageId)
    requires Distinct(batch) && m in s.status && m in s.delivered
    ensures var t := SettledBatch(s, w, o, batch);
            var k := Cut(s, o, batch);
            && m in t.status && m in t.delivered && t.workers == s.workers[w := Idle]
            && t.status[m] == (if m in batch[..k] then Sent
                               else if m in batch[k..] then (if o.requeue(m) then Queued else Processing)
                               else s.status[m])
            && (m in t.stuck <==> m in s.stuck || (m in batch[k..] && !o.requeue(m)))
            && t.delivered[m]
               == s.delivered[m]
                  + if m in batch[..k] || (k < |batch| && m == batch[k] && IsEmail(s, m) && o.send(m)) then 1 else 0
  {
    var k := Cut(s, o, batch);
    DistinctCut(batch, k);
    if k < |batch| {
      assert batch[k..|batch|] == batch[k..];
      assert batch[k] in batch[k..];
    }
  }

  /** The listed messages became sent and queued; all others kept their status. */
  ghost predicate SplitStatus(was: map<MessageId, Status>, now: map<MessageId, Status>,
                              sent: seq<MessageId>, queued: seq<MessageId>)
  {
    && now.Keys == was.Keys
    && forall m :: m in was ==>
         now[m] == if m in sent then Sent else if m in queued then Queued else was[m]
  }

  lemma SentSplit(status: map<MessageId, Status>, batch: seq<MessageId>, k: nat, o: Outcomes)
    requires Distinct(batch) && k <= |batch| && forall n :: o.requeue(n)
    ensures SplitStatus(status, ResetStatus(SentStatus(status, batch, k), batch[k..], o), batch[..k], batch[k..])
    ensures k == |batch| ==> SplitStatus(status, SentStatus(status, batch, k), batch[..k], batch[k..])
  {
    DistinctCut(batch, k);
  }

  /** Settling the first k queued messages, whatever becomes of them, takes them off the front of the queue. */
  lemma {:induction false} QueueDrops(order: seq<MessageId>, was: map<MessageId, Status>, now: map<MessageId, Status>, k: nat)
    requires Distinct(order) && was.Keys == now.Keys && k <= |QueuedIn(order, was)|
    requires forall m :: m in order && m in was ==>
               if m in QueuedIn(order, was)[..k] then now[m] != Queued else now[m] == Queued <==> was[m] == Queued
    ensures QueuedIn(order, now) == QueuedIn(order, was)[k..]
  {
    if order != [] {
      var m, rest := order[0], order[1..];
      var q := QueuedIn(rest, was);
      assert Distinct(rest);
      QueuedInContents(rest, was);
      assert m !in rest && m !in q;
      if m in was && was[m] == Queued {
        assert QueuedIn(order, was) == [m] + q;
        if k == 0 {
          QueueDrops(rest, was, now, 0);
        } else {
          assert ([m] + q)[..k] == [m] + q[..k - 1];
          QueueDrops(rest, was, now, k - 1);
        }
      } else {
        assert m !in q[..k];
        QueueDrops(rest, was, now, k);
      }
    }
  }

  lemma SplitDrops(order: seq<MessageId>, was: map<MessageId, Status>, now: map<MessageId, Status>,
                   sent: seq<MessageId>, queued: seq<MessageId>, k: nat)
    requires Distinct(order) && SplitStatus(was, now, sent, queued)
    requires k <= |QueuedIn(order, was)| && sent == QueuedIn(order, was)[..k]
    requires forall m :: m in queued ==> m in QueuedIn(order, was)
    ensures QueuedIn(order, now) == QueuedIn(order, was)[k..]
  {
    QueuedInContents(order, was);
    QueueDrops(order, was, now, k);
  }

  /** A call whose requeue writes succeed takes exactly its sent messages off the front of the queue. */
  lemma QueueAfter(s: State, w: WorkerId, o: Outcomes)
    requires Distinct(s.order) && forall n :: o.requeue(n)
    ensures Queue(Settled(s, w, o)) == Queue(s)[Cut(s, o, NextBatch(s))..]
  {
    var batch := NextBatch(s);
    if batch != [] {
      var k := Cut(s, o, batch);
      QueuedInContents(s.order, s.status);
      SentPrefixQueuedSuffix(s, w, o, batch);
      assert batch[..k] == Queue(s)[..k];
      assert forall m :: m in batch[k..] ==> m in Queue(s);
      SplitDrops(s.order, s.status, SettledBatch(s, w, o, batch).status, batch[..k], batch[k..], k);
    }
  }

  const ALL_WELL := Outcomes(m => true, m => true, m => true)

  /** The state after n calls in a row in which nothing fails. */
  function Calls(s: State, w: WorkerId, n: nat): State
    decreases n
  {
    if n == 0 then s else Calls(Settled(s, w, ALL_WELL), w, n - 1)
  }

  ghost predicate AllEmails(s: State) {
    forall m :: m in s.order ==> IsEmail(s, m)
  }

  lemma CallSendsBatch(s: State, w: WorkerId)
    requires Distinct(s.order) && AllEmails(s)
    ensures var t := Settled(s, w, ALL_WELL);
            && t.order == s.order && AllEmails(t)
            && Queue(t) == Queue(s)[|NextBatch(s)|..]
  {
    QueuedInContents(s.order, s.status);
    var batch := NextBatch(s);
    assert forall i :: 0 <= i < |batch| ==> batch[i] in Queue(s);
    CutIs(s, ALL_WELL, batch, |batch|);
    QueueAfter(s, w, ALL_WELL);
  }

  /** What is left of a queue after n batches. */
  function Rest(q: seq<MessageId>, n: nat): seq<MessageId> {
    if 10 * n <= |q| then q[10 * n..] else []
  }

  lemma RestAfterBatch(q: seq<MessageId>, taken: nat, n: nat)
    requires taken == (if |q| <= 10 then |q| else 10) && n > 0
    ensures Rest(q[taken..], n - 1) == Rest(q, n)
  {
  }

  lemma RestEmpty(q: seq<MessageId>, n: nat)
    ensures Rest(q, n) == [] <==> |q| <= 10 * n
  {
  }

  lemma {:induction false} CallsLeave(s: State, w: WorkerId, n: nat)
    requires Distinct(s.order) && AllEmails(s)
    ensures Queue(Calls(s, w, n)) == Rest(Queue(s), n)
    decreases n
  {
    if n > 0 {
      CallSendsBatch(s, w);
      CallsLeave(Settled(s, w, ALL_WELL), w, n - 1);
      RestAfterBatch(Queue(s), |NextBatch(s)|, n);
    }
  }

  /** Without failures n calls take the first 10n messages off the queue, in order. In particular the queue is empty
      after n calls exactly when it held at most 10n messages. */
  lemma CallsDrain(s: State, w: WorkerId, n: nat)
    requires Distinct(s.order) && AllEmails(s)
    ensures var q := Queue(s);
            && Queue(Calls(s, w, n)) == (if 10 * n <= |q| then q[10 * n..] else [])
            && (Queue(Calls(s, w, n)) == [] <==> |q| <= 10 * n)
  {
    CallsLeave(s, w, n);
    RestEmpty(Queue(s), n);
  }
}
