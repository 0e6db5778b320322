/** The distributed queue (RedisQueue in internal/engine/queue.go) over abstract Redis state: a
    sorted set of waiting tasks, a hash of tasks being processed and a dead-letter list. */
module RedisQueue {
  import opened Reachability
  import opened Tasks

  /** `waiting` lists the sorted set in ascending score order. */
  datatype RedisState = RedisState(waiting: seq<Task>, processing: map<Id, Task>, dead: seq<Task>)

  datatype RedisOp = Enqueue(task: Task, freshId: Id) | Dequeue | Ack(id: Id) | Nack(id: Id) | Reprocess(count: int)

  datatype RedisReply = Done | Got(task: Task) | Nothing | NotFound | Moved(count: nat)

  datatype RedisStepped = RedisStepped(state: RedisState, reply: RedisReply)

  const SECOND := 1000000000

  /** Enqueue time minus a second for every unit of priority; the lowest score is served first. */
  function Score(t: Task): int {
    t.createdAt - t.priority * SECOND
  }

  /** ZADD: a member already present keeps its place, since its score is part of it. */
  function ZAdd(z: seq<Task>, t: Task): seq<Task> {
    if t in z then z else InsertByScore(z, t)
  }

  function InsertByScore(z: seq<Task>, t: Task): seq<Task> {
    if z == [] then [t]
    else if Score(t) < Score(z[0]) then [t] + z
    else [z[0]] + InsertByScore(z[1..], t)
  }

  function EnqueueStep(s: RedisState, t: Task, freshId: Id, now: nat): RedisState {
    s.(waiting := ZAdd(s.waiting, Accepted(t, freshId, now)))
  }

  function DequeueStep(s: RedisState): RedisStepped {
    if s.waiting == [] then RedisStepped(s, Nothing)
    else RedisStepped(s.(waiting := s.waiting[1..], processing := s.processing[s.waiting[0].id := s.waiting[0]]), Got(s.waiting[0]))
  }

  function NackStep(s: RedisState, id: Id, now: nat): RedisStepped {
    if id !in s.processing then RedisStepped(s, NotFound)
    else
      var t := s.processing[id].(retryCount := s.processing[id].retryCount + 1);
      var s' := s.(processing := s.processing - {id});
      RedisStepped(if t.retryCount > t.maxRetries then s'.(dead := [t] + s.dead)
                   else EnqueueStep(s', t.(priority := t.priority - 1), t.id, now), Done)
  }

  /** The oldest dead letter goes back to the queue with its retry count cleared. */
  function ReviveOne(s: RedisState, now: nat): RedisState
    requires s.dead != []
  {
    var t := s.dead[|s.dead| - 1];
    EnqueueStep(s.(dead := s.dead[..|s.dead| - 1]), t.(retryCount := 0), t.id, now)
  }

  function Revive(s: RedisState, count: int, now: nat): (r: RedisStepped)
    ensures r.reply.Moved?
    decreases |s.dead|
  {
    if count <= 0 || s.dead == [] then RedisStepped(s, Moved(0))
    else
      var rest := Revive(ReviveOne(s, now), count - 1, now);
      RedisStepped(rest.state, Moved(rest.reply.count + 1))
  }

  function Step(s: RedisState, op: RedisOp, now: nat): RedisStepped {
    match op
    case Enqueue(t, freshId) => RedisStepped(EnqueueStep(s, t, freshId, now), Done)
    case Dequeue => DequeueStep(s)
    case Ack(id) => RedisStepped(s.(processing := s.processing - {id}), Done)
    case Nack(id) => NackStep(s, id, now)
    case Reprocess(count) => Revive(s, count, now)
  }

  /** The client: each method issues its commands in the order of the code. */
  class RedisQueue {
    var waiting: seq<Task>
    var processing: map<Id, Task>
    var dead: seq<Task>

    function State(): RedisState
      reads this
    {
      RedisState(waiting, processing, dead)
    }

    method Enqueue(task: Task, freshId: Id, now: nat)
      modifies this`waiting
      ensures State() == EnqueueStep(old(State()), task, freshId, now)
    {
      var t := Accepted(task, freshId, now);
      if t in waiting {
        return;
      }
      for i := 0 to |waiting|
        invariant waiting == old(waiting)
        invariant InsertByScore(waiting, t) == waiting[..i] + InsertByScore(waiting[i..], t)
      {
        if Score(t) < Score(waiting[i]) {
          waiting := waiting[..i] + ([t] + waiting[i..]);
          return;
        }
        assert waiting[i..] == [waiting[i]] + waiting[i + 1..];
      }
      waiting := waiting + [t];
    }

    method Dequeue() returns (r: RedisReply)
      modifies this
      ensures RedisStepped(State(), r) == DequeueStep(old(State()))
    {
      if |waiting| == 0 {
        return Nothing;
      }
      var task := waiting[0];
      waiting := waiting[1..];
      processing := processing[task.id := task];
      return Got(task);
    }

    method Ack(id: Id)
      modifies this`processing
      ensures State() == Step(old(State()), RedisOp.Ack(id), 0).state
    {
      processing := processing - {id};
    }

    method Nack(id: Id, now: nat) returns (r: RedisReply)
      modifies this
      ensures RedisStepped(State(), r) == NackStep(old(State()), id, now)
    {
      if id !in processing {
        return NotFound;
      }
      var task := processing[id];
      processing := processing - {id};
      task := task.(retryCount := task.retryCount + 1);
      if task.retryCount > task.maxRetries {
        dead := [task] + dead;
        return Done;
      }
      task := task.(priority := task.priority - 1);
      Enqueue(task, task.id, now);
      return Done;
    }

    method ReprocessDeadLetter(count: int, now: nat) returns (processed: nat)
      modifies this
      ensures RedisStepped(State(), Moved(processed)) == Revive(old(State()), count, now)
    {
      processed := 0;
      var i := 0;
      while i < count && |dead| > 0
        invariant 0 <= i && processed == i
        invariant Revive(old(State()), count, now) ==
                  RedisStepped(Revive(State(), count - i, now).state, Moved(Revive(State(), count - i, now).reply.count + i))
        decreases |dead|
      {
        var task := dead[|dead| - 1];
        dead := dead[..|dead| - 1];
        task := task.(retryCount := 0);
        Enqueue(task, task.id, now);
        processed := processed + 1;
        i := i + 1;
      }
    }
  }

  // ---- Accounting ----

  function Live(s: RedisState): multiset<Id> {
    IdsOf(s.waiting) + multiset(s.processing.Keys) + IdsOf(s.dead)
  }

  /** The queue with what happened to every identifier since it was enqueued or revived: the retry
      count it came with, and the Nacks it has had. */
  datatype Counters = Counters(start: map<Id, int>, nacks: map<Id, nat>)

  datatype Ledger = Ledger(s: RedisState, accepted: multiset<Id>, acked: multiset<Id>, counters: Counters)

  function Restarted(c: Counters, id: Id, retryCount: int): Counters {
    Counters(c.start[id := retryCount], c.nacks[id := 0])
  }

  function Nacked(c: Counters, id: Id): Counters {
    c.(nacks := c.nacks[id := if id in c.nacks then c.nacks[id] + 1 else 1])
  }

  function LedgerStep(l: Ledger, op: RedisOp, now: nat): Ledger {
    var s' := Step(l.s, op, now).state;
    match op
    case Enqueue(t, freshId) =>
      var a := Accepted(t, freshId, now);
      Ledger(s', l.accepted + multiset{a.id}, l.acked, Restarted(l.counters, a.id, a.retryCount))
    case Dequeue => l.(s := s')
    case Ack(id) => l.(s := s', acked := if id in l.s.processing then l.acked + multiset{id} else l.acked)
    case Nack(id) => l.(s := s', counters := if id in l.s.processing then Nacked(l.counters, id) else l.counters)
    case Reprocess(count) => LedgerRevive(l, count, now)
  }

  function LedgerReviveOne(l: Ledger, now: nat): Ledger
    requires l.s.dead != []
  {
    var id := l.s.dead[|l.s.dead| - 1].id;
    l.(s := ReviveOne(l.s, now), counters := Restarted(l.counters, id, 0))
  }

  function LedgerRevive(l: Ledger, count: int, now: nat): (r: Ledger)
    ensures r.s == Revive(l.s, count, now).state
    decreases |l.s.dead|
  {
    if count <= 0 || l.s.dead == [] then l else LedgerRevive(LedgerReviveOne(l, now), count - 1, now)
  }

  /** Clients enqueue identifiers that are not in use; everything else is unrestricted. */
  predicate Allowed(s: RedisState, op: RedisOp) {
    op.Enqueue? ==> op.freshId != NO_ID && Accepted(op.task, op.freshId, 0).id !in Live(s)
  }

  const EMPTY := Ledger(RedisState([], map[], []), multiset{}, multiset{}, Counters(map[], map[]))

  /** An operation and the clock reading at which it runs. */
  datatype Timed = Timed(op: RedisOp, now: nat)

  function Run(l: Ledger, ops: seq<Timed>): Ledger {
    if ops == [] then l else LedgerStep(Run(l, ops[..|ops| - 1]), ops[|ops| - 1].op, ops[|ops| - 1].now)
  }

  predicate AllowedRun(l: Ledger, ops: seq<Timed>) {
    ops == [] || (AllowedRun(l, ops[..|ops| - 1]) && Allowed(Run(l, ops[..|ops| - 1]).s, ops[|ops| - 1].op))
  }

  /** Every live identifier is a proper one and in one place only. */
  ghost predicate Proper(s: RedisState) {
    && (forall id :: Live(s)[id] <= 1) && NO_ID !in Live(s)
    && (forall id :: id in s.processing ==> s.processing[id].id == id)
  }

  /** No task is lost or duplicated across waiting, processing, dead-letter and acknowledged. */
  ghost predicate Accounted(l: Ledger) {
    l.accepted == Live(l.s) + l.acked && Proper(l.s)
  }

  lemma {:induction false} InsertByScoreIds(z: seq<Task>, t: Task)
    ensures IdsOf(InsertByScore(z, t)) == IdsOf(z) + multiset{t.id}
  {
    var r := InsertByScore(z, t);
    if z == [] || Score(t) < Score(z[0]) {
      assert r[1..] == z;
    } else {
      InsertByScoreIds(z[1..], t);
      assert r[1..] == InsertByScore(z[1..], t);
    }
  }

  /** An unused identifier is a new member. */
  lemma ZAddIds(z: seq<Task>, t: Task)
    requires t.id !in IdsOf(z)
    ensures IdsOf(ZAdd(z, t)) == IdsOf(z) + multiset{t.id} && ZAdd(z, t) == InsertByScore(z, t)
  {
    if t in z {
      var i :| 0 <= i < |z| && z[i] == t;
      IdsOfMember(z, i);
    }
    InsertByScoreIds(z, t);
  }

  lemma EnqueueLive(s: RedisState, t: Task, freshId: Id, now: nat)
    requires Accepted(t, freshId, now).id !in Live(s)
    ensures Live(EnqueueStep(s, t, freshId, now)) == Live(s) + multiset{Accepted(t, freshId, now).id}
  {
    ZAddIds(s.waiting, Accepted(t, freshId, now));
  }

  lemma DequeueLive(s: RedisState)
    requires forall id :: Live(s)[id] <= 1
    ensures Live(DequeueStep(s).state) == Live(s)
  {
    if s.waiting != [] {
      var id, s' := s.waiting[0].id, DequeueStep(s).state;
      IdsOfMember(s.waiting, 0);
      assert Live(s)[id] <= 1;
      assert s'.processing.Keys == s.processing.Keys + {id};
    }
  }

  lemma RemoveLive(s: RedisState, id: Id)
    requires id in s.processing
    ensures Live(s) == Live(s.(processing := s.processing - {id})) + multiset{id}
  {
    assert (s.processing - {id}).Keys == s.processing.Keys - {id};
  }

  /** Dropping the identifier `id` from a duplicate-free collection removes it. */
  lemma Gone(a: multiset<Id>, b: multiset<Id>, id: Id)
    requires a == b + multiset{id} && a[id] <= 1
    ensures id !in b
  {
  }

  lemma NackLive(s: RedisState, id: Id, now: nat)
    requires Live(s)[id] <= 1 && (id in s.processing ==> s.processing[id].id == id && id != NO_ID)
    ensures Live(NackStep(s, id, now).state) == Live(s)
  {
    if id in s.processing {
      var s' := s.(processing := s.processing - {id});
      var t := s.processing[id].(retryCount := s.processing[id].retryCount + 1);
      var after := NackStep(s, id, now).state;
      RemoveLive(s, id);
      if t.retryCount > t.maxRetries {
        BuryLive(s', t);
        assert after == s'.(dead := [t] + s'.dead);
      } else {
        RetryLive(s, s', t.(priority := t.priority - 1), now);
        assert after == EnqueueStep(s', t.(priority := t.priority - 1), id, now);
      }
    }
  }

  lemma RetryLive(s: RedisState, s': RedisState, t: Task, now: nat)
    requires Live(s) == Live(s') + multiset{t.id} && Live(s)[t.id] <= 1 && t.id != NO_ID
    ensures Live(EnqueueStep(s', t, t.id, now)) == Live(s)
  {
    Gone(Live(s), Live(s'), t.id);
    EnqueueLive(s', t, t.id, now);
  }

  lemma BuryLive(s: RedisState, t: Task)
    ensures Live(s.(dead := [t] + s.dead)) == Live(s) + multiset{t.id}
  {
    IdsOfAppend([t], s.dead);
    OneIdsOf(t);
  }

  lemma ReviveOneSame(s: RedisState, now: nat)
    requires s.dead != [] && Live(s)[s.dead[|s.dead| - 1].id] <= 1 && s.dead[|s.dead| - 1].id != NO_ID
    ensures Live(ReviveOne(s, now)) == Live(s)
  {
    var t, front := s.dead[|s.dead| - 1], s.dead[..|s.dead| - 1];
    assert s.dead == front + [t];
    IdsOfAppend(front, [t]);
    OneIdsOf(t);
    var s' := s.(dead := front);
    assert Live(s) == Live(s') + multiset{t.id};
    Gone(Live(s), Live(s'), t.id);
    EnqueueLive(s', t.(retryCount := 0), t.id, now);
  }

  lemma ReviveOneLive(s: RedisState, now: nat)
    requires s.dead != [] && Proper(s)
    ensures Live(ReviveOne(s, now)) == Live(s) && Proper(ReviveOne(s, now))
  {
    IdsOfMember(s.dead, |s.dead| - 1);
    assert s.dead[|s.dead| - 1].id in Live(s);
    ReviveOneSame(s, now);
  }

  /** What one revival keeps, any number of them keeps. */
  lemma {:induction false} ReviveKeeps(s: RedisState, count: int, now: nat, kept: RedisState -> bool)
    requires kept(s)
    requires forall m: RedisState {:trigger ReviveOne(m, now)} ::
               kept(m) && |m.dead| > 0 ==> kept(ReviveOne(m, now)) && |ReviveOne(m, now).dead| < |m.dead|
    ensures kept(Revive(s, count, now).state)
    decreases |s.dead|
  {
    if count > 0 && |s.dead| > 0 {
      ReviveKeeps(ReviveOne(s, now), count - 1, now, kept);
    }
  }

  lemma ReviveLive(s: RedisState, count: int, now: nat)
    requires Proper(s)
    ensures Live(Revive(s, count, now).state) == Live(s) && Proper(Revive(s, count, now).state)
  {
    var kept := (m: RedisState) => Proper(m) && Live(m) == Live(s);
    forall m: RedisState | kept(m) && |m.dead| > 0 ensures kept(ReviveOne(m, now)) && |ReviveOne(m, now).dead| < |m.dead| {
      ReviveOneLive(m, now);
    }
    ReviveKeeps(s, count, now, kept);
  }

  /** One more live identifier after Enqueue, one less after Ack, otherwise the same. */
  lemma StepLive(s: RedisState, op: RedisOp, now: nat)
    requires Proper(s) && Allowed(s, op)
    ensures var s' := Step(s, op, now).state;
            match op
            case Enqueue(t, freshId) => Live(s') == Live(s) + multiset{Accepted(t, freshId, now).id}
            case Ack(id) => if id in s.processing then Live(s) == Live(s') + multiset{id} else s' == s
            case _ => Live(s') == Live(s)
  {
    match op {
      case Enqueue(t, freshId) => EnqueueLive(s, t, freshId, now);
      case Dequeue => DequeueLive(s);
      case Ack(id) =>
        if id in s.processing { RemoveLive(s, id); } else { assert s.processing - {id} == s.processing; }
      case Nack(id) =>
        if id in s.processing {
          assert id in Live(s) && Live(s)[id] <= 1;
        }
        NackLive(s, id, now);
      case Reprocess(count) => ReviveLive(s, count, now);
    }
  }

  lemma StepAtMostOnce(s: RedisState, op: RedisOp, now: nat, id: Id)
    requires Proper(s) && Allowed(s, op) && !op.Reprocess?
    ensures Live(Step(s, op, now).state)[id] <= 1 && Live(Step(s, op, now).state)[NO_ID] == 0
  {
    StepLive(s, op, now);
    assert Live(s)[id] <= 1 && Live(s)[NO_ID] == 0;
    if op.Enqueue? {
      assert Accepted(op.task, op.freshId, now).id !in Live(s);
    }
  }

  lemma StepKeyed(s: RedisState, op: RedisOp, now: nat, id: Id)
    requires forall x :: x in s.processing ==> s.processing[x].id == x
    requires !op.Reprocess? && id in Step(s, op, now).state.processing
    ensures Step(s, op, now).state.processing[id].id == id
  {
  }

  lemma StepProper(s: RedisState, op: RedisOp, now: nat) returns (s': RedisState)
    requires Proper(s) && Allowed(s, op)
    ensures s' == Step(s, op, now).state && Proper(s')
  {
    s' := Step(s, op, now).state;
    if op.Reprocess? {
      ReviveLive(s, op.count, now);
    } else {
      forall id ensures Live(s')[id] <= 1 && Live(s')[NO_ID] == 0 {
        StepAtMostOnce(s, op, now, id);
      }
      forall id | id in s'.processing ensures s'.processing[id].id == id {
        StepKeyed(s, op, now, id);
      }
    }
  }

  lemma StepAccounted(l: Ledger, op: RedisOp, now: nat)
    requires Accounted(l) && Allowed(l.s, op)
    ensures Accounted(LedgerStep(l, op, now))
  {
    var s' := StepProper(l.s, op, now);
    StepLive(l.s, op, now);
    if op.Reprocess? { ReviveKeepsCounts(l, op.count, now); }
  }

  lemma {:induction false} ReviveKeepsCounts(l: Ledger, count: int, now: nat)
    ensures LedgerRevive(l, count, now).accepted == l.accepted && LedgerRevive(l, count, now).acked == l.acked
    decreases |l.s.dead|
  {
    if count > 0 && l.s.dead != [] {
      ReviveKeepsCounts(LedgerReviveOne(l, now), count - 1, now);
    }
  }

  // ---- Retries ----

  /** A task's retry count is the one it started with plus its Nacks. */
  predicate Counted(c: Counters, t: Task) {
    t.id in c.start && t.id in c.nacks && t.retryCount == c.start[t.id] + c.nacks[t.id]
  }

  /** A task that was nacked and is still in play has retries left. */
  predicate InPlay(c: Counters, t: Task) {
    Counted(c, t) && (c.nacks[t.id] == 0 || t.retryCount <= t.maxRetries)
  }

  /** A dead letter got there by its last Nack and by no earlier one. */
  predicate Buried(c: Counters, t: Task) {
    && Counted(c, t) && c.nacks[t.id] > 0 && t.retryCount > t.maxRetries
    && (c.nacks[t.id] == 1 || t.retryCount - 1 <= t.maxRetries)
  }

  ghost predicate RetriesRight(l: Ledger) {
    && (forall i :: 0 <= i < |l.s.waiting| ==> InPlay(l.counters, l.s.waiting[i]))
    && (forall id :: id in l.s.processing ==> InPlay(l.counters, l.s.processing[id]))
    && (forall i :: 0 <= i < |l.s.dead| ==> Buried(l.counters, l.s.dead[i]))
  }

  lemma {:induction false} ZAddMembers(z: seq<Task>, t: Task, i: nat)
    requires i < |ZAdd(z, t)|
    ensures ZAdd(z, t)[i] == t || ZAdd(z, t)[i] in z
  {
    if t !in z && z != [] && Score(t) >= Score(z[0]) && i > 0 {
      assert ZAdd(z, t) == [z[0]] + InsertByScore(z[1..], t);
      assert t !in z[1..];
      ZAddMembers(z[1..], t, i - 1);
    }
  }

  /** Counters that differ at `id` at most. */
  predicate SameButAt(c: Counters, c': Counters, id: Id) {
    && id in c'.start && c'.start == c.start[id := c'.start[id]]
    && id in c'.nacks && c'.nacks == c.nacks[id := c'.nacks[id]]
  }

  lemma OtherTasks(c: Counters, c': Counters, id: Id)
    requires SameButAt(c, c', id)
    ensures forall t: Task :: t.id != id && InPlay(c, t) ==> InPlay(c', t)
    ensures forall t: Task :: t.id != id && Buried(c, t) ==> Buried(c', t)
  {
  }

  /** Putting one task in the queue, whose counters may have been set anew. */
  lemma EnqueueRetries(l: Ledger, l': Ledger, t: Task, freshId: Id, now: nat)
    requires RetriesRight(l) && Accepted(t, freshId, now).id !in Live(l.s)
    requires forall id :: id in l.s.processing ==> l.s.processing[id].id == id
    requires l'.s == EnqueueStep(l.s, t, freshId, now) && InPlay(l'.counters, Accepted(t, freshId, now))
    requires SameButAt(l.counters, l'.counters, Accepted(t, freshId, now).id)
    ensures RetriesRight(l')
  {
    var a := Accepted(t, freshId, now);
    OtherTasks(l.counters, l'.counters, a.id);
    forall i | 0 <= i < |l'.s.waiting| ensures InPlay(l'.counters, l'.s.waiting[i]) {
      ZAddMembers(l.s.waiting, a, i);
      if l'.s.waiting[i] != a {
        var j :| 0 <= j < |l.s.waiting| && l.s.waiting[j] == l'.s.waiting[i];
        IdsOfMember(l.s.waiting, j);
      }
    }
    forall i | 0 <= i < |l'.s.dead| ensures Buried(l'.counters, l'.s.dead[i]) {
      IdsOfMember(l.s.dead, i);
    }
    forall id | id in l'.s.processing ensures InPlay(l'.counters, l'.s.processing[id]) {
      assert InPlay(l.counters, l.s.processing[id]);
      ProcessingElsewhere(l, a, id);
    }
  }

  lemma ProcessingElsewhere(l: Ledger, a: Task, id: Id)
    requires a.id !in Live(l.s) && id in l.s.processing
    ensures a.id != id
  {
  }

  lemma DequeueRetries(l: Ledger, now: nat)
    requires RetriesRight(l)
    ensures RetriesRight(LedgerStep(l, Dequeue, now))
  {
    var l' := LedgerStep(l, Dequeue, now);
    if l.s.waiting != [] {
      assert InPlay(l.counters, l.s.waiting[0]);
      forall i | 0 <= i < |l'.s.waiting| ensures InPlay(l'.counters, l'.s.waiting[i]) {
        assert InPlay(l.counters, l.s.waiting[i + 1]);
      }
    }
  }

  /** Taking a task out of the table leaves the rest in order. */
  lemma RemovedRetries(l: Ledger, id: Id)
    requires RetriesRight(l) && Proper(l.s) && id in l.s.processing
    ensures RetriesRight(l.(s := l.s.(processing := l.s.processing - {id})))
    ensures id !in Live(l.s.(processing := l.s.processing - {id}))
  {
    var l1 := l.(s := l.s.(processing := l.s.processing - {id}));
    RemoveLive(l.s, id);
    assert Live(l.s)[id] <= 1;
    Gone(Live(l.s), Live(l1.s), id);
  }

  lemma NackRetries(l: Ledger, id: Id, now: nat)
    requires RetriesRight(l) && Proper(l.s)
    ensures RetriesRight(LedgerStep(l, Nack(id), now))
  {
    if id in l.s.processing {
      RemovedRetries(l, id);
      NamedProcessing(l.s, id);
      assert InPlay(l.counters, l.s.processing[id]);
      var l1 := l.(s := l.s.(processing := l.s.processing - {id}));
      if l.s.processing[id].retryCount + 1 > l.s.processing[id].maxRetries {
        NackBuries(l, l1, id, now);
      } else {
        NackRequeues(l, l1, id, now);
      }
    }
  }

  /** `l1` is the ledger with task `id`, which has been nacked, taken out of the hash. */
  ghost predicate TakenOut(l: Ledger, l1: Ledger, id: Id) {
    && id in l.s.processing && l.s.processing[id].id == id && id != NO_ID
    && InPlay(l.counters, l.s.processing[id])
    && l1 == l.(s := l.s.(processing := l.s.processing - {id}))
    && RetriesRight(l1) && id !in Live(l1.s)
    && forall x :: x in l1.s.processing ==> l1.s.processing[x].id == x
  }

  lemma NackBuries(l: Ledger, l1: Ledger, id: Id, now: nat)
    requires TakenOut(l, l1, id) && l.s.processing[id].retryCount + 1 > l.s.processing[id].maxRetries
    ensures RetriesRight(LedgerStep(l, Nack(id), now))
  {
    var l' := LedgerStep(l, Nack(id), now);
    var t := l.s.processing[id].(retryCount := l.s.processing[id].retryCount + 1);
    assert Buried(l'.counters, t);
    BuryRetries(l1, l', t);
  }

  lemma NackRequeues(l: Ledger, l1: Ledger, id: Id, now: nat)
    requires TakenOut(l, l1, id) && l.s.processing[id].retryCount + 1 <= l.s.processing[id].maxRetries
    ensures RetriesRight(LedgerStep(l, Nack(id), now))
  {
    var l' := LedgerStep(l, Nack(id), now);
    var t := l.s.processing[id].(retryCount := l.s.processing[id].retryCount + 1);
    EnqueueRetries(l1, l', t.(priority := t.priority - 1), id, now);
  }

  lemma NamedProcessing(s: RedisState, id: Id)
    requires Proper(s) && id in s.processing
    ensures id != NO_ID
  {
    assert id in Live(s);
  }

  lemma BuryRetries(l: Ledger, l': Ledger, t: Task)
    requires RetriesRight(l) && t.id !in Live(l.s) && Buried(l'.counters, t)
    requires forall id :: id in l.s.processing ==> l.s.processing[id].id == id
    requires l'.s == l.s.(dead := [t] + l.s.dead)
    requires SameButAt(l.counters, l'.counters, t.id)
    ensures RetriesRight(l')
  {
    OtherTasks(l.counters, l'.counters, t.id);
    forall i | 0 <= i < |l'.s.waiting| ensures InPlay(l'.counters, l'.s.waiting[i]) {
      IdsOfMember(l.s.waiting, i);
    }
    forall i | 0 <= i < |l'.s.dead| ensures Buried(l'.counters, l'.s.dead[i]) {
      if i > 0 {
        assert l'.s.dead[i] == l.s.dead[i - 1];
        IdsOfMember(l.s.dead, i - 1);
      }
    }
    forall id | id in l'.s.processing ensures InPlay(l'.counters, l'.s.processing[id]) {
      assert InPlay(l.counters, l.s.processing[id]);
      ProcessingElsewhere(l, t, id);
    }
  }

  /** The state without its oldest dead letter, whose identifier is then unused. */
  lemma Unburied(s: RedisState) returns (rest: RedisState)
    requires Proper(s) && s.dead != []
    ensures rest == s.(dead := s.dead[..|s.dead| - 1])
    ensures s.dead[|s.dead| - 1].id !in Live(rest) && s.dead[|s.dead| - 1].id != NO_ID
  {
    var t, front := s.dead[|s.dead| - 1], s.dead[..|s.dead| - 1];
    rest := s.(dead := front);
    assert s.dead == front + [t];
    IdsOfAppend(front, [t]);
    OneIdsOf(t);
    assert Live(s) == Live(rest) + multiset{t.id};
    assert t.id in Live(s) && Live(s)[t.id] <= 1;
    Gone(Live(s), Live(rest), t.id);
  }

  lemma ReviveOneRetries(l: Ledger, now: nat) returns (l1: Ledger)
    requires RetriesRight(l) && Proper(l.s) && |l.s.dead| > 0
    ensures l1 == LedgerReviveOne(l, now) && RetriesRight(l1) && Proper(l1.s) && |l1.s.dead| < |l.s.dead|
  {
    var t := l.s.dead[|l.s.dead| - 1];
    var rest := Unburied(l.s);
    l1 := LedgerReviveOne(l, now);
    EnqueueRetries(l.(s := rest), l1, t.(retryCount := 0), t.id, now);
    ReviveOneLive(l.s, now);
  }

  /** What one revival keeps, any number of them keeps. */
  lemma {:induction false} ReviveInduction(l: Ledger, count: int, now: nat, kept: Ledger -> bool)
    requires kept(l)
    requires forall m: Ledger {:trigger LedgerReviveOne(m, now)} :: kept(m) && |m.s.dead| > 0 ==>
               kept(LedgerReviveOne(m, now)) && |LedgerReviveOne(m, now).s.dead| < |m.s.dead|
    ensures kept(LedgerRevive(l, count, now))
    decreases |l.s.dead|
  {
    if count > 0 && |l.s.dead| > 0 {
      ReviveInduction(LedgerReviveOne(l, now), count - 1, now, kept);
    }
  }

  lemma ReviveRetries(l: Ledger, count: int, now: nat)
    requires RetriesRight(l) && Proper(l.s)
    ensures RetriesRight(LedgerRevive(l, count, now))
  {
    var kept := (m: Ledger) => RetriesRight(m) && Proper(m.s);
    forall m: Ledger | kept(m) && |m.s.dead| > 0
      ensures kept(LedgerReviveOne(m, now)) && |LedgerReviveOne(m, now).s.dead| < |m.s.dead|
    {
      var r := ReviveOneRetries(m, now);
    }
    ReviveInduction(l, count, now, kept);
    assert kept(LedgerRevive(l, count, now));
  }

  lemma StepRetries(l: Ledger, op: RedisOp, now: nat)
    requires RetriesRight(l) && Proper(l.s) && Allowed(l.s, op)
    ensures RetriesRight(LedgerStep(l, op, now))
  {
    match op {
      case Enqueue(t, freshId) => EnqueueRetries(l, LedgerStep(l, op, now), t, freshId, now);
      case Dequeue => DequeueRetries(l, now);
      case Ack(id) =>
        if id in l.s.processing {
          RemovedRetries(l, id);
        } else {
          assert l.s.processing - {id} == l.s.processing;
          assert LedgerStep(l, op, now) == l;
        }
      case Nack(id) => NackRetries(l, id, now);
      case Reprocess(count) => ReviveRetries(l, count, now);
    }
  }

  /** Over every run: nothing is lost or duplicated, and retry counts are what the Nacks say. */
  lemma {:induction false} RunKeeps(ops: seq<Timed>)
    requires AllowedRun(EMPTY, ops)
    ensures Accounted(Run(EMPTY, ops)) && RetriesRight(Run(EMPTY, ops))
  {
    if ops != [] {
      RunKeeps(ops[..|ops| - 1]);
      StepAccounted(Run(EMPTY, ops[..|ops| - 1]), ops[|ops| - 1].op, ops[|ops| - 1].now);
      StepRetries(Run(EMPTY, ops[..|ops| - 1]), ops[|ops| - 1].op, ops[|ops| - 1].now);
    }
  }

  /** Counting from a retry count of 0: a task still in play has had at most MaxRetries Nacks, and a
      dead letter exactly MaxRetries + 1 (or one, should MaxRetries be negative). */
  lemma DeadAfterExactly(ops: seq<Timed>, t: Task)
    requires AllowedRun(EMPTY, ops)
    requires t.id in Run(EMPTY, ops).counters.start && Run(EMPTY, ops).counters.start[t.id] == 0
    ensures var l := Run(EMPTY, ops);
            t in l.s.dead ==> t.id in l.counters.nacks && l.counters.nacks[t.id] == if t.maxRetries < 0 then 1 else t.maxRetries + 1
    ensures var l := Run(EMPTY, ops);
            t in l.s.waiting || (t.id in l.s.processing && l.s.processing[t.id] == t) ==>
              t.id in l.counters.nacks && t.retryCount == l.counters.nacks[t.id] && (t.retryCount == 0 || t.retryCount <= t.maxRetries)
  {
    RunKeeps(ops);
    var l := Run(EMPTY, ops);
    if t in l.s.dead {
      var i :| 0 <= i < |l.s.dead| && l.s.dead[i] == t;
      assert Buried(l.counters, l.s.dead[i]);
    }
    if t in l.s.waiting {
      var i :| 0 <= i < |l.s.waiting| && l.s.waiting[i] == t;
      assert InPlay(l.counters, l.s.waiting[i]);
    }
  }

  // ---- Service order ----

  predicate Ascending(z: seq<Task>) {
    forall i, j :: 0 <= i < j < |z| ==> Score(z[i]) <= Score(z[j])
  }

  lemma {:induction false} ScorePlace(z: seq<Task>, t: Task) returns (k: nat)
    ensures k <= |z| && InsertByScore(z, t) == z[..k] + [t] + z[k..]
    ensures forall i :: 0 <= i < k ==> Score(z[i]) <= Score(t)
    ensures k < |z| ==> Score(t) < Score(z[k])
  {
    if z == [] || Score(t) < Score(z[0]) {
      k := 0;
    } else {
      k := ScorePlace(z[1..], t);
      k := k + 1;
      assert z[..k] == [z[0]] + z[1..][..k - 1];
      assert z[k..] == z[1..][k - 1..];
    }
  }

  lemma InsertAscending(z: seq<Task>, t: Task)
    requires Ascending(z)
    ensures Ascending(InsertByScore(z, t))
  {
    var k := ScorePlace(z, t);
  }

  lemma {:induction false} ReviveAscending(s: RedisState, count: int, now: nat)
    requires Ascending(s.waiting)
    ensures Ascending(Revive(s, count, now).state.waiting)
    decreases |s.dead|
  {
    if count > 0 && s.dead != [] {
      var t := s.dead[|s.dead| - 1];
      InsertAscending(s.waiting, Accepted(t.(retryCount := 0), t.id, now));
      ReviveAscending(ReviveOne(s, now), count - 1, now);
    }
  }

  lemma NackAscending(s: RedisState, id: Id, now: nat)
    requires Ascending(s.waiting)
    ensures Ascending(NackStep(s, id, now).state.waiting)
  {
    if id in s.processing {
      var t := s.processing[id];
      InsertAscending(s.waiting, Accepted(t.(retryCount := t.retryCount + 1, priority := t.priority - 1), t.id, now));
    }
  }

  lemma {:induction false} RunAscending(ops: seq<Timed>)
    ensures Ascending(Run(EMPTY, ops).s.waiting)
  {
    if ops != [] {
      var front, last := ops[..|ops| - 1], ops[|ops| - 1];
      RunAscending(front);
      var s := Run(EMPTY, front).s;
      match last.op {
        case Enqueue(t, freshId) => InsertAscending(s.waiting, Accepted(t, freshId, last.now));
        case Nack(id) => NackAscending(s, id, last.now);
        case Reprocess(count) => ReviveAscending(s, count, last.now);
        case _ =>
      }
    }
  }

  /** Dequeue answers with nothing exactly when nothing waits.  Otherwise it moves a waiting task to the
      tasks being processed, and priority is worth a second a unit: the task served was enqueued at most
      that much later than any task left waiting, so equal priorities are served first come, first served. */
  lemma ServiceOrder(ops: seq<Timed>, now: nat)
    ensures var s := Run(EMPTY, ops).s;
            var d := Step(s, RedisOp.Dequeue, now);
            if s.waiting == [] then d == RedisStepped(s, Nothing)
            else
              && d.reply.Got? && d.reply.task in s.waiting
              && multiset(d.state.waiting) == multiset(s.waiting) - multiset{d.reply.task}
              && d.state.processing == s.processing[d.reply.task.id := d.reply.task] && d.state.dead == s.dead
              && forall u :: u in d.state.waiting ==>
                   d.reply.task.createdAt - u.createdAt <= (d.reply.task.priority - u.priority) * 1000000000
  {
    RunAscending(ops);
    var z := Run(EMPTY, ops).s.waiting;
    if z != [] {
      assert z == [z[0]] + z[1..];
      forall u | u in z[1..] ensures Score(z[0]) <= Score(u) {
        var i :| 0 <= i < |z[1..]| && z[1..][i] == u;
        assert z[i + 1] == u;
      }
    }
  }

  // ---- What moves where ----

  lemma InsertAdds(z: seq<Task>, t: Task)
    ensures multiset(InsertByScore(z, t)) == multiset(z) + multiset{t}
  {
    var k := ScorePlace(z, t);
    PutAt(z, k, t);
  }

  lemma PutAt(z: seq<Task>, k: nat, t: Task)
    requires k <= |z|
    ensures multiset(z[..k] + [t] + z[k..]) == multiset(z) + multiset{t}
  {
    assert z == z[..k] + z[k..];
  }

  lemma ZAddAdds(z: seq<Task>, t: Task)
    ensures multiset(ZAdd(z, t)) == multiset(z) + if t in z then multiset{} else multiset{t}
  {
    InsertAdds(z, t);
  }

  /** Enqueue adds the task, under its own identifier or a fresh one and stamped with the time, unless it
      is there already. */
  lemma EnqueueAdds(s: RedisState, t: Task, freshId: Id, now: nat)
    ensures var a := Task(if t.id == NO_ID then freshId else t.id, t.priority, t.retryCount, t.maxRetries, now);
            var d := Step(s, RedisOp.Enqueue(t, freshId), now);
            && multiset(d.state.waiting) == multiset(s.waiting) + (if a in s.waiting then multiset{} else multiset{a})
            && d.state.processing == s.processing && d.state.dead == s.dead
  {
    ZAddAdds(s.waiting, Accepted(t, freshId, now));
  }

  /** Nack brings a task back with one more retry and one less priority, or buries it once its retries
      exceed its limit. */
  lemma NackReturns(s: RedisState, id: Id, now: nat)
    requires id in s.processing
    ensures var t, d := s.processing[id], Step(s, RedisOp.Nack(id), now);
            && d.reply == Done && d.state.processing == s.processing - {id}
            && if t.retryCount + 1 > t.maxRetries
               then d.state.waiting == s.waiting && d.state.dead == [t.(retryCount := t.retryCount + 1)] + s.dead
               else
                 var a := Task(t.id, t.priority - 1, t.retryCount + 1, t.maxRetries, now);
                 && multiset(d.state.waiting) == multiset(s.waiting) + (if a in s.waiting then multiset{} else multiset{a})
                 && d.state.dead == s.dead
  {
    var t := s.processing[id];
    ZAddAdds(s.waiting, Task(t.id, t.priority - 1, t.retryCount + 1, t.maxRetries, now));
  }

  /** `t` is one of the `n` oldest dead letters as they return to the queue. */
  predicate Returns(dead: seq<Task>, n: nat, now: nat, t: Task)
    requires n <= |dead|
  {
    exists i :: |dead| - n <= i < |dead| && t == dead[i].(retryCount := 0, createdAt := now)
  }

  lemma ReturnsLast(dead: seq<Task>, n: nat, now: nat, t: Task)
    requires 0 < n <= |dead|
    ensures var front := dead[..|dead| - 1];
            && front[..|front| - (n - 1)] == dead[..|dead| - n]
            && (Returns(dead, n, now, t) <==>
                  t == dead[|dead| - 1].(retryCount := 0, createdAt := now) || Returns(front, n - 1, now, t))
  {
    var front := dead[..|dead| - 1];
    if i :| |dead| - n <= i < |dead| - 1 && t == dead[i].(retryCount := 0, createdAt := now) {
      assert front[i] == dead[i];
    }
    if i :| |front| - (n - 1) <= i < |front| && t == front[i].(retryCount := 0, createdAt := now) {
      assert front[i] == dead[i];
    }
  }

  lemma ZAddHolds(z: seq<Task>, t: Task, u: Task)
    ensures u in ZAdd(z, t) <==> u in z || u == t
  {
    var k := ScorePlace(z, t);
    assert z == z[..k] + z[k..];
  }

  lemma MovedCount(s: RedisState, count: int, now: nat)
    ensures Revive(s, count, now).reply == Moved(if count <= 0 then 0 else if count < |s.dead| then count else |s.dead|)
    decreases |s.dead|
  {
    if count > 0 && |s.dead| > 0 {
      MovedCount(ReviveOne(s, now), count - 1, now);
    }
  }

  lemma {:induction false} ReviveHolds(s: RedisState, count: int, now: nat, n: nat, t: Task)
    requires n == if count <= 0 then 0 else if count < |s.dead| then count else |s.dead|
    ensures var d := Revive(s, count, now).state;
            && d.dead == s.dead[..|s.dead| - n] && d.processing == s.processing
            && (t in d.waiting <==> t in s.waiting || Returns(s.dead, n, now, t))
    decreases |s.dead|
  {
    if count <= 0 || |s.dead| == 0 {
      assert s.dead[..|s.dead| - 0] == s.dead;
    } else {
      ReviveHolds(ReviveOne(s, now), count - 1, now, n - 1, t);
      ZAddHolds(s.waiting, s.dead[|s.dead| - 1].(retryCount := 0, createdAt := now), t);
      ReturnsLast(s.dead, n, now, t);
    }
  }

  /** Reprocessing returns the oldest dead letters, as many as asked for and there are, with their retry
      counts cleared, and reports how many. */
  lemma ReprocessReturns(s: RedisState, count: int, now: nat) returns (n: nat)
    ensures n == if count <= 0 then 0 else if count < |s.dead| then count else |s.dead|
    ensures var d := Step(s, Reprocess(count), now);
            && d.reply == Moved(n) && d.state.dead == s.dead[..|s.dead| - n] && d.state.processing == s.processing
            && forall t :: t in d.state.waiting <==> t in s.waiting || Returns(s.dead, n, now, t)
  {
    n := if count <= 0 then 0 else if count < |s.dead| then count else |s.dead|;
    MovedCount(s, count, now);
    forall t ensures t in Revive(s, count, now).state.waiting <==> t in s.waiting || Returns(s.dead, n, now, t) {
      ReviveHolds(s, count, now, n, t);
    }
    ReviveHolds(s, count, now, n, Task(NO_ID, 0, 0, 0, 0));
  }
}
