/** The multi-level queue (PriorityQueue in internal/engine/queue.go) and the proof that it is
    indistinguishable from one in-memory queue, for any list of distinct levels. */
module LevelQueue {
  import opened Reachability
  import opened Tasks
  import opened TaskQueue

  type Levels = seq<int>
  type Queues = map<int, QueueState>

  datatype LevelStepped = LevelStepped(queues: Queues, reply: Reply)

  predicate DistinctLevels(levels: Levels) {
    |levels| > 0 && forall i, j :: 0 <= i < j < |levels| ==> levels[i] != levels[j]
  }

  predicate HasQueues(levels: Levels, qs: Queues) {
    qs.Keys == set i | 0 <= i < |levels| :: levels[i]
  }

  /** The last of the first `n` positions whose level the priority reaches, or the first position. */
  function TargetIndex(levels: Levels, p: int, n: nat): nat
    requires n <= |levels|
  {
    if n == 0 then 0 else if p >= levels[n - 1] then n - 1 else TargetIndex(levels, p, n - 1)
  }

  function Target(levels: Levels, p: int): (i: nat)
    requires |levels| > 0
    ensures i < |levels|
  {
    TargetBounds(levels, p, |levels|);
    TargetIndex(levels, p, |levels|)
  }

  lemma {:induction false} TargetBounds(levels: Levels, p: int, n: nat)
    requires n <= |levels|
    ensures var i := TargetIndex(levels, p, n);
            && (n > 0 ==> i < n) && (i > 0 ==> p >= levels[i])
            && forall j :: i < j < n ==> p < levels[j]
  {
    if n > 0 { TargetBounds(levels, p, n - 1); }
  }

  /** A higher level is chosen only for a higher priority. */
  lemma TargetMonotone(levels: Levels, p: int, p': int)
    requires |levels| > 0 && Target(levels, p) < Target(levels, p')
    ensures p < p'
  {
    TargetBounds(levels, p, |levels|);
    TargetBounds(levels, p', |levels|);
  }

  /** The waiting lists of the first `n` levels, highest position first. */
  function Joined(levels: Levels, qs: Queues, n: nat): seq<Task>
    requires n <= |levels| && HasQueues(levels, qs)
  {
    if n == 0 then [] else qs[levels[n - 1]].waiting + Joined(levels, qs, n - 1)
  }

  /** One more than the highest position below `n` with a waiting task, or 0. */
  function Top(levels: Levels, qs: Queues, n: nat): (i: nat)
    requires n <= |levels| && HasQueues(levels, qs)
    ensures i <= n && (i > 0 ==> |qs[levels[i - 1]].waiting| > 0)
  {
    if n == 0 then 0 else if |qs[levels[n - 1]].waiting| > 0 then n else Top(levels, qs, n - 1)
  }

  function TotalLen(levels: Levels, qs: Queues, n: nat): nat
    requires n <= |levels| && HasQueues(levels, qs)
  {
    if n == 0 then 0 else |qs[levels[n - 1]].waiting| + TotalLen(levels, qs, n - 1)
  }

  function OnLevel(qs: Queues, level: int, s: Stepped): LevelStepped {
    LevelStepped(qs[level := s.state], s.reply)
  }

  function LevelStep(levels: Levels, qs: Queues, op: Op, now: nat): LevelStepped
    requires |levels| > 0 && HasQueues(levels, qs)
  {
    var top := Top(levels, qs, |levels|);
    match op
    case Enqueue(t, freshId) =>
      var l := levels[Target(levels, t.priority)];
      OnLevel(qs, l, EnqueueStep(qs[l], t, freshId, now))
    case Dequeue =>
      var l := if top > 0 then levels[top - 1] else levels[0];
      OnLevel(qs, l, DequeueStep(qs[l]))
    case Peek => LevelStepped(qs, if top > 0 then Got(qs[levels[top - 1]].waiting[0]) else Nothing)
    case Ack(id) => LevelStepped(map l | l in qs :: Step(qs[l], op, now).state, Done)
    case Nack(id) => LevelStepped(qs, Done)
    case Len => LevelStepped(qs, Count(TotalLen(levels, qs, |levels|)))
    case Close => LevelStepped(map l | l in qs :: Step(qs[l], op, now).state, Done)
  }

  // ---- Refinement ----

  /** The queues stand for `q`: joined from the highest to the lowest they list its waiting tasks,
      every task sits on the level its priority selects, the tasks being processed are on file with some
      level, and all are closed together. */
  ghost predicate StandsFor(levels: Levels, qs: Queues, q: QueueState) {
    && DistinctLevels(levels) && HasQueues(levels, qs)
    && Joined(levels, qs, |levels|) == q.waiting
    && (forall i :: 0 <= i < |levels| ==> qs[levels[i]].closed == q.closed)
    && Placed(levels, qs) && Filed(qs, q)
  }

  /** A task is being processed exactly when a level has it on file, and a level has it as it is. */
  ghost predicate Filed(qs: Queues, q: QueueState) {
    forall id :: FiledAt(qs, q, id)
  }

  ghost predicate FiledAt(qs: Queues, q: QueueState, id: Id) {
    if id in q.processing then exists l :: l in qs && id in qs[l].processing && qs[l].processing[id] == q.processing[id]
    else forall l :: l in qs ==> id !in qs[l].processing
  }

  ghost predicate Placed(levels: Levels, qs: Queues)
    requires |levels| > 0 && HasQueues(levels, qs)
  {
    forall i, j :: 0 <= i < |levels| && 0 <= j < |qs[levels[i]].waiting| ==>
      Target(levels, qs[levels[i]].waiting[j].priority) == i
  }

  lemma {:induction false} InsertPastHigher(a: seq<Task>, b: seq<Task>, t: Task)
    requires forall i :: 0 <= i < |a| ==> a[i].priority >= t.priority
    ensures InsertByPriority(a + b, t) == a + InsertByPriority(b, t)
  {
    if a == [] {
      assert a + b == b && a + InsertByPriority(b, t) == InsertByPriority(b, t);
    } else {
      assert (a + b)[1..] == a[1..] + b;
      InsertPastHigher(a[1..], b, t);
    }
  }

  lemma {:induction false} InsertBeforeLower(a: seq<Task>, b: seq<Task>, t: Task)
    requires forall i :: 0 <= i < |b| ==> b[i].priority < t.priority
    ensures InsertByPriority(a + b, t) == InsertByPriority(a, t) + b
  {
    if a == [] {
      assert a + b == b;
    } else {
      assert (a + b)[1..] == a[1..] + b;
      InsertBeforeLower(a[1..], b, t);
    }
  }

  lemma {:induction false} JoinedMembers(levels: Levels, qs: Queues, n: nat, k: nat) returns (i: nat, j: nat)
    requires n <= |levels| && HasQueues(levels, qs) && k < |Joined(levels, qs, n)|
    ensures i < n && j < |qs[levels[i]].waiting| && qs[levels[i]].waiting[j] == Joined(levels, qs, n)[k]
  {
    var here := qs[levels[n - 1]].waiting;
    if k < |here| {
      i, j := n - 1, k;
    } else {
      i, j := JoinedMembers(levels, qs, n - 1, k - |here|);
    }
  }

  /** Replacing the queue of a position at or above `n` does not show below `n`. */
  lemma {:induction false} JoinedFrame(levels: Levels, qs: Queues, i: nat, q: QueueState, n: nat)
    requires DistinctLevels(levels) && HasQueues(levels, qs) && n <= i < |levels|
    ensures HasQueues(levels, qs[levels[i] := q])
    ensures Joined(levels, qs[levels[i] := q], n) == Joined(levels, qs, n)
  {
    assert qs[levels[i] := q].Keys == qs.Keys;
    if n > 0 {
      JoinedFrame(levels, qs, i, q, n - 1);
    }
  }

  /** Inserting on the selected level is inserting in the joined list. */
  lemma {:induction false} InsertIntoJoined(levels: Levels, qs: Queues, t: Task, q: QueueState, n: nat)
    requires DistinctLevels(levels) && HasQueues(levels, qs) && Placed(levels, qs)
    requires Target(levels, t.priority) < n <= |levels|
    requires q.waiting == InsertByPriority(qs[levels[Target(levels, t.priority)]].waiting, t)
    ensures HasQueues(levels, qs[levels[Target(levels, t.priority)] := q])
    ensures Joined(levels, qs[levels[Target(levels, t.priority)] := q], n) == InsertByPriority(Joined(levels, qs, n), t)
    decreases n
  {
    var i := Target(levels, t.priority);
    var here, low := qs[levels[n - 1]].waiting, Joined(levels, qs, n - 1);
    assert qs[levels[i] := q].Keys == qs.Keys;
    if i < n - 1 {
      InsertIntoJoined(levels, qs, t, q, n - 1);
      forall j | 0 <= j < |here| ensures here[j].priority >= t.priority {
        TargetMonotone(levels, t.priority, here[j].priority);
      }
      InsertPastHigher(here, low, t);
    } else {
      JoinedFrame(levels, qs, i, q, n - 1);
      forall k | 0 <= k < |low| ensures low[k].priority < t.priority {
        var a, b := JoinedMembers(levels, qs, n - 1, k);
        TargetMonotone(levels, low[k].priority, t.priority);
      }
      InsertBeforeLower(here, low, t);
    }
  }

  /** The top level holds the head of the joined list. */
  lemma {:induction false} TopShowsHead(levels: Levels, qs: Queues, n: nat)
    requires HasQueues(levels, qs) && n <= |levels|
    ensures Top(levels, qs, n) == 0 <==> Joined(levels, qs, n) == []
    ensures var top := Top(levels, qs, n); top > 0 ==> Joined(levels, qs, n)[0] == qs[levels[top - 1]].waiting[0]
  {
    if n > 0 {
      TopShowsHead(levels, qs, n - 1);
    }
  }

  lemma {:induction false} TopIsHead(levels: Levels, qs: Queues, n: nat, q: QueueState)
    requires DistinctLevels(levels) && HasQueues(levels, qs) && n <= |levels|
    ensures Top(levels, qs, n) == 0 <==> Joined(levels, qs, n) == []
    ensures var top := Top(levels, qs, n);
            top > 0 ==>
              && Joined(levels, qs, n)[0] == qs[levels[top - 1]].waiting[0]
              && HasQueues(levels, qs[levels[top - 1] := q])
              && (q.waiting == qs[levels[top - 1]].waiting[1..] ==>
                    Joined(levels, qs[levels[top - 1] := q], n) == Joined(levels, qs, n)[1..])
  {
    TopShowsHead(levels, qs, n);
    var top := Top(levels, qs, n);
    if top > 0 {
      assert qs[levels[top - 1] := q].Keys == qs.Keys;
      if q.waiting == qs[levels[top - 1]].waiting[1..] {
        TopRemoved(levels, qs, n, q);
      }
    }
  }

  lemma {:induction false} TopRemoved(levels: Levels, qs: Queues, n: nat, q: QueueState)
    requires DistinctLevels(levels) && HasQueues(levels, qs) && n <= |levels| && Top(levels, qs, n) > 0
    requires q.waiting == qs[levels[Top(levels, qs, n) - 1]].waiting[1..]
    ensures HasQueues(levels, qs[levels[Top(levels, qs, n) - 1] := q]) && |Joined(levels, qs, n)| > 0
    ensures Joined(levels, qs[levels[Top(levels, qs, n) - 1] := q], n) == Joined(levels, qs, n)[1..]
  {
    var top, here := Top(levels, qs, n), qs[levels[n - 1]].waiting;
    var qs' := qs[levels[top - 1] := q];
    assert qs'.Keys == qs.Keys;
    if top == n {
      JoinedFrame(levels, qs, n - 1, q, n - 1);
      assert (here + Joined(levels, qs, n - 1))[1..] == here[1..] + Joined(levels, qs, n - 1);
    } else {
      TopRemoved(levels, qs, n - 1, q);
      assert here == [] && here + Joined(levels, qs, n - 1) == Joined(levels, qs, n - 1);
      assert levels[top - 1] != levels[n - 1];
      assert qs'[levels[n - 1]].waiting + Joined(levels, qs', n - 1) == Joined(levels, qs', n - 1);
    }
  }

  lemma {:induction false} LenIsTotal(levels: Levels, qs: Queues, n: nat)
    requires n <= |levels| && HasQueues(levels, qs)
    ensures TotalLen(levels, qs, n) == |Joined(levels, qs, n)|
  {
    if n > 0 { LenIsTotal(levels, qs, n - 1); }
  }

  /** Changes that leave every waiting list alone do not show. */
  lemma {:induction false} JoinedSame(levels: Levels, qs: Queues, qs': Queues, n: nat)
    requires n <= |levels| && HasQueues(levels, qs) && HasQueues(levels, qs')
    requires forall l :: l in qs ==> qs'[l].waiting == qs[l].waiting
    ensures Joined(levels, qs', n) == Joined(levels, qs, n)
  {
    if n > 0 { JoinedSame(levels, qs, qs', n - 1); }
  }

  lemma FiledSame(qs: Queues, q: QueueState, qs': Queues, q': QueueState)
    requires Filed(qs, q) && qs'.Keys == qs.Keys && q'.processing == q.processing
    requires forall l :: l in qs ==> qs'[l].processing == qs[l].processing
    ensures Filed(qs', q')
  {
    forall id ensures FiledAt(qs', q', id) {
      assert FiledAt(qs, q, id);
    }
  }

  lemma FiledMore(qs: Queues, q: QueueState, level: int, t: Task, s: QueueState, q': QueueState)
    requires Filed(qs, q) && level in qs
    requires s.processing == qs[level].processing[t.id := t] && q'.processing == q.processing[t.id := t]
    ensures Filed(qs[level := s], q')
  {
    var qs' := qs[level := s];
    forall id ensures FiledAt(qs', q', id) {
      assert FiledAt(qs, q, id);
      assert level in qs';
      if id != t.id && id in q.processing {
        var l :| l in qs && id in qs[l].processing && qs[l].processing[id] == q.processing[id];
        assert l in qs';
      }
    }
  }

  /** Ack takes the task off file with every level; all other tasks stay as they are. */
  lemma FiledLess(qs: Queues, q: QueueState, op: Op, now: nat)
    requires Filed(qs, q) && (op.Ack? || op.Close?)
    ensures Filed(map l | l in qs :: Step(qs[l], op, now).state, Step(q, op, now).state)
  {
    var qs' := map l | l in qs :: Step(qs[l], op, now).state;
    forall id ensures FiledAt(qs', Step(q, op, now).state, id) {
      assert FiledAt(qs, q, id);
      if id in q.processing && !(op.Ack? && op.id == id) {
        var l :| l in qs && id in qs[l].processing && qs[l].processing[id] == q.processing[id];
        assert l in qs' && id in qs'[l].processing;
      }
    }
  }

  lemma EnqueueRefines(levels: Levels, qs: Queues, q: QueueState, t: Task, freshId: Id, now: nat)
    requires StandsFor(levels, qs, q)
    ensures LevelStep(levels, qs, Enqueue(t, freshId), now).reply == EnqueueStep(q, t, freshId, now).reply
    ensures StandsFor(levels, LevelStep(levels, qs, Enqueue(t, freshId), now).queues, EnqueueStep(q, t, freshId, now).state)
  {
    var i, a := Target(levels, t.priority), Accepted(t, freshId, now);
    var q1 := EnqueueStep(qs[levels[i]], t, freshId, now).state;
    var qs' := qs[levels[i] := q1];
    assert qs'.Keys == qs.Keys;
    FiledSame(qs, q, qs', EnqueueStep(q, t, freshId, now).state);
    if q.closed {
      assert qs' == qs;
    } else {
      InsertIntoJoined(levels, qs, a, q1, |levels|);
      forall k, j | 0 <= k < |levels| && 0 <= j < |qs'[levels[k]].waiting|
        ensures Target(levels, qs'[levels[k]].waiting[j].priority) == k
      {
        if k == i {
          InsertMembers(qs[levels[i]].waiting, a, j);
        }
      }
    }
  }

  /** Taking the head of the top level's queue. */
  lemma DequeueTopRefines(levels: Levels, qs: Queues, q: QueueState, i: nat, q1: QueueState)
    requires StandsFor(levels, qs, q) && i < |levels| && Top(levels, qs, |levels|) == i + 1
    requires q1 == DequeueStep(qs[levels[i]]).state
    ensures q.waiting != [] && qs[levels[i]].waiting[0] == q.waiting[0]
    ensures StandsFor(levels, qs[levels[i] := q1], DequeueStep(q).state)
  {
    var qs' := qs[levels[i] := q1];
    TopIsHead(levels, qs, |levels|, q1);
    FiledMore(qs, q, levels[i], q.waiting[0], q1, DequeueStep(q).state);
    forall k, j | 0 <= k < |levels| && 0 <= j < |qs'[levels[k]].waiting|
      ensures Target(levels, qs'[levels[k]].waiting[j].priority) == k
    {
      if k == i {
        assert qs'[levels[k]].waiting[j] == qs[levels[k]].waiting[j + 1];
      }
    }
  }

  lemma DequeueRefines(levels: Levels, qs: Queues, q: QueueState, now: nat)
    requires StandsFor(levels, qs, q)
    ensures LevelStep(levels, qs, Dequeue, now).reply == DequeueStep(q).reply
    ensures StandsFor(levels, LevelStep(levels, qs, Dequeue, now).queues, DequeueStep(q).state)
  {
    var top := Top(levels, qs, |levels|);
    if top > 0 {
      DequeueTopRefines(levels, qs, q, top - 1, DequeueStep(qs[levels[top - 1]]).state);
    } else {
      TopIsHead(levels, qs, |levels|, q);
      AllEmpty(levels, qs, |levels|, 0);
      assert qs[levels[0] := qs[levels[0]]] == qs;
    }
  }

  lemma {:induction false} AllEmpty(levels: Levels, qs: Queues, n: nat, i: nat)
    requires i < n <= |levels| && HasQueues(levels, qs) && Joined(levels, qs, n) == []
    ensures qs[levels[i]].waiting == []
  {
    assert |qs[levels[n - 1]].waiting| == 0;
    if i < n - 1 {
      assert |Joined(levels, qs, n - 1)| == 0;
      AllEmpty(levels, qs, n - 1, i);
    }
  }

  /** Ack and Close go to every level and move no waiting task. */
  lemma EveryQueueRefines(levels: Levels, qs: Queues, q: QueueState, op: Op, now: nat)
    requires StandsFor(levels, qs, q) && (op.Ack? || op.Close?)
    ensures StandsFor(levels, LevelStep(levels, qs, op, now).queues, Step(q, op, now).state)
  {
    var qs' := LevelStep(levels, qs, op, now).queues;
    assert qs'.Keys == qs.Keys;
    JoinedSame(levels, qs, qs', |levels|);
    FiledLess(qs, q, op, now);
  }

  /** Step by step: the same reply, and the queues go on standing for the single queue. */
  lemma StepRefines(levels: Levels, qs: Queues, q: QueueState, op: Op, now: nat)
    requires StandsFor(levels, qs, q) && !op.Nack?
    ensures LevelStep(levels, qs, op, now).reply == Step(q, op, now).reply
    ensures StandsFor(levels, LevelStep(levels, qs, op, now).queues, Step(q, op, now).state)
  {
    match op {
      case Enqueue(t, freshId) => EnqueueRefines(levels, qs, q, t, freshId, now);
      case Dequeue => DequeueRefines(levels, qs, q, now);
      case Peek => TopIsHead(levels, qs, |levels|, q);
      case Len => LenIsTotal(levels, qs, |levels|);
      case Ack(_) => EveryQueueRefines(levels, qs, q, op, now);
      case Close => EveryQueueRefines(levels, qs, q, op, now);
    }
  }

  function Replies(q: QueueState, ops: seq<Op>, now: nat): seq<Reply>
    decreases |ops|
  {
    if ops == [] then [] else [Step(q, ops[0], now).reply] + Replies(Step(q, ops[0], now).state, ops[1..], now + 1)
  }

  function LevelReplies(levels: Levels, qs: Queues, ops: seq<Op>, now: nat): seq<Reply>
    requires |levels| > 0 && HasQueues(levels, qs)
    decreases |ops|
  {
    if ops == [] then []
    else
      var s := LevelStep(levels, qs, ops[0], now);
      LevelStepKeepsKeys(levels, qs, ops[0], now);
      [s.reply] + LevelReplies(levels, s.queues, ops[1..], now + 1)
  }

  lemma LevelStepKeepsKeys(levels: Levels, qs: Queues, op: Op, now: nat)
    requires |levels| > 0 && HasQueues(levels, qs)
    ensures HasQueues(levels, LevelStep(levels, qs, op, now).queues)
  {
    assert LevelStep(levels, qs, op, now).queues.Keys == qs.Keys;
  }

  /** Every run without Nack gets the same replies from the multi-level queue as from one queue. */
  lemma {:induction false} RunRefines(levels: Levels, qs: Queues, q: QueueState, ops: seq<Op>, now: nat)
    requires StandsFor(levels, qs, q) && forall i :: 0 <= i < |ops| ==> !ops[i].Nack?
    ensures LevelReplies(levels, qs, ops, now) == Replies(q, ops, now)
    decreases |ops|
  {
    if ops != [] {
      StepRefines(levels, qs, q, ops[0], now);
      LevelStepKeepsKeys(levels, qs, ops[0], now);
      RunRefines(levels, LevelStep(levels, qs, ops[0], now).queues, Step(q, ops[0], now).state, ops[1..], now + 1);
    }
  }

  /** A fresh multi-level queue stands for a fresh queue. */
  lemma {:induction false} FreshStandsFor(levels: Levels, qs: Queues)
    requires DistinctLevels(levels) && HasQueues(levels, qs)
    requires forall l :: l in qs ==> qs[l] == QueueState([], map[], false)
    ensures StandsFor(levels, qs, QueueState([], map[], false))
  {
    EmptyJoined(levels, qs, |levels|);
  }

  lemma {:induction false} EmptyJoined(levels: Levels, qs: Queues, n: nat)
    requires n <= |levels| && HasQueues(levels, qs) && forall l :: l in qs ==> qs[l].waiting == []
    ensures Joined(levels, qs, n) == []
  {
    if n > 0 { EmptyJoined(levels, qs, n - 1); }
  }

  /** Nack never refines. Of a task being processed the replies agree and the single queue alone takes it
      back; of any other nothing changes and the replies differ. */
  lemma NackNeverRefines(levels: Levels, qs: Queues, q: QueueState, id: Id, now: nat)
    requires StandsFor(levels, qs, q)
    ensures LevelStep(levels, qs, Nack(id), now).reply == NackStep(q, id).reply <==> id in q.processing
    ensures StandsFor(levels, LevelStep(levels, qs, Nack(id), now).queues, NackStep(q, id).state) <==> id !in q.processing
    ensures !(LevelStep(levels, qs, Nack(id), now).reply == NackStep(q, id).reply
              && StandsFor(levels, LevelStep(levels, qs, Nack(id), now).queues, NackStep(q, id).state))
  {
    if id in q.processing {
      assert |NackStep(q, id).state.waiting| == |q.waiting| + 1;
    }
  }

  /** No level from position `n` on has a waiting task. */
  predicate EmptyFrom(levels: Levels, qs: Queues, n: nat)
    requires HasQueues(levels, qs)
  {
    forall j :: n <= j < |levels| ==> |qs[levels[j]].waiting| == 0
  }

  lemma {:induction false} TopFound(levels: Levels, qs: Queues, i: nat, n: nat)
    requires HasQueues(levels, qs) && i <= n <= |levels| && EmptyFrom(levels, qs, i)
    requires i > 0 ==> |qs[levels[i - 1]].waiting| > 0
    ensures Top(levels, qs, n) == i
    decreases n
  {
    if n > i {
      TopFound(levels, qs, i, n - 1);
    }
  }

  lemma PeekOn(levels: Levels, qs: Queues)
    requires |levels| > 0 && HasQueues(levels, qs)
    ensures var top := Top(levels, qs, |levels|);
            LevelStep(levels, qs, Op.Peek, 0).reply == if top > 0 then Got(qs[levels[top - 1]].waiting[0]) else Nothing
  {
  }

  lemma DequeueOn(levels: Levels, qs: Queues)
    requires |levels| > 0 && HasQueues(levels, qs)
    ensures var top := Top(levels, qs, |levels|);
            var level := if top > 0 then levels[top - 1] else levels[0];
            level in qs && LevelStep(levels, qs, Op.Dequeue, 0) == OnLevel(qs, level, DequeueStep(qs[level]))
  {
  }

  // ---- The code ----

  class PriorityQueue {
    const levels: Levels
    var queues: map<int, InMemoryQueue>

    ghost predicate Valid()
      reads this
    {
      && DistinctLevels(levels)
      && queues.Keys == (set i | 0 <= i < |levels| :: levels[i])
      && (forall l, m :: l in queues && m in queues && l != m ==> queues[l] != queues[m])
    }

    ghost function States(): Queues
      reads this, queues.Values
    {
      map l | l in queues :: queues[l].State()
    }

    /** Every level has its queue. */
    lemma LevelsHaveQueues()
      requires Valid()
      ensures HasQueues(levels, States())
    {
      assert States().Keys == queues.Keys;
    }

    lemma StatesAre(qs: Queues)
      requires qs.Keys == queues.Keys && forall l :: l in queues ==> queues[l].State() == qs[l]
      ensures States() == qs
    {
      assert States().Keys == qs.Keys;
      forall l | l in qs ensures States()[l] == qs[l] {
      }
    }

    constructor (levels: Levels)
      requires DistinctLevels(levels)
      ensures Valid() && this.levels == levels
      ensures forall l :: l in queues ==> fresh(queues[l]) && queues[l].State() == QueueState([], map[], false)
    {
      this.levels := levels;
      this.queues := map[];
      new;
      for i := 0 to |levels|
        modifies this
        invariant queues.Keys == set j | 0 <= j < i :: levels[j]
        invariant forall l :: l in queues ==> fresh(queues[l])
        invariant forall l, m :: l in queues && m in queues && l != m ==> queues[l] != queues[m]
        invariant forall l :: l in queues ==> queues[l].State() == QueueState([], map[], false)
      {
        var q := new InMemoryQueue();
        queues := queues[levels[i] := q];
      }
    }

    method Enqueue(task: Task, freshId: Id, now: nat) returns (r: Reply)
      requires Valid()
      modifies queues.Values
      ensures Valid() && queues == old(queues)
      ensures LevelStepped(States(), r) == LevelStep(levels, old(States()), Op.Enqueue(task, freshId), now)
    {
      var target := 0;
      for i := 0 to |levels|
        invariant target == TargetIndex(levels, task.priority, i)
        invariant 0 <= target < |levels|
      {
        if task.priority >= levels[i] {
          target := i;
        }
      }
      var q := queues[levels[target]];
      r := q.Enqueue(task, freshId, now);
      StatesAre(old(States())[levels[target] := q.State()]);
    }

    method PeekAt(level: int) returns (r: Reply)
      requires Valid() && level in queues
      ensures States() == old(States()) && level in States()
      ensures r == if |States()[level].waiting| == 0 then Nothing else Got(States()[level].waiting[0])
    {
      assert States()[level] == queues[level].State();
      r := queues[level].Peek();
    }

    /** One more than the highest position whose queue has a task to show, or 0. */
    method FindTop() returns (i: nat)
      requires Valid()
      ensures States() == old(States())
      ensures HasQueues(levels, States()) && i == Top(levels, States(), |levels|) && i <= |levels|
    {
      LevelsHaveQueues();
      ghost var qs := States();
      i := |levels|;
      while i > 0
        invariant 0 <= i <= |levels|
        invariant States() == qs && EmptyFrom(levels, qs, i)
      {
        var task := PeekAt(levels[i - 1]);
        if task != Nothing {
          break;
        }
        i := i - 1;
      }
      TopFound(levels, qs, i, |levels|);
    }

    /** One level's own Dequeue; the other levels do not change. */
    method DequeueFrom(level: int) returns (r: Reply)
      requires Valid() && level in queues
      modifies queues.Values
      ensures Valid() && queues == old(queues) && level in old(States())
      ensures LevelStepped(States(), r) == OnLevel(old(States()), level, DequeueStep(old(States())[level]))
    {
      ghost var qs := States();
      assert qs[level] == queues[level].State();
      r := queues[level].Dequeue();
      StatesAre(qs[level := queues[level].State()]);
    }

    method Dequeue() returns (r: Reply)
      requires Valid()
      modifies queues.Values
      ensures Valid() && queues == old(queues) && HasQueues(levels, old(States()))
      ensures LevelStepped(States(), r) == LevelStep(levels, old(States()), Op.Dequeue, 0)
    {
      LevelsHaveQueues();
      var top := FindTop();
      DequeueOn(levels, States());
      r := DequeueFrom(if top > 0 then levels[top - 1] else levels[0]);
    }

    method Peek() returns (r: Reply)
      requires Valid()
      ensures HasQueues(levels, States()) && r == LevelStep(levels, States(), Op.Peek, 0).reply
    {
      ghost var qs := States();
      var top := FindTop();
      PeekOn(levels, qs);
      if top == 0 {
        return Nothing;
      }
      r := PeekAt(levels[top - 1]);
    }

    method Ack(id: Id)
      requires Valid()
      modifies queues.Values
      ensures Valid() && queues == old(queues)
      ensures States() == LevelStep(levels, old(States()), Op.Ack(id), 0).queues
    {
      ghost var qs := States();
      var left := queues.Keys;
      while left != {}
        invariant left <= queues.Keys && Valid()
        invariant forall l :: l in queues ==> queues[l].State() == if l in left then qs[l] else Step(qs[l], Op.Ack(id), 0).state
        decreases left
      {
        var l :| l in left;
        var r := queues[l].Ack(id);
        left := left - {l};
      }
      StatesAre(map l | l in qs :: Step(qs[l], Op.Ack(id), 0).state);
    }

    /** Does nothing: the queue the task came from is not known. */
    method Nack(id: Id) returns (r: Reply)
      requires Valid()
      ensures LevelStepped(States(), r) == LevelStep(levels, old(States()), Op.Nack(id), 0)
    {
      r := Done;
    }

    method Len() returns (r: Reply)
      requires Valid()
      ensures HasQueues(levels, States()) && r == LevelStep(levels, States(), Op.Len, 0).reply
    {
      ghost var qs := States();
      assert qs.Keys == queues.Keys && HasQueues(levels, qs);
      var total := 0;
      for i := 0 to |levels|
        invariant total == TotalLen(levels, qs, i)
      {
        assert qs[levels[i]] == queues[levels[i]].State();
        var c := queues[levels[i]].Len();
        total := total + c.count;
      }
      r := Count(total);
    }

    method Close()
      requires Valid()
      modifies queues.Values
      ensures Valid() && queues == old(queues)
      ensures States() == LevelStep(levels, old(States()), Op.Close, 0).queues
    {
      ghost var qs := States();
      var left := queues.Keys;
      while left != {}
        invariant left <= queues.Keys && Valid()
        invariant forall l :: l in queues ==> queues[l].State() == if l in left then qs[l] else Step(qs[l], Op.Close, 0).state
        decreases left
      {
        var l :| l in left;
        var r := queues[l].Close();
        left := left - {l};
      }
      StatesAre(map l | l in qs :: Step(qs[l], Op.Close, 0).state);
    }
  }
}
