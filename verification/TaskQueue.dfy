/** The in-memory task queue (internal/engine/queue.go): a priority list, a table of tasks being
    processed and a closed flag. Each lock-protected operation is one step. */
module TaskQueue {
  import opened Reachability
  import opened Tasks

  datatype QueueState = QueueState(waiting: seq<Task>, processing: map<Id, Task>, closed: bool)

  datatype Op = Enqueue(task: Task, freshId: Id) | Dequeue | Peek | Ack(id: Id) | Nack(id: Id) | Len | Close

  /** `Blocked` marks a Dequeue that is still waiting: it has not completed and changes nothing. */
  datatype Reply = Done | Got(task: Task) | Nothing | Count(count: nat) | QueueClosed | NotProcessing | Blocked

  datatype Stepped = Stepped(state: QueueState, reply: Reply)

  /** Before the first task of lower priority. */
  function InsertByPriority(tasks: seq<Task>, t: Task): seq<Task> {
    if tasks == [] then [t]
    else if t.priority > tasks[0].priority then [t] + tasks
    else [tasks[0]] + InsertByPriority(tasks[1..], t)
  }

  function EnqueueStep(q: QueueState, t: Task, freshId: Id, now: nat): Stepped {
    if q.closed then Stepped(q, QueueClosed)
    else Stepped(q.(waiting := InsertByPriority(q.waiting, Accepted(t, freshId, now))), Done)
  }

  function DequeueStep(q: QueueState): Stepped {
    if q.waiting == [] then Stepped(q, if q.closed then QueueClosed else Blocked)
    else Stepped(q.(waiting := q.waiting[1..], processing := q.processing[q.waiting[0].id := q.waiting[0]]), Got(q.waiting[0]))
  }

  function Demoted(t: Task): Task {
    t.(priority := t.priority - 1, retryCount := t.retryCount + 1)
  }

  function NackStep(q: QueueState, id: Id): Stepped {
    if id !in q.processing then Stepped(q, NotProcessing)
    else Stepped(q.(waiting := q.waiting + [Demoted(q.processing[id])], processing := q.processing - {id}), Done)
  }

  function Step(q: QueueState, op: Op, now: nat): Stepped {
    match op
    case Enqueue(t, freshId) => EnqueueStep(q, t, freshId, now)
    case Dequeue => DequeueStep(q)
    case Peek => Stepped(q, if q.waiting == [] then Nothing else Got(q.waiting[0]))
    case Ack(id) => Stepped(q.(processing := q.processing - {id}), Done)
    case Nack(id) => NackStep(q, id)
    case Len => Stepped(q, Count(|q.waiting|))
    case Close => Stepped(q.(closed := true), Done)
  }

  lemma InsertAt(tasks: seq<Task>, t: Task, i: nat)
    requires i < |tasks| && InsertByPriority(tasks, t) == tasks[..i] + InsertByPriority(tasks[i..], t)
    ensures InsertByPriority(tasks, t) ==
            if t.priority > tasks[i].priority then tasks[..i] + ([t] + tasks[i..])
            else tasks[..i + 1] + InsertByPriority(tasks[i + 1..], t)
  {
    DropHead(tasks, i);
    InsertHead(tasks[i..], t);
    Regroup(tasks[..i], [tasks[i]], InsertByPriority(tasks[i + 1..], t));
  }

  lemma DropHead<T>(s: seq<T>, i: nat)
    requires i < |s|
    ensures s[i..][0] == s[i] && s[i..][1..] == s[i + 1..] && s[..i + 1] == s[..i] + [s[i]]
  {
  }

  lemma Regroup<T>(a: seq<T>, b: seq<T>, c: seq<T>)
    ensures a + (b + c) == a + b + c
  {
  }

  lemma {:induction false} InsertHead(tasks: seq<Task>, t: Task)
    requires |tasks| > 0
    ensures InsertByPriority(tasks, t) ==
            if t.priority > tasks[0].priority then [t] + tasks else [tasks[0]] + InsertByPriority(tasks[1..], t)
  {
  }

  class InMemoryQueue {
    var tasks: seq<Task>
    var processing: map<Id, Task>
    var closed: bool

    function State(): QueueState
      reads this
    {
      QueueState(tasks, processing, closed)
    }

    constructor ()
      ensures State() == QueueState([], map[], false)
    {
      tasks, processing, closed := [], map[], false;
    }

    method Enqueue(task: Task, freshId: Id, now: nat) returns (r: Reply)
      modifies this
      ensures Stepped(State(), r) == EnqueueStep(old(State()), task, freshId, now)
    {
      if closed {
        return QueueClosed;
      }
      var t := Accepted(task, freshId, now);
      for i := 0 to |tasks|
        invariant State() == old(State())
        invariant InsertByPriority(tasks, t) == tasks[..i] + InsertByPriority(tasks[i..], t)
      {
        InsertAt(tasks, t, i);
        if t.priority > tasks[i].priority {
          tasks := tasks[..i] + ([t] + tasks[i..]);
          return Done;
        }
      }
      tasks := tasks + [t];
      return Done;
    }

    /** Waits while the queue is empty and open; until then its caller is blocked. */
    method Dequeue() returns (r: Reply)
      modifies this
      ensures Stepped(State(), r) == DequeueStep(old(State()))
    {
      if |tasks| == 0 && !closed {
        return Blocked;
      }
      if closed && |tasks| == 0 {
        return QueueClosed;
      }
      var task := tasks[0];
      tasks := tasks[1..];
      processing := processing[task.id := task];
      return Got(task);
    }

    method Peek() returns (r: Reply)
      ensures r == if |tasks| == 0 then Nothing else Got(tasks[0])
    {
      if |tasks| == 0 {
        return Nothing;
      }
      return Got(tasks[0]);
    }

    method Ack(id: Id) returns (r: Reply)
      modifies this
      ensures Stepped(State(), r) == Step(old(State()), Op.Ack(id), 0)
    {
      processing := processing - {id};
      return Done;
    }

    method Nack(id: Id) returns (r: Reply)
      modifies this
      ensures Stepped(State(), r) == NackStep(old(State()), id)
    {
      if id !in processing {
        return NotProcessing;
      }
      var task := processing[id];
      processing := processing - {id};
      task := task.(retryCount := task.retryCount + 1);
      task := task.(priority := task.priority - 1);
      tasks := tasks + [task];
      return Done;
    }

    method Len() returns (r: Reply)
      ensures r == Count(|tasks|)
    {
      return Count(|tasks|);
    }

    method Close() returns (r: Reply)
      modifies this
      ensures Stepped(State(), r) == Step(old(State()), Op.Close, 0)
    {
      closed := true;
      return Done;
    }
  }

  // ---- No task is lost or duplicated ----

  /** A queue with the history its clients have seen: every identifier accepted, every one
      acknowledged while being processed, and the priority plus retry count at acceptance. */
  datatype Ledger = Ledger(q: QueueState, accepted: multiset<Id>, acked: multiset<Id>, weight: map<Id, int>)

  function LedgerStep(l: Ledger, op: Op, now: nat): Ledger {
    var q' := Step(l.q, op, now).state;
    match op
    case Enqueue(t, freshId) =>
      if l.q.closed then l.(q := q')
      else
        var a := Accepted(t, freshId, now);
        Ledger(q', l.accepted + multiset{a.id}, l.acked, l.weight[a.id := a.priority + a.retryCount])
    case Ack(id) => l.(q := q', acked := if id in l.q.processing then l.acked + multiset{id} else l.acked)
    case _ => l.(q := q')
  }

  /** The run `ops`, the clock counting steps. */
  function Run(l: Ledger, ops: seq<Op>): Ledger {
    if ops == [] then l else LedgerStep(Run(l, ops[..|ops| - 1]), ops[|ops| - 1], |ops|)
  }

  const EMPTY := Ledger(QueueState([], map[], false), multiset{}, multiset{}, map[])

  /** The identifier being enqueued is neither waiting nor being processed. */
  predicate DistinctLive(q: QueueState, op: Op) {
    op.Enqueue? && !q.closed ==>
      var id := Accepted(op.task, op.freshId, 0).id;
      id !in IdsOf(q.waiting) && id !in q.processing
  }

  predicate DistinctRun(l: Ledger, ops: seq<Op>) {
    ops == [] || (DistinctRun(l, ops[..|ops| - 1]) && DistinctLive(Run(l, ops[..|ops| - 1]).q, ops[|ops| - 1]))
  }

  /** The identifiers waiting or being processed. */
  function Live(q: QueueState): multiset<Id> {
    IdsOf(q.waiting) + multiset(q.processing.Keys)
  }

  /** Every accepted task is in exactly one place: waiting, processing and acknowledged together
      hold exactly the accepted identifiers, and no live identifier occurs twice. */
  ghost predicate Accounted(l: Ledger) {
    && l.accepted == Live(l.q) + l.acked
    && (forall id :: Live(l.q)[id] <= 1)
    && (forall id :: id in l.q.processing ==> l.q.processing[id].id == id)
  }

  /** Nacks move a task's retry count up and its priority down by the same amount. */
  ghost predicate WeightsKept(l: Ledger) {
    && (forall i :: 0 <= i < |l.q.waiting| ==> WeightKept(l.weight, l.q.waiting[i]))
    && (forall id :: id in l.q.processing ==> WeightKept(l.weight, l.q.processing[id]))
  }

  predicate WeightKept(weight: map<Id, int>, t: Task) {
    t.id in weight && t.priority + t.retryCount == weight[t.id]
  }

  /** Where a task is inserted: after everything of at least its priority in a descending list. */
  lemma {:induction false} InsertPlace(tasks: seq<Task>, t: Task) returns (k: nat)
    ensures k <= |tasks| && InsertByPriority(tasks, t) == tasks[..k] + [t] + tasks[k..]
    ensures forall i :: 0 <= i < k ==> tasks[i].priority >= t.priority
    ensures k < |tasks| ==> tasks[k].priority < t.priority
  {
    if tasks == [] || t.priority > tasks[0].priority {
      k := 0;
    } else {
      k := InsertPlace(tasks[1..], t);
      k := k + 1;
      assert tasks[..k] == [tasks[0]] + tasks[1..][..k - 1];
      assert tasks[k..] == tasks[1..][k - 1..];
    }
  }

  lemma {:induction false} InsertIds(tasks: seq<Task>, t: Task)
    ensures IdsOf(InsertByPriority(tasks, t)) == IdsOf(tasks) + multiset{t.id}
  {
    var r := InsertByPriority(tasks, t);
    if tasks == [] || t.priority > tasks[0].priority {
      assert r[1..] == tasks;
    } else {
      InsertIds(tasks[1..], t);
      assert r[1..] == InsertByPriority(tasks[1..], t);
    }
  }

  lemma InsertMembers(tasks: seq<Task>, t: Task, i: nat)
    requires i < |InsertByPriority(tasks, t)|
    ensures InsertByPriority(tasks, t)[i] == t || InsertByPriority(tasks, t)[i] in tasks
  {
    var k := InsertPlace(tasks, t);
  }

  // What each step does to the live identifiers.

  lemma DequeueLive(q: QueueState)
    requires q.waiting != []
    ensures q.waiting[0].id !in q.processing ==> Live(DequeueStep(q).state) == Live(q)
    ensures q.waiting[0].id in q.processing ==> Live(DequeueStep(q).state) + multiset{q.waiting[0].id} == Live(q)
  {
    var id, q' := q.waiting[0].id, DequeueStep(q).state;
    assert q'.processing.Keys == q.processing.Keys + {id};
    if id in q.processing {
      assert q'.processing.Keys == q.processing.Keys;
    }
  }

  lemma RemoveProcessing(q: QueueState, id: Id)
    ensures (q.processing - {id}).Keys == q.processing.Keys - {id}
    ensures id in q.processing ==> multiset(q.processing.Keys) == multiset((q.processing - {id}).Keys) + multiset{id}
    ensures id !in q.processing ==> q.processing - {id} == q.processing
  {
  }

  lemma NackLive(q: QueueState, id: Id)
    requires id in q.processing ==> q.processing[id].id == id
    ensures Live(NackStep(q, id).state) == Live(q)
  {
    if id in q.processing {
      RemoveProcessing(q, id);
      IdsOfAppend(q.waiting, [Demoted(q.processing[id])]);
      assert IdsOf([Demoted(q.processing[id])]) == multiset{id};
    }
  }

  /** The live identifiers after a step: one more after an accepted task, one less after an
      acknowledgement, otherwise the same. */
  lemma StepLive(q: QueueState, op: Op, now: nat)
    requires forall id :: Live(q)[id] <= 1
    requires forall id :: id in q.processing ==> q.processing[id].id == id
    ensures var q' := Step(q, op, now).state;
            match op
            case Enqueue(t, freshId) => Live(q') == if q.closed then Live(q) else Live(q) + multiset{Accepted(t, freshId, now).id}
            case Ack(id) => if id in q.processing then Live(q) == Live(q') + multiset{id} else Live(q') == Live(q)
            case _ => Live(q') == Live(q)
  {
    match op {
      case Enqueue(t, freshId) => InsertIds(q.waiting, Accepted(t, freshId, now));
      case Dequeue =>
        if q.waiting != [] {
          IdsOfMember(q.waiting, 0);
          assert Live(q)[q.waiting[0].id] <= 1;
          DequeueLive(q);
        }
      case Ack(id) => RemoveProcessing(q, id);
      case Nack(id) => NackLive(q, id);
      case _ =>
    }
  }

  lemma StepAtMostOnce(q: QueueState, op: Op, now: nat, id: Id)
    requires forall x :: Live(q)[x] <= 1
    requires forall x :: x in q.processing ==> q.processing[x].id == x
    requires DistinctLive(q, op)
    ensures Live(Step(q, op, now).state)[id] <= 1
  {
    StepLive(q, op, now);
    assert Live(q)[id] <= 1;
    if op.Enqueue? && !q.closed {
      assert Accepted(op.task, op.freshId, now).id !in Live(q);
    }
  }

  lemma StepBalances(l: Ledger, op: Op, now: nat)
    requires Accounted(l)
    ensures LedgerStep(l, op, now).accepted == Live(LedgerStep(l, op, now).q) + LedgerStep(l, op, now).acked
  {
    StepLive(l.q, op, now);
  }

  lemma StepAccounted(l: Ledger, op: Op, now: nat)
    requires Accounted(l) && DistinctLive(l.q, op)
    ensures Accounted(LedgerStep(l, op, now))
  {
    StepBalances(l, op, now);
    forall id ensures Live(LedgerStep(l, op, now).q)[id] <= 1 {
      StepAtMostOnce(l.q, op, now, id);
    }
  }

  lemma StepWeights(l: Ledger, op: Op, now: nat)
    requires WeightsKept(l) && DistinctLive(l.q, op)
    requires forall id :: id in l.q.processing ==> l.q.processing[id].id == id
    ensures WeightsKept(LedgerStep(l, op, now))
  {
    var l' := LedgerStep(l, op, now);
    if op.Enqueue? && !l.q.closed {
      var a := Accepted(op.task, op.freshId, now);
      forall i | 0 <= i < |l'.q.waiting| ensures WeightKept(l'.weight, l'.q.waiting[i]) {
        InsertMembers(l.q.waiting, a, i);
        if l'.q.waiting[i] != a {
          var j :| 0 <= j < |l.q.waiting| && l.q.waiting[j] == l'.q.waiting[i];
          IdsOfMember(l.q.waiting, j);
          assert WeightKept(l.weight, l.q.waiting[j]);
        }
      }
    }
  }

  /** Over every run with distinct live identifiers, closing included, every accepted task stays in
      exactly one place and priority plus retry count stays what it was at acceptance. */
  lemma {:induction false} RunAccounted(ops: seq<Op>)
    requires DistinctRun(EMPTY, ops)
    ensures Accounted(Run(EMPTY, ops)) && WeightsKept(Run(EMPTY, ops))
  {
    if ops != [] {
      RunAccounted(ops[..|ops| - 1]);
      StepAccounted(Run(EMPTY, ops[..|ops| - 1]), ops[|ops| - 1], |ops|);
      StepWeights(Run(EMPTY, ops[..|ops| - 1]), ops[|ops| - 1], |ops|);
    }
  }

  /** The distinctness is needed: a dequeue loses a task exactly when its identifier is already
      being processed. */
  lemma DequeueKeepsExactly(q: QueueState)
    requires q.waiting != []
    ensures Live(DequeueStep(q).state) == Live(q) <==> q.waiting[0].id !in q.processing
  {
    DequeueLive(q);
    var id := q.waiting[0].id;
    assert (Live(DequeueStep(q).state) + multiset{id})[id] == Live(DequeueStep(q).state)[id] + 1;
  }

  /** A closed queue hands out what is waiting, in order, and then reports that it is closed. */
  lemma {:induction false} ClosedDrains(q: QueueState, i: nat)
    requires q.closed && i <= |q.waiting|
    ensures Dequeued(q, i).waiting == q.waiting[i..] && Dequeued(q, i).closed
    ensures DequeueStep(Dequeued(q, i)).reply == if i < |q.waiting| then Got(q.waiting[i]) else QueueClosed
    decreases i
  {
    if i > 0 {
      ClosedDrains(q, i - 1);
    }
  }

  function Dequeued(q: QueueState, n: nat): QueueState {
    if n == 0 then q else DequeueStep(Dequeued(q, n - 1)).state
  }

  // ---- Order ----

  /** Higher priority first, and first come first served among equals. */
  predicate Ordered(tasks: seq<Task>) {
    forall i, j :: 0 <= i < j < |tasks| ==> Precedes(tasks[i], tasks[j])
  }

  predicate Precedes(a: Task, b: Task) {
    a.priority > b.priority || (a.priority == b.priority && a.createdAt < b.createdAt)
  }

  lemma InsertOrdered(tasks: seq<Task>, t: Task)
    requires Ordered(tasks) && forall i :: 0 <= i < |tasks| ==> tasks[i].createdAt < t.createdAt
    ensures Ordered(InsertByPriority(tasks, t))
  {
    var k := InsertPlace(tasks, t);
    var r := InsertByPriority(tasks, t);
    forall i | k <= i < |tasks| ensures tasks[i].priority < t.priority {
      assert i > k ==> Precedes(tasks[k], tasks[i]);
    }
    forall i, j | 0 <= i < j < |r| ensures Precedes(r[i], r[j]) {
      if i != k && j != k {
        var a, b := if i < k then i else i - 1, if j < k then j else j - 1;
        assert r[i] == tasks[a] && r[j] == tasks[b];
      }
    }
  }

  /** On every run without Nack the waiting list is in order. */
  lemma {:induction false} NackFreeOrdered(ops: seq<Op>)
    requires forall i :: 0 <= i < |ops| ==> !ops[i].Nack?
    ensures Ordered(Run(EMPTY, ops).q.waiting)
    ensures forall i :: 0 <= i < |Run(EMPTY, ops).q.waiting| ==> Run(EMPTY, ops).q.waiting[i].createdAt <= |ops|
  {
    if ops != [] {
      var front, op := ops[..|ops| - 1], ops[|ops| - 1];
      NackFreeOrdered(front);
      var q := Run(EMPTY, front).q;
      if op.Enqueue? && !q.closed {
        var t := Accepted(op.task, op.freshId, |ops|);
        InsertOrdered(q.waiting, t);
        forall i | 0 <= i < |InsertByPriority(q.waiting, t)| ensures InsertByPriority(q.waiting, t)[i].createdAt <= |ops| {
          InsertMembers(q.waiting, t, i);
        }
      }
    }
  }

  predicate Descending(tasks: seq<Task>) {
    forall i, j :: 0 <= i < j < |tasks| ==> tasks[i].priority >= tasks[j].priority
  }

  /** A Nack appends at the tail, so it keeps a descending list descending exactly when no waiting
      task, and so not the last one, is below the demoted priority. */
  lemma NackKeepsDescending(q: QueueState, id: Id)
    requires id in q.processing && Descending(q.waiting)
    ensures Descending(NackStep(q, id).state.waiting) <==>
            q.waiting == [] || q.waiting[|q.waiting| - 1].priority >= q.processing[id].priority - 1
  {
    var after := NackStep(q, id).state.waiting;
    assert after[|q.waiting|].priority == q.processing[id].priority - 1;
    if q.waiting != [] {
      assert after[|q.waiting| - 1] == q.waiting[|q.waiting| - 1];
    }
  }

  /** On such a run Dequeue serves a task of the highest priority there is, the first accepted among
      equals; with nothing waiting it says so or waits. */
  lemma ServesHighest(ops: seq<Op>, now: nat)
    requires forall i :: 0 <= i < |ops| ==> !ops[i].Nack?
    ensures var q := Run(EMPTY, ops).q;
            var d := Step(q, Op.Dequeue, now);
            if q.waiting == [] then d == Stepped(q, if q.closed then QueueClosed else Blocked)
            else
              && d.reply.Got? && multiset(d.state.waiting) == multiset(q.waiting) - multiset{d.reply.task}
              && d.state.processing == q.processing[d.reply.task.id := d.reply.task] && d.state.closed == q.closed
              && forall u :: u in d.state.waiting ==>
                   || d.reply.task.priority > u.priority
                   || (d.reply.task.priority == u.priority && d.reply.task.createdAt < u.createdAt)
  {
    NackFreeOrdered(ops);
    var z := Run(EMPTY, ops).q.waiting;
    if z != [] {
      assert z == [z[0]] + z[1..];
      forall u | u in z[1..] ensures Precedes(z[0], u) {
        var i :| 0 <= i < |z[1..]| && z[1..][i] == u;
        assert z[i + 1] == u;
      }
    }
  }

  /** An open queue takes the task, under its own identifier or a fresh one and stamped with the time,
      right before the first task of lower priority; a closed one refuses it. */
  lemma EnqueueAdds(q: QueueState, t: Task, freshId: Id, now: nat) returns (k: nat)
    ensures q.closed ==> Step(q, Op.Enqueue(t, freshId), now) == Stepped(q, QueueClosed)
    ensures k <= |q.waiting|
    ensures !q.closed ==>
              var a := Task(if t.id == NO_ID then freshId else t.id, t.priority, t.retryCount, t.maxRetries, now);
              && Step(q, Op.Enqueue(t, freshId), now) == Stepped(q.(waiting := q.waiting[..k] + [a] + q.waiting[k..]), Done)
              && (forall i :: 0 <= i < k ==> q.waiting[i].priority >= t.priority)
              && (k < |q.waiting| ==> q.waiting[k].priority < t.priority)
  {
    k := InsertPlace(q.waiting, Accepted(t, freshId, now));
  }
}
