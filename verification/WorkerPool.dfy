// internal/engine/worker.go: the worker pool as interleaved atomic steps.

/** Submitting callers, workers and retry goroutines touch the pool one channel operation or one
    atomic addition at a time.  A step below is one of those; a run is any interleaving of them. */
module WorkerPool {

  /** A submitted task: the `*Task` pointer is `key`. */
  datatype Job = Job(key: nat, retryCount: int, maxRetries: int)

  /** Where a worker stands in its loop, and the task it still has to start or finish. */
  datatype Stage =
    | Idle
    | Took(job: Job)         // received from the channel
    | Discounted(job: Job)   // and QueuedTasks decremented
    | Running(job: Job)      // and ActiveTasks incremented
    | Tallying(ok: bool)     // the attempt is over
    | Leaving                // and counted as completed or failed

  /** `toTotal` callers have sent their task and still add to both counters, `toQueued` to one. */
  datatype Pool = Pool(queue: seq<Job>, workers: seq<Stage>, sleeping: seq<Job>, toTotal: nat, toQueued: nat,
                       metrics: Metrics)

  datatype Metrics = Metrics(total: int, completed: int, failed: int, active: int, queued: int)

  datatype Act =
    | Send(job: Job)          // Submit's channel operation
    | AddTotal | AddQueued    // Submit's two additions
    | Take(worker: nat) | Discount(worker: nat) | Start(worker: nat)
    | Finish(worker: nat, ok: bool)
    | Tally(worker: nat) | Leave(worker: nat)
    | Wake(sleeper: nat)      // a retry goroutine's channel operation

  const ZERO := Metrics(0, 0, 0, 0, 0)

  function Fresh(workers: nat): Pool {
    Pool([], seq(workers, i => Idle), [], 0, 0, ZERO)
  }

  predicate Enabled(p: Pool, a: Act) {
    match a
    case Send(_) => true
    case AddTotal => p.toTotal > 0
    case AddQueued => p.toQueued > 0
    case Take(w) => w < |p.workers| && p.workers[w].Idle? && |p.queue| > 0
    case Discount(w) => w < |p.workers| && p.workers[w].Took?
    case Start(w) => w < |p.workers| && p.workers[w].Discounted?
    case Finish(w, _) => w < |p.workers| && p.workers[w].Running?
    case Tally(w) => w < |p.workers| && p.workers[w].Tallying?
    case Leave(w) => w < |p.workers| && p.workers[w].Leaving?
    case Wake(i) => i < |p.sleeping|
  }

  /** A full channel refuses the task: Submit then reports an error and counts nothing. */
  function SendStep(p: Pool, capacity: nat, job: Job): Pool {
    if |p.queue| < capacity then p.(queue := p.queue + [job], toTotal := p.toTotal + 1) else p
  }

  predicate Retries(job: Job) {
    job.retryCount < job.maxRetries
  }

  function Bumped(job: Job): Job {
    job.(retryCount := job.retryCount + 1)
  }

  function Without(jobs: seq<Job>, i: nat): seq<Job>
    requires i < |jobs|
  {
    jobs[..i] + jobs[i + 1..]
  }

  function Step(p: Pool, capacity: nat, a: Act): Pool
    requires Enabled(p, a)
  {
    var m := p.metrics;
    match a
    case Send(job) => SendStep(p, capacity, job)
    case AddTotal => p.(toTotal := p.toTotal - 1, toQueued := p.toQueued + 1, metrics := m.(total := m.total + 1))
    case AddQueued => p.(toQueued := p.toQueued - 1, metrics := m.(queued := m.queued + 1))
    case Take(w) => p.(queue := p.queue[1..], workers := p.workers[w := Took(p.queue[0])])
    case Discount(w) => p.(workers := p.workers[w := Discounted(p.workers[w].job)], metrics := m.(queued := m.queued - 1))
    case Start(w) => p.(workers := p.workers[w := Running(p.workers[w].job)], metrics := m.(active := m.active + 1))
    case Finish(w, ok) =>
      var job := p.workers[w].job;
      p.(workers := p.workers[w := Tallying(ok)],
         sleeping := if !ok && Retries(job) then p.sleeping + [Bumped(job)] else p.sleeping)
    case Tally(w) =>
      p.(workers := p.workers[w := Leaving],
         metrics := if p.workers[w].ok then m.(completed := m.completed + 1) else m.(failed := m.failed + 1))
    case Leave(w) => p.(workers := p.workers[w := Idle], metrics := m.(active := m.active - 1))
    case Wake(i) => SendStep(p.(sleeping := Without(p.sleeping, i)), capacity, p.sleeping[i])
  }

  // ---- What really happened ----

  /** The pool beside a true record: channel sends, attempts by outcome, attempts by task, each
      task as first accepted, and the tasks that left the pool. */
  datatype Ledger = Ledger(pool: Pool, sends: nat, succeeded: nat, failed: nat,
                           books: Books, done: seq<Job>, spent: seq<Job>, dropped: seq<Job>)

  /** Each task as it was accepted, and the attempts started on it since. */
  datatype Books = Books(origin: map<nat, Job>, attempts: map<nat, nat>)

  function Registered(b: Books, job: Job): Books {
    Books(b.origin[job.key := job], b.attempts[job.key := 0])
  }

  function Attempted(b: Books, k: nat): Books {
    b.(attempts := b.attempts[k := if k in b.attempts then b.attempts[k] + 1 else 1])
  }

  function Opened(workers: nat): Ledger {
    Ledger(Fresh(workers), 0, 0, 0, Books(map[], map[]), [], [], [])
  }

  function LedgerStep(l: Ledger, capacity: nat, a: Act): Ledger
    requires Enabled(l.pool, a)
  {
    var l' := l.(pool := Step(l.pool, capacity, a));
    var room := |l.pool.queue| < capacity;
    match a
    case Send(job) =>
      if room then l'.(sends := l.sends + 1, books := Registered(l.books, job)) else l'
    case Start(w) =>
      l'.(books := Attempted(l.books, l.pool.workers[w].job.key))
    case Finish(w, ok) =>
      var job := l.pool.workers[w].job;
      if ok then l'.(succeeded := l.succeeded + 1, done := l.done + [job])
      else l'.(failed := l.failed + 1, spent := if Retries(job) then l.spent else l.spent + [job])
    case Wake(i) =>
      if room then l'.(sends := l.sends + 1) else l'.(dropped := l.dropped + [l.pool.sleeping[i]])
    case _ => l'
  }

  predicate Runs(l: Ledger, capacity: nat, acts: seq<Act>)
    decreases |acts|, 0
  {
    |acts| > 0 ==>
      && Runs(l, capacity, acts[..|acts| - 1])
      && Enabled(After(l, capacity, acts[..|acts| - 1]).pool, acts[|acts| - 1])
  }

  function After(l: Ledger, capacity: nat, acts: seq<Act>): Ledger
    requires Runs(l, capacity, acts)
    decreases |acts|, 1
  {
    if |acts| == 0 then l else LedgerStep(After(l, capacity, acts[..|acts| - 1]), capacity, acts[|acts| - 1])
  }

  // ---- Counters against the truth ----

  function Sum(ws: seq<Stage>, weight: Stage -> int): int {
    if |ws| == 0 then 0 else weight(ws[0]) + Sum(ws[1..], weight)
  }

  function IsTook(s: Stage): int { if s.Took? then 1 else 0 }
  function IsHolding(s: Stage): int { if s.Took? || s.Discounted? || s.Running? then 1 else 0 }
  function IsActive(s: Stage): int { if s.Running? || s.Tallying? || s.Leaving? then 1 else 0 }
  function IsSuccess(s: Stage): int { if s.Tallying? && s.ok then 1 else 0 }
  function IsFailure(s: Stage): int { if s.Tallying? && !s.ok then 1 else 0 }

  lemma {:induction false} SumChange(ws: seq<Stage>, w: nat, s: Stage, weight: Stage -> int)
    requires w < |ws|
    ensures Sum(ws[w := s], weight) == Sum(ws, weight) - weight(ws[w]) + weight(s)
  {
    var changed := ws[w := s];
    if w == 0 {
      assert changed[1..] == ws[1..];
    } else {
      assert changed[1..] == ws[1..][w - 1 := s];
      SumChange(ws[1..], w - 1, s, weight);
    }
  }

  lemma {:induction false} SumZero(ws: seq<Stage>, weight: Stage -> int)
    requires forall i :: 0 <= i < |ws| ==> weight(ws[i]) == 0
    ensures Sum(ws, weight) == 0
  {
    if |ws| > 0 {
      forall i | 0 <= i < |ws[1..]| ensures weight(ws[1..][i]) == 0 {
        assert ws[1..][i] == ws[i + 1];
      }
      SumZero(ws[1..], weight);
    }
  }

  /** Every counter is the truth less the additions still pending, and every accepted send is a task
      in the channel, with a worker, or an attempt that has ended. */
  ghost predicate Counted(l: Ledger) {
    var p, ws, m := l.pool, l.pool.workers, l.pool.metrics;
    && m.total == l.sends - p.toTotal
    && m.queued == |p.queue| - p.toTotal - p.toQueued + Sum(ws, IsTook)
    && m.active == Sum(ws, IsActive)
    && m.completed == l.succeeded - Sum(ws, IsSuccess)
    && m.failed == l.failed - Sum(ws, IsFailure)
    && l.sends == |p.queue| + Sum(ws, IsHolding) + l.succeeded + l.failed
  }

  lemma SumsChange(ws: seq<Stage>, w: nat, s: Stage)
    requires w < |ws|
    ensures Sum(ws[w := s], IsTook) == Sum(ws, IsTook) - IsTook(ws[w]) + IsTook(s)
    ensures Sum(ws[w := s], IsHolding) == Sum(ws, IsHolding) - IsHolding(ws[w]) + IsHolding(s)
    ensures Sum(ws[w := s], IsActive) == Sum(ws, IsActive) - IsActive(ws[w]) + IsActive(s)
    ensures Sum(ws[w := s], IsSuccess) == Sum(ws, IsSuccess) - IsSuccess(ws[w]) + IsSuccess(s)
    ensures Sum(ws[w := s], IsFailure) == Sum(ws, IsFailure) - IsFailure(ws[w]) + IsFailure(s)
  {
    SumChange(ws, w, s, IsTook);
    SumChange(ws, w, s, IsHolding);
    SumChange(ws, w, s, IsActive);
    SumChange(ws, w, s, IsSuccess);
    SumChange(ws, w, s, IsFailure);
  }

  lemma TakeCounted(l: Ledger, capacity: nat, a: Act)
    requires Counted(l) && Enabled(l.pool, a) && (a.Take? || a.Discount? || a.Start?)
    ensures Counted(LedgerStep(l, capacity, a))
  {
    SumsChange(l.pool.workers, a.worker, LedgerStep(l, capacity, a).pool.workers[a.worker]);
  }

  lemma FinishCounted(l: Ledger, capacity: nat, a: Act)
    requires Counted(l) && Enabled(l.pool, a) && (a.Finish? || a.Tally? || a.Leave?)
    ensures Counted(LedgerStep(l, capacity, a))
  {
    SumsChange(l.pool.workers, a.worker, LedgerStep(l, capacity, a).pool.workers[a.worker]);
  }

  lemma SubmitCounted(l: Ledger, capacity: nat, a: Act)
    requires Counted(l) && Enabled(l.pool, a) && (a.Send? || a.AddTotal? || a.AddQueued? || a.Wake?)
    ensures Counted(LedgerStep(l, capacity, a))
  {
  }

  lemma StepCounted(l: Ledger, capacity: nat, a: Act)
    requires Counted(l) && Enabled(l.pool, a)
    ensures Counted(LedgerStep(l, capacity, a))
  {
    if a.Take? || a.Discount? || a.Start? {
      TakeCounted(l, capacity, a);
    } else if a.Finish? || a.Tally? || a.Leave? {
      FinishCounted(l, capacity, a);
    } else {
      SubmitCounted(l, capacity, a);
    }
  }

  lemma {:induction false} RunCounted(workers: nat, capacity: nat, acts: seq<Act>)
    requires Runs(Opened(workers), capacity, acts)
    ensures Counted(After(Opened(workers), capacity, acts))
  {
    if |acts| == 0 {
      var ws := Opened(workers).pool.workers;
      SumZero(ws, IsTook);
      SumZero(ws, IsHolding);
      SumZero(ws, IsActive);
      SumZero(ws, IsSuccess);
      SumZero(ws, IsFailure);
    } else {
      RunCounted(workers, capacity, acts[..|acts| - 1]);
      StepCounted(After(Opened(workers), capacity, acts[..|acts| - 1]), capacity, acts[|acts| - 1]);
    }
  }

  /** No caller is inside Submit and no worker is handling a task; retries may still be sleeping. */
  predicate Quiescent(p: Pool) {
    p.toTotal == 0 && p.toQueued == 0 && forall w :: 0 <= w < |p.workers| ==> p.workers[w].Idle?
  }

  lemma CountersAddUp(workers: nat, capacity: nat, acts: seq<Act>)
    requires Runs(Opened(workers), capacity, acts)
    requires Quiescent(After(Opened(workers), capacity, acts).pool)
    ensures var l := After(Opened(workers), capacity, acts);
            var m := l.pool.metrics;
            && m.total == m.completed + m.failed + m.queued
            && m.queued == |l.pool.queue| && m.active == 0
            && m.completed == l.succeeded && m.failed == l.failed && m.total == l.sends
  {
    RunCounted(workers, capacity, acts);
    var ws := After(Opened(workers), capacity, acts).pool.workers;
    SumZero(ws, IsTook);
    SumZero(ws, IsHolding);
    SumZero(ws, IsActive);
    SumZero(ws, IsSuccess);
    SumZero(ws, IsFailure);
  }

  // ---- Where each task is ----

  function Count(jobs: seq<Job>, k: nat): nat {
    if |jobs| == 0 then 0 else (if jobs[0].key == k then 1 else 0) + Count(jobs[1..], k)
  }

  predicate HoldsKey(s: Stage, k: nat) {
    match s
    case Took(job) => job.key == k
    case Discounted(job) => job.key == k
    case Running(job) => job.key == k
    case _ => false
  }

  function CountHeld(ws: seq<Stage>, k: nat): nat {
    if |ws| == 0 then 0 else (if HoldsKey(ws[0], k) then 1 else 0) + CountHeld(ws[1..], k)
  }

  /** In how many places task `k` is: in the channel, asleep before a retry, with a worker, finished,
      out of retries, or dropped because the channel was full when the retry woke. */
  function Places(l: Ledger, k: nat): nat {
    Count(l.pool.queue, k) + Count(l.pool.sleeping, k) + CountHeld(l.pool.workers, k)
    + Count(l.done, k) + Count(l.spent, k) + Count(l.dropped, k)
  }

  lemma {:induction false} CountAppend(xs: seq<Job>, ys: seq<Job>, k: nat)
    ensures Count(xs + ys, k) == Count(xs, k) + Count(ys, k)
  {
    if |xs| == 0 {
      assert xs + ys == ys;
    } else {
      assert (xs + ys)[1..] == xs[1..] + ys;
      CountAppend(xs[1..], ys, k);
    }
  }

  lemma CountPush(xs: seq<Job>, job: Job, k: nat)
    ensures Count(xs + [job], k) == Count(xs, k) + if job.key == k then 1 else 0
  {
    CountAppend(xs, [job], k);
    assert [job][1..] == [];
  }

  lemma CountWithout(xs: seq<Job>, i: nat, k: nat)
    requires i < |xs|
    ensures Count(xs, k) == Count(Without(xs, i), k) + if xs[i].key == k then 1 else 0
  {
    CountAppend(xs[..i], xs[i + 1..], k);
    CountAppend(xs[..i], xs[i..], k);
    assert xs == xs[..i] + xs[i..];
    assert xs[i..][1..] == xs[i + 1..];
  }

  lemma {:induction false} HeldChange(ws: seq<Stage>, w: nat, s: Stage, k: nat)
    requires w < |ws|
    ensures CountHeld(ws[w := s], k) ==
            CountHeld(ws, k) - (if HoldsKey(ws[w], k) then 1 else 0) + if HoldsKey(s, k) then 1 else 0
  {
    var changed := ws[w := s];
    if w == 0 {
      assert changed[1..] == ws[1..];
    } else {
      assert changed[1..] == ws[1..][w - 1 := s];
      HeldChange(ws[1..], w - 1, s, k);
    }
  }

  lemma {:induction false} NoneHeld(ws: seq<Stage>, k: nat)
    requires forall i :: 0 <= i < |ws| ==> ws[i].Idle?
    ensures CountHeld(ws, k) == 0
  {
    if |ws| > 0 {
      NoneHeld(ws[1..], k);
    }
  }

  /** A worker's own additions leave every task where it is. */
  lemma WorkerKeepsTasks(l: Ledger, capacity: nat, a: Act, k: nat)
    requires Enabled(l.pool, a) && (a.Discount? || a.Start? || a.Tally? || a.Leave?)
    ensures Places(LedgerStep(l, capacity, a), k) == Places(l, k)
  {
    HeldChange(l.pool.workers, a.worker, LedgerStep(l, capacity, a).pool.workers[a.worker], k);
  }

  lemma FinishKeepsTasks(l: Ledger, capacity: nat, w: nat, ok: bool, k: nat)
    requires Enabled(l.pool, Finish(w, ok))
    ensures Places(LedgerStep(l, capacity, Finish(w, ok)), k) == Places(l, k)
  {
    var job := l.pool.workers[w].job;
    HeldChange(l.pool.workers, w, Tallying(ok), k);
    CountPush(l.done, job, k);
    CountPush(l.spent, job, k);
    CountPush(l.pool.sleeping, Bumped(job), k);
  }

  lemma WakeKeepsTasks(l: Ledger, capacity: nat, i: nat, k: nat)
    requires Enabled(l.pool, Wake(i))
    ensures Places(LedgerStep(l, capacity, Wake(i)), k) == Places(l, k)
  {
    CountWithout(l.pool.sleeping, i, k);
    CountPush(l.pool.queue, l.pool.sleeping[i], k);
    CountPush(l.dropped, l.pool.sleeping[i], k);
  }

  /** A step moves tasks about; only an accepted Submit brings one in, and none is ever lost. */
  lemma StepKeepsTasks(l: Ledger, capacity: nat, a: Act, k: nat)
    requires Enabled(l.pool, a)
    ensures Places(LedgerStep(l, capacity, a), k) ==
            Places(l, k) + if a.Send? && a.job.key == k && |l.pool.queue| < capacity then 1 else 0
  {
    match a
    case Send(job) => CountPush(l.pool.queue, job, k);
    case AddTotal =>
    case AddQueued =>
    case Take(w) => HeldChange(l.pool.workers, w, Took(l.pool.queue[0]), k);
    case Finish(w, ok) => FinishKeepsTasks(l, capacity, w, ok, k);
    case Wake(i) => WakeKeepsTasks(l, capacity, i, k);
    case _ => WorkerKeepsTasks(l, capacity, a, k);
  }

  /** Each accepted task is in exactly one place, and no other task is anywhere. */
  ghost predicate OnePlaceEach(l: Ledger) {
    && (forall k: nat :: Places(l, k) == if k in l.books.origin then 1 else 0)
    && l.books.attempts.Keys == l.books.origin.Keys
  }

  /** Callers submit each task object once. */
  predicate Once(l: Ledger, a: Act) {
    a.Send? ==> a.job.key !in l.books.origin
  }

  lemma {:induction false} KeyHeld(ws: seq<Stage>, w: nat, k: nat)
    requires w < |ws| && HoldsKey(ws[w], k)
    ensures CountHeld(ws, k) > 0
  {
    if w > 0 {
      KeyHeld(ws[1..], w - 1, k);
    }
  }

  lemma StepOnePlaceEach(l: Ledger, capacity: nat, a: Act)
    requires OnePlaceEach(l) && Enabled(l.pool, a) && Once(l, a)
    ensures OnePlaceEach(LedgerStep(l, capacity, a))
  {
    var l' := LedgerStep(l, capacity, a);
    forall k: nat ensures Places(l', k) == if k in l'.books.origin then 1 else 0 {
      StepKeepsTasks(l, capacity, a, k);
    }
    if a.Start? {
      var k := l.pool.workers[a.worker].job.key;
      KeyHeld(l.pool.workers, a.worker, k);
      assert Places(l, k) > 0;
    }
  }

  // ---- How often each task is attempted ----

  /** A task whose retry count has grown by one for each attempt but the last `running` of them, and
      which had a retry left every time it was put back. */
  predicate At(b: Books, job: Job, running: nat) {
    && job.key in b.origin && job.key in b.attempts
    && job.maxRetries == b.origin[job.key].maxRetries
    && b.attempts[job.key] == job.retryCount - b.origin[job.key].retryCount + running
    && b.attempts[job.key] >= running && (b.attempts[job.key] > running ==> job.retryCount <= job.maxRetries)
  }

  predicate AllAt(b: Books, jobs: seq<Job>, running: nat) {
    forall i :: 0 <= i < |jobs| ==> At(b, jobs[i], running)
  }

  predicate StageRight(b: Books, s: Stage) {
    match s
    case Took(job) => At(b, job, 0)
    case Discounted(job) => At(b, job, 0)
    case Running(job) => At(b, job, 1)
    case _ => true
  }

  predicate AllStages(b: Books, ws: seq<Stage>) {
    forall w :: 0 <= w < |ws| ==> StageRight(b, ws[w])
  }

  predicate AllSpent(jobs: seq<Job>) {
    forall i :: 0 <= i < |jobs| ==> !Retries(jobs[i])
  }

  predicate AttemptsRight(l: Ledger) {
    && AllAt(l.books, l.pool.queue, 0) && AllAt(l.books, l.pool.sleeping, 0) && AllStages(l.books, l.pool.workers)
    && AllAt(l.books, l.done, 1) && AllAt(l.books, l.spent, 1) && AllSpent(l.spent) && AllAt(l.books, l.dropped, 0)
  }

  predicate AgreeBut(b: Books, b': Books, k: nat) {
    && (forall j :: j in b.origin && j != k ==> j in b'.origin && b'.origin[j] == b.origin[j])
    && (forall j :: j in b.attempts && j != k ==> j in b'.attempts && b'.attempts[j] == b.attempts[j])
  }

  lemma {:induction false} AllAtFrame(b: Books, b': Books, k: nat, jobs: seq<Job>, running: nat)
    requires AgreeBut(b, b', k) && Count(jobs, k) == 0 && AllAt(b, jobs, running)
    ensures AllAt(b', jobs, running)
  {
    forall i | 0 <= i < |jobs| ensures At(b', jobs[i], running) {
      CountWithout(jobs, i, k);
      assert At(b, jobs[i], running);
    }
  }

  lemma AllStagesFrame(b: Books, b': Books, k: nat, ws: seq<Stage>)
    requires AgreeBut(b, b', k) && CountHeld(ws, k) == 0 && AllStages(b, ws)
    ensures AllStages(b', ws)
  {
    forall w | 0 <= w < |ws| ensures StageRight(b', ws[w]) {
      if HoldsKey(ws[w], k) {
        KeyHeld(ws, w, k);
      }
      assert StageRight(b, ws[w]);
    }
  }

  lemma StageChange(b: Books, ws: seq<Stage>, w: nat, s: Stage)
    requires w < |ws| && AllStages(b, ws) && StageRight(b, s)
    ensures AllStages(b, ws[w := s])
  {
  }

  lemma PushAt(b: Books, jobs: seq<Job>, job: Job, running: nat)
    requires AllAt(b, jobs, running) && At(b, job, running)
    ensures AllAt(b, jobs + [job], running)
  {
  }

  /** Nothing but task `k` notices new books for `k`. */
  lemma ElsewhereRight(l: Ledger, b': Books, k: nat)
    requires AttemptsRight(l) && AgreeBut(l.books, b', k) && Places(l, k) == 0
    ensures AttemptsRight(l.(books := b'))
  {
    AllAtFrame(l.books, b', k, l.pool.queue, 0);
    AllAtFrame(l.books, b', k, l.pool.sleeping, 0);
    AllStagesFrame(l.books, b', k, l.pool.workers);
    AllAtFrame(l.books, b', k, l.done, 1);
    AllAtFrame(l.books, b', k, l.spent, 1);
    AllAtFrame(l.books, b', k, l.dropped, 0);
  }

  lemma SendRight(l: Ledger, capacity: nat, job: Job)
    requires AttemptsRight(l) && OnePlaceEach(l) && job.key !in l.books.origin
    ensures AttemptsRight(LedgerStep(l, capacity, Send(job)))
  {
    var b' := Registered(l.books, job);
    assert Places(l, job.key) == 0;
    ElsewhereRight(l, b', job.key);
    PushAt(b', l.pool.queue, job, 0);
  }

  lemma StartRight(l: Ledger, capacity: nat, w: nat)
    requires AttemptsRight(l) && OnePlaceEach(l) && Enabled(l.pool, Start(w))
    ensures AttemptsRight(LedgerStep(l, capacity, Start(w)))
  {
    var p, ws := l.pool, l.pool.workers;
    var job := ws[w].job;
    var b' := Attempted(l.books, job.key);
    assert StageRight(l.books, ws[w]);
    HeldChange(ws, w, Idle, job.key);
    var rest := l.(pool := p.(workers := ws[w := Idle]));
    assert Places(l, job.key) == Places(rest, job.key) + 1;
    StageChange(l.books, ws, w, Idle);
    ElsewhereRight(rest, b', job.key);
    assert At(b', job, 1);
    StageChange(b', ws[w := Idle], w, Running(job));
    assert ws[w := Idle][w := Running(job)] == ws[w := Running(job)];
  }

  lemma FinishRight(l: Ledger, capacity: nat, w: nat, ok: bool)
    requires AttemptsRight(l) && Enabled(l.pool, Finish(w, ok))
    ensures AttemptsRight(LedgerStep(l, capacity, Finish(w, ok)))
  {
    var job := l.pool.workers[w].job;
    assert StageRight(l.books, l.pool.workers[w]);
    StageChange(l.books, l.pool.workers, w, Tallying(ok));
    PushAt(l.books, l.done, job, 1);
    PushAt(l.books, l.spent, job, 1);
    if Retries(job) {
      PushAt(l.books, l.pool.sleeping, Bumped(job), 0);
    }
  }

  lemma WakeRight(l: Ledger, capacity: nat, i: nat)
    requires AttemptsRight(l) && Enabled(l.pool, Wake(i))
    ensures AttemptsRight(LedgerStep(l, capacity, Wake(i)))
  {
    PushAt(l.books, l.pool.queue, l.pool.sleeping[i], 0);
    PushAt(l.books, l.dropped, l.pool.sleeping[i], 0);
    var rest := Without(l.pool.sleeping, i);
    assert AllAt(l.books, rest, 0);
  }

  lemma TakeRight(l: Ledger, capacity: nat, w: nat)
    requires AttemptsRight(l) && Enabled(l.pool, Take(w))
    ensures AttemptsRight(LedgerStep(l, capacity, Take(w)))
  {
    StageChange(l.books, l.pool.workers, w, Took(l.pool.queue[0]));
  }

  lemma StepAttempts(l: Ledger, capacity: nat, a: Act)
    requires AttemptsRight(l) && OnePlaceEach(l) && Enabled(l.pool, a) && Once(l, a)
    ensures AttemptsRight(LedgerStep(l, capacity, a))
  {
    match a
    case Send(job) => SendRight(l, capacity, job);
    case Start(w) => StartRight(l, capacity, w);
    case Finish(w, ok) => FinishRight(l, capacity, w, ok);
    case Wake(i) => WakeRight(l, capacity, i);
    case Take(w) => TakeRight(l, capacity, w);
    case Discount(w) => StageChange(l.books, l.pool.workers, w, Discounted(l.pool.workers[w].job));
    case Tally(w) =>
    case Leave(w) =>
    case AddTotal =>
    case AddQueued =>
  }

  /** A run in which callers submit each task object once. */
  predicate OnceRun(l: Ledger, capacity: nat, acts: seq<Act>)
    requires Runs(l, capacity, acts)
    decreases |acts|
  {
    |acts| > 0 ==>
      var front := acts[..|acts| - 1];
      OnceRun(l, capacity, front) && Once(After(l, capacity, front), acts[|acts| - 1])
  }

  lemma {:induction false} RunTracked(workers: nat, capacity: nat, acts: seq<Act>)
    requires Runs(Opened(workers), capacity, acts) && OnceRun(Opened(workers), capacity, acts)
    ensures OnePlaceEach(After(Opened(workers), capacity, acts)) && AttemptsRight(After(Opened(workers), capacity, acts))
    decreases |acts|
  {
    if |acts| == 0 {
      forall k: nat ensures Places(Opened(workers), k) == 0 {
        NoneHeld(Opened(workers).pool.workers, k);
      }
    } else {
      var front := acts[..|acts| - 1];
      RunTracked(workers, capacity, front);
      StepOnePlaceEach(After(Opened(workers), capacity, front), capacity, acts[|acts| - 1]);
      StepAttempts(After(Opened(workers), capacity, front), capacity, acts[|acts| - 1]);
    }
  }

  lemma {:induction false} KeyPlace(jobs: seq<Job>, k: nat) returns (i: nat)
    requires Count(jobs, k) > 0
    ensures i < |jobs| && jobs[i].key == k
  {
    if jobs[0].key == k {
      i := 0;
    } else {
      i := KeyPlace(jobs[1..], k);
      i := i + 1;
    }
  }

  lemma {:induction false} HolderOf(ws: seq<Stage>, k: nat) returns (w: nat)
    requires CountHeld(ws, k) > 0
    ensures w < |ws| && HoldsKey(ws[w], k)
  {
    if HoldsKey(ws[0], k) {
      w := 0;
    } else {
      w := HolderOf(ws[1..], k);
      w := w + 1;
    }
  }

  lemma KeyAt(b: Books, jobs: seq<Job>, running: nat, k: nat)
    requires Count(jobs, k) > 0 && AllAt(b, jobs, running) && running <= 1
    ensures k in b.origin && k in b.attempts && b.attempts[k] <= MostAttempts(b.origin[k])
  {
    var i := KeyPlace(jobs, k);
    assert At(b, jobs[i], running);
  }

  /** The most often a task accepted with this retry count can be attempted. */
  function MostAttempts(job: Job): nat {
    if Retries(job) then job.maxRetries - job.retryCount + 1 else 1
  }

  lemma AttemptBound(workers: nat, capacity: nat, acts: seq<Act>, k: nat)
    requires Runs(Opened(workers), capacity, acts) && OnceRun(Opened(workers), capacity, acts)
    requires k in After(Opened(workers), capacity, acts).books.origin
    ensures var b := After(Opened(workers), capacity, acts).books;
            k in b.attempts && b.attempts[k] <= MostAttempts(b.origin[k])
  {
    RunTracked(workers, capacity, acts);
    var l := After(Opened(workers), capacity, acts);
    assert Places(l, k) == 1;
    if CountHeld(l.pool.workers, k) > 0 {
      var w := HolderOf(l.pool.workers, k);
      assert StageRight(l.books, l.pool.workers[w]);
    } else if Count(l.done, k) + Count(l.spent, k) > 0 {
      KeyAt(l.books, if Count(l.done, k) > 0 then l.done else l.spent, 1, k);
    } else {
      KeyAt(l.books, if Count(l.pool.queue, k) > 0 then l.pool.queue
                     else if Count(l.pool.sleeping, k) > 0 then l.pool.sleeping else l.dropped, 0, k);
    }
  }

  /** A task is given up only after every attempt it was entitled to, unless a full channel dropped
      its retry; a dropped task still had an attempt to go. */
  lemma GivenUpAfterExactly(workers: nat, capacity: nat, acts: seq<Act>, job: Job)
    requires Runs(Opened(workers), capacity, acts) && OnceRun(Opened(workers), capacity, acts)
    ensures var l := After(Opened(workers), capacity, acts);
            job in l.spent ==> At(l.books, job, 1) && l.books.attempts[job.key] == MostAttempts(l.books.origin[job.key])
    ensures var l := After(Opened(workers), capacity, acts);
            job in l.dropped ==> At(l.books, job, 0) && l.books.attempts[job.key] < MostAttempts(l.books.origin[job.key])
  {
    RunTracked(workers, capacity, acts);
    var l := After(Opened(workers), capacity, acts);
    if job in l.spent {
      var i :| 0 <= i < |l.spent| && l.spent[i] == job;
      assert At(l.books, l.spent[i], 1) && !Retries(l.spent[i]);
    }
    if job in l.dropped {
      var i :| 0 <= i < |l.dropped| && l.dropped[i] == job;
      assert At(l.books, l.dropped[i], 0);
    }
  }

  lemma OneMoreAct(l: Ledger, capacity: nat, acts: seq<Act>, a: Act)
    requires Runs(l, capacity, acts) && Enabled(After(l, capacity, acts).pool, a)
    ensures Runs(l, capacity, acts + [a])
    ensures After(l, capacity, acts + [a]) == LedgerStep(After(l, capacity, acts), capacity, a)
    ensures OnceRun(l, capacity, acts) && Once(After(l, capacity, acts), a) ==> OnceRun(l, capacity, acts + [a])
  {
    assert (acts + [a])[..|acts + [a]| - 1] == acts;
  }

  /** The task has failed, waits for its retry, and `n` later tasks are in the channel. */
  ghost predicate Awaits(workers: nat, capacity: nat, acts: seq<Act>, job: Job, n: nat) {
    && Runs(Opened(workers), capacity, acts) && OnceRun(Opened(workers), capacity, acts)
    && var l := After(Opened(workers), capacity, acts);
       && l.pool.sleeping == [Bumped(job)] && |l.pool.queue| == n && l.dropped == []
       && forall k :: k in l.books.origin ==> k <= job.key + n
  }

  lemma FailsOnce(workers: nat, capacity: nat, job: Job) returns (acts: seq<Act>)
    requires workers > 0 && capacity > 0 && Retries(job)
    ensures Awaits(workers, capacity, acts, job, 0)
  {
    var l := Opened(workers);
    acts := [];
    OneMoreAct(l, capacity, acts, Send(job));
    acts := acts + [Send(job)];
    assert After(l, capacity, acts).pool.queue == [job] && After(l, capacity, acts).pool.workers[0] == Idle;
    OneMoreAct(l, capacity, acts, Take(0));
    acts := acts + [Take(0)];
    assert After(l, capacity, acts).pool.queue == [] && After(l, capacity, acts).pool.workers[0] == Took(job);
    OneMoreAct(l, capacity, acts, Discount(0));
    acts := acts + [Discount(0)];
    OneMoreAct(l, capacity, acts, Start(0));
    acts := acts + [Start(0)];
    OneMoreAct(l, capacity, acts, Finish(0, false));
    acts := acts + [Finish(0, false)];
  }

  lemma {:induction false} ChannelFills(workers: nat, capacity: nat, job: Job, n: nat) returns (acts: seq<Act>)
    requires workers > 0 && n <= capacity && capacity > 0 && Retries(job)
    ensures Awaits(workers, capacity, acts, job, n)
  {
    if n == 0 {
      acts := FailsOnce(workers, capacity, job);
    } else {
      var front := ChannelFills(workers, capacity, job, n - 1);
      var next := Send(Job(job.key + n, 0, 0));
      OneMoreAct(Opened(workers), capacity, front, next);
      acts := front + [next];
    }
  }

  /** Whatever the numbers of workers and of places in the channel, a task entitled to a retry can lose it. */
  lemma RetryCanBeDropped(workers: nat, capacity: nat, job: Job) returns (acts: seq<Act>)
    requires workers > 0 && capacity > 0 && Retries(job)
    ensures Runs(Opened(workers), capacity, acts) && OnceRun(Opened(workers), capacity, acts)
    ensures After(Opened(workers), capacity, acts).dropped == [Bumped(job)]
  {
    var front := ChannelFills(workers, capacity, job, capacity);
    OneMoreAct(Opened(workers), capacity, front, Wake(0));
    acts := front + [Wake(0)];
  }

  /** What an act puts into the channel: a task submitted or woken while there is room. */
  function Enters(p: Pool, capacity: nat, a: Act): seq<Job>
    requires Enabled(p, a)
  {
    if |p.queue| >= capacity then []
    else match a
         case Send(job) => [job]
         case Wake(i) => [p.sleeping[i]]
         case _ => []
  }

  /** What an act takes out: the task its worker then holds. */
  function TakenUp(after: Pool, a: Act): seq<Job> {
    if a.Take? && a.worker < |after.workers| && after.workers[a.worker].Took? then [after.workers[a.worker].job] else []
  }

  function Entered(workers: nat, capacity: nat, acts: seq<Act>): seq<Job>
    requires Runs(Opened(workers), capacity, acts)
  {
    if |acts| == 0 then []
    else
      Entered(workers, capacity, acts[..|acts| - 1]) +
      Enters(After(Opened(workers), capacity, acts[..|acts| - 1]).pool, capacity, acts[|acts| - 1])
  }

  function Taken(workers: nat, capacity: nat, acts: seq<Act>): seq<Job>
    requires Runs(Opened(workers), capacity, acts)
  {
    if |acts| == 0 then []
    else Taken(workers, capacity, acts[..|acts| - 1]) + TakenUp(After(Opened(workers), capacity, acts).pool, acts[|acts| - 1])
  }

  lemma StepInOrder(l: Ledger, capacity: nat, a: Act)
    requires Enabled(l.pool, a)
    ensures var p, q := l.pool, LedgerStep(l, capacity, a).pool;
            p.queue + Enters(p, capacity, a) == TakenUp(q, a) + q.queue && (|p.queue| <= capacity ==> |q.queue| <= capacity)
  {
  }

  lemma OnwardInOrder(entered: seq<Job>, taken: seq<Job>, queue: seq<Job>, more: seq<Job>, out: seq<Job>, rest: seq<Job>)
    requires entered == taken + queue && queue + more == out + rest
    ensures entered + more == taken + out + rest
  {
    assert taken + queue + more == taken + (queue + more);
    assert taken + (out + rest) == taken + out + rest;
  }

  /** Over every interleaving tasks are taken in the order in which they entered the channel, which never
      holds more than it has room for. */
  lemma {:induction false} FirstInFirstOut(workers: nat, capacity: nat, acts: seq<Act>)
    requires Runs(Opened(workers), capacity, acts)
    ensures var p := After(Opened(workers), capacity, acts).pool;
            Entered(workers, capacity, acts) == Taken(workers, capacity, acts) + p.queue && |p.queue| <= capacity
  {
    if |acts| > 0 {
      var front, a := acts[..|acts| - 1], acts[|acts| - 1];
      FirstInFirstOut(workers, capacity, front);
      StepInOrder(After(Opened(workers), capacity, front), capacity, a);
      var p, q := After(Opened(workers), capacity, front).pool, After(Opened(workers), capacity, acts).pool;
      OnwardInOrder(Entered(workers, capacity, front), Taken(workers, capacity, front), p.queue, Enters(p, capacity, a),
                    TakenUp(q, a), q.queue);
    }
  }

  /** QueuedTasks is negative exactly while the sends not yet counted in outnumber the tasks in the
      channel and those taken but not yet counted out. */
  lemma QueuedNegativeExactly(workers: nat, capacity: nat, acts: seq<Act>)
    requires Runs(Opened(workers), capacity, acts)
    ensures var p := After(Opened(workers), capacity, acts).pool;
            p.metrics.queued < 0 <==> |p.queue| + Sum(p.workers, IsTook) < p.toTotal + p.toQueued
  {
    RunCounted(workers, capacity, acts);
  }

  /** A worker may take a task before its sender has counted it: QueuedTasks can then be negative. */
  lemma QueuedCanBeNegative(job: Job)
    ensures var acts := [Send(job), Take(0), Discount(0)];
            Runs(Opened(1), 1, acts) && After(Opened(1), 1, acts).pool.metrics.queued == -1
  {
    var acts := [Send(job), Take(0), Discount(0)];
    assert acts[..2] == [Send(job), Take(0)] && acts[..2][..1] == [Send(job)] && acts[..2][..1][..0] == [];
    assert Runs(Opened(1), 1, acts[..2][..1][..0]);
    assert Runs(Opened(1), 1, acts[..2][..1]);
    var l1 := After(Opened(1), 1, acts[..2][..1]);
    assert l1.pool.queue == [job] && l1.pool.workers == [Idle] && l1.pool.metrics.queued == 0;
    assert Runs(Opened(1), 1, acts[..2]);
    var l2 := After(Opened(1), 1, acts[..2]);
    assert l2.pool.workers == [Took(job)] && l2.pool.metrics.queued == 0;
    assert Runs(Opened(1), 1, acts);
  }

  // ---- The operations, uninterrupted ----

  /** The acts of one worker's loop body, in program order. */
  function LoopBody(w: nat, ok: bool): seq<Act> {
    [Take(w), Discount(w), Start(w), Finish(w, ok), Tally(w), Leave(w)]
  }

  ghost predicate Passes(p: Pool, capacity: nat, acts: seq<Act>, q: Pool)
    decreases |acts|
  {
    if |acts| == 0 then p == q
    else Enabled(p, acts[0]) && Passes(Step(p, capacity, acts[0]), capacity, acts[1..], q)
  }

  class WorkerPool {
    const capacity: nat
    var taskQueue: seq<Job>
    var workers: seq<Stage>
    var sleeping: seq<Job>
    var metrics: Metrics

    constructor (count: nat, queueSize: nat)
      ensures capacity == queueSize && State() == Fresh(count)
    {
      capacity, taskQueue, sleeping, metrics := queueSize, [], [], ZERO;
      workers := seq(count, i => Idle);
    }

    ghost function State(): Pool
      reads this
    {
      Pool(taskQueue, workers, sleeping, 0, 0, metrics)
    }

    method Submit(job: Job) returns (accepted: bool)
      modifies this`taskQueue, this`metrics
      ensures accepted == (|old(taskQueue)| < capacity)
      ensures accepted ==> Passes(old(State()), capacity, [Send(job), AddTotal, AddQueued], State())
      ensures accepted ==> taskQueue == old(taskQueue) + [job]
      ensures !accepted ==> State() == old(State())
    {
      accepted := |taskQueue| < capacity;
      if accepted {
        taskQueue := taskQueue + [job];
        metrics := metrics.(total := metrics.total + 1);
        metrics := metrics.(queued := metrics.queued + 1);
        SubmitPasses(old(State()), capacity, job, State());
      }
    }

    /** One pass of runWorker's loop: receive, execute with outcome `ok`, go idle. */
    method HandleTask(w: nat, ok: bool)
      requires w < |workers| && workers[w].Idle? && |taskQueue| > 0
      modifies this
      ensures Passes(old(State()), capacity, LoopBody(w, ok), State())
      ensures taskQueue == old(taskQueue)[1..] && workers == old(workers)
      ensures sleeping == old(sleeping) + if !ok && Retries(old(taskQueue)[0]) then [Bumped(old(taskQueue)[0])] else []
    {
      var task := taskQueue[0];
      taskQueue := taskQueue[1..];
      metrics := metrics.(queued := metrics.queued - 1);
      metrics := metrics.(active := metrics.active + 1);
      ExecuteTask(task, ok);
      metrics := metrics.(active := metrics.active - 1);
      LoopPasses(old(State()), capacity, w, ok, State());
    }

    method ExecuteTask(task: Job, ok: bool)
      modifies this`sleeping, this`metrics
      ensures sleeping == old(sleeping) + if !ok && Retries(task) then [Bumped(task)] else []
      ensures metrics == if ok then old(metrics).(completed := old(metrics).completed + 1)
                         else old(metrics).(failed := old(metrics).failed + 1)
    {
      if !ok {
        if task.retryCount < task.maxRetries {
          sleeping := sleeping + [task.(retryCount := task.retryCount + 1)];
        }
        metrics := metrics.(failed := metrics.failed + 1);
      } else {
        metrics := metrics.(completed := metrics.completed + 1);
      }
    }
  }

  lemma SubmitPasses(p: Pool, capacity: nat, job: Job, q: Pool)
    requires |p.queue| < capacity
    requires q == p.(queue := p.queue + [job],
                     metrics := p.metrics.(total := p.metrics.total + 1, queued := p.metrics.queued + 1))
    ensures Passes(p, capacity, [Send(job), AddTotal, AddQueued], q)
  {
    var acts := [Send(job), AddTotal, AddQueued];
    assert acts[1..] == [AddTotal, AddQueued] && acts[1..][1..] == [AddQueued] && acts[1..][1..][1..] == [];
    var p1 := Step(p, capacity, acts[0]);
    var p2 := Step(p1, capacity, AddTotal);
    assert Step(p2, capacity, AddQueued) == q;
    assert Passes(q, capacity, [], q);
    assert Passes(p2, capacity, [AddQueued], q);
    assert Passes(p1, capacity, [AddTotal, AddQueued], q);
  }

  lemma LoopPasses(p: Pool, capacity: nat, w: nat, ok: bool, q: Pool)
    requires Enabled(p, Take(w))
    requires var job := p.queue[0];
             q == p.(queue := p.queue[1..],
                     sleeping := p.sleeping + if !ok && Retries(job) then [Bumped(job)] else [],
                     metrics := if ok then p.metrics.(queued := p.metrics.queued - 1, completed := p.metrics.completed + 1)
                                else p.metrics.(queued := p.metrics.queued - 1, failed := p.metrics.failed + 1))
    ensures Passes(p, capacity, LoopBody(w, ok), q)
  {
    var p3 := Step(Step(Step(p, capacity, Take(w)), capacity, Discount(w)), capacity, Start(w));
    assert p3.workers == p.workers[w := Running(p.queue[0])];
    SecondHalfPasses(p3, capacity, w, ok, q);
    Then(Step(Step(p, capacity, Take(w)), capacity, Discount(w)), capacity, Start(w), [Finish(w, ok), Tally(w), Leave(w)], q);
    Then(Step(p, capacity, Take(w)), capacity, Discount(w), [Start(w)] + [Finish(w, ok), Tally(w), Leave(w)], q);
    Then(p, capacity, Take(w), [Discount(w)] + ([Start(w)] + [Finish(w, ok), Tally(w), Leave(w)]), q);
    assert LoopBody(w, ok) == [Take(w)] + ([Discount(w)] + ([Start(w)] + [Finish(w, ok), Tally(w), Leave(w)]));
  }

  lemma SecondHalfPasses(p: Pool, capacity: nat, w: nat, ok: bool, q: Pool)
    requires Enabled(p, Finish(w, ok))
    requires var job := p.workers[w].job;
             q == p.(workers := p.workers[w := Idle],
                     sleeping := p.sleeping + if !ok && Retries(job) then [Bumped(job)] else [],
                     metrics := if ok then p.metrics.(active := p.metrics.active - 1, completed := p.metrics.completed + 1)
                                else p.metrics.(active := p.metrics.active - 1, failed := p.metrics.failed + 1))
    ensures Passes(p, capacity, [Finish(w, ok), Tally(w), Leave(w)], q)
  {
    var p1 := Step(p, capacity, Finish(w, ok));
    var p2 := Step(p1, capacity, Tally(w));
    assert p2.workers[w := Idle] == p.workers[w := Idle];
    assert p1.sleeping == q.sleeping;
    assert Step(p2, capacity, Leave(w)) == q;
    assert Passes(q, capacity, [], q);
    Then(p2, capacity, Leave(w), [], q);
    Then(p1, capacity, Tally(w), [Leave(w)] + [], q);
    Then(p, capacity, Finish(w, ok), [Tally(w)] + ([Leave(w)] + []), q);
    assert [Finish(w, ok), Tally(w), Leave(w)] == [Finish(w, ok)] + ([Tally(w)] + ([Leave(w)] + []));
  }

  lemma {:induction false} Then(p: Pool, capacity: nat, a: Act, rest: seq<Act>, q: Pool)
    requires Enabled(p, a) && Passes(Step(p, capacity, a), capacity, rest, q)
    ensures Passes(p, capacity, [a] + rest, q)
  {
    assert ([a] + rest)[1..] == rest;
  }
}
