// internal/platform/resilience/circuit_breaker.go: the breaker under calls in flight outside its
// lock, and the retry loop on top of it.

module CircuitBreaker {

  datatype State = Closed | Open | HalfOpen

  datatype Config = Config(maxFailures: int, timeout: int, halfOpenSuccess: int)

  datatype Breaker = Breaker(state: State, failures: int, successes: int, lastFailure: int)

  /** What one critical section does; admission is separate from the result, which any call admitted
      earlier may report at any later moment. */
  datatype Act = Admit | Succeed | Fail | Reset

  /** `call` says which call asks for admission or reports its result; the breaker is not told. */
  datatype Event = Event(act: Act, call: nat, now: int)

  const FRESH := Breaker(Closed, 0, 0, 0)

  function To(b: Breaker, state: State): Breaker {
    if b.state == state then b
    else match state
         case Closed => b.(state := state, failures := 0, successes := 0)
         case HalfOpen => b.(state := state, successes := 0)
         case Open => b.(state := state)
  }

  predicate Admits(b: Breaker, c: Config, now: int) {
    b.state.Open? ==> now - b.lastFailure > c.timeout
  }

  function AdmitStep(b: Breaker, c: Config, now: int): Breaker {
    if b.state.Open? && Admits(b, c, now) then To(b, HalfOpen) else b
  }

  function FailStep(b: Breaker, c: Config, now: int): Breaker {
    var b := b.(failures := b.failures + 1, lastFailure := now, successes := 0);
    match b.state
    case Closed => if b.failures >= c.maxFailures then To(b, Open) else b
    case HalfOpen => To(b, Open)
    case Open => b
  }

  function SucceedStep(b: Breaker, c: Config): Breaker {
    match b.state
    case Closed => b.(failures := 0)
    case HalfOpen =>
      var b := b.(successes := b.successes + 1);
      if b.successes >= c.halfOpenSuccess then To(b, Closed) else b
    case Open => b
  }

  /** Successes it takes to close a half-open breaker. */
  function Needed(c: Config): nat {
    if c.halfOpenSuccess < 1 then 1 else c.halfOpenSuccess
  }

  function Step(b: Breaker, c: Config, e: Event): Breaker {
    match e.act
    case Admit => AdmitStep(b, c, e.now)
    case Succeed => SucceedStep(b, c)
    case Fail => FailStep(b, c, e.now)
    case Reset => To(b, Closed)
  }

  function Run(c: Config, es: seq<Event>): Breaker {
    if |es| == 0 then FRESH else Step(Run(c, es[..|es| - 1]), c, es[|es| - 1])
  }

  function StateAfter(c: Config, es: seq<Event>, n: nat): State
    requires n <= |es|
  {
    Run(c, es[..n]).state
  }

  // ---- The run itself, as the record to compare with ----

  function Count(es: seq<Event>, act: Act): nat {
    if |es| == 0 then 0 else Count(es[..|es| - 1], act) + if es[|es| - 1].act == act then 1 else 0
  }

  predicate Absent(es: seq<Event>, act: Act) {
    forall i :: 0 <= i < |es| ==> es[i].act != act
  }

  /** The latest recorded failure, if there is one. */
  predicate LastFailureAt(es: seq<Event>, i: int, now: int) {
    0 <= i < |es| && es[i].act == Fail && es[i].now == now && Absent(es[i + 1..], Fail)
  }

  /** Event `i` moved the breaker from open to half-open, and it has stayed half-open since. */
  ghost predicate HalfOpenSince(c: Config, es: seq<Event>, i: int) {
    && 0 <= i < |es| && StateAfter(c, es, i).Open?
    && forall n {:trigger StateAfter(c, es, n)} :: i < n <= |es| ==> StateAfter(c, es, n).HalfOpen?
  }

  /** The failure count was zero after the first `i` events; the breaker has been closed since, with
      no success recorded. */
  ghost predicate ClosedSince(c: Config, es: seq<Event>, i: int) {
    && 0 <= i <= |es| && Run(c, es[..i]).failures == 0
    && (forall n {:trigger StateAfter(c, es, n)} :: i <= n <= |es| ==> StateAfter(c, es, n).Closed?)
    && Absent(es[i..], Succeed)
  }

  lemma FrontOf(c: Config, es: seq<Event>, n: nat)
    requires |es| > 0 && n < |es|
    ensures es[..n] == es[..|es| - 1][..n] && StateAfter(c, es, n) == StateAfter(c, es[..|es| - 1], n)
  {
    assert es[..n] == es[..|es| - 1][..n];
  }

  lemma NextStep(c: Config, es: seq<Event>, e: Event)
    ensures Run(c, es + [e]) == Step(Run(c, es), c, e)
  {
    assert (es + [e])[..|es + [e]| - 1] == es;
  }

  lemma CountNext(es: seq<Event>, e: Event, act: Act)
    ensures Count(es + [e], act) == Count(es, act) + if e.act == act then 1 else 0
  {
    assert (es + [e])[..|es + [e]| - 1] == es;
  }

  lemma LastStep(c: Config, es: seq<Event>)
    requires |es| > 0
    ensures Run(c, es) == Step(Run(c, es[..|es| - 1]), c, es[|es| - 1]) && StateAfter(c, es, |es|) == Run(c, es).state
  {
    assert es[..|es|] == es;
  }

  lemma AbsentMore(es: seq<Event>, act: Act, from: nat)
    requires |es| > 0 && from < |es| && Absent(es[..|es| - 1][from..], act) && es[|es| - 1].act != act
    ensures Absent(es[from..], act)
  {
    forall i | 0 <= i < |es[from..]| ensures es[from..][i].act != act {
      if i < |es| - 1 - from {
        assert es[from..][i] == es[..|es| - 1][from..][i];
      }
    }
  }

  lemma CountMore(es: seq<Event>, act: Act, from: nat)
    requires |es| > 0 && from < |es|
    ensures Count(es[from..], act) == Count(es[..|es| - 1][from..], act) + if es[|es| - 1].act == act then 1 else 0
  {
    var tail := es[from..];
    assert tail[..|tail| - 1] == es[..|es| - 1][from..];
  }

  lemma {:induction false} CountAbsent(es: seq<Event>, act: Act)
    requires Absent(es, act)
    ensures Count(es, act) == 0
  {
    if |es| > 0 {
      CountAbsent(es[..|es| - 1], act);
    }
  }

  // ---- Half-open ----

  /** Half-open, the success count is the number of successes recorded since, and no failure was. */
  lemma {:induction false} HalfOpenCounts(c: Config, es: seq<Event>) returns (i: int)
    requires Run(c, es).state.HalfOpen?
    ensures HalfOpenSince(c, es, i) && Absent(es[i + 1..], Fail)
    ensures Run(c, es).successes == Count(es[i + 1..], Succeed)
    ensures Run(c, es).successes == 0 || Run(c, es).successes < c.halfOpenSuccess
  {
    var front, e := es[..|es| - 1], es[|es| - 1];
    LastStep(c, es);
    if Run(c, front).state.HalfOpen? {
      i := HalfOpenCounts(c, front);
      forall n | i < n <= |es| ensures StateAfter(c, es, n).HalfOpen? {
        if n < |es| {
          FrontOf(c, es, n);
        }
      }
      FrontOf(c, es, i);
      assert e.act != Fail;
      AbsentMore(es, Fail, i + 1);
      CountMore(es, Succeed, i + 1);
    } else {
      i := |es| - 1;
      assert es[i + 1..] == [] && es[..i] == front;
      assert StateAfter(c, es, i).Open?;
    }
  }

  /** The breaker closes again only by Reset, or once exactly the required number of successes (at
      least one) has been recorded since it went half-open, with no failure in between. */
  lemma ClosesAfterSuccesses(c: Config, es: seq<Event>, e: Event) returns (i: int)
    requires !Run(c, es).state.Closed? && Run(c, es + [e]).state.Closed? && e.act != Reset
    ensures e.act == Succeed && HalfOpenSince(c, es, i) && Absent(es[i + 1..] + [e], Fail)
    ensures Count(es[i + 1..] + [e], Succeed) == Needed(c)
  {
    NextStep(c, es, e);
    i := HalfOpenCounts(c, es);
    CountNext(es[i + 1..], e, Succeed);
  }

  // ---- Closed ----

  /** Closed, the failure count is the number of failures recorded since the count was last zero. */
  lemma {:induction false} ClosedCounts(c: Config, es: seq<Event>) returns (i: int)
    requires Run(c, es).state.Closed?
    ensures ClosedSince(c, es, i) && Run(c, es).failures == Count(es[i..], Fail)
    ensures Run(c, es).failures == 0 || Run(c, es).failures < c.maxFailures
  {
    if |es| == 0 {
      i := 0;
      assert es[..0] == [] && es[0..] == [];
    } else {
      LastStep(c, es);
      var front := es[..|es| - 1];
      if Run(c, es).failures == 0 {
        i := |es|;
        assert es[..i] == es && es[i..] == [];
      } else {
        i := ClosedCounts(c, front);
        forall n | i <= n <= |es| ensures StateAfter(c, es, n).Closed? {
          if n < |es| {
            FrontOf(c, es, n);
          }
        }
        assert es[..i] == front[..i];
        AbsentMore(es, Succeed, i);
        CountMore(es, Fail, i);
      }
    }
  }

  /** A closed breaker opens exactly when a failure brings the failures recorded since its count was
      last zero to the threshold. */
  lemma OpensAtThreshold(c: Config, es: seq<Event>, e: Event) returns (i: int)
    requires Run(c, es).state.Closed?
    ensures ClosedSince(c, es, i)
    ensures Run(c, es + [e]).state.Open? <==> e.act == Fail && Count(es[i..] + [e], Fail) >= c.maxFailures
    ensures c.maxFailures >= 1 && Run(c, es + [e]).state.Open? ==> Count(es[i..] + [e], Fail) == c.maxFailures
  {
    NextStep(c, es, e);
    i := ClosedCounts(c, es);
    CountNext(es[i..], e, Fail);
  }

  // ---- Open ----

  /** An open breaker has recorded a failure, and remembers when the last one was. */
  lemma {:induction false} FailureRemembered(c: Config, es: seq<Event>) returns (i: int)
    requires !Absent(es, Fail)
    ensures LastFailureAt(es, i, Run(c, es).lastFailure)
  {
    var front, e := es[..|es| - 1], es[|es| - 1];
    if e.act == Fail {
      i := |es| - 1;
      assert es[i + 1..] == [];
    } else {
      assert !Absent(front, Fail) by {
        var k :| 0 <= k < |es| && es[k].act == Fail;
        assert front[k].act == Fail;
      }
      i := FailureRemembered(c, front);
      AbsentMore(es, Fail, i + 1);
    }
  }

  lemma {:induction false} OpenHasFailed(c: Config, es: seq<Event>)
    requires Absent(es, Fail)
    ensures Run(c, es).state.Closed?
  {
    if |es| > 0 {
      OpenHasFailed(c, es[..|es| - 1]);
    }
  }

  /** While open, a call is admitted exactly when more than the timeout has passed since the latest
      recorded failure, whichever call it came from; and only an admitted call ends the open state
      (Reset apart). */
  lemma AdmitsOnlyAfterTimeout(c: Config, es: seq<Event>, now: int) returns (i: int, at: int)
    requires Run(c, es).state.Open?
    ensures LastFailureAt(es, i, at) && (Admits(Run(c, es), c, now) <==> now - at > c.timeout)
    ensures forall e: Event :: e.act != Reset && !(e.act == Admit && e.now - at > c.timeout) ==> Run(c, es + [e]).state.Open?
  {
    if Absent(es, Fail) {
      OpenHasFailed(c, es);
    }
    i := FailureRemembered(c, es);
    at := Run(c, es).lastFailure;
    forall e: Event | e.act != Reset && !(e.act == Admit && e.now - at > c.timeout)
      ensures Run(c, es + [e]).state.Open?
    {
      NextStep(c, es, e);
    }
  }

  /** Reset forgets the recorded failures exactly when the breaker is not closed; closed, they go on
      counting towards opening it. */
  lemma ResetForgets(c: Config, es: seq<Event>, e: Event)
    requires e.act == Reset
    ensures Run(c, es + [e]).failures == 0 <==> !Run(c, es).state.Closed? || Run(c, es).failures == 0
    ensures Run(c, es + [e]).state.Closed?
  {
    NextStep(c, es, e);
  }

  // ---- Whose successes close the breaker ----

  /** The calls that asked for admission. */
  function Begun(es: seq<Event>): set<nat> {
    set k | 0 <= k < |es| && es[k].act == Admit :: es[k].call
  }

  /** The admitted calls whose result has not been recorded. */
  function Flying(c: Config, es: seq<Event>): set<nat> {
    if |es| == 0 then {}
    else
      var front, e := es[..|es| - 1], es[|es| - 1];
      match e.act
      case Admit => Flying(c, front) + if Admits(Run(c, front), c, e.now) then {e.call} else {}
      case Reset => Flying(c, front)
      case _ => Flying(c, front) - {e.call}
  }

  function EndTime(es: seq<Event>): int {
    if |es| == 0 then 0 else es[|es| - 1].now
  }

  /** What can follow `es`: calls ask once, every result is that of a call in flight, and the clock
      does not go back. */
  predicate Follows(c: Config, es: seq<Event>, e: Event) {
    && EndTime(es) <= e.now
    && (e.act == Admit ==> e.call !in Begun(es))
    && (e.act == Succeed || e.act == Fail ==> e.call in Flying(c, es))
  }

  /** Runs the breaker can receive. */
  predicate Received(c: Config, es: seq<Event>) {
    |es| > 0 ==> Received(c, es[..|es| - 1]) && Follows(c, es[..|es| - 1], es[|es| - 1])
  }

  /** The successes in `es` of calls that were admitted in `es`. */
  function Own(es: seq<Event>): (n: nat)
    ensures n <= Count(es, Succeed)
  {
    if |es| == 0 then 0
    else
      var front, e := es[..|es| - 1], es[|es| - 1];
      Own(front) + if e.act == Succeed && e.call in Begun(front) then 1 else 0
  }

  /** `tail` takes the breaker, open after `es`, half-open and with its last event, not a Reset, closes it. */
  ghost predicate Closes(c: Config, es: seq<Event>, tail: seq<Event>) {
    && |tail| > 0 && Received(c, es + tail)
    && HalfOpenSince(c, es + tail[..|tail| - 1], |es|)
    && tail[|tail| - 1].act != Reset && Run(c, es + tail).state.Closed?
  }

  /** `e` recorded after `es + tail`. */
  lemma OneMore(c: Config, es: seq<Event>, tail: seq<Event>, e: Event)
    ensures es + (tail + [e]) == (es + tail) + [e] && (es + (tail + [e]))[..|es + tail|] == es + tail
    ensures Run(c, es + (tail + [e])) == Step(Run(c, es + tail), c, e)
    ensures Begun(tail + [e]) == Begun(tail) + if e.act == Admit then {e.call} else {}
    ensures Own(tail + [e]) == Own(tail) + if e.act == Succeed && e.call in Begun(tail) then 1 else 0
    ensures Count(tail + [e], Succeed) == Count(tail, Succeed) + if e.act == Succeed then 1 else 0
  {
    assert es + (tail + [e]) == (es + tail) + [e];
    NextStep(c, es + tail, e);
    CountNext(tail, e, Succeed);
    assert (tail + [e])[..|tail|] == tail;
    BegunNext(tail, e);
  }

  lemma BegunNext(es: seq<Event>, e: Event)
    ensures Begun(es + [e]) == Begun(es) + if e.act == Admit then {e.call} else {}
  {
    forall x | x in Begun(es) ensures x in Begun(es + [e]) {
      var k :| 0 <= k < |es| && es[k].act == Admit && es[k].call == x;
      assert (es + [e])[k] == es[k];
    }
    assert (es + [e])[|es|] == e;
  }

  /** Calls in flight before `tail` account for its other successes, each for one at most. */
  lemma {:induction false} OthersBound(c: Config, es: seq<Event>, tail: seq<Event>)
    requires Received(c, es + tail)
    ensures Received(c, es)
    ensures Count(tail, Succeed) - Own(tail) + |Flying(c, es + tail) - Begun(tail)| <= |Flying(c, es)|
    decreases |tail|
  {
    if |tail| == 0 {
      assert es + tail == es && Flying(c, es + tail) - Begun(tail) == Flying(c, es);
    } else {
      var front, e := tail[..|tail| - 1], tail[|tail| - 1];
      assert tail == front + [e];
      OneMore(c, es, front, e);
      OthersBound(c, es, front);
      OthersLeft(c, es, front, e);
    }
  }

  /** Only a success of a call in flight before it lowers the number of those left. */
  lemma OthersLeft(c: Config, es: seq<Event>, front: seq<Event>, e: Event)
    requires Received(c, es + (front + [e]))
    ensures var before, after := Flying(c, es + front) - Begun(front), Flying(c, es + (front + [e])) - Begun(front + [e]);
            |after| <= |before| - if e.act == Succeed && e.call !in Begun(front) then 1 else 0
  {
    OneMore(c, es, front, e);
    var before, after := Flying(c, es + front) - Begun(front), Flying(c, es + (front + [e])) - Begun(front + [e]);
    if e.act == Succeed && e.call !in Begun(front) {
      assert after == before - {e.call};
    } else {
      Smaller(after, before);
    }
  }

  lemma Smaller(a: set<nat>, b: set<nat>)
    requires a <= b
    ensures |a| <= |b|
  {
    assert b == a + (b - a);
  }

  /** Of the successes that close the breaker at most as many are others' as there were calls in flight
      when it went half-open. */
  lemma OwnShare(c: Config, es: seq<Event>, tail: seq<Event>)
    requires Closes(c, es, tail)
    ensures Count(tail, Succeed) == Needed(c) && Own(tail) >= Needed(c) - |Flying(c, es)|
  {
    var front, e := tail[..|tail| - 1], tail[|tail| - 1];
    assert tail == front + [e];
    SinceCounts(c, es, front);
    CloseCounts(c, es, front, e);
    OthersBound(c, es, tail);
  }

  lemma CloseCounts(c: Config, es: seq<Event>, front: seq<Event>, e: Event)
    requires Run(c, es + front).state.HalfOpen? && Run(c, es + front).successes == Count(front, Succeed)
    requires Count(front, Succeed) == 0 || Count(front, Succeed) < Needed(c)
    requires e.act != Reset && Run(c, es + (front + [e])).state.Closed?
    ensures Count(front + [e], Succeed) == Needed(c)
  {
    OneMore(c, es, front, e);
  }

  /** Half-open since `tail` began, every success in it counts. */
  lemma {:induction false} SinceCounts(c: Config, es: seq<Event>, tail: seq<Event>)
    requires HalfOpenSince(c, es + tail, |es|)
    ensures Run(c, es + tail).state.HalfOpen? && Run(c, es + tail).successes == Count(tail, Succeed)
    ensures Count(tail, Succeed) == 0 || Count(tail, Succeed) < Needed(c)
    decreases |tail|
  {
    var run := es + tail;
    var front, e := tail[..|tail| - 1], tail[|tail| - 1];
    assert tail == front + [e];
    OneMore(c, es, front, e);
    LastStep(c, run);
    if |tail| == 1 {
      assert StateAfter(c, run, |es|).Open? && run[..|es|] == es && front == [];
    } else {
      SinceFront(c, es, front, e);
      SinceCounts(c, es, front);
    }
  }

  lemma SinceFront(c: Config, es: seq<Event>, front: seq<Event>, e: Event)
    requires |front| > 0
    ensures HalfOpenSince(c, es + (front + [e]), |es|) <==>
              HalfOpenSince(c, es + front, |es|) && Run(c, es + (front + [e])).state.HalfOpen?
  {
    var run := es + (front + [e]);
    assert run[..|run| - 1] == es + front;
    forall n | 0 <= n < |run| ensures StateAfter(c, run, n) == StateAfter(c, es + front, n) {
      FrontOf(c, run, n);
    }
    assert run[..|run|] == run;
    assert StateAfter(c, run, |run|) == Run(c, run).state;
  }

  // Any number of others' successes up to that bound can be among them.

  /** `tail` records `others` successes of calls in flight after `es`, and `own` of calls begun since. */
  ghost predicate Shared(c: Config, es: seq<Event>, tail: seq<Event>, others: nat, own: nat) {
    && Received(c, es + tail)
    && Own(tail) == own && Count(tail, Succeed) == others + own
    && |Flying(c, es + tail) - Begun(tail)| + others == |Flying(c, es)|
  }

  lemma Pushed(c: Config, es: seq<Event>, e: Event)
    ensures Received(c, es + [e]) <==> Received(c, es) && Follows(c, es, e)
    ensures e.act == Succeed || e.act == Fail ==> Flying(c, es + [e]) == Flying(c, es) - {e.call}
    ensures e.act == Admit ==> Flying(c, es + [e]) == Flying(c, es) + if Admits(Run(c, es), c, e.now) then {e.call} else {}
    ensures EndTime(es + [e]) == e.now
  {
    assert (es + [e])[..|es + [e]| - 1] == es;
  }

  function Unused(es: seq<Event>): (n: nat)
    ensures forall k :: 0 <= k < |es| ==> es[k].call < n
    ensures n !in Begun(es)
  {
    if |es| == 0 then 0
    else
      var m := Unused(es[..|es| - 1]);
      if es[|es| - 1].call < m then m else es[|es| - 1].call + 1
  }

  lemma FlyingBegun(c: Config, es: seq<Event>)
    ensures Flying(c, es) <= Begun(es)
  {
    if |es| > 0 {
      FlyingBegun(c, es[..|es| - 1]);
      BegunNext(es[..|es| - 1], es[|es| - 1]);
      assert es == es[..|es| - 1] + [es[|es| - 1]];
    }
  }

  /** A new call is admitted. */
  lemma NewCall(c: Config, es: seq<Event>, tail: seq<Event>, others: nat, own: nat, now: int) returns (e: Event)
    requires Shared(c, es, tail, others, own) && Admits(Run(c, es + tail), c, now) && EndTime(es + tail) <= now
    ensures e == Event(Admit, Unused(es + tail), now) && Shared(c, es, tail + [e], others, own)
    ensures e.call in Flying(c, es + (tail + [e])) && e.call in Begun(tail + [e])
  {
    e := Event(Admit, Unused(es + tail), now);
    OneMore(c, es, tail, e);
    Pushed(c, es + tail, e);
    FlyingBegun(c, es + tail);
    assert Flying(c, es + (tail + [e])) - Begun(tail + [e]) == Flying(c, es + tail) - Begun(tail);
  }

  lemma OwnSuccess(c: Config, es: seq<Event>, tail: seq<Event>, others: nat, own: nat, call: nat) returns (e: Event)
    requires Shared(c, es, tail, others, own) && call in Flying(c, es + tail) && call in Begun(tail)
    ensures e.act == Succeed && Shared(c, es, tail + [e], others, own + 1)
  {
    e := Event(Succeed, call, EndTime(es + tail));
    OneMore(c, es, tail, e);
    Pushed(c, es + tail, e);
    assert Flying(c, es + (tail + [e])) - Begun(tail + [e]) == Flying(c, es + tail) - Begun(tail);
  }

  lemma OtherSuccess(c: Config, es: seq<Event>, tail: seq<Event>, others: nat, own: nat) returns (e: Event)
    requires Shared(c, es, tail, others, own) && others < |Flying(c, es)|
    ensures e.act == Succeed && Shared(c, es, tail + [e], others + 1, own)
  {
    var left := Flying(c, es + tail) - Begun(tail);
    assert |left| > 0;
    var call :| call in left;
    e := Event(Succeed, call, EndTime(es + tail));
    OneMore(c, es, tail, e);
    Pushed(c, es + tail, e);
    assert Flying(c, es + (tail + [e])) - Begun(tail + [e]) == left - {call};
  }

  /** A shared tail that leaves the breaker half-open, or closes it with its last success. */
  ghost predicate Serves(c: Config, es: seq<Event>, tail: seq<Event>, others: nat, own: nat) {
    && Shared(c, es, tail, others, own)
    && if others + own < Needed(c) then HalfOpenSince(c, es + tail, |es|) else Closes(c, es, tail)
  }

  lemma SuccessServes(c: Config, es: seq<Event>, tail: seq<Event>, e: Event, others: nat, own: nat)
    requires |tail| > 0 && HalfOpenSince(c, es + tail, |es|) && e.act == Succeed
    requires Shared(c, es, tail + [e], others, own)
    ensures Serves(c, es, tail + [e], others, own)
  {
    OneMore(c, es, tail, e);
    SinceCounts(c, es, tail);
    SinceFront(c, es, tail, e);
    assert (tail + [e])[..|tail + [e]| - 1] == tail;
  }

  /** The timeout passes and a new call is admitted. */
  lemma GoesHalfOpen(c: Config, es: seq<Event>) returns (tail: seq<Event>)
    requires Received(c, es) && Run(c, es).state.Open?
    ensures Serves(c, es, tail, 0, 0) && |tail| > 0
  {
    var due := Run(c, es).lastFailure + c.timeout + 1;
    assert es + [] == es && Flying(c, es) - Begun([]) == Flying(c, es);
    var e := NewCall(c, es, [], 0, 0, if EndTime(es) < due then due else EndTime(es));
    tail := [e];
    assert [] + [e] == tail;
    SinceStart(c, es, e);
  }

  lemma SinceStart(c: Config, es: seq<Event>, e: Event)
    requires Run(c, es).state.Open? && Step(Run(c, es), c, e).state.HalfOpen?
    ensures HalfOpenSince(c, es + [e], |es|)
  {
    NextStep(c, es, e);
    assert (es + [e])[..|es|] == es && (es + [e])[..|es| + 1] == es + [e];
  }

  /** As many of the others' successes as there are calls in flight, and the rest of new calls. */
  lemma {:induction false} SharedServe(c: Config, es: seq<Event>, others: nat, own: nat) returns (tail: seq<Event>)
    requires Received(c, es) && Run(c, es).state.Open?
    requires others <= |Flying(c, es)| && others + own <= Needed(c)
    ensures Serves(c, es, tail, others, own) && |tail| > 0
    decreases others + own
  {
    if own > 0 {
      tail := SharedServe(c, es, others, own - 1);
      SinceCounts(c, es, tail);
      var a := NewCall(c, es, tail, others, own - 1, EndTime(es + tail));
      OneMore(c, es, tail, a);
      SinceFront(c, es, tail, a);
      tail := tail + [a];
      var e := OwnSuccess(c, es, tail, others, own - 1, a.call);
      SuccessServes(c, es, tail, e, others, own);
      tail := tail + [e];
    } else if others > 0 {
      tail := SharedServe(c, es, others - 1, 0);
      var e := OtherSuccess(c, es, tail, others - 1, 0);
      SuccessServes(c, es, tail, e, others, 0);
      tail := tail + [e];
    } else {
      tail := GoesHalfOpen(c, es);
    }
  }

  /** The least number of successes of its own calls that the breaker, open after `es`, closes with:
      each call in flight when it goes half-open can stand in for one of them. */
  lemma FewestOwnSuccesses(c: Config, es: seq<Event>)
    requires Received(c, es) && Run(c, es).state.Open?
    ensures var fewest := if |Flying(c, es)| < Needed(c) then Needed(c) - |Flying(c, es)| else 0;
            && (forall tail :: Closes(c, es, tail) ==> fewest <= Own(tail) <= Needed(c))
            && exists tail :: Closes(c, es, tail) && Own(tail) == fewest
  {
    var others := if |Flying(c, es)| < Needed(c) then |Flying(c, es)| else Needed(c);
    var served := SharedServe(c, es, others, Needed(c) - others);
    assert Closes(c, es, served) && Own(served) == Needed(c) - others;
    forall tail | Closes(c, es, tail) ensures Needed(c) - others <= Own(tail) <= Needed(c) {
      OwnShare(c, es, tail);
    }
  }

  /** A breaker that goes half-open after `es` is sure to be closed by successes of calls it admits from
      then on exactly when no call was in flight. */
  lemma ClosedByOwnCallsExactly(c: Config, es: seq<Event>)
    requires Received(c, es) && Run(c, es).state.Open?
    ensures (forall tail :: Closes(c, es, tail) ==> Own(tail) == Count(tail, Succeed)) <==> Flying(c, es) == {}
  {
    FewestOwnSuccesses(c, es);
    assert Flying(c, es) == {} <==> |Flying(c, es)| == 0;
    forall tail | Closes(c, es, tail) ensures Count(tail, Succeed) == Needed(c) {
      OwnShare(c, es, tail);
    }
  }

  // No configuration keeps calls from being in flight when the breaker opens.

  /** A received run at time 0 with `n` calls in flight that leaves breaker `b`. */
  ghost predicate Leaves(c: Config, es: seq<Event>, b: Breaker, n: nat) {
    Received(c, es) && Run(c, es) == b && |Flying(c, es)| == n && EndTime(es) == 0
  }

  lemma {:induction false} ManyAdmitted(c: Config, n: nat) returns (es: seq<Event>)
    ensures Leaves(c, es, FRESH, n)
  {
    if n == 0 {
      es := [];
    } else {
      var front := ManyAdmitted(c, n - 1);
      var e := Event(Admit, Unused(front), 0);
      FlyingBegun(c, front);
      Pushed(c, front, e);
      NextStep(c, front, e);
      es := front + [e];
    }
  }

  function FailuresToOpen(c: Config): nat {
    if c.maxFailures < 1 then 1 else c.maxFailures
  }

  lemma {:induction false} ManyFailed(c: Config, n: nat, flying: nat) returns (es: seq<Event>)
    requires n <= FailuresToOpen(c)
    ensures Leaves(c, es, Breaker(if n < FailuresToOpen(c) then Closed else Open, n, 0, 0), flying)
  {
    if n == 0 {
      es := ManyAdmitted(c, flying);
    } else {
      var front := ManyFailed(c, n - 1, flying + 1);
      var call :| call in Flying(c, front);
      var e := Event(Fail, call, 0);
      Pushed(c, front, e);
      NextStep(c, front, e);
      assert Flying(c, front + [e]) == Flying(c, front) - {call};
      es := front + [e];
    }
  }

  /** Whatever the configuration, there is a run that closes the breaker without a single success of a
      call it admitted since it opened. */
  lemma StaleSuccessesClose(c: Config) returns (es: seq<Event>, tail: seq<Event>)
    ensures Received(c, es) && Run(c, es).state.Open? && Closes(c, es, tail) && Own(tail) == 0
  {
    es := ManyFailed(c, FailuresToOpen(c), Needed(c));
    FewestOwnSuccesses(c, es);
    tail :| Closes(c, es, tail) && Own(tail) == 0;
  }

  // ---- Retrying ----

  /** What the operation does when called; `SaysOpen` is a failure that is itself ErrCircuitOpen. */
  datatype Outcome = Works | Breaks | SaysOpen

  datatype Answer = Fine | Failed | CircuitOpen | Cancelled | NothingTried

  datatype Retried = Retried(breaker: Breaker, calls: nat, answer: Answer)

  /** What the caller meets: attempt `i` finds the context cancelled before it starts or while it
      waits afterwards, is admitted or not at `start(i)`, and its result is recorded at `end(i)`. */
  datatype World = World(outcome: nat -> Outcome, cancelledBefore: nat -> bool, cancelledAfter: nat -> bool,
                         start: nat -> int, end: nat -> int)

  function Recorded(b: Breaker, c: Config, outcome: Outcome, now: int): Breaker {
    if outcome == Works then SucceedStep(b, c) else FailStep(b, c, now)
  }

  /** The retry loop from attempt `i` on. */
  function Retry(b: Breaker, c: Config, maxRetries: int, w: World, i: nat, last: Answer): Retried
    decreases maxRetries + 1 - i
  {
    if i > maxRetries then Retried(b, 0, last)
    else if w.cancelledBefore(i) then Retried(b, 0, Cancelled)
    else if !Admits(b, c, w.start(i)) then Retried(b, 0, CircuitOpen)
    else
      var b' := Recorded(AdmitStep(b, c, w.start(i)), c, w.outcome(i), w.end(i));
      if w.outcome(i) == Works then Retried(b', 1, Fine)
      else if w.outcome(i) == SaysOpen then Retried(b', 1, CircuitOpen)
      else if i < maxRetries && w.cancelledAfter(i) then Retried(b', 1, Cancelled)
      else
        var rest := Retry(b', c, maxRetries, w, i + 1, Failed);
        rest.(calls := rest.calls + 1)
  }

  /** The events of attempt `i`: its admission, and its result. */
  function Attempt(w: World, i: nat): seq<Event> {
    [Event(Admit, i, w.start(i)), Event(if w.outcome(i) == Works then Succeed else Fail, i, w.end(i))]
  }

  /** Breaker `b` after the first `n` attempts, each of them let through. */
  function AfterAttempts(b: Breaker, c: Config, w: World, n: nat): Breaker {
    if n == 0 then b
    else var e := Attempt(w, n - 1); Step(Step(AfterAttempts(b, c, w, n - 1), c, e[0]), c, e[1])
  }

  /** The caller gives up waiting after attempt `i`, which broke; it does not wait after the last one. */
  predicate GivesUpAfter(w: World, maxRetries: int, i: int) {
    0 <= i < maxRetries && w.outcome(i) == Breaks && w.cancelledAfter(i)
  }

  /** Nothing keeps the caller from attempt `n` after the `n` before it. */
  predicate ComesTo(w: World, maxRetries: int, n: nat) {
    n <= maxRetries && forall i :: 0 <= i < n ==> w.outcome(i) == Breaks && !w.cancelledAfter(i)
  }

  /** Attempt `i` starts before any cancellation, and is let through. */
  predicate LetThrough(b: Breaker, c: Config, w: World, i: nat) {
    !w.cancelledBefore(i) && Admits(AfterAttempts(b, c, w, i), c, w.start(i))
  }

  /** How a retried call goes, whatever the world: `n` attempts are made. */
  ghost predicate Goes(b: Breaker, c: Config, maxRetries: int, w: World, n: nat, answer: Answer) {
    && (n > 0 ==> n <= maxRetries + 1) && (forall i: nat :: i < n ==> LetThrough(b, c, w, i))
    && (forall i :: 0 <= i < n - 1 ==> w.outcome(i) == Breaks && !w.cancelledAfter(i))
    && (answer == Fine <==> n > 0 && w.outcome(n - 1) == Works)
    && (answer == Failed <==> n > 0 && n == maxRetries + 1 && w.outcome(n - 1) == Breaks)
    && (answer == Cancelled <==> GivesUpAfter(w, maxRetries, n - 1) || (ComesTo(w, maxRetries, n) && w.cancelledBefore(n)))
    && (answer == CircuitOpen <==>
          || (n > 0 && w.outcome(n - 1) == SaysOpen)
          || (ComesTo(w, maxRetries, n) && !w.cancelledBefore(n) && !LetThrough(b, c, w, n)))
    && (answer == NothingTried <==> maxRetries < 0)
  }

  /** The first `i` attempts were made, broke, and the caller waited after each but the last possible. */
  ghost predicate Broken(b: Breaker, c: Config, maxRetries: int, w: World, i: nat) {
    && (i <= maxRetries + 1 || i == 0)
    && (forall j: nat :: j < i ==> w.outcome(j) == Breaks && (j < maxRetries ==> !w.cancelledAfter(j)))
    && (forall j: nat :: j < i ==> LetThrough(b, c, w, j))
  }

  /** `r` is how the call goes from attempt `i` on. */
  ghost predicate Went(b: Breaker, c: Config, maxRetries: int, w: World, i: nat, r: Retried) {
    Goes(b, c, maxRetries, w, i + r.calls, r.answer) && r.breaker == AfterAttempts(b, c, w, i + r.calls)
  }

  lemma NoAttempt(b: Breaker, c: Config, maxRetries: int, w: World, i: nat)
    requires Broken(b, c, maxRetries, w, i) && !(i <= maxRetries && LetThrough(b, c, w, i))
    ensures Went(b, c, maxRetries, w, i,
                 Retried(AfterAttempts(b, c, w, i), 0,
                         if i > maxRetries then if i == 0 then NothingTried else Failed
                         else if w.cancelledBefore(i) then Cancelled else CircuitOpen))
  {
  }

  lemma LastAttempt(b: Breaker, c: Config, maxRetries: int, w: World, i: nat)
    requires Broken(b, c, maxRetries, w, i) && i <= maxRetries && LetThrough(b, c, w, i)
    requires w.outcome(i) == Breaks ==> i < maxRetries && w.cancelledAfter(i)
    ensures Went(b, c, maxRetries, w, i,
                 Retried(AfterAttempts(b, c, w, i + 1), 1,
                         match w.outcome(i)
                         case Works => Fine
                         case SaysOpen => CircuitOpen
                         case Breaks => Cancelled))
  {
  }

  lemma WentOn(b: Breaker, c: Config, maxRetries: int, w: World, i: nat, rest: Retried)
    requires Went(b, c, maxRetries, w, i + 1, rest)
    ensures Went(b, c, maxRetries, w, i, rest.(calls := rest.calls + 1))
  {
    assert i + 1 + rest.calls == i + (rest.calls + 1);
  }

  lemma AttemptRecorded(b: Breaker, c: Config, w: World, i: nat, at: Breaker)
    requires at == AfterAttempts(b, c, w, i)
    ensures AfterAttempts(b, c, w, i + 1) == Recorded(AdmitStep(at, c, w.start(i)), c, w.outcome(i), w.end(i))
    ensures LetThrough(b, c, w, i) <==> !w.cancelledBefore(i) && Admits(at, c, w.start(i))
  {
  }

  /** The loop from attempt `i` on. */
  lemma {:induction false} RetryGoesFrom(b: Breaker, c: Config, maxRetries: int, w: World, i: nat, at: Breaker, last: Answer)
    requires Broken(b, c, maxRetries, w, i) && at == AfterAttempts(b, c, w, i) && last == if i == 0 then NothingTried else Failed
    ensures Went(b, c, maxRetries, w, i, Retry(at, c, maxRetries, w, i, last))
    decreases maxRetries + 1 - i
  {
    AttemptRecorded(b, c, w, i, at);
    var next := Recorded(AdmitStep(at, c, w.start(i)), c, w.outcome(i), w.end(i));
    if !(i <= maxRetries && LetThrough(b, c, w, i)) {
      NoAttempt(b, c, maxRetries, w, i);
    } else if w.outcome(i) == Breaks && !(i < maxRetries && w.cancelledAfter(i)) {
      RetryGoesFrom(b, c, maxRetries, w, i + 1, next, Failed);
      WentOn(b, c, maxRetries, w, i, Retry(next, c, maxRetries, w, i + 1, Failed));
    } else {
      LastAttempt(b, c, maxRetries, w, i);
    }
  }

  /** The answer and the calls in every world: fine exactly when the last call worked, after calls that
      all broke; failed exactly when all of maxRetries + 1 calls broke; cancelled and refused exactly when
      that is what the caller met.  Each call is recorded with its result. */
  lemma RetryGoes(b: Breaker, c: Config, maxRetries: int, w: World)
    ensures var r := Retry(b, c, maxRetries, w, 0, NothingTried);
            Goes(b, c, maxRetries, w, r.calls, r.answer) && r.breaker == AfterAttempts(b, c, w, r.calls)
  {
    RetryGoesFrom(b, c, maxRetries, w, 0, b, NothingTried);
  }

  ghost predicate AlwaysBreaks(w: World) {
    forall i: nat :: w.outcome(i) == Breaks && !w.cancelledBefore(i) && !w.cancelledAfter(i)
  }

  /** From the end of one attempt to the start of the next. */
  function Wait(w: World, i: nat): int
    requires i > 0
  {
    w.start(i) - w.end(i - 1)
  }

  /** With an operation that always fails, the caller keeps calling until it has used its retries, or
      the breaker has opened and the caller comes back no later than the timeout. */
  lemma {:induction false} RetryStops(b: Breaker, c: Config, maxRetries: int, w: World, i: nat, last: Answer)
    requires AlwaysBreaks(w) && i <= maxRetries + 1 && c.maxFailures >= 1
    requires b.state.Closed? ==> b.failures < c.maxFailures
    requires !b.state.Closed? ==> i > 0 && b.state.Open? && b.lastFailure == w.end(i - 1)
    ensures var calls := Retry(b, c, maxRetries, w, i, last).calls;
            var trips := if b.state.Closed? then c.maxFailures - b.failures else 0;
            && i + calls <= maxRetries + 1
            && (forall j :: i + trips <= j < i + calls && j > 0 ==> Wait(w, j) > c.timeout)
            && (i + calls <= maxRetries ==> calls >= trips && Wait(w, i + calls) <= c.timeout)
    decreases maxRetries + 1 - i
  {
    if i <= maxRetries && Admits(b, c, w.start(i)) {
      RetryStops(FailStep(AdmitStep(b, c, w.start(i)), c, w.end(i)), c, maxRetries, w, i + 1, Failed);
    }
  }

  /** No wait longer than the timeout: the breaker's remaining failures, or the retries, are the limit. */
  lemma RetryCalls(b: Breaker, c: Config, maxRetries: int, w: World)
    requires AlwaysBreaks(w) && c.maxFailures >= 1 && b.state.Closed? && b.failures < c.maxFailures
    requires forall i: nat :: i > 0 ==> Wait(w, i) <= c.timeout
    ensures Retry(b, c, maxRetries, w, 0, NothingTried).calls ==
            if maxRetries < 0 then 0
            else if maxRetries + 1 < c.maxFailures - b.failures then maxRetries + 1 else c.maxFailures - b.failures
  {
    if maxRetries >= 0 {
      assert Wait(w, c.maxFailures - b.failures) <= c.timeout;
      RetryStops(b, c, maxRetries, w, 0, NothingTried);
    }
  }

  // ---- The breaker as it is written ----

  class CircuitBreaker {
    const config: Config
    var state: State
    var failures: int
    var successes: int
    var lastFailureTime: int

    constructor (config: Config)
      ensures this.config == config && Value() == FRESH
    {
      this.config := config;
      state, failures, successes, lastFailureTime := Closed, 0, 0, 0;
    }

    ghost function Value(): Breaker
      reads this
    {
      Breaker(state, failures, successes, lastFailureTime)
    }

    method TransitionTo(newState: State)
      modifies this
      ensures Value() == To(old(Value()), newState)
    {
      if state == newState {
        return;
      }
      state := newState;
      if newState == Closed {
        failures := 0;
        successes := 0;
      } else if newState == HalfOpen {
        successes := 0;
      }
    }

    method CanExecute(now: int) returns (admitted: bool)
      modifies this
      ensures admitted == Admits(old(Value()), config, now)
      ensures Value() == AdmitStep(old(Value()), config, now)
    {
      match state
      case Closed => admitted := true;
      case Open =>
        if now - lastFailureTime > config.timeout {
          TransitionTo(HalfOpen);
          admitted := true;
        } else {
          admitted := false;
        }
      case HalfOpen => admitted := true;
    }

    method OnFailure(now: int)
      modifies this
      ensures Value() == FailStep(old(Value()), config, now)
    {
      failures := failures + 1;
      lastFailureTime := now;
      successes := 0;
      match state
      case Closed =>
        if failures >= config.maxFailures {
          TransitionTo(Open);
        }
      case HalfOpen => TransitionTo(Open);
      case Open =>
    }

    method OnSuccess(now: int)
      modifies this
      ensures Value() == SucceedStep(old(Value()), config)
    {
      match state
      case Closed => failures := 0;
      case HalfOpen =>
        successes := successes + 1;
        if successes >= config.halfOpenSuccess {
          TransitionTo(Closed);
        }
      case Open =>
    }

    method RecordResult(outcome: Outcome, now: int)
      modifies this
      ensures Value() == Recorded(old(Value()), config, outcome, now)
    {
      if outcome != Works {
        OnFailure(now);
      } else {
        OnSuccess(now);
      }
    }

    method ResetBreaker()
      modifies this
      ensures Value() == To(old(Value()), Closed)
    {
      TransitionTo(Closed);
    }
  }

  /** RetryWithCircuitBreaker; `calls` counts how often the operation ran. */
  method RetryWithCircuitBreaker(cb: CircuitBreaker, maxRetries: int, w: World) returns (answer: Answer, calls: nat)
    modifies cb
    ensures Retried(cb.Value(), calls, answer) == Retry(old(cb.Value()), cb.config, maxRetries, w, 0, NothingTried)
  {
    var i: nat := 0;
    answer, calls := NothingTried, 0;
    ghost var whole := Retry(cb.Value(), cb.config, maxRetries, w, 0, NothingTried);
    while i <= maxRetries
      invariant i <= maxRetries + 1 || i == 0
      invariant var rest := Retry(cb.Value(), cb.config, maxRetries, w, i, answer);
                whole == rest.(calls := calls + rest.calls)
      decreases maxRetries + 1 - i
    {
      if w.cancelledBefore(i) {
        return Cancelled, calls;
      }
      var admitted := cb.CanExecute(w.start(i));
      if !admitted {
        return CircuitOpen, calls;
      }
      calls := calls + 1;
      var outcome := w.outcome(i);
      cb.RecordResult(outcome, w.end(i));
      if outcome == Works {
        return Fine, calls;
      }
      answer := Failed;
      if outcome == SaysOpen {
        return CircuitOpen, calls;
      }
      if i < maxRetries && w.cancelledAfter(i) {
        return Cancelled, calls;
      }
      i := i + 1;
    }
  }
}
