/** Queue tasks and the identifiers in a list of them. */
module Tasks {
  import opened Reachability

  datatype Task = Task(id: Id, priority: int, retryCount: int, maxRetries: int, createdAt: nat)

  /** The task as a queue stores it: with an identifier, and stamped with the time of acceptance. */
  function Accepted(t: Task, freshId: Id, now: nat): Task {
    t.(id := if t.id == NO_ID then freshId else t.id, createdAt := now)
  }

  function IdsOf(tasks: seq<Task>): multiset<Id> {
    if tasks == [] then multiset{} else multiset{tasks[0].id} + IdsOf(tasks[1..])
  }

  lemma {:induction false} IdsOfAppend(a: seq<Task>, b: seq<Task>)
    ensures IdsOf(a + b) == IdsOf(a) + IdsOf(b)
  {
    if a == [] {
      assert a + b == b;
    } else {
      assert (a + b)[1..] == a[1..] + b;
      IdsOfAppend(a[1..], b);
    }
  }

  lemma {:induction false} IdsOfMember(tasks: seq<Task>, i: nat)
    requires i < |tasks|
    ensures tasks[i].id in IdsOf(tasks)
  {
    if i > 0 { IdsOfMember(tasks[1..], i - 1); }
  }

  lemma OneIdsOf(t: Task)
    ensures IdsOf([t]) == multiset{t.id}
  {
    assert [t][1..] == [];
  }
}
