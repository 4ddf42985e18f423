/** The discovery task table: handing out due domains, expiring stale tasks and taking results, however late. */
module DiscoveryBoard {
  import opened Filtering
  import opened Allocation

  datatype Option<+T> = None | Some(value: T)

  datatype Status = Queued | Running | Completed | Failed

  datatype Task = Task(
    domain: nat, worker: nat, status: Status, assignedAt: Option<int>, acknowledgedAt: Option<int>,
    finishedAt: Option<int>)

  predicate Active(t: Task) {
    t.status == Queued || t.status == Running
  }

  predicate OneActive(tasks: seq<Task>) {
    forall i, j :: 0 <= i < j < |tasks| && Active(tasks[i]) && Active(tasks[j]) ==> tasks[i].domain != tasks[j].domain
  }

  predicate HasActive(tasks: seq<Task>, domain: nat) {
    exists i :: 0 <= i < |tasks| && Active(tasks[i]) && tasks[i].domain == domain
  }

  /** The open tasks of a worker. */
  function Open(tasks: seq<Task>, worker: nat): nat {
    if tasks == [] then 0
    else Open(tasks[..|tasks| - 1], worker)
         + if Active(tasks[|tasks| - 1]) && tasks[|tasks| - 1].worker == worker then 1 else 0
  }

  lemma OpenOneMore(tasks: seq<Task>, t: Task, worker: nat)
    ensures Open(tasks + [t], worker) == Open(tasks, worker) + if Active(t) && t.worker == worker then 1 else 0
  {
    assert (tasks + [t])[..|tasks|] == tasks;
  }

  function Free(tasks: seq<Task>): nat -> bool {
    (d: nat) => !HasActive(tasks, d)
  }

  /** The due domains that get a task: the first of those without an active one. */
  function Selected(tasks: seq<Task>, due: seq<nat>, batch: int): seq<nat> {
    AtMost(Filtered(due, Free(tasks)), if batch < 1 then 1 else batch)
  }

  function NewTasks(domains: seq<nat>, workers: seq<nat>, now: int): (r: seq<Task>)
    requires |domains| == |workers|
    ensures |r| == |domains|
  {
    seq(|domains|, i requires 0 <= i < |domains| => Task(domains[i], workers[i], Queued, Some(now), None, None))
  }

  lemma {:induction false} FilteredIsDistinct(due: seq<nat>, wanted: nat -> bool)
    requires Distinct(due)
    ensures Distinct(Filtered(due, wanted))
    ensures forall d :: d in Filtered(due, wanted) <==> d in due && wanted(d)
  {
    if due != [] {
      FilteredIsDistinct(due[..|due| - 1], wanted);
      assert due == due[..|due| - 1] + [due[|due| - 1]];
      assert due[|due| - 1] !in due[..|due| - 1];
    }
  }

  lemma FirstOfDistinct(s: seq<nat>, n: int)
    requires Distinct(s) && n > 0
    ensures Distinct(AtMost(s, n)) && |AtMost(s, n)| <= n
    ensures forall d :: d in AtMost(s, n) ==> d in s
    ensures forall d :: d in s && d !in AtMost(s, n) ==> |AtMost(s, n)| == n
  {
  }

  /** The selected domains are different, due, and without an active task; if some due domain was passed over, the
      batch is full. */
  lemma SelectedAreFree(tasks: seq<Task>, due: seq<nat>, batch: int)
    requires Distinct(due)
    ensures var chosen := Selected(tasks, due, batch);
      && Distinct(chosen)
      && |chosen| <= (if batch < 1 then 1 else batch)
      && (forall d :: d in chosen ==> d in due && !HasActive(tasks, d))
      && (forall d :: d in due && !HasActive(tasks, d) && d !in chosen ==> |chosen| == if batch < 1 then 1 else batch)
  {
    hide HasActive;
    FilteredIsDistinct(due, Free(tasks));
    FirstOfDistinct(Filtered(due, Free(tasks)), if batch < 1 then 1 else batch);
  }

  /** Adding tasks for different domains without an active one keeps one active task a domain. */
  lemma NewTasksKeepOneActive(tasks: seq<Task>, domains: seq<nat>, workers: seq<nat>, now: int)
    requires OneActive(tasks) && Distinct(domains) && |domains| == |workers|
    requires forall d :: d in domains ==> !HasActive(tasks, d)
    ensures OneActive(tasks + NewTasks(domains, workers, now))
    ensures forall d :: d in domains ==> HasActive(tasks + NewTasks(domains, workers, now), d)
  {
    var more := tasks + NewTasks(domains, workers, now);
    forall i, j | 0 <= i < j < |more| && Active(more[i]) && Active(more[j])
      ensures more[i].domain != more[j].domain
    {
      if i < |tasks| <= j {
        assert more[j].domain == domains[j - |tasks|];
        assert more[j].domain in domains;
      } else if |tasks| <= i {
        assert more[i].domain == domains[i - |tasks|] && more[j].domain == domains[j - |tasks|];
      }
    }
    forall d | d in domains
      ensures HasActive(more, d)
    {
      var i :| 0 <= i < |domains| && domains[i] == d;
      assert Active(more[|tasks| + i]) && more[|tasks| + i].domain == d;
    }
  }

  /** The open tasks after handing out are the loads the choices add up to. */
  lemma {:induction false} OpenIsLoad(tasks: seq<Task>, counts: Counts, domains: seq<nat>, workers: seq<nat>, now: int, w: nat)
    requires |domains| == |workers| && Of(counts, w) == Open(tasks, w)
    ensures Open(tasks + NewTasks(domains, workers, now), w) == Load(counts, workers, w)
    decreases |domains|
  {
    if domains == [] {
      assert tasks + NewTasks(domains, workers, now) == tasks;
    } else {
      var n := |domains| - 1;
      OpenIsLoad(tasks, counts, domains[..n], workers[..n], now, w);
      var t := Task(domains[n], workers[n], Queued, Some(now), None, None);
      assert NewTasks(domains, workers, now) == NewTasks(domains[..n], workers[..n], now) + [t];
      OpenOneMore(tasks + NewTasks(domains[..n], workers[..n], now), t, w);
      assert tasks + NewTasks(domains, workers, now) == tasks + NewTasks(domains[..n], workers[..n], now) + [t];
      LoadOneMore(counts, workers[..n], workers[n], w);
      assert workers == workers[..n] + [workers[n]];
    }
  }

  class Board {
    var tasks: seq<Task>

    ghost predicate Valid()
      reads this
    {
      OneActive(tasks)
    }

    constructor ()
      ensures Valid() && tasks == []
    {
      tasks := [];
    }

    /** The open tasks of every worker. */
    method CountOpen() returns (counts: Counts)
      ensures forall w :: Of(counts, w) == Open(tasks, w)
    {
      counts := map[];
      var i := 0;
      while i < |tasks|
        invariant 0 <= i <= |tasks|
        invariant forall w :: Of(counts, w) == Open(tasks[..i], w)
      {
        assert tasks[..i + 1][..i] == tasks[..i];
        if Active(tasks[i]) {
          counts := counts[tasks[i].worker := Of(counts, tasks[i].worker) + 1];
        }
        i := i + 1;
      }
      assert tasks[..i] == tasks;
    }

    /** `min` over the workers by open tasks, then id. */
    method PickWorker(workers: seq<nat>, counts: Counts, ghost start: Counts, ghost choices: seq<nat>) returns (w: nat)
      requires workers != [] && forall v :: Of(counts, v) == Load(start, choices, v)
      ensures Least(Members(workers), start, choices, w)
    {
      hide Load, Of;
      w := workers[0];
      var i := 1;
      while i < |workers|
        invariant 1 <= i <= |workers| && w in workers
        invariant forall k :: 0 <= k < i ==>
          Of(counts, w) < Of(counts, workers[k]) || (Of(counts, w) == Of(counts, workers[k]) && w <= workers[k])
      {
        var v := workers[i];
        if Of(counts, v) < Of(counts, w) || (Of(counts, v) == Of(counts, w) && v < w) {
          w := v;
        }
        i := i + 1;
      }
    }

    /** Adds a queued task for each domain, for the worker that is least loaded at that moment. */
    method HandOut(domains: seq<nat>, workers: seq<nat>, counts: Counts, now: int)
      returns (created: nat, ghost choices: seq<nat>)
      requires workers != []
      modifies this
      ensures created == |choices| == |domains|
      ensures tasks == old(tasks) + NewTasks(domains, choices, now)
      ensures Greedy(Members(workers), counts, choices)
    {
      hide Greedy, Least, Members, Of;
      created, choices := 0, [];
      var open: Counts := counts;
      Unused(Members(workers), counts);
      while created < |domains|
        invariant 0 <= created == |choices| <= |domains|
        invariant tasks == old(tasks) + NewTasks(domains[..created], choices, now)
        invariant Greedy(Members(workers), counts, choices)
        invariant forall w :: Of(open, w) == Load(counts, choices, w)
      {
        var worker := PickWorker(workers, open, counts, choices);
        GreedyGrows(Members(workers), counts, choices, worker);
        OneMoreOpen(counts, open, choices, worker);
        open := open[worker := Of(open, worker) + 1];
        tasks := tasks + [Task(domains[created], worker, Queued, Some(now), None, None)];
        choices := choices + [worker];
        created := created + 1;
      }
      assert domains[..created] == domains;
    }

    /** `enqueue_due_discovery_worker_tasks`: `due` are the enabled domains whose check is due, in order. */
    method Enqueue(workers: seq<nat>, due: seq<nat>, batch: int, now: int)
      returns (created: nat, ghost counts: Counts, ghost choices: seq<nat>)
      requires Valid() && Distinct(due)
      modifies this
      ensures Valid() && created == |choices|
      ensures workers == [] ==> created == 0 && tasks == old(tasks)
      ensures workers != [] ==> created == |Selected(old(tasks), due, batch)|
      ensures workers != [] ==> tasks == old(tasks) + NewTasks(Selected(old(tasks), due, batch), choices, now)
      ensures workers != [] ==> Greedy(Members(workers), counts, choices)
      ensures forall w :: Of(counts, w) == Open(old(tasks), w)
      ensures workers != [] ==> forall w :: Open(tasks, w) == Load(counts, choices, w)
    {
      hide Selected, Open, Load, OneActive, NewTasks, Greedy, HasActive;
      choices, created := [], 0;
      var open := CountOpen();
      counts := open;
      if workers == [] {
        return;
      }
      var domains := Selected(tasks, due, batch);
      SelectedAreFree(tasks, due, batch);
      created, choices := HandOut(domains, workers, open, now);
      NewTasksKeepOneActive(old(tasks), domains, choices, now);
      forall w
        ensures Open(tasks, w) == Load(counts, choices, w)
      {
        OpenIsLoad(old(tasks), counts, domains, choices, now, w);
      }
    }

    /** `expire_stale_discovery_worker_tasks`. */
    method Expire(now: int, staleAfter: int) returns (expired: nat)
      requires Valid()
      modifies this
      ensures Valid() && |tasks| == |old(tasks)| && expired == StaleIn(old(tasks), now, staleAfter)
      ensures forall i :: 0 <= i < |tasks| ==>
        tasks[i] == if Stale(old(tasks)[i], now, staleAfter) then Expired(old(tasks)[i], now) else old(tasks)[i]
      ensures forall i :: 0 <= i < |tasks| && Active(tasks[i]) && tasks[i].assignedAt.Some? ==>
        tasks[i].assignedAt.value >= now - staleAfter || tasks[i].assignedAt.value >= now - 1
      ensures forall i :: 0 <= i < |tasks| && tasks[i] != old(tasks)[i] ==>
        && Active(old(tasks)[i]) && !Active(tasks[i]) && old(tasks)[i].assignedAt.Some?
        && old(tasks)[i].assignedAt.value < now - staleAfter && old(tasks)[i].assignedAt.value < now - 1
    {
      expired := 0;
      var i := 0;
      while i < |tasks|
        invariant 0 <= i <= |tasks| == |old(tasks)| && expired == StaleIn(old(tasks)[..i], now, staleAfter)
        invariant forall k :: 0 <= k < i ==>
          tasks[k] == if Stale(old(tasks)[k], now, staleAfter) then Expired(old(tasks)[k], now) else old(tasks)[k]
        invariant forall k :: i <= k < |tasks| ==> tasks[k] == old(tasks)[k]
      {
        assert old(tasks)[..i + 1][..i] == old(tasks)[..i];
        if Stale(tasks[i], now, staleAfter) {
          tasks := tasks[i := Expired(tasks[i], now)];
          expired := expired + 1;
        }
        i := i + 1;
      }
      assert old(tasks)[..i] == old(tasks);
    }

    /** Whether the worker may speak of this task. */
    predicate Owns(worker: nat, id: nat)
      reads this
    {
      id < |tasks| && tasks[id].worker == worker
    }

    /** The acknowledge route: a queued task is running, any other stays what it was; not found for another worker. */
    method Acknowledge(worker: nat, id: nat, now: int) returns (found: bool)
      requires Valid()
      modifies this
      ensures Valid() && found == old(Owns(worker, id))
      ensures !found ==> tasks == old(tasks)
      ensures found ==> tasks == old(tasks)[id := old(tasks)[id].(
        status := if old(tasks)[id].status == Queued then Running else old(tasks)[id].status,
        acknowledgedAt := Some(now))]
      ensures found ==> Active(tasks[id]) == Active(old(tasks)[id])
    {
      if id >= |tasks| || tasks[id].worker != worker {
        return false;
      }
      var task := tasks[id].(acknowledgedAt := Some(now));
      if task.status == Queued {
        task := task.(status := Running);
      }
      tasks := tasks[id := task];
      found := true;
    }

    /** The result route and `apply_discovery_worker_task_result`, whatever became of the row meanwhile; the domain may
        be gone. A row that replaced it is left alone. */
    method TakeResult(worker: nat, id: nat, known: bool, now: int) returns (found: bool)
      requires Valid()
      modifies this
      ensures Valid() && found == old(Owns(worker, id))
      ensures !found ==> tasks == old(tasks)
      ensures found ==> |tasks| == |old(tasks)| && !Active(tasks[id])
      ensures found ==>
        tasks == old(tasks)[id := old(tasks)[id].(status := if known then Completed else Failed, finishedAt := Some(now))]
    {
      if id >= |tasks| || tasks[id].worker != worker {
        return false;
      }
      tasks := tasks[id := tasks[id].(status := if known then Completed else Failed, finishedAt := Some(now))];
      found := true;
    }
  }

  function Expired(t: Task, now: int): Task {
    t.(status := Failed, finishedAt := Some(now))
  }

  predicate Stale(t: Task, now: int, staleAfter: int) {
    Active(t) && t.assignedAt.Some? && t.assignedAt.value < now - (if staleAfter < 1 then 1 else staleAfter)
  }

  /** How many tasks are stale. */
  function StaleIn(tasks: seq<Task>, now: int, staleAfter: int): nat {
    if tasks == [] then 0
    else StaleIn(tasks[..|tasks| - 1], now, staleAfter) + if Stale(tasks[|tasks| - 1], now, staleAfter) then 1 else 0
  }

  lemma Unused(workers: set<nat>, counts: Counts)
    ensures Greedy(workers, counts, [])
    ensures forall w :: Of(counts, w) == Load(counts, [], w)
  {
  }

  lemma OneMoreOpen(counts: Counts, open: Counts, choices: seq<nat>, x: nat)
    requires forall w :: Of(open, w) == Load(counts, choices, w)
    ensures forall w :: Of(open[x := Of(open, x) + 1], w) == Load(counts, choices + [x], w)
  {
    hide Load;
    forall w
      ensures Of(open[x := Of(open, x) + 1], w) == Load(counts, choices + [x], w)
    {
      assert Of(open, w) == Load(counts, choices, w);
      LoadOneMore(counts, choices, x, w);
    }
  }

  /** After a batch every worker that got a task has at most one open task more than any other worker has. */
  lemma BatchIsBalanced(workers: set<nat>, after: seq<Task>, counts: Counts, choices: seq<nat>, w: nat, v: nat)
    requires Greedy(workers, counts, choices) && w in choices && v in workers
    requires forall x :: Open(after, x) == Load(counts, choices, x)
    ensures Open(after, w) <= Open(after, v) + 1
  {
    hide Open, Load, Greedy;
    ChosenStayLow(workers, counts, choices, w, v);
  }

  /** Handing out as many tasks in any other way does not bring the highest number of open tasks lower. */
  lemma BatchIsOptimal(
      workers: seq<nat>, before: seq<Task>, after: seq<Task>, counts: Counts, choices: seq<nat>, other: seq<nat>, m: nat)
    requires Distinct(workers) && Greedy(Members(workers), counts, choices)
    requires forall w :: Of(counts, w) == Open(before, w)
    requires forall w :: Open(after, w) == Load(counts, choices, w)
    requires |other| == |choices| && forall x :: x in other ==> x in workers
    requires forall w :: w in workers ==> Open(before, w) + multiset(other)[w] <= m
    ensures forall w :: w in workers ==> Open(after, w) <= m
  {
    hide Open, Greedy, Distinct;
    forall v | v in workers
      ensures Load(counts, other, v) <= m
    {
      assert Of(counts, v) == Open(before, v);
    }
    GreedyIsOptimal(workers, counts, choices, other, m);
  }
}
