/** Background tasks: linked stacks, of which several may stand side by side. */
module TaskQueue {
  import opened Options

  type Id(==, !new)

  datatype Status = PendingVeryHigh | PendingHigh | PendingMedium | PendingLow | PendingVeryLow | Running

  function Rank(s: Status): nat {
    match s
    case PendingVeryHigh => 5
    case PendingHigh => 4
    case PendingMedium => 3
    case PendingLow => 2
    case PendingVeryLow => 1
    case Running => 0
  }

  datatype Task = Task(status: Status, prior: Option<Id>, priorCt: nat, isHead: bool)

  /** All task records, every task ever queued, and the tasks that were started, in order. */
  datatype State = State(tasks: map<Id, Task>, queued: set<Id>, started: seq<Id>)

  predicate Pending(s: State, id: Id) {
    id in s.tasks && !s.tasks[id].status.Running?
  }

  /** The status index lists heads only. */
  predicate Listed(s: State, id: Id, st: Status) {
    id in s.tasks && s.tasks[id].isHead && s.tasks[id].status == st
  }

  /*** The three transactions ***/

  /** A new task goes on top of one listed head of its status, if there is any. */
  function Enqueue(s: State, id: Id, st: Status, existing: Option<Id>): State
    requires existing.Some? ==> existing.value in s.tasks
  {
    var tasks :=
      if existing.None? then s.tasks[id := Task(st, None, 0, true)]
      else
        var e := existing.value;
        s.tasks[e := s.tasks[e].(isHead := false)][id := Task(st, Some(e), s.tasks[e].priorCt + 1, true)];
    s.(tasks := tasks, queued := s.queued + {id})
  }

  function Begin(s: State, id: Id): State
    requires id in s.tasks
  {
    s.(tasks := s.tasks[id := s.tasks[id].(status := Running)], started := s.started + [id])
  }

  /** What a finished task stood on becomes a head, beside any that were queued meanwhile. */
  function End(s: State, id: Id): State
    requires id in s.tasks && (s.tasks[id].prior.Some? ==> s.tasks[id].prior.value in s.tasks)
  {
    var p := s.tasks[id].prior;
    var tasks := if p.Some? then s.tasks[p.value := s.tasks[p.value].(isHead := true)] else s.tasks;
    s.(tasks := tasks - {id})
  }

  /*** The shape that every run keeps ***/

  /** A head, what stands under it, and the status all of that was queued with. */
  datatype Chain = Chain(root: Id, below: seq<Id>, st: Status)

  function TopOf(c: seq<Id>): Option<Id> {
    if c == [] then None else Some(c[0])
  }

  /** Tasks waiting under a head: each points at the next, knows how many are beneath it, and is not listed. */
  ghost predicate Stack(tasks: map<Id, Task>, c: seq<Id>, st: Status) {
    c == [] ||
    (&& c[0] in tasks
     && tasks[c[0]] == Task(st, TopOf(c[1..]), |c| - 1, false)
     && !st.Running?
     && Stack(tasks, c[1..], st))
  }

  ghost predicate Whole(tasks: map<Id, Task>, c: Chain) {
    && c.root in tasks
    && tasks[c.root].isHead && tasks[c.root].prior == TopOf(c.below) && tasks[c.root].priorCt == |c.below|
    && (tasks[c.root].status == c.st || tasks[c.root].status.Running?)
    && !c.st.Running?
    && Stack(tasks, c.below, c.st)
  }

  predicate On(c: Chain, id: Id) {
    id == c.root || id in c.below
  }

  /** A task lies on the whole chain that is its home, and this is the home of all that lies there. */
  ghost predicate Housed(tasks: map<Id, Task>, home: map<Id, Chain>, id: Id) {
    && id in home
    && Whole(tasks, home[id]) && On(home[id], id)
    && (forall x {:trigger On(home[id], x)} | On(home[id], x) :: x in home && home[x] == home[id])
  }

  /** Every task lies on exactly one whole chain; `home` tells which. */
  ghost predicate Shaped(tasks: map<Id, Task>, home: map<Id, Chain>) {
    && home.Keys == tasks.Keys
    && (forall id {:trigger Housed(tasks, home, id)} | id in tasks :: Housed(tasks, home, id))
  }

  /** Nothing is lost and nothing is started twice: what was queued is waiting or was started, and not both. */
  ghost predicate Conserved(s: State) {
    && (forall id :: id in s.queued <==> Pending(s, id) || id in s.started)
    && (forall id | id in s.started :: !Pending(s, id))
    && (forall i, j | 0 <= i < j < |s.started| :: s.started[i] != s.started[j])
    && (forall id | id in s.tasks :: id in s.queued)
  }

  ghost predicate Good(s: State) {
    Conserved(s) && exists home: map<Id, Chain> :: Shaped(s.tasks, home)
  }

  /** What stands in a stack is pending, is not a head, and has fewer tasks beneath it than the stack is high. */
  lemma {:induction false} StackMembers(tasks: map<Id, Task>, c: seq<Id>, st: Status)
    requires Stack(tasks, c, st)
    ensures forall x | x in c :: x in tasks && !tasks[x].isHead && tasks[x].status == st && tasks[x].priorCt < |c|
    ensures c != [] ==> !st.Running?
  {
    if c != [] {
      StackMembers(tasks, c[1..], st);
      assert c == [c[0]] + c[1..];
    }
  }

  lemma {:induction false} StackFrame(tasks: map<Id, Task>, tasks': map<Id, Task>, c: seq<Id>, st: Status)
    requires Stack(tasks, c, st) && forall x | x in c :: x in tasks' && x in tasks && tasks'[x] == tasks[x]
    ensures Stack(tasks', c, st)
  {
    if c != [] {
      assert c == [c[0]] + c[1..];
      StackFrame(tasks, tasks', c[1..], st);
    }
  }

  lemma WholeFrame(tasks: map<Id, Task>, tasks': map<Id, Task>, c: Chain)
    requires Whole(tasks, c) && forall x | On(c, x) :: x in tasks && x in tasks' && tasks'[x] == tasks[x]
    ensures Whole(tasks', c)
  {
    StackFrame(tasks, tasks', c.below, c.st);
  }

  /** A head is the root of its chain, and nothing else is. */
  lemma HeadIsRoot(tasks: map<Id, Task>, home: map<Id, Chain>, id: Id)
    requires Shaped(tasks, home) && id in tasks
    ensures Housed(tasks, home, id)
    ensures tasks[id].isHead <==> home[id].root == id
    ensures tasks[id].status.Running? ==> home[id].root == id
    ensures id != home[id].root ==> tasks[id].status == home[id].st
  {
    assert Housed(tasks, home, id);
    StackMembers(tasks, home[id].below, home[id].st);
  }

  /** Nothing that lies with x has gone or lies on c. */
  ghost predicate Apart(tasks: map<Id, Task>, home: map<Id, Chain>, c: Chain, x: Id) {
    x in home && forall y {:trigger On(home[x], y)} | On(home[x], y) :: y in tasks && !On(c, y)
  }

  lemma Kept(tasks: map<Id, Task>, home: map<Id, Chain>, tasks': map<Id, Task>, c: Chain, id: Id, home': map<Id, Chain>)
    requires home.Keys == tasks.Keys && Housed(tasks, home, id) && Apart(tasks', home, c, id)
    requires forall x | x in tasks' && !On(c, x) :: x in tasks && tasks'[x] == tasks[x]
    requires home'.Keys == tasks'.Keys && forall x | x in home' && !On(c, x) :: x in home && home'[x] == home[x]
    ensures Housed(tasks', home', id)
  {
    assert home'[id] == home[id];
    WholeFrame(tasks, tasks', home[id]);
  }

  /** A new whole chain that takes over what is left of an old one, or only new tasks, leaves everything in shape. */
  lemma Replace(tasks: map<Id, Task>, home: map<Id, Chain>, tasks': map<Id, Task>, c: Chain)
    requires Shaped(tasks, home) && Whole(tasks', c)
    requires forall x | On(c, x) :: x in tasks'
    requires forall x | x in tasks' && !On(c, x) :: x in tasks && tasks'[x] == tasks[x]
    requires forall x {:trigger Apart(tasks', home, c, x)} | x in tasks' && !On(c, x) :: Apart(tasks', home, c, x)
    ensures exists home': map<Id, Chain> :: Shaped(tasks', home')
  {
    var home' := map x | x in tasks' :: if On(c, x) then c else home[x];
    forall id {:trigger Housed(tasks', home', id)} | id in tasks' ensures Housed(tasks', home', id) {
      if On(c, id) {
        Taken(tasks', home', c, id);
      } else {
        assert Housed(tasks, home, id) && Apart(tasks', home, c, id);
        Kept(tasks, home, tasks', c, id, home');
      }
    }
    assert home'.Keys == tasks'.Keys;
    assert Shaped(tasks', home');
  }

  lemma Taken(tasks: map<Id, Task>, home: map<Id, Chain>, c: Chain, id: Id)
    requires Whole(tasks, c) && On(c, id) && forall x | On(c, x) :: x in home && home[x] == c
    ensures Housed(tasks, home, id)
  {
  }

  lemma EnqueueShape(s: State, home: map<Id, Chain>, id: Id, st: Status, existing: Option<Id>)
    requires Shaped(s.tasks, home) && id !in s.tasks && !st.Running?
    requires existing.Some? ==> Listed(s, existing.value, st)
    ensures exists home': map<Id, Chain> :: Shaped(Enqueue(s, id, st, existing).tasks, home')
  {
    var t := Enqueue(s, id, st, existing).tasks;
    var c := Chain(id, [], st);
    if existing.Some? {
      var e := existing.value;
      HeadIsRoot(s.tasks, home, e);
      var was := home[e];
      StackMembers(s.tasks, was.below, was.st);
      c := Chain(id, [e] + was.below, st);
      assert c.below[1..] == was.below;
      StackFrame(s.tasks, t, was.below, st);
      assert Whole(t, c);
      assert forall x | x != id :: On(c, x) == On(was, x);
    }
    forall x | x in t && !On(c, x) ensures Apart(t, home, c, x) {
      assert Housed(s.tasks, home, x);
    }
    Replace(s.tasks, home, t, c);
  }

  lemma BeginShape(s: State, home: map<Id, Chain>, id: Id)
    requires Shaped(s.tasks, home) && id in s.tasks && s.tasks[id].isHead
    ensures Shaped(Begin(s, id).tasks, home)
  {
    var t := Begin(s, id).tasks;
    forall x | x in t ensures Housed(t, home, x) {
      assert Housed(s.tasks, home, x);
      var c := home[x];
      StackMembers(s.tasks, c.below, c.st);
      StackFrame(s.tasks, t, c.below, c.st);
    }
  }

  lemma EndShape(s: State, home: map<Id, Chain>, id: Id)
    requires Shaped(s.tasks, home) && id in s.tasks && s.tasks[id].status.Running?
    ensures s.tasks[id].prior.Some? ==> s.tasks[id].prior.value in s.tasks
    ensures exists home': map<Id, Chain> :: Shaped(End(s, id).tasks, home')
  {
    HeadIsRoot(s.tasks, home, id);
    var was := home[id];
    StackMembers(s.tasks, was.below, was.st);
    var t := End(s, id).tasks;
    if was.below == [] {
      DropShape(s.tasks, home, id);
    } else {
      var p := was.below[0];
      var c := Chain(p, was.below[1..], was.st);
      assert was.below == [p] + c.below;
      StackMembers(s.tasks, c.below, c.st);
      StackFrame(s.tasks, t, c.below, c.st);
      forall x | x in t && !On(c, x) ensures Apart(t, home, c, x) {
        assert Housed(s.tasks, home, x);
        assert !On(was, x);
        assert forall y | On(home[x], y) :: !On(was, y);
      }
      Replace(s.tasks, home, t, c);
    }
  }

  /** A root that nothing stands under goes. */
  lemma DropShape(tasks: map<Id, Task>, home: map<Id, Chain>, id: Id)
    requires Shaped(tasks, home) && id in tasks && home[id] == Chain(id, [], home[id].st)
    ensures exists home': map<Id, Chain> :: Shaped(tasks - {id}, home')
  {
    var t, home' := tasks - {id}, home - {id};
    forall x | x in t ensures Housed(t, home', x) {
      assert Housed(tasks, home, x) && Housed(tasks, home, id);
      WholeFrame(tasks, t, home[x]);
    }
    assert Shaped(t, home');
  }

  /*** Runs ***/

  /** One transaction of some worker or client. New tasks have new identities. */
  ghost predicate Next(s: State, t: State) {
    || (exists id, st: Status, existing: Option<Id> ::
          && id !in s.queued && !st.Running?
          && (existing.Some? ==> Listed(s, existing.value, st))
          && t == Enqueue(s, id, st, existing))
    || (exists id :: id in s.tasks && s.tasks[id].isHead && Pending(s, id) && t == Begin(s, id))
    || (exists id :: id in s.tasks && s.tasks[id].status.Running?
          && (s.tasks[id].prior.Some? ==> s.tasks[id].prior.value in s.tasks) && t == End(s, id))
  }

  lemma EnqueueGood(s: State, id: Id, st: Status, existing: Option<Id>)
    requires Good(s) && id !in s.queued && !st.Running? && (existing.Some? ==> Listed(s, existing.value, st))
    ensures Good(Enqueue(s, id, st, existing))
  {
    var home: map<Id, Chain> :| Shaped(s.tasks, home);
    EnqueueShape(s, home, id, st, existing);
    var t := Enqueue(s, id, st, existing);
    forall x ensures Pending(t, x) <==> Pending(s, x) || x == id {
    }
  }

  lemma BeginGood(s: State, id: Id)
    requires Good(s) && id in s.tasks && s.tasks[id].isHead && Pending(s, id)
    ensures Good(Begin(s, id))
  {
    var home: map<Id, Chain> :| Shaped(s.tasks, home);
    BeginShape(s, home, id);
    var t := Begin(s, id);
    forall x ensures Pending(t, x) <==> Pending(s, x) && x != id {
    }
    assert forall x :: x in t.started <==> x in s.started || x == id;
  }

  lemma EndGood(s: State, id: Id)
    requires Good(s) && id in s.tasks && s.tasks[id].status.Running?
    ensures (s.tasks[id].prior.Some? ==> s.tasks[id].prior.value in s.tasks) && Good(End(s, id))
  {
    var home: map<Id, Chain> :| Shaped(s.tasks, home);
    EndShape(s, home, id);
    var t := End(s, id);
    forall x ensures Pending(t, x) <==> Pending(s, x) {
    }
  }

  lemma NextGood(s: State, t: State)
    requires Good(s) && Next(s, t)
    ensures Good(t)
  {
    if id, st: Status, existing: Option<Id> :|
      id !in s.queued && !st.Running? && (existing.Some? ==> Listed(s, existing.value, st)) && t == Enqueue(s, id, st, existing) {
      EnqueueGood(s, id, st, existing);
    } else if id :| id in s.tasks && s.tasks[id].isHead && Pending(s, id) && t == Begin(s, id) {
      BeginGood(s, id);
    } else {
      var id :| id in s.tasks && s.tasks[id].status.Running?
                && (s.tasks[id].prior.Some? ==> s.tasks[id].prior.value in s.tasks) && t == End(s, id);
      EndGood(s, id);
    }
  }

  /** However queueing, starting and finishing interleave, the chains stay whole and every task is waiting or was started once. */
  lemma {:induction false} RunGood(run: seq<State>)
    requires run != [] && run[0] == State(map[], {}, [])
    requires forall i | 0 <= i < |run| - 1 :: Next(run[i], run[i + 1])
    ensures Good(run[|run| - 1])
  {
    var n := |run| - 1;
    if n == 0 {
      assert Shaped(run[0].tasks, map[]);
    } else {
      RunGood(run[..n]);
      assert Next(run[n - 1], run[n]);
      NextGood(run[n - 1], run[n]);
    }
  }

  /*** What is started first ***/

  /** A pending task that no listed head of its status stands over lies under a running one. */
  lemma CoveredByHead(s: State, home: map<Id, Chain>, p: Id)
    requires Shaped(s.tasks, home) && Pending(s, p)
    ensures home[p].root in s.tasks && (Listed(s, home[p].root, s.tasks[p].status) || s.tasks[home[p].root].status.Running?)
  {
    HeadIsRoot(s.tasks, home, p);
  }

  /** The status that a worker takes: the highest with a listed head. */
  ghost predicate Best(s: State, st: Status) {
    !st.Running? && (exists id :: Listed(s, id, st)) && forall id, st' | Listed(s, id, st') && Rank(st') > Rank(st) :: false
  }

  /** The first of these is looked up before the second. */
  predicate Sooner(a: Status, b: Status) {
    match b
    case PendingVeryHigh => false
    case PendingHigh => a.PendingVeryHigh?
    case PendingMedium => a.PendingVeryHigh? || a.PendingHigh?
    case PendingLow => a.PendingVeryHigh? || a.PendingHigh? || a.PendingMedium?
    case PendingVeryLow => !a.PendingVeryLow? && !a.Running?
    case Running => false
  }

  /** Taken is what nothing listed would be looked up sooner than. */
  lemma BestIsSoonest(s: State, st: Status)
    ensures Best(s, st) <==> !st.Running? && (exists id :: Listed(s, id, st)) && forall id, other | Listed(s, id, other) :: !Sooner(other, st)
  {
    forall other ensures Sooner(other, st) <==> !st.Running? && Rank(other) > Rank(st) { }
  }

  ghost predicate Higher(s: State, st: Status, p: Id) {
    Pending(s, p) && Rank(s.tasks[p].status) > Rank(st)
  }

  /** The task waits in the chain of one that is running. */
  ghost predicate UnderRunning(s: State, p: Id) {
    exists home: map<Id, Chain> :: Shaped(s.tasks, home) && p in home && home[p].root in s.tasks && s.tasks[home[p].root].status.Running?
  }

  /** A task of a higher status than is taken waits under a running one. */
  lemma HigherIsCovered(s: State, st: Status, p: Id)
    requires Good(s) && Best(s, st) && Higher(s, st, p)
    ensures UnderRunning(s, p)
  {
    var home: map<Id, Chain> :| Shaped(s.tasks, home);
    CoveredByHead(s, home, p);
  }

  /** Something of a higher status than is taken waits exactly when something of a higher status waits under a running task. */
  lemma StartsHighest(s: State, st: Status)
    requires Good(s) && Best(s, st)
    ensures (exists p :: Higher(s, st, p)) <==> exists p :: Higher(s, st, p) && UnderRunning(s, p)
    ensures (forall x | x in s.tasks :: !s.tasks[x].status.Running?) ==> forall p | Pending(s, p) :: Rank(s.tasks[p].status) <= Rank(st)
  {
    forall p | Higher(s, st, p) ensures UnderRunning(s, p) && exists x :: x in s.tasks && s.tasks[x].status.Running? {
      HigherIsCovered(s, st, p);
    }
    assert forall p | Pending(s, p) :: Rank(s.tasks[p].status) > Rank(st) ==> Higher(s, st, p);
  }

  /** With two workers the lower can go first: `low` starts while `high` waits under the running `top`. */
  lemma LowerFirst(high: Id, top: Id, low: Id)
    requires high != top && top != low && high != low
    ensures var s0 := State(map[], {}, []);
      var s1 := Enqueue(s0, high, PendingHigh, None);
      var s2 := Enqueue(s1, top, PendingHigh, Some(high));
      var s3 := Enqueue(s2, low, PendingLow, None);
      var s4 := Begin(s3, top);
      && Next(s0, s1) && Next(s1, s2) && Next(s2, s3) && Next(s3, s4)
      && Best(s4, PendingLow) && Listed(s4, low, PendingLow)
      && Pending(s4, high) && Rank(s4.tasks[high].status) > Rank(PendingLow)
  {
    var s0 := State(map[], {}, []);
    var s1 := Enqueue(s0, high, PendingHigh, None);
    var s2 := Enqueue(s1, top, PendingHigh, Some(high));
    var s3 := Enqueue(s2, low, PendingLow, None);
    var s4 := Begin(s3, top);
    assert Listed(s1, high, PendingHigh);
    assert Listed(s4, low, PendingLow);
  }

  /*** The methods ***/

  class Queue {
    var tasks: map<Id, Task>
    ghost var queued: set<Id>
    ghost var started: seq<Id>

    ghost function Now(): State
      reads this
    {
      State(tasks, queued, started)
    }

    constructor ()
      ensures Now() == State(map[], {}, []) && Good(Now())
    {
      tasks, queued, started := map[], {}, [];
      new;
      assert Shaped(tasks, map[]);
    }

    /** lookupAny(status=...): some listed head. */
    method LookupAny(st: Status) returns (r: Option<Id>)
      ensures r.Some? ==> Listed(Now(), r.value, st)
      ensures r.None? ==> forall id :: !Listed(Now(), id, st)
    {
      var todo := tasks.Keys;
      while todo != {}
        invariant todo <= tasks.Keys
        invariant forall id | id in tasks && id !in todo :: !Listed(Now(), id, st)
      {
        var id :| id in todo;
        todo := todo - {id};
        if tasks[id].isHead && tasks[id].status == st {
          return Some(id);
        }
      }
      return None;
    }

    method QueueTask(id: Id, st: Status)
      requires Good(Now()) && id !in queued && !st.Running?
      modifies this
      ensures Good(Now()) && Next(old(Now()), Now())
      ensures queued == old(queued) + {id} && started == old(started)
      ensures id in tasks && tasks[id].status == st && tasks[id].isHead
    {
      var existing := LookupAny(st);
      EnqueueGood(Now(), id, st, existing);
      if existing.Some? {
        var e := existing.value;
        tasks := tasks[e := tasks[e].(isHead := false)];
        tasks := tasks[id := Task(st, Some(e), tasks[e].priorCt + 1, true)];
      } else {
        tasks := tasks[id := Task(st, None, 0, true)];
      }
      queued := queued + {id};
      assert Now() == Enqueue(old(Now()), id, st, existing);
    }

    /** The first transaction of a worker. */
    method StartTask() returns (r: Option<Id>)
      requires Good(Now())
      modifies this
      ensures Good(Now())
      ensures r.None? ==> Now() == old(Now()) && forall id | Pending(Now(), id) ::
                UnderRunning(Now(), id) && exists x :: x in tasks && tasks[x].status.Running?
      ensures r.Some? ==>
                && r.value in old(tasks) && Now() == Begin(old(Now()), r.value)
                && r.value !in old(started)
                && Best(old(Now()), old(tasks)[r.value].status)
                && ((forall x | x in old(tasks) :: !old(tasks)[x].status.Running?) ==>
                      forall p | Pending(old(Now()), p) :: Rank(old(tasks)[p].status) <= Rank(old(tasks)[r.value].status))
    {
      r := LookupAny(PendingVeryHigh);
      if r.None? { r := LookupAny(PendingHigh); }
      if r.None? { r := LookupAny(PendingMedium); }
      if r.None? { r := LookupAny(PendingLow); }
      if r.None? { r := LookupAny(PendingVeryLow); }
      if r.None? {
        ghost var home: map<Id, Chain> :| Shaped(tasks, home);
        forall id | Pending(Now(), id) ensures UnderRunning(Now(), id) && exists x :: x in tasks && tasks[x].status.Running? {
          CoveredByHead(Now(), home, id);
        }
        return;
      }
      ghost var st := tasks[r.value].status;
      assert Listed(Now(), r.value, st) && Best(Now(), st);
      StartsHighest(Now(), st);
      BeginGood(Now(), r.value);
      tasks := tasks[r.value := tasks[r.value].(status := Running)];
      started := started + [r.value];
    }

    /** The last transaction of a worker. */
    method FinishTask(id: Id)
      requires Good(Now()) && id in tasks && tasks[id].status.Running?
      modifies this
      ensures Good(Now()) && Next(old(Now()), Now())
      ensures started == old(started) && queued == old(queued) && forall x :: Pending(Now(), x) <==> Pending(old(Now()), x)
      ensures tasks.Keys == old(tasks).Keys - {id}
    {
      EndGood(Now(), id);
      var p := tasks[id].prior;
      if p.Some? {
        tasks := tasks[p.value := tasks[p.value].(isHead := true)];
      }
      tasks := tasks - {id};
      assert Now() == End(old(Now()), id);
    }

    /** One worker alone, when nothing more is queued, starts everything that waits, each task once. */
    method Drain()
      requires Good(Now()) && forall x | x in tasks :: !tasks[x].status.Running?
      modifies this
      ensures Good(Now()) && tasks == map[] && queued == old(queued)
      ensures forall id | id in queued :: id in started
    {
      while true
        invariant Good(Now()) && queued == old(queued)
        invariant forall x | x in tasks :: !tasks[x].status.Running?
        decreases tasks.Keys
      {
        var r := StartTask();
        if r.None? {
          ghost var left := tasks.Keys;
          if x :| x in left { assert Pending(Now(), x); }
          assert left == {};
          return;
        }
        FinishTask(r.value);
      }
    }
  }
}
