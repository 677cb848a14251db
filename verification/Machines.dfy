/** Machines, the test runs and deployments on them, and the counters that always have to agree with them. */
module Machines {
  import opened Options

  type MachineId(==, !new)
  type RunId(==, !new)
  type DeployId(==, !new)
  type Test(==, !new)
  type Category(==, !new)

  /** `isVm`: the operating system calls for a fresh machine after each use. */
  datatype Machine = Machine(category: Category, isVm: bool, isAlive: bool)
  datatype TestRun = TestRun(test: Test, machine: Option<MachineId>, canceled: bool, finished: bool)
  datatype Deployment = Deployment(category: Category, machine: Option<MachineId>, isAlive: bool)

  /** `idle`: the machines that by the clock have had nothing to do for long enough. */
  datatype State = State(
    machines: map<MachineId, Machine>, booted: map<Category, int>, desired: map<Category, int>,
    runs: map<RunId, TestRun>, active: map<Test, int>, deployments: map<DeployId, Deployment>, idle: set<MachineId>)

  predicate Up(s: State, m: MachineId) {
    m in s.machines && s.machines[m].isAlive
  }

  predicate Live(s: State, r: RunId) {
    r in s.runs && !s.runs[r].canceled && !s.runs[r].finished
  }

  predicate Serving(s: State, d: DeployId) {
    d in s.deployments && s.deployments[d].isAlive
  }

  ghost function Alive(s: State): set<MachineId> {
    set m | m in s.machines && Up(s, m)
  }

  ghost function LiveRuns(s: State): set<RunId> {
    set r | r in s.runs && Live(s, r)
  }

  ghost function LiveDeployments(s: State): set<DeployId> {
    set d | d in s.deployments && Serving(s, d)
  }

  ghost function AliveIn(s: State, c: Category): set<MachineId> {
    set m | m in s.machines && Up(s, m) && s.machines[m].category == c
  }

  ghost function LiveOf(s: State, t: Test): set<RunId> {
    set r | r in s.runs && Live(s, r) && s.runs[r].test == t
  }

  /**
   What is not as it should be: machines that are being terminated, or that were given a test when already dead,
   and tests of whose runs results were recorded again.
   */
  datatype Slack = Slack(forsaken: set<MachineId>, again: multiset<Test>) {
    function With(m: MachineId): Slack { this.(forsaken := forsaken + {m}) }
    function Again(t: Test): Slack { this.(again := again + multiset{t}) }
  }

  const Exact := Slack({}, multiset{})

  /** The counters are what counting would give, but for results that were recorded again. */
  ghost predicate Counted(s: State, again: multiset<Test>) {
    Known(s) && MachinesCounted(s) && RunsCounted(s, again)
  }

  ghost predicate Known(s: State) {
    && s.booted.Keys == s.desired.Keys
    && (forall m | m in s.machines :: s.machines[m].category in s.booted)
    && (forall r | r in s.runs :: s.runs[r].test in s.active && (s.runs[r].machine.Some? ==> s.runs[r].machine.value in s.machines))
    && (forall d | d in s.deployments :: s.deployments[d].category in s.desired
          && (s.deployments[d].machine.Some? ==> s.deployments[d].machine.value in s.machines))
  }

  ghost predicate MachinesCounted(s: State) {
    forall c {:trigger AliveIn(s, c)} | c in s.booted :: s.booted[c] == |AliveIn(s, c)|
  }

  ghost predicate RunsCounted(s: State, again: multiset<Test>) {
    && (forall t | t in again :: t in s.active)
    && forall t {:trigger LiveOf(s, t)} | t in s.active :: s.active[t] == |LiveOf(s, t)| - again[t]
  }

  /** Nothing live is on a dead machine, except on those. */
  ghost predicate NoOrphans(s: State, but: Slack) {
    && (forall r | Live(s, r) && s.runs[r].machine.Some? :: Housed(s, but, s.runs[r].machine.value))
    && (forall d | Serving(s, d) && s.deployments[d].machine.Some? :: Housed(s, but, s.deployments[d].machine.value))
  }

  predicate Housed(s: State, but: Slack, m: MachineId) {
    m in s.machines && (Up(s, m) || m in but.forsaken)
  }

  ghost predicate Good(s: State, but: Slack) {
    Counted(s, but.again) && NoOrphans(s, but)
  }

  /** Machines die, runs are canceled and deployments end; nothing else happens to them. */
  ghost predicate Ends(s: State, t: State) {
    && t.machines.Keys == s.machines.Keys && t.runs.Keys == s.runs.Keys && t.deployments.Keys == s.deployments.Keys
    && (forall m | m in s.machines :: t.machines[m] == s.machines[m] || t.machines[m] == s.machines[m].(isAlive := false))
    && (forall r | r in s.runs :: t.runs[r] == s.runs[r] || t.runs[r] == s.runs[r].(canceled := true))
    && (forall d | d in s.deployments :: t.deployments[d] == s.deployments[d] || t.deployments[d] == s.deployments[d].(isAlive := false))
  }

  lemma EndsShrinks(s: State, t: State)
    requires Ends(s, t)
    ensures Alive(t) <= Alive(s) && LiveRuns(t) <= LiveRuns(s) && LiveDeployments(t) <= LiveDeployments(s)
  {
  }

  lemma EndsFurther(s: State, t: State, u: State)
    requires Ends(s, t) && Ends(t, u)
    ensures Ends(s, u)
  {
  }

  /*** Why things end ***/

  /** The runs, deployments and machines that an operation is told to end. */
  datatype Cause = Cause(runs: set<RunId>, deployments: set<DeployId>, machines: set<MachineId>)

  function Both(a: Cause, b: Cause): Cause {
    Cause(a.runs + b.runs, a.deployments + b.deployments, a.machines + b.machines)
  }

  const Nobody := Cause({}, {}, {})

  predicate OnDead(s: State, t: State, m: Option<MachineId>) {
    m.Some? && Up(s, m.value) && !Up(t, m.value)
  }

  /** Something told to end is on this machine, which is for a single use. */
  ghost predicate UsedUp(s: State, m: MachineId, c: Cause) {
    && m in s.machines && s.machines[m].isVm
    && ((exists r :: r in c.runs && r in s.runs && s.runs[r].machine == Some(m))
        || (exists d :: d in c.deployments && d in s.deployments && s.deployments[d].machine == Some(m)))
  }

  /** An idle machine with nothing on it but what is told to end. */
  ghost predicate Spare(s: State, m: MachineId, c: Cause) {
    && m in s.idle
    && (forall r | Live(s, r) && s.runs[r].machine == Some(m) :: r in c.runs)
    && (forall d | Serving(s, d) && s.deployments[d].machine == Some(m) :: d in c.deployments)
  }

  ghost function ServingIn(s: State, c: Category): set<DeployId> {
    set d | d in s.deployments && Serving(s, d) && s.deployments[d].category == c
  }

  /** As many machines fewer are desired as deployments ended. */
  ghost predicate Returned(s: State, t: State) {
    && t.desired.Keys == s.desired.Keys && t.booted.Keys == s.booted.Keys && t.active.Keys == s.active.Keys
    && forall c {:trigger ServingIn(s, c)} {:trigger ServingIn(t, c)} | c in s.desired ::
         t.desired[c] - |ServingIn(t, c)| == s.desired[c] - |ServingIn(s, c)|
  }

  /** Nothing ends but what was told to, machines that this uses up or that had nothing to do, and what is on machines that die. */
  ghost predicate Caused(s: State, t: State, c: Cause) {
    && (forall r | Live(s, r) && !Live(t, r) :: r in c.runs || OnDead(s, t, s.runs[r].machine))
    && (forall d | Serving(s, d) && !Serving(t, d) :: d in c.deployments || OnDead(s, t, s.deployments[d].machine))
    && (forall m | Up(s, m) && !Up(t, m) :: m in c.machines || UsedUp(s, m, c) || Spare(s, m, c))
    && (forall r | r in s.runs && s.runs[r].finished :: r in t.runs && (t.runs[r] == s.runs[r] || r in c.runs))
    && t.idle <= s.idle
    && Returned(s, t)
  }

  ghost predicate Follows(s: State, t: State, c: Cause) {
    Ends(s, t) && Caused(s, t, c)
  }

  lemma FollowsNothing(s: State, c: Cause)
    ensures Follows(s, s, c)
  {
  }

  lemma FollowsFurther(s: State, t: State, u: State, a: Cause, b: Cause)
    requires Follows(s, t, a) && Follows(t, u, b)
    ensures Follows(s, u, Both(a, b))
  {
    EndsFurther(s, t, u);
    forall m | Up(s, m) && !Up(u, m) ensures m in Both(a, b).machines || UsedUp(s, m, Both(a, b)) || Spare(s, m, Both(a, b)) {
      DiedForReason(s, t, u, a, b, m);
    }
    ReturnedFurther(s, t, u);
  }

  lemma DiedForReason(s: State, t: State, u: State, a: Cause, b: Cause, m: MachineId)
    requires Follows(s, t, a) && Follows(t, u, b) && Up(s, m) && !Up(u, m)
    ensures m in Both(a, b).machines || UsedUp(s, m, Both(a, b)) || Spare(s, m, Both(a, b))
  {
    if Up(t, m) {
      if UsedUp(t, m, b) {
        assert UsedUp(s, m, b);
      } else if Spare(t, m, b) {
        assert Spare(s, m, Both(a, b));
      }
    } else {
      if UsedUp(s, m, a) {
        assert UsedUp(s, m, Both(a, b));
      } else if Spare(s, m, a) {
        assert Spare(s, m, Both(a, b));
      }
    }
  }

  lemma ReturnedFurther(s: State, t: State, u: State)
    requires Returned(s, t) && Returned(t, u)
    ensures Returned(s, u)
  {
    forall c | c in s.desired ensures u.desired[c] - |ServingIn(u, c)| == s.desired[c] - |ServingIn(s, c)| {
      assert t.desired[c] - |ServingIn(t, c)| == s.desired[c] - |ServingIn(s, c)|;
    }
  }

  /** A machine that is used up need not be told to end. */
  lemma UsedUpAnyway(s: State, t: State, c: Cause, m: MachineId)
    requires Follows(s, t, c.(machines := c.machines + {m})) && UsedUp(s, m, c)
    ensures Follows(s, t, c)
  {
    var b := c.(machines := c.machines + {m});
    forall x | Up(s, x) && !Up(t, x) ensures x in c.machines || UsedUp(s, x, c) || Spare(s, x, c) {
      assert x in b.machines || UsedUp(s, x, b) || Spare(s, x, b);
    }
  }

  ghost function AllOn(s: State, m: MachineId): Cause {
    Cause(set r | r in s.runs && Live(s, r) && s.runs[r].machine == Some(m), set d | d in s.deployments && s.deployments[d].machine == Some(m), {})
  }

  /** All that ends because a machine died is explained by that machine. */
  lemma DiedWithAllOn(s: State, m: MachineId, t: State)
    requires Known(s) && Up(s, m) && Follows(Died(s, m), t, AllOn(s, m))
    ensures Follows(s, t, Cause({}, {}, {m}))
  {
    var d, c := Died(s, m), Cause({}, {}, {m});
    EndedOn(s, m, t);
    forall x | Up(s, x) && !Up(t, x) ensures x in c.machines || Spare(s, x, c) {
      if x != m {
        SpareBeside(s, m, t, x);
      }
    }
    DiedReturned(s, m);
    ReturnedFurther(s, d, t);
  }

  lemma EndedOn(s: State, m: MachineId, t: State)
    requires Known(s) && Up(s, m) && Follows(Died(s, m), t, AllOn(s, m))
    ensures Ends(s, t) && !Up(t, m) && t.idle <= s.idle
    ensures forall r | Live(s, r) && !Live(t, r) :: OnDead(s, t, s.runs[r].machine)
    ensures forall d | Serving(s, d) && !Serving(t, d) :: OnDead(s, t, s.deployments[d].machine)
  {
    var d := Died(s, m);
    assert !Up(d, m);
    EndsFurther(s, d, t);
    assert forall x :: Live(d, x) == Live(s, x);
    assert forall x :: Serving(d, x) == Serving(s, x);
  }

  lemma SpareBeside(s: State, m: MachineId, t: State, x: MachineId)
    requires Known(s) && Up(s, m) && Follows(Died(s, m), t, AllOn(s, m)) && x != m && Up(s, x) && !Up(t, x)
    ensures Spare(s, x, Cause({}, {}, {m}))
  {
    var d := Died(s, m);
    assert Up(d, x);
    assert !UsedUp(d, x, AllOn(s, m));
    assert Spare(d, x, AllOn(s, m));
    assert forall r | Live(s, r) :: Live(d, r);
    assert forall e | Serving(s, e) :: Serving(d, e);
  }

  lemma DiedReturned(s: State, m: MachineId)
    requires Known(s) && Up(s, m)
    ensures Returned(s, Died(s, m))
  {
    forall x ensures ServingIn(Died(s, m), x) == ServingIn(s, x) { }
  }

  lemma DiedShrinks(s: State, m: MachineId, but: Slack)
    requires Good(s, but) && Up(s, m)
    ensures Alive(Died(s, m)) < Alive(s) && (Empty(s, m) ==> Empty(Died(s, m), m))
  {
    DiedGood(s, m, but);
    assert m in Alive(s);
    assert forall r :: Live(Died(s, m), r) == Live(s, r);
    assert forall d :: Serving(Died(s, m), d) == Serving(s, d);
  }

  lemma DiedAndVacated(s: State, m: MachineId, t: State, but: Slack)
    requires Good(s, but) && Up(s, m) && Good(t, but.With(m)) && Follows(Died(s, m), t, AllOn(Died(s, m), m)) && Empty(t, m)
    ensures Good(t, but) && Follows(s, t, Cause({}, {}, {m})) && !Up(t, m)
  {
    Settled(t, m, but);
    assert AllOn(Died(s, m), m) == AllOn(s, m);
    DiedWithAllOn(s, m, t);
  }

  lemma RunCanceledFollows(s: State, r: RunId)
    requires Known(s) && r in s.runs
    ensures Follows(s, RunCanceled(s, r), Cause({r}, {}, {}))
  {
    var t := RunCanceled(s, r);
    forall c ensures ServingIn(t, c) == ServingIn(s, c) { }
  }

  lemma CanceledShrinks(s: State, r: RunId, but: Slack)
    requires Good(s, but) && Live(s, r)
    ensures var t := RunCanceled(s, r);
      && Good(t, but) && Follows(s, t, Cause({r}, {}, {})) && !Live(t, r)
      && Alive(t) == Alive(s) && LiveRuns(t) < LiveRuns(s)
  {
    RunCanceledGood(s, r, but);
    RunCanceledFollows(s, r);
    assert r in LiveRuns(s);
    assert forall m :: Up(RunCanceled(s, r), m) == Up(s, m);
  }

  /** The machine of a canceled run dies with it if it is for a single use. */
  lemma CanceledWith(s: State, r: RunId, u: State)
    requires Known(s) && Live(s, r) && Follows(RunCanceled(s, r), u, LeftMachine(RunCanceled(s, r), s.runs[r].machine))
    ensures Follows(s, u, Cause({r}, {}, {})) && !Live(u, r)
  {
    var t, m, c := RunCanceled(s, r), s.runs[r].machine, Cause({r}, {}, {});
    RunCanceledFollows(s, r);
    StaysCanceled(t, r, u, LeftMachine(t, m));
    FollowsFurther(s, t, u, c, LeftMachine(t, m));
    if LeftMachine(t, m) == Nobody {
      SameCause(c);
    } else {
      UsedUpBy(s, r, m.value);
      assert Both(c, LeftMachine(t, m)) == c.(machines := c.machines + {m.value});
      UsedUpAnyway(s, u, c, m.value);
    }
  }

  lemma UsedUpBy(s: State, r: RunId, m: MachineId)
    requires r in s.runs && s.runs[r].machine == Some(m) && m in s.machines && s.machines[m].isVm
    ensures UsedUp(s, m, Cause({r}, {}, {}))
  {
  }

  lemma StaysCanceled(t: State, r: RunId, u: State, c: Cause)
    requires Follows(t, u, c) && r in t.runs && t.runs[r].canceled
    ensures !Live(u, r)
  {
  }

  lemma DeploymentEndedFollows(s: State, d: DeployId)
    requires Known(s) && Serving(s, d)
    ensures Follows(s, DeploymentEnded(s, d), Cause({}, {d}, {}))
  {
    var t, k := DeploymentEnded(s, d), s.deployments[d].category;
    forall c ensures ServingIn(t, c) == ServingIn(s, c) - {d} && (d in ServingIn(s, c) <==> c == k) { }
  }

  /*** What exactly they do ***/

  /** The machine, if it lives, dies with all that was on it; what else ends is explained by it. */
  ghost predicate Killed(s: State, m: MachineId, t: State) {
    if Up(s, m) then Follows(s, t, Cause({}, {}, {m})) && !Up(t, m) && Empty(t, m) else t == s
  }

  /** The machine dies if it is for a single use. */
  ghost predicate UsedOnce(s: State, m: Option<MachineId>, t: State) {
    if m.Some? && m.value in s.machines && s.machines[m.value].isVm then Killed(s, m.value, t) else t == s
  }

  function Idler(m: Option<MachineId>): set<MachineId> {
    if m.Some? then {m.value} else {}
  }

  ghost predicate RunEnded(s: State, r: RunId, t: State)
    requires Known(s)
  {
    if Live(s, r) then UsedOnce(RunCanceled(s, r), s.runs[r].machine, t) else t == s
  }

  /** Results were recorded before. */
  predicate Repeats(s: State, r: RunId) {
    r in s.runs && !s.runs[r].canceled && s.runs[r].finished && s.runs[r].machine.Some?
  }

  ghost predicate Recorded(s: State, r: RunId, t: State)
    requires Known(s)
  {
    if r in s.runs && !s.runs[r].canceled && s.runs[r].machine.Some? then
      MachineLeft(Finished(s, r), s.runs[r].machine, t)
    else t == s
  }

  /** Only a running one on a dead machine ends. */
  ghost predicate Heard(s: State, r: RunId, looked: bool, t: State)
    requires Known(s)
  {
    if looked && Live(s, r) && s.runs[r].machine.Some? && !Up(s, s.runs[r].machine.value) then RunEnded(s, r, t) else t == s
  }

  ghost predicate Cleared(s: State, r: RunId, t: State)
    requires Known(s) && r in s.runs
  {
    if s.runs[r].finished then t == s.(runs := s.runs[r := s.runs[r].(canceled := true)]) else RunEnded(s, r, t)
  }

  ghost predicate MachineLeft(s: State, m: Option<MachineId>, t: State) {
    UsedOnce(s.(idle := s.idle - Idler(m)), m, t)
  }

  /** The machine is left, and then what is to spare is shut down. */
  ghost predicate LeftAndTrimmed(s: State, m: Option<MachineId>, t: State) {
    exists mid :: MachineLeft(s, m, mid) && Trimmed(mid, t) && NoneToSpare(t)
  }

  ghost predicate DeploymentShut(s: State, d: DeployId, t: State)
    requires Known(s)
  {
    if Serving(s, d) then LeftAndTrimmed(DeploymentEnded(s, d), s.deployments[d].machine, t) else t == s
  }

  /** Only idle machines without work have died, and no category has fallen below what is desired. */
  ghost predicate Trimmed(s: State, t: State) {
    && t == s.(machines := t.machines, booted := t.booted)
    && t.machines.Keys == s.machines.Keys && t.booted.Keys == s.booted.Keys
    && (forall m | m in s.machines ::
          t.machines[m] == s.machines[m] || (t.machines[m] == s.machines[m].(isAlive := false) && m in s.idle && Empty(s, m)))
    && (forall c | c in s.booted :: t.booted[c] == s.booted[c] || (c in s.desired && s.desired[c] <= t.booted[c] < s.booted[c]))
  }

  lemma TrimmedFurther(s: State, t: State, u: State)
    requires Trimmed(s, t) && Trimmed(t, u)
    ensures Trimmed(s, u)
  {
    assert forall m | Empty(t, m) :: Empty(s, m);
  }

  lemma TrimmedByOne(s: State, m: MachineId)
    requires Known(s) && m in s.machines && Eligible(s, s.machines[m].category, true, m) && Excess(s, s.machines[m].category)
    ensures Trimmed(s, Died(s, m))
  {
  }

  /*** Machines with nothing to do ***/

  /** A machine of the category that nothing runs on, and that has been idle if this matters. */
  ghost predicate Eligible(s: State, c: Category, onlyIdle: bool, m: MachineId) {
    Up(s, m) && s.machines[m].category == c && Empty(s, m) && (!onlyIdle || m in s.idle)
  }

  /** No category with more machines than desired has an idle one to spare. */
  ghost predicate NoneToSpare(s: State) {
    forall c, m {:trigger Eligible(s, c, true, m)} | c in s.booted && c in s.desired && s.desired[c] < s.booted[c] :: !Eligible(s, c, true, m)
  }

  predicate Excess(s: State, c: Category) {
    c in s.booted && c in s.desired && s.desired[c] < s.booted[c]
  }

  lemma EligibleDies(s: State, c: Category, m: MachineId)
    requires Known(s) && Eligible(s, c, true, m)
    ensures Follows(s, Died(s, m), Nobody)
  {
    var t := Died(s, m);
    forall k ensures ServingIn(t, k) == ServingIn(s, k) { }
  }

  /** So far a machine has died, or none of the categories looked at had one to spare. */
  ghost predicate EachGoing(s: State, t: State, todo: set<Category>, any: bool) {
    && Follows(s, t, Nobody) && Trimmed(s, t)
    && (if any then Alive(t) < Alive(s) else t == s)
    && (!any ==> forall c, m {:trigger Eligible(s, c, true, m)} | Excess(s, c) && c !in todo :: !Eligible(s, c, true, m))
  }

  lemma EachBegins(s: State, todo: set<Category>)
    requires todo == set c | c in s.booted && Excess(s, c)
    ensures EachGoing(s, s, todo, false)
  {
    FollowsNothing(s, Nobody);
  }

  lemma EachShrinks(s: State, t: State, todo: set<Category>, any: bool)
    requires EachGoing(s, t, todo, any)
    ensures Alive(t) <= Alive(s) && LiveRuns(t) <= LiveRuns(s) && LiveDeployments(t) <= LiveDeployments(s)
  {
    EndsShrinks(s, t);
  }

  lemma EachStep(s: State, t: State, u: State, todo: set<Category>, any: bool, c: Category, one: bool)
    requires Known(t) && EachGoing(s, t, todo, any) && c in todo
    requires one ==> Excess(t, c) && exists m :: Eligible(t, c, true, m) && u == Died(t, m)
    requires !one ==> u == t && (Excess(t, c) ==> forall m :: !Eligible(t, c, true, m))
    ensures EachGoing(s, u, todo - {c}, any || one)
  {
    if one {
      var m :| Eligible(t, c, true, m) && u == Died(t, m);
      OneDied(s, t, c, m);
      TrimmedByOne(t, m);
      TrimmedFurther(s, t, u);
    }
  }

  lemma OneDied(s: State, t: State, c: Category, m: MachineId)
    requires Known(t) && Follows(s, t, Nobody) && Eligible(t, c, true, m)
    ensures Follows(s, Died(t, m), Nobody) && Alive(Died(t, m)) < Alive(s)
  {
    EligibleDies(t, c, m);
    NobodyFurther(s, t, Died(t, m));
    EndsShrinks(s, t);
    EndsShrinks(t, Died(t, m));
    assert m in Alive(t) && m !in Alive(Died(t, m));
  }

  lemma NobodyFurther(s: State, t: State, u: State)
    requires Follows(s, t, Nobody) && Follows(t, u, Nobody)
    ensures Follows(s, u, Nobody) && Alive(t) <= Alive(s) && LiveRuns(t) <= LiveRuns(s) && LiveDeployments(t) <= LiveDeployments(s)
  {
    FollowsFurther(s, t, u, Nobody, Nobody);
    EndsShrinks(s, t);
    assert Both(Nobody, Nobody) == Nobody;
  }

  /*** One change at a time ***/

  lemma SameMachines(s: State, t: State)
    requires t.machines == s.machines && t.booted == s.booted
    ensures MachinesCounted(s) ==> MachinesCounted(t)
  {
    forall c ensures AliveIn(t, c) == AliveIn(s, c) { }
  }

  lemma SameRuns(s: State, t: State)
    requires t.runs == s.runs && t.active == s.active
    ensures forall again | RunsCounted(s, again) :: RunsCounted(t, again)
  {
    forall u ensures LiveOf(t, u) == LiveOf(s, u) { }
  }

  function Died(s: State, m: MachineId): State
    requires m in s.machines && s.machines[m].category in s.booted
  {
    var c := s.machines[m].category;
    s.(machines := s.machines[m := s.machines[m].(isAlive := false)], booted := s.booted[c := s.booted[c] - 1])
  }

  lemma DiedGood(s: State, m: MachineId, but: Slack)
    requires Good(s, but) && Up(s, m)
    ensures Good(Died(s, m), but.With(m)) && Ends(s, Died(s, m))
    ensures Alive(Died(s, m)) == Alive(s) - {m} && Died(s, m).booted[s.machines[m].category] >= 0
  {
    var t := Died(s, m);
    DiedCounted(s, m, but.again);
    DiedOrphans(s, m, but);
    assert AliveIn(t, s.machines[m].category) == AliveIn(s, s.machines[m].category) - {m};
  }

  lemma DiedIn(s: State, m: MachineId, c: Category)
    requires Known(s) && Up(s, m)
    ensures |AliveIn(Died(s, m), c)| == |AliveIn(s, c)| - if c == s.machines[m].category then 1 else 0
  {
    assert AliveIn(Died(s, m), c) == AliveIn(s, c) - {m};
    assert m in AliveIn(s, c) <==> c == s.machines[m].category;
  }

  lemma DiedCounted(s: State, m: MachineId, again: multiset<Test>)
    requires Counted(s, again) && Up(s, m)
    ensures Counted(Died(s, m), again)
  {
    SameRuns(s, Died(s, m));
    forall c | c in s.booted ensures Died(s, m).booted[c] == |AliveIn(Died(s, m), c)| {
      DiedIn(s, m, c);
    }
  }

  lemma DiedOrphans(s: State, m: MachineId, but: Slack)
    requires Known(s) && NoOrphans(s, but) && Up(s, m)
    ensures NoOrphans(Died(s, m), but.With(m))
  {
    var t := Died(s, m);
    forall x | Housed(s, but, x) ensures Housed(t, but.With(m), x) {
    }
    assert forall r :: Live(t, r) == Live(s, r);
    assert forall d :: Serving(t, d) == Serving(s, d);
  }

  function RunCanceled(s: State, r: RunId): State
    requires r in s.runs && s.runs[r].test in s.active
  {
    var t := s.runs[r].test;
    s.(runs := s.runs[r := s.runs[r].(canceled := true)], active := s.active[t := s.active[t] - 1])
  }

  lemma RunCanceledGood(s: State, r: RunId, but: Slack)
    requires Good(s, but) && Live(s, r)
    ensures Good(RunCanceled(s, r), but) && Ends(s, RunCanceled(s, r))
    ensures LiveRuns(RunCanceled(s, r)) == LiveRuns(s) - {r}
  {
    var t := RunCanceled(s, r);
    assert forall x :: Live(t, x) <==> Live(s, x) && x != r;
    RunCanceledCounted(s, r, but.again);
    assert forall x | Housed(s, but, x) :: Housed(t, but, x);
  }

  lemma CanceledOf(s: State, r: RunId, u: Test)
    requires Known(s) && Live(s, r)
    ensures |LiveOf(RunCanceled(s, r), u)| == |LiveOf(s, u)| - if u == s.runs[r].test then 1 else 0
  {
    assert LiveOf(RunCanceled(s, r), u) == LiveOf(s, u) - {r};
    assert r in LiveOf(s, u) <==> u == s.runs[r].test;
  }

  lemma RunCanceledCounted(s: State, r: RunId, again: multiset<Test>)
    requires Counted(s, again) && Live(s, r)
    ensures Counted(RunCanceled(s, r), again)
  {
    SameMachines(s, RunCanceled(s, r));
    forall u | u in s.active ensures RunCanceled(s, r).active[u] == |LiveOf(RunCanceled(s, r), u)| - again[u] {
      CanceledOf(s, r, u);
    }
  }

  function DeploymentEnded(s: State, d: DeployId): State
    requires d in s.deployments && s.deployments[d].category in s.desired
  {
    var c := s.deployments[d].category;
    s.(deployments := s.deployments[d := s.deployments[d].(isAlive := false)], desired := s.desired[c := s.desired[c] - 1])
  }

  lemma DeploymentEndedGood(s: State, d: DeployId, but: Slack)
    requires Good(s, but) && Serving(s, d)
    ensures Good(DeploymentEnded(s, d), but) && Ends(s, DeploymentEnded(s, d))
    ensures LiveDeployments(DeploymentEnded(s, d)) == LiveDeployments(s) - {d}
  {
    var t := DeploymentEnded(s, d);
    SameMachines(s, t);
    SameRuns(s, t);
    assert forall x :: Serving(t, x) <==> Serving(s, x) && x != d;
    assert forall x | Housed(s, but, x) :: Housed(t, but, x);
  }

  ghost predicate Empty(s: State, m: MachineId) {
    && (forall r | Live(s, r) :: s.runs[r].machine != Some(m))
    && (forall d | Serving(s, d) :: s.deployments[d].machine != Some(m))
  }

  lemma StaysEmpty(s: State, t: State, m: MachineId)
    requires Ends(s, t) && forall r | Live(s, r) :: s.runs[r].machine != Some(m)
    requires forall d | Serving(t, d) :: t.deployments[d].machine != Some(m)
    ensures Empty(t, m)
  {
    assert forall r | Live(t, r) :: Live(s, r);
  }

  lemma Settled(s: State, m: MachineId, but: Slack)
    requires Good(s, but.With(m)) && Empty(s, m)
    ensures Good(s, but)
  {
  }

  lemma FewerOn(s: State, t: State, m: MachineId)
    requires Ends(s, t)
    ensures AllOn(t, m).runs <= AllOn(s, m).runs && Both(AllOn(s, m), AllOn(t, m)) == AllOn(s, m)
  {
  }

  lemma SameCause(c: Cause)
    ensures Both(c, Nobody) == c
  {
  }

  /** Ending one more thing on a machine is part of ending all on it. */
  lemma FollowsOnMore(s: State, t: State, u: State, m: MachineId, c: Cause)
    requires Follows(s, t, AllOn(s, m)) && Follows(t, u, c)
    requires c.runs <= AllOn(s, m).runs && c.deployments <= AllOn(s, m).deployments && c.machines == {}
    ensures Follows(s, u, AllOn(s, m))
  {
    FollowsFurther(s, t, u, AllOn(s, m), c);
    assert Both(AllOn(s, m), c) == AllOn(s, m);
  }

  /** What the end of a deployment on a machine may end besides. */
  ghost function LeftMachine(s: State, m: Option<MachineId>): Cause {
    if m.Some? && m.value in s.machines && s.machines[m.value].isVm then Cause({}, {}, {m.value}) else Nobody
  }

  lemma BusyFollows(s: State, m: MachineId)
    ensures Follows(s, s.(idle := s.idle - {m}), Nobody)
    ensures forall but | Good(s, but) :: Good(s.(idle := s.idle - {m}), but)
  {
    var t := s.(idle := s.idle - {m});
    forall c ensures ServingIn(t, c) == ServingIn(s, c) { }
    forall c ensures AliveIn(t, c) == AliveIn(s, c) { }
    forall c ensures LiveOf(t, c) == LiveOf(s, c) { }
    assert forall r :: Live(t, r) == Live(s, r);
    assert forall d :: Serving(t, d) == Serving(s, d);
    assert forall but, x :: Housed(t, but, x) == Housed(s, but, x);
  }

  lemma BusySame(s: State, m: MachineId)
    ensures var t := s.(idle := s.idle - {m});
      Alive(t) == Alive(s) && LiveRuns(t) == LiveRuns(s) && LiveDeployments(t) == LiveDeployments(s)
  {
    var t := s.(idle := s.idle - {m});
    assert forall x :: Up(t, x) == Up(s, x);
    assert forall r :: Live(t, r) == Live(s, r);
    assert forall d :: Serving(t, d) == Serving(s, d);
  }

  lemma BusyThenLeft(s: State, m: MachineId, u: State)
    requires Follows(s.(idle := s.idle - {m}), u, LeftMachine(s.(idle := s.idle - {m}), Some(m)))
    ensures Follows(s, u, LeftMachine(s, Some(m)))
  {
    var t, c := s.(idle := s.idle - {m}), LeftMachine(s, Some(m));
    BusyFollows(s, m);
    FollowsFurther(s, t, u, Nobody, c);
    assert Both(Nobody, c) == c;
  }

  lemma LeftFor(s: State, d: DeployId, t: State, u: State)
    requires Known(s) && Serving(s, d) && t == DeploymentEnded(s, d) && Follows(t, u, LeftMachine(t, s.deployments[d].machine))
    ensures Follows(s, u, Cause({}, {d}, {}))
  {
    DeploymentEndedFollows(s, d);
    var m, c := s.deployments[d].machine, Cause({}, {d}, {});
    FollowsFurther(s, t, u, c, LeftMachine(t, m));
    if LeftMachine(t, m) == Nobody {
      SameCause(c);
    } else {
      assert Both(c, LeftMachine(t, m)) == c.(machines := c.machines + {m.value});
      UsedUpAnyway(s, u, c, m.value);
    }
  }

  /** In the order in which operations that call each other end. */
  ghost predicate NotMore(s: State, t: State) {
    || Alive(t) < Alive(s)
    || (Alive(t) == Alive(s) && LiveRuns(t) < LiveRuns(s))
    || (Alive(t) == Alive(s) && LiveRuns(t) == LiveRuns(s) && LiveDeployments(t) < LiveDeployments(s))
    || (Alive(t) == Alive(s) && LiveRuns(t) == LiveRuns(s) && LiveDeployments(t) == LiveDeployments(s))
  }

  function RunsOn(s: State, m: MachineId): set<RunId> {
    set r | r in s.runs && Live(s, r) && s.runs[r].machine == Some(m)
  }

  function DeploymentsOn(s: State, m: MachineId): set<DeployId> {
    set d | d in s.deployments && Serving(s, d) && s.deployments[d].machine == Some(m)
  }

  /** All that is live on the machine is still to be canceled, and nothing else has ended. */
  ghost predicate RunsGoing(s: State, t: State, m: MachineId, todo: set<RunId>) {
    && Follows(s, t, AllOn(s, m))
    && (Empty(s, m) ==> t == s && todo == {})
    && (forall r | r in todo :: r in AllOn(s, m).runs && r in t.runs && !t.runs[r].finished)
    && (forall r | Live(t, r) && t.runs[r].machine == Some(m) :: r in todo)
  }

  lemma RunsBegin(s: State, m: MachineId, todo: set<RunId>)
    requires todo == RunsOn(s, m)
    ensures RunsGoing(s, s, m, todo)
  {
    FollowsNothing(s, AllOn(s, m));
  }

  lemma RunsShrink(s: State, t: State, m: MachineId, todo: set<RunId>, r: RunId)
    requires RunsGoing(s, t, m, todo) && r in todo
    ensures Alive(t) <= Alive(s) && LiveRuns(t) <= LiveRuns(s) && LiveDeployments(t) <= LiveDeployments(s)
    ensures NotMore(s, t)
    ensures r in t.runs && !t.runs[r].finished
  {
    EndsShrinks(s, t);
  }

  lemma OneRunLess(s: State, t: State, u: State, m: MachineId, todo: set<RunId>, r: RunId)
    requires RunsGoing(s, t, m, todo) && r in todo && Follows(t, u, Cause({r}, {}, {})) && !Live(u, r)
    ensures RunsGoing(s, u, m, todo - {r})
  {
    FollowsOnMore(s, t, u, m, Cause({r}, {}, {}));
    assert forall x | Live(u, x) :: Live(t, x);
  }

  lemma RunsEnd(s: State, t: State, m: MachineId)
    requires RunsGoing(s, t, m, {})
    ensures Follows(s, t, AllOn(s, m)) && forall r | Live(t, r) :: t.runs[r].machine != Some(m)
    ensures Empty(s, m) ==> t == s
  {
  }

  ghost predicate DeploymentsGoing(s: State, t: State, m: MachineId, todo: set<DeployId>) {
    && Follows(s, t, AllOn(s, m))
    && (Empty(s, m) ==> t == s && todo == {})
    && (forall d | d in todo :: d in AllOn(s, m).deployments && d in t.deployments)
    && (forall d | Serving(t, d) && t.deployments[d].machine == Some(m) :: d in todo)
  }

  lemma DeploymentsBegin(s: State, m: MachineId, todo: set<DeployId>)
    requires todo == DeploymentsOn(s, m)
    ensures DeploymentsGoing(s, s, m, todo)
  {
    FollowsNothing(s, AllOn(s, m));
  }

  lemma DeploymentsShrink(s: State, t: State, m: MachineId, todo: set<DeployId>, d: DeployId)
    requires DeploymentsGoing(s, t, m, todo) && d in todo
    ensures Alive(t) <= Alive(s) && LiveRuns(t) <= LiveRuns(s) && LiveDeployments(t) <= LiveDeployments(s)
    ensures NotMore(s, t)
    ensures d in t.deployments
  {
    EndsShrinks(s, t);
  }

  lemma OneDeploymentLess(s: State, t: State, u: State, m: MachineId, todo: set<DeployId>, d: DeployId)
    requires DeploymentsGoing(s, t, m, todo) && d in todo && Follows(t, u, Cause({}, {d}, {})) && !Serving(u, d)
    ensures DeploymentsGoing(s, u, m, todo - {d})
  {
    FollowsOnMore(s, t, u, m, Cause({}, {d}, {}));
    assert forall x | Serving(u, x) :: Serving(t, x);
  }

  lemma DeploymentsEnd(s: State, t: State, m: MachineId)
    requires DeploymentsGoing(s, t, m, {})
    ensures Follows(s, t, AllOn(s, m)) && forall d | Serving(t, d) :: t.deployments[d].machine != Some(m)
    ensures Empty(s, m) ==> t == s
  {
  }

  /*** The methods ***/

  class Manager {
    var machines: map<MachineId, Machine>
    var booted: map<Category, int>
    var desired: map<Category, int>
    var runs: map<RunId, TestRun>
    var active: map<Test, int>
    var deployments: map<DeployId, Deployment>
    var idle: set<MachineId>

    function Now(): State
      reads this
    {
      State(machines, booted, desired, runs, active, deployments, idle)
    }

    /** An empty database. */
    constructor ()
      ensures Now() == State(map[], map[], map[], map[], map[], map[], {}) && Good(Now(), Exact)
    {
      machines, booted, desired, runs, active, deployments, idle := map[], map[], map[], map[], map[], map[], {};
    }

    method TerminateMachine(m: MachineId, ghost but: Slack)
      requires Good(Now(), but) && m in machines
      modifies this
      ensures Good(Now(), but) && Follows(old(Now()), Now(), Cause({}, {}, {m})) && !Up(Now(), m)
      ensures old(Up(Now(), m)) ==> Empty(Now(), m)
      ensures !old(Up(Now(), m)) ==> Now() == old(Now())
      ensures old(Up(Now(), m)) && Empty(old(Now()), m) ==> Now() == Died(old(Now()), m)
      decreases Alive(Now()), LiveRuns(Now()), LiveDeployments(Now()), 1
    {
      MachineTerminated(m, but);
    }

    method MachineTerminated(m: MachineId, ghost but: Slack)
      requires Good(Now(), but) && m in machines
      modifies this
      ensures Good(Now(), but) && Follows(old(Now()), Now(), Cause({}, {}, {m})) && !Up(Now(), m)
      ensures old(Up(Now(), m)) ==> Empty(Now(), m)
      ensures !old(Up(Now(), m)) ==> Now() == old(Now())
      ensures old(Up(Now(), m)) && Empty(old(Now()), m) ==> Now() == Died(old(Now()), m)
      decreases Alive(Now()), LiveRuns(Now()), LiveDeployments(Now()), 0
    {
      ghost var start := Now();
      if !machines[m].isAlive {
        FollowsNothing(start, Cause({}, {}, {m}));
        return;
      }
      DiedGood(start, m, but);
      var c := machines[m].category;
      machines := machines[m := machines[m].(isAlive := false)];
      booted := booted[c := booted[c] - 1];
      assert booted[c] >= 0;
      DiedShrinks(start, m, but);
      Vacate(m, but);
      DiedAndVacated(start, m, Now(), but);
    }

    /** Cancels all that is on a machine. */
    method Vacate(m: MachineId, ghost but: Slack)
      requires Good(Now(), but.With(m))
      modifies this
      ensures Good(Now(), but.With(m)) && Follows(old(Now()), Now(), AllOn(old(Now()), m)) && Empty(Now(), m)
      ensures Empty(old(Now()), m) ==> Now() == old(Now())
      decreases Alive(Now()), LiveRuns(Now()), LiveDeployments(Now()), 3
    {
      ghost var start := Now();
      CancelRunsOn(m, but);
      ghost var canceled := Now();
      RunsEnd(start, canceled, m);
      EndsShrinks(start, canceled);
      CancelDeploymentsOn(m, but);
      DeploymentsEnd(canceled, Now(), m);
      FollowsFurther(start, canceled, Now(), AllOn(start, m), AllOn(canceled, m));
      FewerOn(start, canceled, m);
      StaysEmpty(canceled, Now(), m);
    }

    method CancelRunsOn(m: MachineId, ghost but: Slack)
      requires Good(Now(), but.With(m))
      modifies this
      ensures Good(Now(), but.With(m)) && RunsGoing(old(Now()), Now(), m, {})
      decreases Alive(Now()), LiveRuns(Now()), LiveDeployments(Now()), 2
    {
      ghost var start := Now();
      var todo := RunsOn(Now(), m);
      RunsBegin(start, m, todo);
      while todo != {}
        invariant Good(Now(), but.With(m)) && RunsGoing(start, Now(), m, todo)
      {
        var r :| r in todo;
        RunsShrink(start, Now(), m, todo, r);
        CancelOneRun(m, r, start, todo, but);
        todo := todo - {r};
      }
    }

    method CancelOneRun(ghost m: MachineId, r: RunId, ghost start: State, ghost todo: set<RunId>, ghost but: Slack)
      requires Good(Now(), but.With(m)) && RunsGoing(start, Now(), m, todo) && r in todo
      modifies this
      ensures Good(Now(), but.With(m)) && RunsGoing(start, Now(), m, todo - {r})
      decreases Alive(Now()), LiveRuns(Now()), LiveDeployments(Now()), 1
    {
      ghost var before := Now();
      RunsShrink(start, before, m, todo, r);
      CancelTestRun(r, but.With(m));
      OneRunLess(start, before, Now(), m, todo, r);
    }

    method CancelDeploymentsOn(m: MachineId, ghost but: Slack)
      requires Good(Now(), but.With(m))
      modifies this
      ensures Good(Now(), but.With(m)) && DeploymentsGoing(old(Now()), Now(), m, {})
      decreases Alive(Now()), LiveRuns(Now()), LiveDeployments(Now()), 2
    {
      ghost var start := Now();
      var todo := DeploymentsOn(Now(), m);
      DeploymentsBegin(start, m, todo);
      while todo != {}
        invariant Good(Now(), but.With(m)) && DeploymentsGoing(start, Now(), m, todo)
      {
        var d :| d in todo;
        DeploymentsShrink(start, Now(), m, todo, d);
        CancelOneDeployment(m, d, start, todo, but);
        todo := todo - {d};
      }
    }

    method CancelOneDeployment(ghost m: MachineId, d: DeployId, ghost start: State, ghost todo: set<DeployId>, ghost but: Slack)
      requires Good(Now(), but.With(m)) && DeploymentsGoing(start, Now(), m, todo) && d in todo
      modifies this
      ensures Good(Now(), but.With(m)) && DeploymentsGoing(start, Now(), m, todo - {d})
      decreases Alive(Now()), LiveRuns(Now()), LiveDeployments(Now()), 1
    {
      ghost var before := Now();
      DeploymentsShrink(start, before, m, todo, d);
      CancelDeployment(d, but.With(m));
      OneDeploymentLess(start, before, Now(), m, todo, d);
    }

    /** A machine that is for a single use goes with what was on it. */
    method UseUp(m: Option<MachineId>, ghost but: Slack)
      requires Good(Now(), but)
      modifies this
      ensures Good(Now(), but) && UsedOnce(old(Now()), m, Now()) && Follows(old(Now()), Now(), LeftMachine(old(Now()), m))
      decreases Alive(Now()), LiveRuns(Now()), LiveDeployments(Now()), 2
    {
      FollowsNothing(Now(), LeftMachine(Now(), m));
      if m.Some? && m.value in machines && machines[m.value].isVm {
        TerminateMachine(m.value, but);
      }
    }

    method CancelTestRun(r: RunId, ghost but: Slack)
      requires Good(Now(), but) && r in runs && !runs[r].finished
      modifies this
      ensures Good(Now(), but) && Follows(old(Now()), Now(), Cause({r}, {}, {})) && !Live(Now(), r)
      ensures RunEnded(old(Now()), r, Now())
      decreases Alive(Now()), LiveRuns(Now()), LiveDeployments(Now()), 0
    {
      ghost var start := Now();
      if runs[r].canceled {
        FollowsNothing(start, Cause({r}, {}, {}));
        return;
      }
      MarkCanceled(r, but);
      UseUp(runs[r].machine, but);
      CanceledWith(start, r, Now());
    }

    method MarkCanceled(r: RunId, ghost but: Slack)
      requires Good(Now(), but) && Live(Now(), r)
      modifies this`runs, this`active
      ensures Good(Now(), but) && Now() == RunCanceled(old(Now()), r)
      ensures Alive(Now()) == Alive(old(Now())) && LiveRuns(Now()) < LiveRuns(old(Now()))
    {
      CanceledShrinks(Now(), r, but);
      var t := runs[r].test;
      runs := runs[r := runs[r].(canceled := true)];
      active := active[t := active[t] - 1];
    }

    method CancelDeployment(d: DeployId, ghost but: Slack)
      requires Good(Now(), but) && d in deployments
      modifies this
      ensures Good(Now(), but) && Follows(old(Now()), Now(), Cause({}, {d}, {})) && !Serving(Now(), d)
      ensures DeploymentShut(old(Now()), d, Now())
      ensures old(Serving(Now(), d)) ==> NoneToSpare(Now())
      decreases Alive(Now()), LiveRuns(Now()), LiveDeployments(Now()), 0
    {
      ghost var start := Now();
      if !deployments[d].isAlive {
        FollowsNothing(start, Cause({}, {d}, {}));
        return;
      }
      DeploymentEndedGood(start, d, but);
      DeploymentEndedFollows(start, d);
      var c := deployments[d].category;
      desired := desired[c := desired[c] - 1];
      deployments := deployments[d := deployments[d].(isAlive := false)];
      ghost var ended := Now();
      EndsShrinks(start, ended);
      LeaveMachine(deployments[d].machine, but);
      LeftFor(start, d, ended, Now());
      EndsShrinks(ended, Now());
    }

    /** What follows the end of a deployment. */
    method LeaveMachine(m: Option<MachineId>, ghost but: Slack)
      requires Good(Now(), but)
      modifies this
      ensures Good(Now(), but) && Follows(old(Now()), Now(), LeftMachine(old(Now()), m))
      ensures LeftAndTrimmed(old(Now()), m, Now()) && NoneToSpare(Now())
      decreases Alive(Now()), LiveRuns(Now()), LiveDeployments(Now()), 6
    {
      ghost var start := Now();
      Terminate(m, but);
      EndsShrinks(start, Now());
      ghost var before := Now();
      ShutdownMachinesIfNecessary(but);
      FollowsFurther(start, before, Now(), LeftMachine(start, m), Nobody);
      SameCause(LeftMachine(start, m));
    }

    method Terminate(m: Option<MachineId>, ghost but: Slack)
      requires Good(Now(), but)
      modifies this
      ensures Good(Now(), but) && Follows(old(Now()), Now(), LeftMachine(old(Now()), m))
      ensures MachineLeft(old(Now()), m, Now())
      decreases Alive(Now()), LiveRuns(Now()), LiveDeployments(Now()), 5
    {
      ghost var start := Now();
      FollowsNothing(start, Nobody);
      if m.Some? {
        idle := idle - {m.value};
        BusyFollows(start, m.value);
        BusySame(start, m.value);
      }
      UseUp(m, but);
      if m.Some? { BusyThenLeft(start, m.value, Now()); }
    }

    /** Terminates one machine of the category that nothing runs on, if there is one. */
    method Shutdown(c: Category, onlyIdle: bool, ghost but: Slack) returns (any: bool)
      requires Good(Now(), but)
      modifies this
      ensures Good(Now(), but)
      ensures any ==> exists m :: Eligible(old(Now()), c, onlyIdle, m) && Now() == Died(old(Now()), m)
      ensures !any ==> Now() == old(Now()) && forall m :: !Eligible(Now(), c, onlyIdle, m)
      decreases Alive(Now()), LiveRuns(Now()), LiveDeployments(Now()), 2
    {
      ghost var start := Now();
      any := false;
      var todo := set m | m in machines && Up(Now(), m) && machines[m].category == c;
      while todo != {}
        invariant Now() == start && todo <= machines.Keys && forall m | m in todo :: Up(Now(), m) && machines[m].category == c
        invariant forall m | Eligible(start, c, onlyIdle, m) :: m in todo
      {
        var m :| m in todo;
        todo := todo - {m};
        if !AnythingOn(m) && (!onlyIdle || m in idle) {
          assert Eligible(start, c, onlyIdle, m);
          TerminateMachine(m, but);
          return true;
        }
      }
    }

    predicate AnythingOn(m: MachineId)
      reads this
    {
      (exists r :: r in runs && Live(Now(), r) && runs[r].machine == Some(m)) ||
      (exists d :: d in deployments && Serving(Now(), d) && deployments[d].machine == Some(m))
    }

    /** Goes through the categories with more machines than they should have, until none has an idle one to spare. */
    method ShutdownMachinesIfNecessary(ghost but: Slack)
      requires Good(Now(), but)
      modifies this
      ensures Good(Now(), but) && Follows(old(Now()), Now(), Nobody)
      ensures Trimmed(old(Now()), Now()) && NoneToSpare(Now())
      decreases Alive(Now()), LiveRuns(Now()), LiveDeployments(Now()), 4
    {
      ghost var start := Now();
      FollowsNothing(start, Nobody);
      while true
        invariant Good(Now(), but) && Follows(start, Now(), Nobody) && Trimmed(start, Now())
        decreases Alive(Now())
      {
        ghost var before := Now();
        FollowsNothing(before, Nobody);
        NobodyFurther(start, before, before);
        var any := ShutdownEach(but);
        NobodyFurther(start, before, Now());
        TrimmedFurther(start, before, Now());
        if !any {
          return;
        }
      }
    }

    method ShutdownEach(ghost but: Slack) returns (any: bool)
      requires Good(Now(), but)
      modifies this
      ensures Good(Now(), but) && Follows(old(Now()), Now(), Nobody) && Trimmed(old(Now()), Now())
      ensures any ==> Alive(Now()) < old(Alive(Now()))
      ensures !any ==> Now() == old(Now()) && NoneToSpare(Now())
      decreases Alive(Now()), LiveRuns(Now()), LiveDeployments(Now()), 3
    {
      ghost var start := Now();
      any := false;
      var todo := set c | c in booted && Excess(Now(), c);
      EachBegins(start, todo);
      while todo != {}
        invariant Good(Now(), but) && EachGoing(start, Now(), todo, any)
      {
        var c :| c in todo;
        ghost var before := Now();
        EachShrinks(start, before, todo, any);
        var one := false;
        if Excess(Now(), c) {
          one := Shutdown(c, true, but);
        }
        EachStep(start, before, Now(), todo, any, c, one);
        any := any || one;
        todo := todo - {c};
      }
    }

    /*** What starts things ***/

    /** A category without machines, as it is noted when it is first asked for. */
    method AddCategory(c: Category)
      requires c !in booted
      modifies this`booted, this`desired
      ensures booted == old(booted)[c := 0] && desired == old(desired)[c := 0]
      ensures forall but | Good(old(Now()), but) :: Good(Now(), but)
    {
      ghost var s := Now();
      booted := booted[c := 0];
      desired := desired[c := 0];
      CategoryAdded(s, c, Now());
    }

    method AddTest(t: Test)
      requires t !in active
      modifies this`active
      ensures active == old(active)[t := 0]
      ensures forall but | Good(old(Now()), but) :: Good(Now(), but)
    {
      ghost var s := Now();
      active := active[t := 0];
      TestAdded(s, t, Now());
    }

    /** A booted machine, with an identity that was not used before. */
    method Boot(c: Category, id: MachineId, isVm: bool, ghost but: Slack)
      requires Good(Now(), but) && id !in machines && c in booted
      modifies this`machines, this`booted
      ensures Good(Now(), but) && machines == old(machines)[id := Machine(c, isVm, true)] && booted == old(booted)[c := old(booted)[c] + 1]
    {
      ghost var s := Now();
      machines := machines[id := Machine(c, isVm, true)];
      booted := booted[c := booted[c] + 1];
      BootedGood(s, id, Machine(c, isVm, true), Now(), but);
    }

    /** The transaction that gives a machine a test to run. It does not look whether the machine is still there. */
    method AssignTest(m: MachineId, t: Test, id: RunId, ghost but: Slack)
      requires Good(Now(), but) && id !in runs && m in machines && t in active
      modifies this`runs, this`active
      ensures runs == old(runs)[id := TestRun(t, Some(m), false, false)] && active == old(active)[t := old(active)[t] + 1]
      ensures Good(Now(), but.With(m))
      ensures Good(Now(), but) <==> Up(Now(), m) || m in but.forsaken
    {
      ghost var s := Now();
      active := active[t := active[t] + 1];
      runs := runs[id := TestRun(t, Some(m), false, false)];
      AddedGood(s, id, runs[id], Now(), but);
    }

    /** A run brought in from outside, which is on no machine here. */
    method ImportTestRun(id: RunId, t: Test, canceled: bool, finished: bool, ghost but: Slack)
      requires Good(Now(), but) && id !in runs && t in active
      modifies this`runs, this`active
      ensures Good(Now(), but) && runs == old(runs)[id := TestRun(t, None, canceled, finished)]
      ensures active == old(active)[t := old(active)[t] + if canceled || finished then 0 else 1]
    {
      ghost var s := Now();
      runs := runs[id := TestRun(t, None, canceled, finished)];
      if !canceled && !finished {
        active := active[t := active[t] + 1];
        AddedGood(s, id, runs[id], Now(), but);
      } else {
        PastAdded(s, id, runs[id], Now(), but);
      }
    }

    /** The results of a run. It is not checked whether there were some before. None is an exception, which changes nothing. */
    method RecordTestResults(r: RunId, ghost but: Slack) returns (ok: Option<bool>)
      requires Good(Now(), but)
      modifies this
      ensures Good(Now(), if Repeats(old(Now()), r) then but.Again(old(runs)[r].test) else but)
      ensures ok == Some(false) <==> r !in old(runs) || old(runs)[r].canceled
      ensures ok.None? <==> r in old(runs) && !old(runs)[r].canceled && old(runs)[r].machine.None?
      ensures ok == Some(true) ==> !Live(Now(), r) && r in runs && runs[r] == old(runs)[r].(finished := true)
      ensures ok == Some(true) && !old(machines)[old(runs)[r].machine.value].isVm ==>
                runs == old(runs)[r := old(runs)[r].(finished := true)] && idle == old(idle) - {old(runs)[r].machine.value}
      ensures ok == Some(true) && old(machines)[old(runs)[r].machine.value].isVm ==> !Up(Now(), old(runs)[r].machine.value)
      ensures Recorded(old(Now()), r, Now())
    {
      if r !in runs || runs[r].canceled {
        return Some(false);
      }
      if runs[r].machine.None? {
        return None;
      }
      ok := Some(true);
      ghost var start := Now();
      TakeResults(r, but);
      RecordedFinishes(start, r, Now());
    }

    method TakeResults(r: RunId, ghost but: Slack)
      requires Good(Now(), but) && Taken(Now(), r)
      modifies this
      ensures Good(Now(), if old(runs)[r].finished then but.Again(old(runs)[r].test) else but)
      ensures Recorded(old(Now()), r, Now())
    {
      var m := runs[r].machine.value;
      ghost var more := if runs[r].finished then but.Again(runs[r].test) else but;
      NoteResults(r, but);
      BusyFollows(Now(), m);
      idle := idle - {m};
      UseUp(Some(m), more);
    }

    /** The bookkeeping of the results alone. */
    method NoteResults(r: RunId, ghost but: Slack)
      requires Good(Now(), but) && r in runs && !runs[r].canceled
      modifies this`runs, this`active
      ensures Good(Now(), if old(runs)[r].finished then but.Again(old(runs)[r].test) else but)
      ensures Now() == Finished(old(Now()), r) && !Live(Now(), r)
    {
      FinishedGood(Now(), r, but);
      var t := runs[r].test;
      runs := runs[r := runs[r].(finished := true)];
      active := active[t := active[t] - 1];
    }

    /**
     A heartbeat of a run. Most are only noted; when one is looked at, a run whose machine has died is canceled.
     None is an exception, which changes nothing.
     */
    method TestHeartbeat(r: RunId, looked: bool, ghost but: Slack) returns (ok: Option<bool>)
      requires Good(Now(), but)
      modifies this
      ensures Good(Now(), but)
      ensures ok == Some(true) <==> (!looked ||
                (r in old(runs) && !old(runs)[r].canceled && old(runs)[r].machine.Some? && Up(old(Now()), old(runs)[r].machine.value)))
      ensures ok.None? <==> (looked && r in old(runs) && !old(runs)[r].canceled
        && (old(runs)[r].machine.None? || (old(runs)[r].finished && !Up(old(Now()), old(runs)[r].machine.value))))
      ensures ok != Some(false) ==> Now() == old(Now())
      ensures ok == Some(false) ==> !Live(Now(), r) && Follows(old(Now()), Now(), Cause({r}, {}, {}))
      ensures Heard(old(Now()), r, looked, Now())
    {
      FollowsNothing(Now(), Cause({r}, {}, {}));
      if !looked {
        return Some(true);
      }
      if r !in runs || runs[r].canceled {
        return Some(false);
      }
      if runs[r].machine.None? {
        return None;
      }
      if !machines[runs[r].machine.value].isAlive {
        if runs[r].finished {
          return None;
        }
        CancelTestRun(r, but);
        return Some(false);
      }
      return Some(true);
    }

    /** A run that a user clears away: canceled if it runs, and otherwise only marked, since it does not count as active. */
    method ClearTestRun(r: RunId, ghost but: Slack)
      requires Good(Now(), but) && r in runs
      modifies this
      ensures Good(Now(), but) && Follows(old(Now()), Now(), Cause({r}, {}, {})) && !Live(Now(), r)
      ensures Cleared(old(Now()), r, Now())
      ensures r in runs && runs[r].canceled
      ensures old(runs)[r].finished ==> Now() == old(Now()).(runs := old(runs)[r := old(runs)[r].(canceled := true)])
    {
      if !runs[r].finished {
        CancelTestRun(r, but);
        return;
      }
      ghost var s := Now();
      runs := runs[r := runs[r].(canceled := true)];
      ClearedGood(s, r, Now(), but);
    }

    method CreateDeployment(c: Category, id: DeployId, ghost but: Slack)
      requires Good(Now(), but) && id !in deployments && c in desired
      modifies this`deployments, this`desired
      ensures Good(Now(), but) && deployments == old(deployments)[id := Deployment(c, None, true)]
      ensures desired == old(desired)[c := old(desired)[c] + 1]
    {
      ghost var s := Now();
      deployments := deployments[id := Deployment(c, None, true)];
      desired := desired[c := desired[c] + 1];
      DeployedGood(s, id, deployments[id], Now(), but);
    }

    /** Gives a waiting deployment to a machine of its category. */
    method StartNewDeployment(m: MachineId, ghost but: Slack) returns (r: Option<DeployId>)
      requires Good(Now(), but)
      modifies this`deployments
      ensures Good(Now(), but)
      ensures r.None? ==> deployments == old(deployments) && forall d :: !Fits(Now(), m, d)
      ensures r.Some? ==> Fits(old(Now()), m, r.value)
      ensures r.Some? ==> Up(Now(), m) && r.value in old(deployments) && old(deployments)[r.value].machine.None?
      ensures r.Some? ==> deployments == old(deployments)[r.value := old(deployments)[r.value].(machine := Some(m))]
    {
      if m !in machines || !machines[m].isAlive {
        return None;
      }
      var todo := deployments.Keys;
      while todo != {}
        invariant todo <= deployments.Keys && forall d | Fits(Now(), m, d) :: d in todo
      {
        var d :| d in todo;
        todo := todo - {d};
        if deployments[d].isAlive && deployments[d].machine.None? && deployments[d].category == machines[m].category {
          ghost var s := Now();
          deployments := deployments[d := deployments[d].(machine := Some(m))];
          DeployedGood(s, d, deployments[d], Now(), but);
          return Some(d);
        }
      }
      return None;
    }

    /** The number of machines desired, which priorities and unbootable hardware set in ways that are not followed here. */
    method Desire(c: Category, n: int)
      requires c in desired
      modifies this`desired
      ensures desired == old(desired)[c := n]
      ensures forall but | Good(old(Now()), but) :: Good(Now(), but)
    {
      ghost var s := Now();
      desired := desired[c := n];
      AsGood(s, Now());
    }

    /** Time passes, and leaves more machines idle. */
    method Wait(more: set<MachineId>)
      modifies this`idle
      ensures idle == old(idle) + more
      ensures forall but | Good(old(Now()), but) :: Good(Now(), but)
    {
      ghost var s := Now();
      idle := idle + more;
      AsGood(s, Now());
    }

    /*** Runs of operations ***/

    method Perform(op: Op, ghost but: Slack)
      requires Good(Now(), but) && Allowed(Now(), op)
      modifies this
      ensures Did(old(Now()), op, Now()) && Good(Now(), After(but, old(Now()), op))
    {
      if Begins(op) {
        Start(op, but);
      } else {
        Stop(op, but);
      }
    }

    method Start(op: Op, ghost but: Slack)
      requires Good(Now(), but) && Allowed(Now(), op) && Begins(op)
      modifies this`machines, this`booted, this`desired, this`runs, this`active, this`deployments, this`idle
      ensures Did(old(Now()), op, Now()) && Good(Now(), After(but, old(Now()), op))
    {
      if op.Assign? || op.Import? || op.Deploy? || op.StartOn? {
        Give(op, but);
        return;
      }
      match op
      case NewCategory(c) => AddCategory(c);
      case NewTest(t) => AddTest(t);
      case Booted(c, id, isVm) => Boot(c, id, isVm, but);
      case Desired(c, n) => Desire(c, n);
      case Idle(more) => Wait(more);
    }

    method Give(op: Op, ghost but: Slack)
      requires Good(Now(), but) && Allowed(Now(), op) && (op.Assign? || op.Import? || op.Deploy? || op.StartOn?)
      modifies this`desired, this`runs, this`active, this`deployments
      ensures Did(old(Now()), op, Now()) && Good(Now(), After(but, old(Now()), op))
    {
      match op
      case Assign(m, t, id) => AssignTest(m, t, id, but);
      case Import(id, t, canceled, finished) => ImportTestRun(id, t, canceled, finished, but);
      case Deploy(c, id) => CreateDeployment(c, id, but);
      case StartOn(m) => var _ := StartNewDeployment(m, but);
    }

    method Stop(op: Op, ghost but: Slack)
      requires Good(Now(), but) && Allowed(Now(), op) && !Begins(op)
      modifies this
      ensures Did(old(Now()), op, Now()) && Good(Now(), After(but, old(Now()), op))
    {
      match op
      case Results(r) => var _ := RecordTestResults(r, but);
      case Heartbeat(r, looked) => var _ := TestHeartbeat(r, looked, but);
      case CancelRun(r) => CancelTestRun(r, but);
      case Clear(r) => ClearTestRun(r, but);
      case ShutdownDeployment(d) => CancelDeployment(d, but);
      case Gone(m) => MachineTerminated(m, but);
      case Terminated(m) => TerminateMachine(m, but);
      case ShutdownOne(c, onlyIdle) => var _ := Shutdown(c, onlyIdle, but);
      case ShutdownSpare => ShutdownMachinesIfNecessary(but);
    }

    /** Any operations after each other, passing over those that the state does not allow. */
    method Execute(ops: seq<Op>, ghost but: Slack) returns (ghost run: seq<State>)
      requires Good(Now(), but)
      modifies this
      ensures Ran(run, ops, |ops|) && run[0] == old(Now()) && run[|ops|] == Now()
      ensures AllGood(run, ops, but, |ops|)
    {
      run := [Now()];
      for k := 0 to |ops|
        invariant |run| == k + 1 && run[0] == old(Now()) && run[k] == Now()
        invariant Ran(run, ops, k) && AllGood(run, ops, but, k)
      {
        ghost var before := run;
        assert GoodAt(run, ops, but, k);
        PerformIfAllowed(ops[k], SlackAt(but, run, ops, k));
        run := run + [Now()];
        RanFurther(before, run, ops, but, k);
      }
    }

    method PerformIfAllowed(op: Op, ghost but: Slack)
      requires Good(Now(), but)
      modifies this
      ensures Stepped(old(Now()), op, Now()) && Good(Now(), After(but, old(Now()), op))
    {
      if Allowed(Now(), op) {
        Perform(op, but);
      }
    }
  }

  /** What the manager is asked to do, or happens to it. */
  datatype Op =
    | NewCategory(category: Category)
    | NewTest(test: Test)
    | Booted(category: Category, id: MachineId, isVm: bool)
    | Assign(machine: MachineId, test: Test, run: RunId)
    | Import(run: RunId, test: Test, canceled: bool, finished: bool)
    | Results(run: RunId)
    | Heartbeat(run: RunId, looked: bool)
    | CancelRun(run: RunId)
    | Clear(run: RunId)
    | Deploy(category: Category, deployment: DeployId)
    | StartOn(machine: MachineId)
    | ShutdownDeployment(deployment: DeployId)
    | Gone(machine: MachineId)
    | Terminated(machine: MachineId)
    | ShutdownOne(category: Category, onlyIdle: bool)
    | ShutdownSpare
    | Desired(category: Category, number: int)
    | Idle(more: set<MachineId>)

  predicate Begins(op: Op) {
    op.NewCategory? || op.NewTest? || op.Booted? || op.Assign? || op.Import? || op.Deploy? || op.StartOn? || op.Desired? || op.Idle?
  }

  /** New identities are new, what is named exists, and a run that ended is not canceled. */
  predicate Allowed(s: State, op: Op) {
    match op
    case NewCategory(c) => c !in s.booted
    case NewTest(t) => t !in s.active
    case Booted(c, id, _) => c in s.booted && id !in s.machines
    case Assign(m, t, id) => m in s.machines && t in s.active && id !in s.runs
    case Import(id, t, _, _) => t in s.active && id !in s.runs
    case CancelRun(r) => r in s.runs && !s.runs[r].finished
    case Clear(r) => r in s.runs
    case Deploy(c, id) => c in s.desired && id !in s.deployments
    case ShutdownDeployment(d) => d in s.deployments
    case Gone(m) => m in s.machines
    case Terminated(m) => m in s.machines
    case Desired(c, _) => c in s.desired
    case _ => true
  }

  /** What each operation makes of the state. */
  ghost predicate Did(s: State, op: Op, t: State)
    requires Known(s) && Allowed(s, op)
  {
    match op
    case NewCategory(c) => t == s.(booted := s.booted[c := 0], desired := s.desired[c := 0])
    case NewTest(u) => t == s.(active := s.active[u := 0])
    case Booted(c, id, isVm) =>
      t == s.(machines := s.machines[id := Machine(c, isVm, true)], booted := s.booted[c := s.booted[c] + 1])
    case Assign(m, u, id) =>
      t == s.(runs := s.runs[id := TestRun(u, Some(m), false, false)], active := s.active[u := s.active[u] + 1])
    case Import(id, u, canceled, finished) =>
      t == s.(runs := s.runs[id := TestRun(u, None, canceled, finished)],
              active := s.active[u := s.active[u] + if canceled || finished then 0 else 1])
    case Deploy(c, id) =>
      t == s.(deployments := s.deployments[id := Deployment(c, None, true)], desired := s.desired[c := s.desired[c] + 1])
    case StartOn(m) =>
      if exists d :: Fits(s, m, d) then
        exists d :: Fits(s, m, d) && t == s.(deployments := s.deployments[d := s.deployments[d].(machine := Some(m))])
      else t == s
    case Desired(c, n) => t == s.(desired := s.desired[c := n])
    case Idle(more) => t == s.(idle := s.idle + more)
    case Results(r) => Recorded(s, r, t)
    case Heartbeat(r, looked) => Heard(s, r, looked, t)
    case CancelRun(r) => RunEnded(s, r, t)
    case Clear(r) => Cleared(s, r, t)
    case ShutdownDeployment(d) => DeploymentShut(s, d, t)
    case Gone(m) => Killed(s, m, t)
    case Terminated(m) => Killed(s, m, t)
    case ShutdownOne(c, onlyIdle) =>
      if exists m :: Eligible(s, c, onlyIdle, m) then exists m :: Eligible(s, c, onlyIdle, m) && t == Died(s, m) else t == s
    case ShutdownSpare => Trimmed(s, t) && NoneToSpare(t)
  }

  /** What an operation adds to what is not as it should be. */
  ghost function After(but: Slack, s: State, op: Op): Slack {
    if op.Assign? && Allowed(s, op) && !Up(s, op.machine) then but.With(op.machine)
    else if op.Results? && Repeats(s, op.run) then but.Again(s.runs[op.run].test)
    else but
  }

  ghost function SlackAt(but: Slack, run: seq<State>, ops: seq<Op>, k: nat): Slack
    requires k <= |run| && k <= |ops|
  {
    if k == 0 then but else After(SlackAt(but, run, ops, k - 1), run[k - 1], ops[k - 1])
  }

  ghost predicate Stepped(s: State, op: Op, t: State) {
    Known(s) && if Allowed(s, op) then Did(s, op, t) else t == s
  }

  /** Each of the first states of the run is what the operation made of the one before. */
  ghost predicate Ran(run: seq<State>, ops: seq<Op>, n: nat) {
    |run| == n + 1 && n <= |ops| && forall j: nat {:trigger SteppedAt(run, ops, j)} | j < n :: SteppedAt(run, ops, j)
  }

  ghost predicate SteppedAt(run: seq<State>, ops: seq<Op>, j: nat)
    requires j + 1 < |run| && j < |ops|
  {
    Stepped(run[j], ops[j], run[j + 1])
  }

  /** In each state the counters are right but for that, and nothing live is on a dead machine but on those. */
  ghost predicate AllGood(run: seq<State>, ops: seq<Op>, but: Slack, n: nat) {
    n < |run| && n <= |ops| && forall j: nat {:trigger GoodAt(run, ops, but, j)} | j <= n :: GoodAt(run, ops, but, j)
  }

  ghost predicate GoodAt(run: seq<State>, ops: seq<Op>, but: Slack, j: nat)
    requires j < |run| && j <= |ops|
  {
    Good(run[j], SlackAt(but, run, ops, j))
  }

  lemma {:induction false} SameSlack(but: Slack, run: seq<State>, more: seq<State>, ops: seq<Op>, k: nat)
    requires k <= |run| <= |more| && k <= |ops| && run == more[..|run|]
    ensures SlackAt(but, more, ops, k) == SlackAt(but, run, ops, k)
  {
    if k > 0 {
      SameSlack(but, run, more, ops, k - 1);
      assert more[k - 1] == run[k - 1];
    }
  }

  lemma StillGoodAt(run: seq<State>, more: seq<State>, ops: seq<Op>, but: Slack, j: nat)
    requires j < |run| <= |more| && j <= |ops| && run == more[..|run|] && GoodAt(run, ops, but, j)
    ensures GoodAt(more, ops, but, j)
  {
    SameSlack(but, run, more, ops, j);
    assert more[j] == run[j];
  }

  lemma RanFurther(run: seq<State>, more: seq<State>, ops: seq<Op>, but: Slack, k: nat)
    requires Ran(run, ops, k) && AllGood(run, ops, but, k) && |more| == k + 2 && run == more[..|run|] && k < |ops|
    requires Stepped(run[k], ops[k], more[k + 1]) && Good(more[k + 1], After(SlackAt(but, run, ops, k), run[k], ops[k]))
    ensures Ran(more, ops, k + 1) && AllGood(more, ops, but, k + 1)
  {
    SameSlack(but, run, more, ops, k);
    assert more[k] == run[k] && GoodAt(more, ops, but, k + 1);
    forall j: nat {:trigger GoodAt(more, ops, but, j)} | j <= k ensures GoodAt(more, ops, but, j) {
      StillGoodAt(run, more, ops, but, j);
    }
    forall j: nat {:trigger SteppedAt(more, ops, j)} | j <= k ensures SteppedAt(more, ops, j) {
      assert more[j] == run[j];
      if j < k { assert SteppedAt(run, ops, j) && more[j + 1] == run[j + 1]; }
    }
  }

  /*** What no operation does ***/

  /** The dead stay dead, what is on a machine stays there, and what has ended does not begin again. */
  ghost predicate Lasts(s: State, t: State) {
    && (forall m | m in s.machines :: m in t.machines && (Up(t, m) ==> Up(s, m)))
    && (forall r | r in s.runs :: r in t.runs && t.runs[r].machine == s.runs[r].machine)
    && (forall d | d in s.deployments :: d in t.deployments && (s.deployments[d].machine.Some? ==> t.deployments[d].machine == s.deployments[d].machine))
    && (forall r | r in s.runs && Live(t, r) :: Live(s, r))
    && (forall d | d in s.deployments && Serving(t, d) :: Serving(s, d))
  }

  /** Nothing is new. */
  ghost predicate Dwindles(s: State, t: State) {
    Lasts(s, t) && t.runs.Keys == s.runs.Keys && t.deployments.Keys == s.deployments.Keys
    && forall d | d in s.deployments :: t.deployments[d].machine == s.deployments[d].machine
  }

  lemma EndsDwindles(s: State, t: State)
    requires Ends(s, t)
    ensures Dwindles(s, t)
  {
  }

  lemma TrimmedEnds(s: State, t: State)
    requires Trimmed(s, t)
    ensures Ends(s, t)
  {
  }

  lemma KilledEnds(s: State, m: MachineId, t: State)
    requires Killed(s, m, t)
    ensures Ends(s, t)
  {
  }

  lemma UsedOnceEnds(s: State, u: State, m: Option<MachineId>, t: State)
    requires Ends(s, u) && UsedOnce(u, m, t)
    ensures Ends(s, t)
  {
    if t != u {
      KilledEnds(u, m.value, t);
      EndsFurther(s, u, t);
    }
  }

  lemma RunEndEnds(s: State, r: RunId, t: State)
    requires Known(s) && RunEnded(s, r, t)
    ensures Ends(s, t)
  {
    if Live(s, r) {
      RunCanceledFollows(s, r);
      UsedOnceEnds(s, RunCanceled(s, r), s.runs[r].machine, t);
    }
  }

  lemma ShutEnds(s: State, d: DeployId, t: State)
    requires Known(s) && DeploymentShut(s, d, t)
    ensures Ends(s, t)
  {
    if Serving(s, d) {
      var u, m := DeploymentEnded(s, d), s.deployments[d].machine;
      var mid :| MachineLeft(u, m, mid) && Trimmed(mid, t);
      EndedEnds(s, d, u.idle - Idler(m));
      UsedOnceEnds(s, u.(idle := u.idle - Idler(m)), m, mid);
      TrimmedEnds(mid, t);
      EndsFurther(s, mid, t);
    }
  }

  lemma EndedEnds(s: State, d: DeployId, idle: set<MachineId>)
    requires Known(s) && Serving(s, d)
    ensures Ends(s, DeploymentEnded(s, d).(idle := idle))
  {
  }

  /** A machine that a deployment leaves is not idle yet, and dead if it is for a single use. */
  lemma LeftBusy(s: State, d: DeployId, t: State)
    requires Known(s) && Serving(s, d) && s.deployments[d].machine.Some? && DeploymentShut(s, d, t)
    ensures var m := s.deployments[d].machine.value; m !in t.idle && (s.machines[m].isVm ==> !Up(t, m))
  {
    var u, m := DeploymentEnded(s, d), s.deployments[d].machine;
    var mid :| MachineLeft(u, m, mid) && Trimmed(mid, t);
    TrimmedEnds(mid, t);
    assert mid.idle <= u.idle - Idler(m);
    if s.machines[m.value].isVm { assert !Up(mid, m.value); }
  }

  lemma ClearEnds(s: State, r: RunId, t: State)
    requires Known(s) && r in s.runs && Cleared(s, r, t)
    ensures Ends(s, t)
  {
    if !s.runs[r].finished { RunEndEnds(s, r, t); }
  }

  lemma OneShutEnds(s: State, m: MachineId, t: State)
    requires Known(s) && Up(s, m) && t == Died(s, m)
    ensures Ends(s, t)
  {
  }

  /** What is not the coming of results only ends things. */
  lemma StopEnds(s: State, op: Op, t: State)
    requires Known(s) && Allowed(s, op) && !Begins(op) && !op.Results? && Did(s, op, t)
    ensures Ends(s, t)
  {
    match op
    case ShutdownDeployment(d) => ShutEnds(s, d, t);
    case Gone(m) => KilledEnds(s, m, t);
    case Terminated(m) => KilledEnds(s, m, t);
    case ShutdownOne(c, onlyIdle) =>
      if m :| Eligible(s, c, onlyIdle, m) && t == Died(s, m) { OneShutEnds(s, m, t); }
    case ShutdownSpare => TrimmedEnds(s, t);
    case Clear(r) => ClearEnds(s, r, t);
    case Heartbeat(r, _) => if t != s { RunEndEnds(s, r, t); }
    case CancelRun(r) => RunEndEnds(s, r, t);
  }

  predicate Taken(s: State, r: RunId) {
    r in s.runs && !s.runs[r].canceled && s.runs[r].machine.Some?
  }

  /** Results that are taken finish their run and change nothing else about it; what else happens to runs is that they end. */
  lemma RecordedFinishes(s: State, r: RunId, t: State)
    requires Known(s) && Recorded(s, r, t) && Taken(s, r)
    ensures r in t.runs && t.runs[r] == s.runs[r].(finished := true)
    ensures Ends(Finished(s, r), t) && Dwindles(s, t)
    ensures s.runs[r].machine.value in s.machines && !s.machines[s.runs[r].machine.value].isVm ==>
              t.runs == s.runs[r := s.runs[r].(finished := true)] && t.idle == s.idle - {s.runs[r].machine.value}
    ensures s.runs[r].machine.value in s.machines && s.machines[s.runs[r].machine.value].isVm ==> !Up(t, s.runs[r].machine.value)
  {
    var u := Finished(s, r);
    var left := u.(idle := u.idle - Idler(s.runs[r].machine));
    assert Ends(u, left) && left.runs[r] == s.runs[r].(finished := true);
    UsedOnceEnds(u, left, s.runs[r].machine, t);
    EndsDwindles(u, t);
    FinishedDwindles(s, r, t);
  }

  lemma FinishedDwindles(s: State, r: RunId, t: State)
    requires Known(s) && r in s.runs && Dwindles(Finished(s, r), t)
    ensures Dwindles(s, t)
  {
  }

  lemma StopDwindles(s: State, op: Op, t: State)
    requires Known(s) && Allowed(s, op) && !Begins(op) && Did(s, op, t)
    ensures Dwindles(s, t)
  {
    if op.Results? && Taken(s, op.run) {
      RecordedFinishes(s, op.run, t);
    } else {
      if !op.Results? { StopEnds(s, op, t); }
      EndsDwindles(s, t);
    }
  }

  lemma StartLasts(s: State, op: Op, t: State)
    requires Known(s) && Allowed(s, op) && Begins(op) && Did(s, op, t)
    ensures Lasts(s, t)
  {
    if op.Assign? || op.Import? || op.Deploy? || op.StartOn? {
      GiveLasts(s, op, t);
    } else {
      AddLasts(s, op, t);
      SameLasts(s, t);
    }
  }

  lemma SameLasts(s: State, t: State)
    requires t.runs == s.runs && t.deployments == s.deployments && forall m | m in s.machines :: m in t.machines && t.machines[m] == s.machines[m]
    ensures Lasts(s, t)
  {
  }

  lemma AddLasts(s: State, op: Op, t: State)
    requires Known(s) && Allowed(s, op) && Did(s, op, t)
    requires op.NewCategory? || op.NewTest? || op.Booted? || op.Desired? || op.Idle?
    ensures t.runs == s.runs && t.deployments == s.deployments
    ensures forall m | m in s.machines :: m in t.machines && t.machines[m] == s.machines[m]
  {
  }

  lemma GiveLasts(s: State, op: Op, t: State)
    requires Known(s) && Allowed(s, op) && Did(s, op, t) && (op.Assign? || op.Import? || op.Deploy? || op.StartOn?)
    ensures Lasts(s, t)
  {
    if op.Assign? || op.Import? {
      OneRunLasts(s, op.run, t);
    }
  }

  lemma OneRunLasts(s: State, r: RunId, t: State)
    requires r !in s.runs && r in t.runs && t == s.(runs := s.runs[r := t.runs[r]], active := t.active)
    ensures Lasts(s, t)
  {
  }

  lemma StartGives(s: State, op: Op, t: State)
    requires Known(s) && Allowed(s, op) && Begins(op) && Did(s, op, t)
    ensures OnlyGiven(s, op, t)
  {
  }

  lemma StartPlaces(s: State, op: Op, t: State)
    requires Known(s) && Allowed(s, op) && Begins(op) && Did(s, op, t)
    ensures WellPlaced(s, t)
  {
  }

  /** A live run that is new was given to its machine. */
  ghost predicate OnlyGiven(s: State, op: Op, t: State) {
    forall r | Live(t, r) && r !in s.runs && t.runs[r].machine.Some? ::
      op.Assign? && Allowed(s, op) && op.run == r && t.runs[r].machine == Some(op.machine) && t.machines == s.machines
  }

  /** A live deployment that is newly on a machine is on a live one. */
  ghost predicate WellPlaced(s: State, t: State) {
    forall d | Serving(t, d) && t.deployments[d].machine.Some? ::
      (d in s.deployments && s.deployments[d].machine == t.deployments[d].machine) || Up(t, t.deployments[d].machine.value)
  }

  lemma StepLasts(s: State, op: Op, t: State)
    requires Stepped(s, op, t)
    ensures Lasts(s, t) && OnlyGiven(s, op, t) && WellPlaced(s, t)
  {
    if Allowed(s, op) && Begins(op) {
      StartLasts(s, op, t);
      StartGives(s, op, t);
      StartPlaces(s, op, t);
    } else if Allowed(s, op) {
      StopDwindles(s, op, t);
    }
  }

  /** Machines that were given a test when dead are still dead. */
  lemma {:induction false} ForsakenDead(run: seq<State>, ops: seq<Op>, n: nat, k: nat)
    requires Ran(run, ops, n) && k <= n
    ensures forall m | m in SlackAt(Exact, run, ops, k).forsaken :: m in run[k].machines && !Up(run[k], m)
  {
    if k > 0 {
      ForsakenDead(run, ops, n, k - 1);
      assert SteppedAt(run, ops, k - 1);
      StepLasts(run[k - 1], ops[k - 1], run[k]);
    }
  }

  /** A machine that was alive before a step has nothing live on it if it is dead afterwards. */
  lemma DeadIsLeft(run: seq<State>, ops: seq<Op>, n: nat, k: nat, m: MachineId)
    requires Ran(run, ops, n) && AllGood(run, ops, Exact, n) && k < n && Up(run[k], m) && !Up(run[k + 1], m)
    ensures Empty(run[k + 1], m)
  {
    ForsakenDead(run, ops, n, k);
    assert SteppedAt(run, ops, k) && GoodAt(run, ops, Exact, k + 1);
    assert m !in SlackAt(Exact, run, ops, k + 1).forsaken;
  }

  /** The run is live on this dead machine. */
  predicate Orphaned(s: State, r: RunId, m: MachineId) {
    Live(s, r) && s.runs[r].machine == Some(m) && !Up(s, m)
  }

  predicate GivenToDead(s: State, op: Op, m: MachineId, r: RunId) {
    op.Assign? && Allowed(s, op) && op.machine == m && op.run == r && !Up(s, m)
  }

  /**
   In any run from a state in which all is as it should be: if a live run is on a dead machine, it was given to
   that machine when the machine was dead already.
   */
  lemma {:induction false} OrphansAreForsaken(run: seq<State>, ops: seq<Op>, n: nat, k: nat, r: RunId, m: MachineId)
    requires Ran(run, ops, n) && AllGood(run, ops, Exact, n) && k <= n
    requires Live(run[k], r) && run[k].runs[r].machine == Some(m) && !Up(run[k], m)
    ensures exists j: nat :: j < k && GivenToDead(run[j], ops[j], m, r)
  {
    if k == 0 {
      NoneOrphaned(run, ops, n, r, m);
    } else {
      OrphanBefore(run, ops, n, k, r, m);
      if !GivenToDead(run[k - 1], ops[k - 1], m, r) {
        OrphansAreForsaken(run, ops, n, k - 1, r, m);
      }
    }
  }

  lemma NoneOrphaned(run: seq<State>, ops: seq<Op>, n: nat, r: RunId, m: MachineId)
    requires AllGood(run, ops, Exact, n)
    ensures !Orphaned(run[0], r, m)
  {
    assert GoodAt(run, ops, Exact, 0);
    assert Live(run[0], r) && run[0].runs[r].machine == Some(m) ==> Housed(run[0], Exact, m);
  }

  /** A live run on a dead machine was so before the step, or was given to the machine by it. */
  lemma OrphanBefore(run: seq<State>, ops: seq<Op>, n: nat, k: nat, r: RunId, m: MachineId)
    requires Ran(run, ops, n) && AllGood(run, ops, Exact, n) && 0 < k <= n && Orphaned(run[k], r, m)
    ensures GivenToDead(run[k - 1], ops[k - 1], m, r) || Orphaned(run[k - 1], r, m)
  {
    assert SteppedAt(run, ops, k - 1);
    StepLasts(run[k - 1], ops[k - 1], run[k]);
    DeadBefore(run, ops, n, k, r, m);
    OrphanStep(run[k - 1], ops[k - 1], run[k], r, m);
  }

  lemma DeadBefore(run: seq<State>, ops: seq<Op>, n: nat, k: nat, r: RunId, m: MachineId)
    requires Ran(run, ops, n) && AllGood(run, ops, Exact, n) && 0 < k <= n && Orphaned(run[k], r, m)
    ensures !Up(run[k - 1], m)
  {
    if Up(run[k - 1], m) {
      DeadIsLeft(run, ops, n, k - 1, m);
    }
  }

  lemma OrphanStep(s: State, op: Op, t: State, r: RunId, m: MachineId)
    requires Lasts(s, t) && OnlyGiven(s, op, t) && Orphaned(t, r, m) && !Up(s, m)
    ensures GivenToDead(s, op, m, r) || Orphaned(s, r, m)
  {
  }

  /** No live deployment is on a dead machine. */
  lemma {:induction false} DeploymentsHoused(run: seq<State>, ops: seq<Op>, n: nat, k: nat, d: DeployId)
    requires Ran(run, ops, n) && AllGood(run, ops, Exact, n) && k <= n
    requires Serving(run[k], d) && run[k].deployments[d].machine.Some?
    ensures Up(run[k], run[k].deployments[d].machine.value)
  {
    var m := run[k].deployments[d].machine.value;
    assert GoodAt(run, ops, Exact, k) && Housed(run[k], SlackAt(Exact, run, ops, k), m);
    if k > 0 {
      assert SteppedAt(run, ops, k - 1);
      StepLasts(run[k - 1], ops[k - 1], run[k]);
      if !Up(run[k], m) {
        DeploymentsHoused(run, ops, n, k - 1, d);
        DeadIsLeft(run, ops, n, k - 1, m);
      }
    }
  }

  /** The active count of a test is right exactly as long as no results were recorded again for one of its runs, and else too low. */
  lemma {:induction false} ActiveExactly(run: seq<State>, ops: seq<Op>, n: nat, k: nat, t: Test)
    requires Ran(run, ops, n) && AllGood(run, ops, Exact, n) && k <= n && t in run[k].active
    ensures run[k].active[t] <= |LiveOf(run[k], t)|
    ensures run[k].active[t] == |LiveOf(run[k], t)| <==> forall j: nat | j < k :: !RepeatsFor(run[j], ops[j], t)
  {
    assert GoodAt(run, ops, Exact, k);
    AgainExactly(run, ops, n, k, t);
  }

  /** In this step the run was finished: results came that were taken, or it was brought in so. */
  predicate FinishesAt(s: State, op: Op, r: RunId) {
    (op.Results? && op.run == r && Taken(s, r)) || (op.Import? && Allowed(s, op) && op.run == r && op.finished)
  }

  lemma StepFinishes(s: State, op: Op, t: State, r: RunId)
    requires Stepped(s, op, t) && r in t.runs
    ensures t.runs[r].finished <==> (r in s.runs && s.runs[r].finished) || FinishesAt(s, op, r)
  {
    if Allowed(s, op) && Begins(op) {
      StartFinishes(s, op, t, r);
    } else if Allowed(s, op) {
      if op.Results? && Taken(s, op.run) {
        RecordedFinishes(s, op.run, t);
      } else if !op.Results? {
        StopEnds(s, op, t);
      }
    }
  }

  lemma StartFinishes(s: State, op: Op, t: State, r: RunId)
    requires Known(s) && Allowed(s, op) && Begins(op) && Did(s, op, t) && r in t.runs
    ensures t.runs[r].finished <==> (r in s.runs && s.runs[r].finished) || FinishesAt(s, op, r)
  {
  }

  ghost predicate FinishedBefore(run: seq<State>, ops: seq<Op>, k: nat, r: RunId)
    requires k <= |run| && k <= |ops|
  {
    exists j: nat :: j < k && FinishesAt(run[j], ops[j], r)
  }

  lemma FinishedNext(run: seq<State>, ops: seq<Op>, k: nat, r: RunId)
    requires k < |run| && k < |ops|
    ensures FinishedBefore(run, ops, k + 1, r) <==> FinishedBefore(run, ops, k, r) || FinishesAt(run[k], ops[k], r)
  {
  }

  /** In every run a test run is finished exactly if its results were taken at some time. */
  lemma {:induction false} FinishedExactly(run: seq<State>, ops: seq<Op>, n: nat, k: nat, r: RunId)
    requires Ran(run, ops, n) && k <= n && r in run[k].runs && r !in run[0].runs
    ensures run[k].runs[r].finished <==> FinishedBefore(run, ops, k, r)
  {
    if k > 0 {
      if r in run[k - 1].runs {
        FinishedExactly(run, ops, n, k - 1, r);
      } else {
        NotBefore(run, ops, n, k - 1, r);
      }
      assert SteppedAt(run, ops, k - 1);
      StepFinishes(run[k - 1], ops[k - 1], run[k], r);
      FinishedNext(run, ops, k - 1, r);
    }
  }

  lemma {:induction false} NotBefore(run: seq<State>, ops: seq<Op>, n: nat, k: nat, r: RunId)
    requires Ran(run, ops, n) && k <= n && r !in run[k].runs
    ensures !FinishedBefore(run, ops, k, r)
  {
    if k > 0 {
      FinishedNext(run, ops, k - 1, r);
      assert SteppedAt(run, ops, k - 1);
      StepLasts(run[k - 1], ops[k - 1], run[k]);
      NotBefore(run, ops, n, k - 1, r);
    }
  }

  /** Everything that was ever on a single-use machine that lives is still live. */
  ghost predicate UsedOnlyOnce(s: State) {
    && (forall r | r in s.runs && OnSingleUse(s, s.runs[r].machine) :: Live(s, r))
    && (forall d | d in s.deployments && OnSingleUse(s, s.deployments[d].machine) :: Serving(s, d))
  }

  predicate OnSingleUse(s: State, m: Option<MachineId>) {
    m.Some? && Up(s, m.value) && s.machines[m.value].isVm
  }

  lemma KilledOnce(s: State, m: MachineId, t: State)
    requires UsedOnlyOnce(s) && Killed(s, m, t)
    ensures UsedOnlyOnce(t)
  {
    KilledEnds(s, m, t);
    if t != s {
      forall r | r in t.runs && OnSingleUse(t, t.runs[r].machine) ensures Live(t, r) {
        assert OnSingleUse(s, s.runs[r].machine) && Live(s, r);
      }
      forall d | d in t.deployments && OnSingleUse(t, t.deployments[d].machine) ensures Serving(t, d) {
        assert OnSingleUse(s, s.deployments[d].machine) && Serving(s, d);
      }
    }
  }

  /** All is so but for what was on this machine. */
  ghost predicate OnceBut(s: State, m: Option<MachineId>) {
    && (forall r | r in s.runs && s.runs[r].machine != m && OnSingleUse(s, s.runs[r].machine) :: Live(s, r))
    && (forall d | d in s.deployments && s.deployments[d].machine != m && OnSingleUse(s, s.deployments[d].machine) :: Serving(s, d))
  }

  lemma UsedOnceOnce(s: State, m: Option<MachineId>, t: State)
    requires OnceBut(s, m) && UsedOnce(s, m, t)
    ensures UsedOnlyOnce(t)
  {
    if m.Some? && m.value in s.machines && s.machines[m.value].isVm && Up(s, m.value) {
      KilledEnds(s, m.value, t);
      forall r | r in t.runs && OnSingleUse(t, t.runs[r].machine) ensures Live(t, r) {
        assert OnSingleUse(s, s.runs[r].machine) && Live(s, r);
      }
      forall d | d in t.deployments && OnSingleUse(t, t.deployments[d].machine) ensures Serving(t, d) {
        assert OnSingleUse(s, s.deployments[d].machine) && Serving(s, d);
      }
    }
  }

  lemma RunEndOnce(s: State, r: RunId, t: State)
    requires Known(s) && UsedOnlyOnce(s) && RunEnded(s, r, t)
    ensures UsedOnlyOnce(t)
  {
    if Live(s, r) {
      var u := RunCanceled(s, r);
      forall x | x in u.runs && u.runs[x].machine != s.runs[r].machine && OnSingleUse(u, u.runs[x].machine) ensures Live(u, x) {
        assert OnSingleUse(s, s.runs[x].machine);
      }
      forall d | d in u.deployments && OnSingleUse(u, u.deployments[d].machine) ensures Serving(u, d) {
        assert OnSingleUse(s, s.deployments[d].machine);
      }
      UsedOnceOnce(u, s.runs[r].machine, t);
    }
  }

  lemma RecordOnce(s: State, r: RunId, t: State)
    requires Known(s) && UsedOnlyOnce(s) && Recorded(s, r, t)
    ensures UsedOnlyOnce(t)
  {
    if Taken(s, r) {
      var u := Finished(s, r).(idle := s.idle - Idler(s.runs[r].machine));
      forall x | x in u.runs && u.runs[x].machine != s.runs[r].machine && OnSingleUse(u, u.runs[x].machine) ensures Live(u, x) {
        assert OnSingleUse(s, s.runs[x].machine);
      }
      forall d | d in u.deployments && OnSingleUse(u, u.deployments[d].machine) ensures Serving(u, d) {
        assert OnSingleUse(s, s.deployments[d].machine);
      }
      UsedOnceOnce(u, s.runs[r].machine, t);
    }
  }

  lemma TrimmedOnce(s: State, t: State)
    requires UsedOnlyOnce(s) && Trimmed(s, t)
    ensures UsedOnlyOnce(t)
  {
    forall r | r in t.runs && OnSingleUse(t, t.runs[r].machine) ensures Live(t, r) {
      assert OnSingleUse(s, s.runs[r].machine);
    }
    forall d | d in t.deployments && OnSingleUse(t, t.deployments[d].machine) ensures Serving(t, d) {
      assert OnSingleUse(s, s.deployments[d].machine);
    }
  }

  lemma ShutOnce(s: State, d: DeployId, t: State)
    requires Known(s) && UsedOnlyOnce(s) && DeploymentShut(s, d, t)
    ensures UsedOnlyOnce(t)
  {
    if Serving(s, d) {
      var m := s.deployments[d].machine;
      var u := DeploymentEnded(s, d).(idle := s.idle - Idler(m));
      var mid :| MachineLeft(DeploymentEnded(s, d), m, mid) && Trimmed(mid, t);
      EndedOnceBut(s, d, u);
      UsedOnceOnce(u, m, mid);
      TrimmedOnce(mid, t);
    }
  }

  lemma EndedOnceBut(s: State, d: DeployId, u: State)
    requires Known(s) && UsedOnlyOnce(s) && Serving(s, d) && u == DeploymentEnded(s, d).(idle := u.idle)
    ensures OnceBut(u, s.deployments[d].machine)
  {
    forall x | x in u.runs && OnSingleUse(u, u.runs[x].machine) ensures Live(u, x) {
      assert OnSingleUse(s, s.runs[x].machine);
    }
    forall e | e in u.deployments && u.deployments[e].machine != s.deployments[d].machine && OnSingleUse(u, u.deployments[e].machine)
      ensures Serving(u, e)
    {
      assert OnSingleUse(s, s.deployments[e].machine);
    }
  }

  lemma ClearOnce(s: State, r: RunId, t: State)
    requires Known(s) && UsedOnlyOnce(s) && r in s.runs && Cleared(s, r, t)
    ensures UsedOnlyOnce(t)
  {
    if s.runs[r].finished {
      assert !Live(s, r) && !OnSingleUse(s, s.runs[r].machine);
      forall x | x in t.runs && OnSingleUse(t, t.runs[x].machine) ensures Live(t, x) {
        assert OnSingleUse(s, s.runs[x].machine);
      }
      forall d | d in t.deployments && OnSingleUse(t, t.deployments[d].machine) ensures Serving(t, d) {
        assert OnSingleUse(s, s.deployments[d].machine);
      }
    } else {
      RunEndOnce(s, r, t);
    }
  }

  lemma OneShutOnce(s: State, m: MachineId, t: State)
    requires Known(s) && UsedOnlyOnce(s) && Up(s, m) && t == Died(s, m)
    ensures UsedOnlyOnce(t)
  {
    forall r | r in t.runs && OnSingleUse(t, t.runs[r].machine) ensures Live(t, r) {
      assert OnSingleUse(s, s.runs[r].machine);
    }
    forall d | d in t.deployments && OnSingleUse(t, t.deployments[d].machine) ensures Serving(t, d) {
      assert OnSingleUse(s, s.deployments[d].machine);
    }
  }

  lemma StopOnce(s: State, op: Op, t: State)
    requires Known(s) && UsedOnlyOnce(s) && Allowed(s, op) && !Begins(op) && Did(s, op, t)
    ensures UsedOnlyOnce(t)
  {
    match op
    case Results(r) => RecordOnce(s, r, t);
    case ShutdownDeployment(d) => ShutOnce(s, d, t);
    case Gone(m) => KilledOnce(s, m, t);
    case Terminated(m) => KilledOnce(s, m, t);
    case ShutdownOne(c, onlyIdle) =>
      if m :| Eligible(s, c, onlyIdle, m) && t == Died(s, m) { OneShutOnce(s, m, t); }
    case ShutdownSpare => TrimmedOnce(s, t);
    case Clear(r) => ClearOnce(s, r, t);
    case Heartbeat(r, _) => if t != s { RunEndOnce(s, r, t); }
    case CancelRun(r) => RunEndOnce(s, r, t);
  }

  /** What is on machines, and which of these are for a single use, is the same but for what the step puts there. */
  lemma StartOnce(s: State, op: Op, t: State)
    requires Known(s) && UsedOnlyOnce(s) && Allowed(s, op) && Begins(op) && Did(s, op, t)
    ensures UsedOnlyOnce(t)
  {
    StartOnceRuns(s, op, t);
    StartOnceDeployments(s, op, t);
  }

  lemma StartOnceDeployments(s: State, op: Op, t: State)
    requires Known(s) && UsedOnlyOnce(s) && Allowed(s, op) && Begins(op) && Did(s, op, t)
    ensures forall d | d in t.deployments && OnSingleUse(t, t.deployments[d].machine) :: Serving(t, d)
  {
    forall d | d in t.deployments && OnSingleUse(t, t.deployments[d].machine) ensures Serving(t, d) {
      if d in s.deployments && t.deployments[d] == s.deployments[d] { assert OnSingleUse(s, s.deployments[d].machine); }
    }
  }

  lemma StartOnceRuns(s: State, op: Op, t: State)
    requires Known(s) && UsedOnlyOnce(s) && Allowed(s, op) && Begins(op) && Did(s, op, t)
    ensures forall r | r in t.runs && OnSingleUse(t, t.runs[r].machine) :: Live(t, r)
  {
    forall r | r in t.runs && OnSingleUse(t, t.runs[r].machine) ensures Live(t, r) {
      if r in s.runs && t.runs[r] == s.runs[r] { assert OnSingleUse(s, s.runs[r].machine); }
    }
  }

  lemma StepOnce(s: State, op: Op, t: State)
    requires Stepped(s, op, t) && UsedOnlyOnce(s)
    ensures UsedOnlyOnce(t)
  {
    if Allowed(s, op) {
      if Begins(op) { StartOnce(s, op, t); } else { StopOnce(s, op, t); }
    }
  }

  /** In every run a single-use machine that lives has had nothing on it that has ended: once something has, it is gone. */
  lemma {:induction false} SingleUse(run: seq<State>, ops: seq<Op>, n: nat, k: nat)
    requires Ran(run, ops, n) && k <= n && UsedOnlyOnce(run[0])
    ensures UsedOnlyOnce(run[k])
  {
    if k > 0 {
      SingleUse(run, ops, n, k - 1);
      assert SteppedAt(run, ops, k - 1);
      StepOnce(run[k - 1], ops[k - 1], run[k]);
    }
  }

  predicate RepeatsFor(s: State, op: Op, t: Test) {
    op.Results? && Repeats(s, op.run) && s.runs[op.run].test == t
  }

  lemma {:induction false} AgainExactly(run: seq<State>, ops: seq<Op>, n: nat, k: nat, t: Test)
    requires Ran(run, ops, n) && k <= n
    ensures SlackAt(Exact, run, ops, k).again[t] == 0 <==> forall j: nat | j < k :: !RepeatsFor(run[j], ops[j], t)
  {
    if k > 0 {
      AgainExactly(run, ops, n, k - 1, t);
      AgainAfter(SlackAt(Exact, run, ops, k - 1), run[k - 1], ops[k - 1], t);
    }
  }

  lemma AgainAfter(but: Slack, s: State, op: Op, t: Test)
    ensures After(but, s, op).again[t] == but.again[t] + if RepeatsFor(s, op, t) then 1 else 0
  {
  }

  lemma AsGood(s: State, t: State)
    requires t == s.(desired := t.desired, idle := t.idle) && t.desired.Keys == s.desired.Keys
    ensures forall but | Good(s, but) :: Good(t, but)
  {
    SameMachines(s, t);
    SameRuns(s, t);
    assert forall r :: Live(t, r) == Live(s, r);
    assert forall d :: Serving(t, d) == Serving(s, d);
    assert forall but, x :: Housed(t, but, x) == Housed(s, but, x);
  }

  lemma CategoryAdded(s: State, c: Category, t: State)
    requires c !in s.booted && t == s.(booted := s.booted[c := 0], desired := s.desired[c := 0])
    ensures forall but | Good(s, but) :: Good(t, but)
  {
    SameRuns(s, t);
    forall x ensures AliveIn(t, x) == AliveIn(s, x) { }
    assert Known(s) ==> AliveIn(t, c) == {};
    assert forall r :: Live(t, r) == Live(s, r);
    assert forall d :: Serving(t, d) == Serving(s, d);
    assert forall but, x :: Housed(t, but, x) == Housed(s, but, x);
  }

  lemma TestAdded(s: State, u: Test, t: State)
    requires u !in s.active && t == s.(active := s.active[u := 0])
    ensures forall but | Good(s, but) :: Good(t, but)
  {
    SameMachines(s, t);
    forall x ensures LiveOf(t, x) == LiveOf(s, x) { }
    assert Known(s) ==> LiveOf(t, u) == {};
    assert forall r :: Live(t, r) == Live(s, r);
    assert forall d :: Serving(t, d) == Serving(s, d);
    assert forall but, x :: Housed(t, but, x) == Housed(s, but, x);
  }

  lemma PastAdded(s: State, id: RunId, r: TestRun, t: State, but: Slack)
    requires Good(s, but) && id !in s.runs && r.test in s.active && (r.canceled || r.finished) && r.machine.None?
    requires t == s.(runs := s.runs[id := r])
    ensures Good(t, but)
  {
    SameMachines(s, t);
    assert forall x :: Live(t, x) == Live(s, x);
    forall u ensures LiveOf(t, u) == LiveOf(s, u) { }
    assert forall d :: Serving(t, d) == Serving(s, d);
    assert forall x :: Housed(t, but, x) == Housed(s, but, x);
  }

  lemma ClearedGood(s: State, r: RunId, t: State, but: Slack)
    requires Good(s, but) && r in s.runs && s.runs[r].finished
    requires t == s.(runs := s.runs[r := s.runs[r].(canceled := true)])
    ensures Good(t, but) && Follows(s, t, Cause({r}, {}, {})) && !Live(t, r)
  {
    SameMachines(s, t);
    assert forall x :: Live(t, x) == Live(s, x);
    forall u ensures LiveOf(t, u) == LiveOf(s, u) { }
    forall c ensures ServingIn(t, c) == ServingIn(s, c) { }
    assert forall d :: Serving(t, d) == Serving(s, d);
    assert forall x :: Housed(t, but, x) == Housed(s, but, x);
  }

  /** The deployment waits for a machine like this one. */
  predicate Fits(s: State, m: MachineId, d: DeployId) {
    && Up(s, m) && Serving(s, d) && s.deployments[d].machine.None? && s.deployments[d].category == s.machines[m].category
  }

  lemma DeployedGood(s: State, d: DeployId, x: Deployment, t: State, but: Slack)
    requires Good(s, but) && x.isAlive && x.category in s.desired && (x.machine.Some? ==> Up(s, x.machine.value))
    requires t.(desired := s.desired) == s.(deployments := s.deployments[d := x]) && t.desired.Keys == s.desired.Keys
    ensures Good(t, but)
  {
    SameMachines(s, t);
    SameRuns(s, t);
    assert forall r :: Live(t, r) == Live(s, r);
    assert forall y :: Housed(s, but, y) == Housed(t, but, y);
    assert forall e | e != d :: Serving(t, e) == Serving(s, e);
  }

  function Finished(s: State, r: RunId): State
    requires r in s.runs && s.runs[r].test in s.active
  {
    var t := s.runs[r].test;
    s.(runs := s.runs[r := s.runs[r].(finished := true)], active := s.active[t := s.active[t] - 1])
  }

  lemma BootedGood(s: State, id: MachineId, m: Machine, t: State, but: Slack)
    requires Good(s, but) && id !in s.machines && m.category in s.booted && m.isAlive
    requires t == s.(machines := s.machines[id := m], booted := s.booted[m.category := s.booted[m.category] + 1])
    ensures Good(t, but)
  {
    BootedCounted(s, id, m, t, but.again);
    assert forall r :: Live(t, r) == Live(s, r);
    assert forall d :: Serving(t, d) == Serving(s, d);
    assert forall x | Housed(s, but, x) :: Housed(t, but, x);
  }

  lemma BootedCounted(s: State, id: MachineId, m: Machine, t: State, again: multiset<Test>)
    requires Counted(s, again) && id !in s.machines && m.category in s.booted && m.isAlive
    requires t == s.(machines := s.machines[id := m], booted := s.booted[m.category := s.booted[m.category] + 1])
    ensures Counted(t, again)
  {
    SameRuns(s, t);
    forall c | c in t.booted ensures t.booted[c] == |AliveIn(t, c)| {
      BootedIn(s, id, m, t, c);
    }
  }

  lemma BootedIn(s: State, id: MachineId, m: Machine, t: State, c: Category)
    requires id !in s.machines && m.isAlive && t.machines == s.machines[id := m]
    ensures |AliveIn(t, c)| == |AliveIn(s, c)| + if c == m.category then 1 else 0
  {
    assert AliveIn(t, c) == AliveIn(s, c) + if c == m.category then {id} else {};
  }

  lemma AddedGood(s: State, id: RunId, r: TestRun, t: State, but: Slack)
    requires Good(s, but) && id !in s.runs && r.test in s.active && !r.canceled && !r.finished && (r.machine.Some? ==> r.machine.value in s.machines)
    requires t == s.(runs := s.runs[id := r], active := s.active[r.test := s.active[r.test] + 1])
    ensures Counted(t, but.again) && (r.machine.Some? ==> Good(t, but.With(r.machine.value)))
    ensures Good(t, but) <==> r.machine.Some? ==> Up(t, r.machine.value) || r.machine.value in but.forsaken
  {
    AddedCounted(s, id, r, t, but.again);
    assert Live(t, id);
    assert forall x | x != id :: Live(t, x) == Live(s, x);
    assert forall d :: Serving(t, d) == Serving(s, d);
    assert forall x :: Housed(s, but, x) == Housed(t, but, x);
  }

  lemma AddedOf(s: State, id: RunId, r: TestRun, t: State, u: Test)
    requires id !in s.runs && !r.canceled && !r.finished && t.runs == s.runs[id := r]
    ensures |LiveOf(t, u)| == |LiveOf(s, u)| + if u == r.test then 1 else 0
  {
    assert LiveOf(t, u) == LiveOf(s, u) + if u == r.test then {id} else {};
  }

  lemma AddedCounted(s: State, id: RunId, r: TestRun, t: State, again: multiset<Test>)
    requires Counted(s, again) && id !in s.runs && r.test in s.active && !r.canceled && !r.finished && (r.machine.Some? ==> r.machine.value in s.machines)
    requires t == s.(runs := s.runs[id := r], active := s.active[r.test := s.active[r.test] + 1])
    ensures Counted(t, again)
  {
    SameMachines(s, t);
    forall u | u in t.active ensures t.active[u] == |LiveOf(t, u)| - again[u] {
      AddedOf(s, id, r, t, u);
    }
  }

  /** The first results of a run keep the count; further ones make it one too low. */
  lemma FinishedCounts(s: State, r: RunId, again: multiset<Test>)
    requires Counted(s, again) && r in s.runs && !s.runs[r].canceled
    ensures Counted(Finished(s, r), again) <==> !s.runs[r].finished
    ensures s.runs[r].finished ==> Counted(Finished(s, r), again + multiset{s.runs[r].test})
  {
    var t, u := Finished(s, r), s.runs[r].test;
    SameMachines(s, t);
    assert LiveOf(t, u) == LiveOf(s, u) - {r};
    assert r in LiveOf(s, u) <==> !s.runs[r].finished;
    assert t.active[u] == |LiveOf(t, u)| - again[u] <==> !s.runs[r].finished;
    forall v | v in t.active && v != u ensures t.active[v] == |LiveOf(t, v)| - again[v] {
      assert LiveOf(t, v) == LiveOf(s, v);
    }
  }

  lemma FinishedGood(s: State, r: RunId, but: Slack)
    requires Good(s, but) && r in s.runs && !s.runs[r].canceled
    ensures Good(Finished(s, r), if s.runs[r].finished then but.Again(s.runs[r].test) else but)
  {
    var t := Finished(s, r);
    FinishedCounts(s, r, but.again);
    assert forall x | Live(t, x) :: Live(s, x);
    assert forall d :: Serving(t, d) == Serving(s, d);
    assert forall x :: Housed(s, but, x) == Housed(t, but, x);
    assert forall x :: Housed(s, but, x) == Housed(t, but.Again(s.runs[r].test), x);
  }
}
