/** How a worker tells the server what it uploaded for a test, over connections that break. */
module ArtifactProtocol {
  import opened Options

  type TestId(==, !new)
  type Artifact(==, !new)

  /** A run, with the artifacts its test declares and those known to be complete. */
  datatype Run = Run(declared: seq<Artifact>, completed: seq<Artifact>, canceled: bool, succeeded: bool)

  datatype Msg =
    | ArtifactUploaded(test: TestId, artifact: Artifact)
    | WorkingOnTest(test: TestId, artifacts: seq<Artifact>)
    | TestFinished(test: TestId, artifacts: seq<Artifact>, success: bool, isState: bool)
    | TestHeartbeat(test: TestId)
    | Waiting

  /** The server: all runs, and the test of the current session. */
  datatype Server = Server(runs: map<TestId, Run>, currentTest: Option<TestId>)

  /** What a worker is on; `results` once it has published them. */
  datatype Worker = Worker(test: Option<TestId>, artifacts: seq<Artifact>, results: Option<bool>)

  /** `sent` is the queue to the server, oldest first; `uploaded` remembers what was uploaded for each test started. */
  datatype State = State(server: Server, worker: Worker, sent: seq<Msg>, uploaded: map<TestId, seq<Artifact>>)

  /*** The server ***/

  /** The run with one more artifact, which must be the next one declared. */
  function OneMore(run: Run, a: Artifact): Option<Run> {
    var ix := |run.completed|;
    if ix >= |run.declared| || run.declared[ix] != a then None
    else Some(run.(completed := run.completed + [a]))
  }

  /** The run with all artifacts reported, which must add to those known and begin those declared. */
  function AllSoFar(run: Run, artifacts: seq<Artifact>): Option<Run> {
    if run.completed <= artifacts <= run.declared then Some(run.(completed := artifacts)) else None
  }

  /** What a message does; None is an exception, which ends the session. `alive` is whether the test is still wanted. */
  function Handle(s: Server, m: Msg, alive: bool): Option<Server> {
    match m
    case ArtifactUploaded(t, a) =>
      if s.currentTest != Some(t) || t !in s.runs then Some(s)
      else
        var run := OneMore(s.runs[t], a);
        if run.None? then None else Some(s.(runs := s.runs[t := run.value]))
    case WorkingOnTest(t, artifacts) =>
      if t !in s.runs then Some(s)
      else
        var run := AllSoFar(s.runs[t], artifacts);
        if run.None? then None
        else Some(s.(runs := s.runs[t := run.value], currentTest := if alive then Some(t) else s.currentTest))
    case TestFinished(t, artifacts, success, isState) =>
      var current := if isState then s.currentTest else None;
      if t !in s.runs then Some(s.(currentTest := current))
      else
        var run := AllSoFar(s.runs[t], artifacts);
        if run.None? || (success && !run.value.canceled && run.value.completed != run.value.declared) then None
        else
          var done := if run.value.canceled then run.value else run.value.(succeeded := success);
          Some(s.(runs := s.runs[t := done], currentTest := current))
    case TestHeartbeat(t) => Some(if s.currentTest == Some(t) && !alive then s.(currentTest := None) else s)
    case Waiting => Some(s)
  }

  /** An exception while recording results leaves the artifacts recorded, as a transaction of its own did that. */
  function AfterException(s: Server, m: Msg): Server {
    if m.TestFinished? && m.test in s.runs && AllSoFar(s.runs[m.test], m.artifacts).Some?
    then s.(runs := s.runs[m.test := AllSoFar(s.runs[m.test], m.artifacts).value], currentTest := None)
    else s.(currentTest := None)
  }

  /*** Steps ***/

  function Deliver(s: State, alive: bool): State
    requires s.sent != []
  {
    var r := Handle(s.server, s.sent[0], alive);
    s.(server := if r.Some? then r.value else AfterException(s.server, s.sent[0]), sent := s.sent[1..])
  }

  /** The connection breaks, and the first messages under way get lost; the next session knows of no test. */
  function Disconnect(s: State, lost: nat): State
    requires lost <= |s.sent|
  {
    s.(server := s.server.(currentTest := None), sent := s.sent[lost..])
  }

  function Assign(s: State, t: TestId, declared: seq<Artifact>): State {
    s.(server := Server(s.server.runs[t := Run(declared, [], false, false)], Some(t)))
  }

  function Start(s: State, t: TestId): State {
    s.(worker := Worker(Some(t), [], None), uploaded := s.uploaded[t := []])
  }

  function Upload(s: State, a: Artifact): State
    requires s.worker.test.Some? && s.worker.test.value in s.uploaded
  {
    var t := s.worker.test.value;
    s.(worker := s.worker.(artifacts := s.worker.artifacts + [a]), sent := s.sent + [ArtifactUploaded(t, a)],
       uploaded := s.uploaded[t := s.uploaded[t] + [a]])
  }

  function StateMsg(w: Worker): Msg {
    if w.test.None? then Waiting
    else if w.results.Some? then TestFinished(w.test.value, w.artifacts, w.results.value, true)
    else WorkingOnTest(w.test.value, w.artifacts)
  }

  /** The answer to a server that asks for the current state. */
  function Report(s: State): State {
    s.(sent := s.sent + [StateMsg(s.worker)])
  }

  function Publish(s: State, success: bool): State
    requires s.worker.test.Some?
  {
    s.(worker := s.worker.(results := Some(success)),
       sent := s.sent + [TestFinished(s.worker.test.value, s.worker.artifacts, success, false)])
  }

  function Beat(s: State): State
    requires s.worker.test.Some?
  {
    s.(sent := s.sent + [TestHeartbeat(s.worker.test.value)])
  }

  /** The server has acknowledged the results, or canceled the test. */
  function Forget(s: State): State {
    s.(worker := Worker(None, [], None))
  }

  function CancelRun(s: State, t: TestId): State
    requires t in s.server.runs
  {
    s.(server := s.server.(runs := s.server.runs[t := s.server.runs[t].(canceled := true)]))
  }

  ghost predicate Next(s: State, t: State) {
    || (s.sent != [] && exists alive :: t == Deliver(s, alive))
    || (exists lost: nat :: lost <= |s.sent| && t == Disconnect(s, lost))
    || (exists id, declared :: s.server.currentTest.None? && id !in s.server.runs && id !in s.uploaded && t == Assign(s, id, declared))
    || (exists id :: id in s.server.runs && id !in s.uploaded && t == Start(s, id))
    || (exists a :: s.worker.test.Some? && s.worker.test.value in s.uploaded && t == Upload(s, a))
    || t == Report(s)
    || (exists success :: s.worker.test.Some? && t == Publish(s, success))
    || (s.worker.test.Some? && t == Beat(s))
    || t == Forget(s)
    || (exists id :: id in s.server.runs && t == CancelRun(s, id))
  }

  /*** What every run keeps ***/

  /** The uploads of a test that are still to be delivered. */
  function Coming(sent: seq<Msg>, t: TestId): seq<Artifact> {
    if sent == [] then []
    else (if sent[0].ArtifactUploaded? && sent[0].test == t then [sent[0].artifact] else []) + Coming(sent[1..], t)
  }

  /** What a message that lists artifacts says; what is behind it in the queue completes the list. */
  ghost predicate Complete(m: Msg, behind: seq<Msg>, uploaded: map<TestId, seq<Artifact>>) {
    && (!m.Waiting? ==> m.test in uploaded)
    && (m.WorkingOnTest? || m.TestFinished? ==> m.artifacts + Coming(behind, m.test) == uploaded[m.test])
  }

  ghost predicate AllComplete(sent: seq<Msg>, uploaded: map<TestId, seq<Artifact>>) {
    sent == [] || (Complete(sent[0], sent[1..], uploaded) && AllComplete(sent[1..], uploaded))
  }

  predicate Lists(m: Msg, t: TestId) {
    (m.WorkingOnTest? || m.TestFinished?) && m.test == t
  }

  /** No list under way is behind what the server knows. */
  ghost predicate NoneBehind(sent: seq<Msg>, t: TestId, completed: seq<Artifact>) {
    forall m | m in sent && Lists(m, t) :: completed <= m.artifacts
  }

  function AllOf(s: State, t: TestId): seq<Artifact> {
    if t in s.uploaded then s.uploaded[t] else []
  }

  /** The server knows a beginning of what was uploaded and of what was declared; in a session, what it lacks is under way. */
  ghost predicate InStep(s: State, t: TestId)
    requires t in s.server.runs
  {
    var run := s.server.runs[t];
    && run.completed <= run.declared
    && run.completed <= AllOf(s, t)
    && NoneBehind(s.sent, t, run.completed)
    && (s.server.currentTest == Some(t) ==> run.completed + Coming(s.sent, t) == AllOf(s, t))
    && (run.succeeded ==> run.completed == run.declared)
  }

  ghost predicate Good(s: State) {
    && (forall t {:trigger InStep(s, t)} | t in s.server.runs :: InStep(s, t))
    && AllComplete(s.sent, s.uploaded)
    && (s.worker.test.Some? ==> s.worker.test.value in s.uploaded && s.worker.artifacts == s.uploaded[s.worker.test.value])
    && (forall t | t in s.uploaded :: t in s.server.runs)
    && (s.server.currentTest.Some? ==> s.server.currentTest.value in s.server.runs)
  }

  /*** Queues ***/

  lemma {:induction false} ComingMore(sent: seq<Msg>, m: Msg, t: TestId)
    ensures Coming(sent + [m], t) == Coming(sent, t) + if m.ArtifactUploaded? && m.test == t then [m.artifact] else []
  {
    if sent == [] {
      assert sent + [m] == [m];
    } else {
      assert (sent + [m])[1..] == sent[1..] + [m];
      ComingMore(sent[1..], m, t);
    }
  }

  /** Another upload completes the lists before it as well. */
  lemma {:induction false} CompleteMore(sent: seq<Msg>, m: Msg, was: map<TestId, seq<Artifact>>, now: map<TestId, seq<Artifact>>)
    requires AllComplete(sent, was) && Complete(m, [], now) && was.Keys <= now.Keys
    requires forall t | t in was :: now[t] == was[t] + if m.ArtifactUploaded? && m.test == t then [m.artifact] else []
    ensures AllComplete(sent + [m], now)
  {
    if sent == [] {
      assert sent + [m] == [m];
    } else {
      assert (sent + [m])[1..] == sent[1..] + [m];
      CompleteMore(sent[1..], m, was, now);
      if !sent[0].Waiting? {
        ComingMore(sent[1..], m, sent[0].test);
      }
    }
  }

  lemma {:induction false} CompleteSuffix(sent: seq<Msg>, uploaded: map<TestId, seq<Artifact>>, k: nat)
    requires AllComplete(sent, uploaded) && k <= |sent|
    ensures AllComplete(sent[k..], uploaded)
  {
    if k > 0 {
      CompleteSuffix(sent[1..], uploaded, k - 1);
      assert sent[1..][k - 1..] == sent[k..];
    }
  }

  lemma {:induction false} CompleteNewTest(sent: seq<Msg>, uploaded: map<TestId, seq<Artifact>>, t: TestId)
    requires AllComplete(sent, uploaded) && t !in uploaded
    ensures AllComplete(sent, uploaded[t := []]) && Coming(sent, t) == [] && forall m | m in sent :: !Lists(m, t)
  {
    if sent != [] {
      CompleteNewTest(sent[1..], uploaded, t);
    }
  }

  /** If what the server knows lacks just what is under way, no list under way is behind it. */
  lemma {:induction false} ListsAreAhead(sent: seq<Msg>, uploaded: map<TestId, seq<Artifact>>, t: TestId, known: seq<Artifact>)
    requires AllComplete(sent, uploaded) && t in uploaded && known + Coming(sent, t) == uploaded[t]
    ensures NoneBehind(sent, t, known)
  {
    if sent != [] {
      var m := sent[0];
      if m.ArtifactUploaded? && m.test == t {
        assert known + [m.artifact] + Coming(sent[1..], t) == uploaded[t];
        ListsAreAhead(sent[1..], uploaded, t, known + [m.artifact]);
      } else {
        if Lists(m, t) {
          SameEnd(known, m.artifacts, Coming(sent[1..], t));
        }
        ListsAreAhead(sent[1..], uploaded, t, known);
      }
      assert forall x | x in sent :: x == m || x in sent[1..];
    }
  }

  lemma SameEnd(a: seq<Artifact>, b: seq<Artifact>, c: seq<Artifact>)
    requires a + c == b + c
    ensures a == b
  {
    assert |a| == |b|;
    assert a == (a + c)[..|a|] && b == (b + c)[..|b|];
  }

  lemma BehindMore(sent: seq<Msg>, m: Msg, t: TestId, completed: seq<Artifact>)
    requires NoneBehind(sent, t, completed) && (Lists(m, t) ==> completed <= m.artifacts)
    ensures NoneBehind(sent + [m], t, completed)
  {
  }

  lemma BehindFewer(sent: seq<Msg>, t: TestId, completed: seq<Artifact>, k: nat)
    requires NoneBehind(sent, t, completed) && k <= |sent|
    ensures NoneBehind(sent[k..], t, completed)
  {
  }

  /*** Steps keep it ***/

  /** What one message can change in a run: nothing, or its artifacts become those that lack just what is still under way. */
  ghost predicate Advanced(s: State, rest: seq<Msg>, t: TestId, now: seq<Artifact>)
    requires t in s.server.runs
  {
    var was := s.server.runs[t].completed;
    && was <= now
    && (now == was || (t in s.uploaded && now + Coming(rest, t) == s.uploaded[t]))
  }

  lemma ReportAdvances(s: State, m: Msg)
    requires Good(s) && s.sent != [] && m == s.sent[0] && (m.WorkingOnTest? || m.TestFinished?) && m.test in s.server.runs
    requires AllSoFar(s.server.runs[m.test], m.artifacts).Some?
    ensures Advanced(s, s.sent[1..], m.test, m.artifacts) && m.test in s.uploaded
    ensures m.artifacts + Coming(s.sent[1..], m.test) == s.uploaded[m.test]
  {
    assert Complete(m, s.sent[1..], s.uploaded);
  }

  lemma UploadAdvances(s: State, m: Msg)
    requires Good(s) && s.sent != [] && m == s.sent[0] && m.ArtifactUploaded? && m.test in s.server.runs
    requires s.server.currentTest == Some(m.test)
    ensures Advanced(s, s.sent[1..], m.test, s.server.runs[m.test].completed + [m.artifact]) && m.test in s.uploaded
    ensures s.server.runs[m.test].completed + [m.artifact] + Coming(s.sent[1..], m.test) == s.uploaded[m.test]
  {
    assert Complete(m, s.sent[1..], s.uploaded) && InStep(s, m.test);
    assert Coming(s.sent, m.test) == [m.artifact] + Coming(s.sent[1..], m.test);
  }

  /** A server whose runs have advanced so is in step with the rest of the queue. */
  lemma AdvancedInStep(s: State, server: Server, t: TestId)
    requires Good(s) && s.sent != [] && t in s.server.runs && t in server.runs
    requires Advanced(s, s.sent[1..], t, server.runs[t].completed)
    requires server.runs[t].declared == s.server.runs[t].declared && server.runs[t].completed <= server.runs[t].declared
    requires server.runs[t].succeeded ==> server.runs[t].completed == server.runs[t].declared
    requires server.currentTest == Some(t) ==> server.runs[t].completed + Coming(s.sent[1..], t) == AllOf(s, t)
    ensures InStep(s.(server := server, sent := s.sent[1..]), t)
  {
    assert InStep(s, t);
    if server.runs[t].completed == s.server.runs[t].completed {
      BehindFewer(s.sent, t, server.runs[t].completed, 1);
    } else {
      ListsAreAhead(s.sent[1..], s.uploaded, t, server.runs[t].completed);
    }
  }

  predicate About(m: Msg, t: TestId) {
    !m.Waiting? && m.test == t
  }

  lemma UploadInStep(s: State, alive: bool, t: TestId)
    requires Good(s) && s.sent != [] && t in s.server.runs && s.sent[0].ArtifactUploaded? && s.sent[0].test == t
    ensures t in Deliver(s, alive).server.runs && InStep(Deliver(s, alive), t)
  {
    var m := s.sent[0];
    assert InStep(s, t);
    if s.server.currentTest == Some(t) {
      UploadAdvances(s, m);
    }
    AdvancedInStep(s, Deliver(s, alive).server, t);
  }

  lemma ReportInStep(s: State, alive: bool, t: TestId)
    requires Good(s) && s.sent != [] && t in s.server.runs && s.sent[0].WorkingOnTest? && s.sent[0].test == t
    ensures t in Deliver(s, alive).server.runs && InStep(Deliver(s, alive), t)
  {
    var m := s.sent[0];
    assert InStep(s, t);
    if AllSoFar(s.server.runs[t], m.artifacts).Some? {
      ReportAdvances(s, m);
    }
    AdvancedInStep(s, Deliver(s, alive).server, t);
  }

  lemma ResultsInStep(s: State, alive: bool, t: TestId)
    requires Good(s) && s.sent != [] && t in s.server.runs && s.sent[0].TestFinished? && s.sent[0].test == t
    ensures t in Deliver(s, alive).server.runs && InStep(Deliver(s, alive), t)
  {
    var m := s.sent[0];
    assert InStep(s, t);
    if AllSoFar(s.server.runs[t], m.artifacts).Some? {
      ReportAdvances(s, m);
    }
    AdvancedInStep(s, Deliver(s, alive).server, t);
  }

  lemma OtherInStep(s: State, alive: bool, t: TestId)
    requires Good(s) && s.sent != [] && t in s.server.runs && (!About(s.sent[0], t) || s.sent[0].TestHeartbeat?)
    ensures t in Deliver(s, alive).server.runs && InStep(Deliver(s, alive), t)
  {
    assert InStep(s, t);
    assert Coming(s.sent, t) == Coming(s.sent[1..], t);
    OtherLeaves(s, alive, t);
    AdvancedInStep(s, Deliver(s, alive).server, t);
  }

  lemma OtherLeaves(s: State, alive: bool, t: TestId)
    requires s.sent != [] && t in s.server.runs && (!About(s.sent[0], t) || s.sent[0].TestHeartbeat?)
    ensures var server := Deliver(s, alive).server;
      && t in server.runs && server.runs[t] == s.server.runs[t]
      && (server.currentTest == Some(t) ==> s.server.currentTest == Some(t))
  {
  }

  lemma DeliverGood(s: State, alive: bool)
    requires Good(s) && s.sent != []
    ensures Good(Deliver(s, alive))
  {
    var u := Deliver(s, alive);
    forall t | t in u.server.runs ensures InStep(u, t) {
      var m := s.sent[0];
      if m.ArtifactUploaded? && m.test == t {
        UploadInStep(s, alive, t);
      } else if m.WorkingOnTest? && m.test == t {
        ReportInStep(s, alive, t);
      } else if m.TestFinished? && m.test == t {
        ResultsInStep(s, alive, t);
      } else {
        OtherInStep(s, alive, t);
      }
    }
  }

  lemma DisconnectGood(s: State, lost: nat)
    requires Good(s) && lost <= |s.sent|
    ensures Good(Disconnect(s, lost))
  {
    var u := Disconnect(s, lost);
    CompleteSuffix(s.sent, s.uploaded, lost);
    forall t | t in u.server.runs ensures InStep(u, t) {
      assert InStep(s, t);
      BehindFewer(s.sent, t, s.server.runs[t].completed, lost);
    }
  }

  lemma AssignGood(s: State, id: TestId, declared: seq<Artifact>)
    requires Good(s) && id !in s.server.runs && id !in s.uploaded && s.server.currentTest.None?
    ensures Good(Assign(s, id, declared))
  {
    var u := Assign(s, id, declared);
    CompleteNewTest(s.sent, s.uploaded, id);
    forall t | t in u.server.runs ensures InStep(u, t) {
      if t != id { assert InStep(s, t); }
    }
  }

  lemma StartGood(s: State, id: TestId)
    requires Good(s) && id in s.server.runs && id !in s.uploaded
    ensures Good(Start(s, id))
  {
    var u := Start(s, id);
    CompleteNewTest(s.sent, s.uploaded, id);
    forall t | t in u.server.runs ensures InStep(u, t) {
      assert InStep(s, t);
    }
  }

  lemma UploadGood(s: State, a: Artifact)
    requires Good(s) && s.worker.test.Some?
    ensures Good(Upload(s, a))
  {
    var u, id := Upload(s, a), s.worker.test.value;
    var m := ArtifactUploaded(id, a);
    CompleteMore(s.sent, m, s.uploaded, u.uploaded);
    forall t | t in u.server.runs ensures InStep(u, t) {
      assert InStep(s, t);
      ComingMore(s.sent, m, t);
      BehindMore(s.sent, m, t, s.server.runs[t].completed);
    }
  }

  /** A message that says what the worker knows can be added to the queue. */
  lemma SayGood(s: State, m: Msg)
    requires Good(s) && !m.ArtifactUploaded?
    requires !m.Waiting? ==> s.worker.test == Some(m.test) && (Lists(m, m.test) ==> m.artifacts == s.worker.artifacts)
    ensures Good(s.(sent := s.sent + [m]))
  {
    var u := s.(sent := s.sent + [m]);
    CompleteMore(s.sent, m, s.uploaded, s.uploaded);
    forall t | t in u.server.runs ensures InStep(u, t) {
      assert InStep(s, t);
      ComingMore(s.sent, m, t);
      BehindMore(s.sent, m, t, s.server.runs[t].completed);
    }
  }

  lemma WorkerOnly(s: State, w: Worker)
    requires Good(s) && (w.test.Some? ==> w.test.value in s.uploaded && w.artifacts == s.uploaded[w.test.value])
    ensures Good(s.(worker := w))
  {
    forall t | t in s.server.runs ensures InStep(s.(worker := w), t) { assert InStep(s, t); }
  }

  lemma CancelRunGood(s: State, id: TestId)
    requires Good(s) && id in s.server.runs
    ensures Good(CancelRun(s, id))
  {
    forall t | t in s.server.runs ensures InStep(CancelRun(s, id), t) { assert InStep(s, t); }
  }

  lemma NextGood(s: State, t: State)
    requires Good(s) && Next(s, t)
    ensures Good(t)
  {
    if alive :| s.sent != [] && t == Deliver(s, alive) {
      DeliverGood(s, alive);
    } else if lost: nat :| lost <= |s.sent| && t == Disconnect(s, lost) {
      DisconnectGood(s, lost);
    } else if id, declared :| s.server.currentTest.None? && id !in s.server.runs && id !in s.uploaded && t == Assign(s, id, declared) {
      AssignGood(s, id, declared);
    } else if id :| id in s.server.runs && id !in s.uploaded && t == Start(s, id) {
      StartGood(s, id);
    } else if a :| s.worker.test.Some? && s.worker.test.value in s.uploaded && t == Upload(s, a) {
      UploadGood(s, a);
    } else if t == Report(s) {
      SayGood(s, StateMsg(s.worker));
    } else if success :| s.worker.test.Some? && t == Publish(s, success) {
      SayGood(s, TestFinished(s.worker.test.value, s.worker.artifacts, success, false));
      WorkerOnly(s.(sent := t.sent), t.worker);
    } else if s.worker.test.Some? && t == Beat(s) {
      SayGood(s, TestHeartbeat(s.worker.test.value));
    } else if t == Forget(s) {
      WorkerOnly(s, t.worker);
    } else {
      var id :| id in s.server.runs && t == CancelRun(s, id);
      CancelRunGood(s, id);
    }
  }

  const Initial := State(Server(map[], None), Worker(None, [], None), [], map[])

  ghost predicate History(run: seq<State>) {
    run != [] && run[0] == Initial && forall i: nat {:trigger Steps(run, i)} | i + 1 < |run| :: Steps(run, i)
  }

  ghost predicate Steps(run: seq<State>, i: nat)
    requires i + 1 < |run|
  {
    Next(run[i], run[i + 1])
  }

  /** Whatever is lost whenever the connection breaks, the server stays in step. */
  lemma {:induction false} RunGood(run: seq<State>, k: nat)
    requires History(run) && k < |run|
    ensures Good(run[k])
  {
    if k > 0 {
      RunGood(run, k - 1);
      assert Steps(run, k - 1);
      NextGood(run[k - 1], run[k]);
    }
  }

  /** What the server knows to be complete only grows. */
  lemma NextGrows(s: State, u: State, t: TestId)
    requires Good(s) && Next(s, u) && t in s.server.runs
    ensures t in u.server.runs && s.server.runs[t].completed <= u.server.runs[t].completed
    ensures u.server.runs[t].declared == s.server.runs[t].declared
  {
    if alive :| s.sent != [] && u == Deliver(s, alive) {
      DeliverGrows(s, alive, t);
    } else {
      assert t in u.server.runs && u.server.runs[t].(canceled := s.server.runs[t].canceled) == s.server.runs[t];
    }
  }

  lemma DeliverGrows(s: State, alive: bool, t: TestId)
    requires s.sent != [] && t in s.server.runs
    ensures var u := Deliver(s, alive);
      && t in u.server.runs && s.server.runs[t].completed <= u.server.runs[t].completed
      && u.server.runs[t].declared == s.server.runs[t].declared
  {
  }

  lemma {:induction false} RunGrows(run: seq<State>, i: nat, j: nat, t: TestId)
    requires History(run) && i <= j < |run| && t in run[i].server.runs
    ensures t in run[j].server.runs && run[i].server.runs[t].completed <= run[j].server.runs[t].completed
    decreases j
  {
    if i < j {
      RunGrows(run, i, j - 1, t);
      RunGood(run, j - 1);
      assert Steps(run, j - 1);
      NextGrows(run[j - 1], run[j], t);
    }
  }

  /** In a session, once nothing is under way, the server knows of all that was uploaded. */
  lemma CaughtUp(run: seq<State>, k: nat, t: TestId)
    requires History(run) && k < |run| && run[k].server.currentTest == Some(t) && Coming(run[k].sent, t) == [] && t in run[k].uploaded
    ensures t in run[k].server.runs && run[k].server.runs[t].completed == run[k].uploaded[t]
  {
    RunGood(run, k);
    assert InStep(run[k], t);
  }

  /** A report is refused exactly when the worker had uploaded something that was not declared. */
  lemma RefusedExactly(run: seq<State>, k: nat, alive: bool)
    requires History(run) && k < |run| && run[k].sent != []
    ensures var s, m := run[k].server, run[k].sent[0];
      && (m.WorkingOnTest? ==> (Handle(s, m, alive).None? <==> m.test in s.runs && !(m.artifacts <= s.runs[m.test].declared)))
      && (m.ArtifactUploaded? && s.currentTest == Some(m.test) && m.test in s.runs ==>
           (Handle(s, m, alive).None? <==> !(s.runs[m.test].completed + [m.artifact] <= s.runs[m.test].declared)))
      && (m.TestFinished? ==>
           (Handle(s, m, alive).None? <==>
              m.test in s.runs && (!(m.artifacts <= s.runs[m.test].declared) ||
                (m.success && !s.runs[m.test].canceled && m.artifacts != s.runs[m.test].declared))))
      && ((m.WorkingOnTest? || m.TestFinished?) && m.test in s.runs && Handle(s, m, alive).Some? ==>
           Handle(s, m, alive).value.runs[m.test].completed == m.artifacts)
  {
    RunGood(run, k);
    var s, m := run[k].server, run[k].sent[0];
    if (m.WorkingOnTest? || m.TestFinished?) && m.test in s.runs {
      assert InStep(run[k], m.test) && Lists(m, m.test) && m in run[k].sent;
    }
    if m.ArtifactUploaded? && m.test in s.runs {
      assert InStep(run[k], m.test);
    }
  }

  /** A worker that uploads what was declared, in order, is never refused before it publishes. */
  lemma DeclaredIsAccepted(run: seq<State>, k: nat, alive: bool, t: TestId)
    requires History(run) && k < |run| && run[k].sent != [] && About(run[k].sent[0], t) && !run[k].sent[0].TestFinished?
    requires t in run[k].server.runs && AllOf(run[k], t) <= run[k].server.runs[t].declared
    ensures Handle(run[k].server, run[k].sent[0], alive).Some?
  {
    RunGood(run, k);
    RefusedExactly(run, k, alive);
    var s, m := run[k], run[k].sent[0];
    assert InStep(s, t) && Complete(m, s.sent[1..], s.uploaded);
    if m.ArtifactUploaded? && s.server.currentTest == Some(t) {
      UploadAdvances(s, m);
    }
  }

  /** Success is recorded only when all that was declared is known to be complete. */
  lemma SuccessIsComplete(run: seq<State>, k: nat, t: TestId)
    requires History(run) && k < |run| && t in run[k].server.runs && run[k].server.runs[t].succeeded
    ensures run[k].server.runs[t].completed == run[k].server.runs[t].declared <= AllOf(run[k], t)
  {
    RunGood(run, k);
    assert InStep(run[k], t);
  }

  /*** What a message leaves behind ***/

  /** Results that are accepted are recorded, unless the run was canceled; nothing else about the run or any other changes but the list. */
  lemma ResultRecorded(s: Server, m: Msg, alive: bool)
    requires m.TestFinished? && m.test in s.runs && Handle(s, m, alive).Some?
    ensures var runs := Handle(s, m, alive).value.runs; var run := s.runs[m.test];
      && m.test in runs
      && runs[m.test].succeeded == (if run.canceled then run.succeeded else m.success)
      && runs[m.test].completed == m.artifacts && runs[m.test].declared == run.declared && runs[m.test].canceled == run.canceled
      && forall t | t != m.test :: (t in runs <==> t in s.runs) && (t in runs ==> runs[t] == s.runs[t])
  {
  }

  /** Whose session it is: a wanted report opens it; results nobody asked for, an unwanted heartbeat and an exception close it. */
  lemma SessionAfter(s: Server, m: Msg, alive: bool)
    ensures Handle(s, m, alive).None? ==> AfterException(s, m).currentTest.None?
    ensures Handle(s, m, alive).Some? ==>
              Handle(s, m, alive).value.currentTest ==
              if m.WorkingOnTest? && m.test in s.runs && alive then Some(m.test)
              else if m.TestFinished? && !m.isState then None
              else if m.TestHeartbeat? && s.currentTest == Some(m.test) && !alive then None
              else s.currentTest
  {
  }

  /** An exception ends the session. Of results that are refused the list of artifacts is kept if it fits, as noting it was a step of its own. */
  lemma ExceptionLeaves(s: Server, m: Msg, alive: bool)
    requires Handle(s, m, alive).None?
    ensures var t := AfterException(s, m);
      && t.currentTest.None? && t.runs.Keys == s.runs.Keys
      && forall r | r in s.runs ::
           && (m.TestFinished? && r == m.test && s.runs[r].completed <= m.artifacts <= s.runs[r].declared ==>
                 t.runs[r] == s.runs[r].(completed := m.artifacts))
           && (!m.TestFinished? || r != m.test || !(s.runs[r].completed <= m.artifacts <= s.runs[r].declared) ==> t.runs[r] == s.runs[r])
  {
  }

  /** Results for a run that was canceled are heard and not recorded. */
  lemma CanceledIgnored(s: State, m: Msg, alive: bool)
    requires m.TestFinished? && m.test in s.server.runs && Handle(CancelRun(s, m.test).server, m, alive).Some?
    ensures var run := Handle(CancelRun(s, m.test).server, m, alive).value.runs[m.test];
      run.canceled && run.succeeded == s.server.runs[m.test].succeeded && run.completed == m.artifacts
  {
  }

  /** A heartbeat of a test that is no longer wanted ends its session; one that is wanted changes nothing. */
  lemma BeatHeard(s: State, alive: bool)
    requires s.worker.test.Some? && s.sent == []
    ensures var u := Deliver(Beat(s), alive);
      && u.server.runs == s.server.runs && u.worker == s.worker && u.sent == []
      && u.server.currentTest == if s.server.currentTest == s.worker.test && !alive then None else s.server.currentTest
  {
  }

  /** Whatever was lost: a worker that is asked again and reports brings the server up to date, with its results if it has any. */
  lemma ReportRecovers(s: State)
    requires Good(s) && s.worker.test.Some? && s.worker.artifacts <= s.server.runs[s.worker.test.value].declared
    requires s.worker.results == Some(true) ==> s.worker.artifacts == s.server.runs[s.worker.test.value].declared
    ensures var t := s.worker.test.value; var u := Deliver(Report(Disconnect(s, |s.sent|)), true);
      && u.sent == [] && u.worker == s.worker && t in u.server.runs
      && u.server.runs[t].completed == s.worker.artifacts
      && (s.worker.results.None? ==> u.server.currentTest == Some(t))
      && (s.worker.results.Some? && !s.server.runs[t].canceled ==> u.server.runs[t].succeeded == s.worker.results.value)
  {
    assert InStep(s, s.worker.test.value);
  }

  /** Results that are reported because they were asked for leave the session open. */
  lemma AskedResultsKeepSession(s: State)
    requires Good(s) && s.sent == [] && s.worker.test.Some? && s.worker.results.Some? && s.server.currentTest == s.worker.test
    requires s.worker.artifacts == s.server.runs[s.worker.test.value].declared
    ensures Deliver(Report(s), true).server.currentTest == s.worker.test
  {
    assert InStep(s, s.worker.test.value);
  }

  /** A worker without a test says so, and nothing comes of it. */
  lemma ForgottenWaits(s: State)
    requires s.sent == []
    ensures var u := Deliver(Report(Forget(s)), true); u.server == s.server && u.sent == [] && u.worker.test.None?
  {
  }

  /** Uploads of which each arrives before the next. */
  function UploadAll(s: State, all: seq<Artifact>): State
    requires s.worker.test.Some? && s.worker.test.value in s.uploaded && s.sent == []
    decreases all
  {
    if all == [] then s else UploadAll(Deliver(Upload(s, all[0]), true), all[1..])
  }

  /** On an open session of this test, whose worker has uploaded these so far. */
  predicate Under(s: State, t: TestId, declared: seq<Artifact>, soFar: seq<Artifact>) {
    && s.sent == [] && s.worker == Worker(Some(t), soFar, None) && t in s.uploaded
    && t in s.server.runs && s.server.runs[t] == Run(declared, soFar, false, false) && s.server.currentTest == Some(t)
  }

  lemma {:induction false} UploadsArrive(s: State, t: TestId, declared: seq<Artifact>, k: nat)
    requires k <= |declared| && Under(s, t, declared, declared[..k])
    ensures Under(UploadAll(s, declared[k..]), t, declared, declared)
    decreases |declared| - k
  {
    if k == |declared| {
      assert declared[..k] == declared;
    } else {
      var next := Deliver(Upload(s, declared[k]), true);
      assert declared[..k] + [declared[k]] == declared[..k + 1];
      assert declared[k..][1..] == declared[k + 1..];
      UploadsArrive(next, t, declared, k + 1);
    }
  }

  /** A test that is assigned and started, uploads all it declares and publishes its results is recorded with them, and the session is over. */
  lemma TestLife(s: State, t: TestId, declared: seq<Artifact>, success: bool)
    requires s.sent == [] && t !in s.server.runs
    ensures var began := Start(Assign(s, t, declared), t);
      began.sent == [] && began.worker.test == Some(t) && t in began.uploaded &&
      var done := UploadAll(began, declared);
      done.worker.test.Some? && var u := Deliver(Publish(done, success), true);
      && t in u.server.runs && u.server.runs[t] == Run(declared, declared, false, success)
      && u.server.currentTest.None? && u.sent == [] && u.worker == Worker(Some(t), declared, Some(success))
  {
    var began := Start(Assign(s, t, declared), t);
    assert declared[..0] == [] && declared[0..] == declared;
    UploadsArrive(began, t, declared, 0);
  }

  /** In this step results of the test came in and were taken as they are. */
  ghost predicate ResultAt(run: seq<State>, i: nat, t: TestId, success: bool)
    requires i + 1 < |run|
  {
    var s := run[i];
    && s.sent != [] && s.sent[0].TestFinished? && s.sent[0].test == t && s.sent[0].success == success
    && t in s.server.runs && !s.server.runs[t].canceled
    && exists alive :: Handle(s.server, s.sent[0], alive).Some? && run[i + 1] == Deliver(s, alive)
  }

  /** The last results of the test that were taken before this state say that it succeeded. */
  ghost predicate LastSucceeded(run: seq<State>, k: nat, t: TestId)
    requires k < |run|
  {
    exists i: nat :: i < k && ResultAt(run, i, t, true) && NoneSince(run, i, k, t)
  }

  ghost predicate NoneSince(run: seq<State>, i: nat, k: nat, t: TestId)
    requires k < |run|
  {
    forall j: nat | i < j < k :: !ResultAt(run, j, t, false)
  }

  /** A step that takes no results of the test leaves its success alone. */
  lemma SuccessStays(run: seq<State>, i: nat, t: TestId)
    requires i + 1 < |run| && Next(run[i], run[i + 1]) && t in run[i + 1].server.runs
    ensures t !in run[i].server.runs ==> !run[i + 1].server.runs[t].succeeded
    ensures t in run[i].server.runs && !ResultAt(run, i, t, true) && !ResultAt(run, i, t, false) ==>
              run[i + 1].server.runs[t].succeeded == run[i].server.runs[t].succeeded
    ensures forall success | ResultAt(run, i, t, success) :: run[i + 1].server.runs[t].succeeded == success
  {
    var s := run[i];
    if s.sent != [] && s.sent[0].TestFinished? && s.sent[0].test == t {
      assert forall alive | run[i + 1] == Deliver(s, alive) && Handle(s.server, s.sent[0], alive).Some? && t in s.server.runs && !s.server.runs[t].canceled ::
        ResultAt(run, i, t, s.sent[0].success);
    }
  }

  /** In every run a test has succeeded exactly when the last results that were taken for it say so. */
  lemma {:induction false} SucceededExactly(run: seq<State>, k: nat, t: TestId)
    requires History(run) && k < |run| && t in run[k].server.runs
    ensures run[k].server.runs[t].succeeded <==> LastSucceeded(run, k, t)
  {
    if k > 0 {
      if t in run[k - 1].server.runs {
        SucceededExactly(run, k - 1, t);
        StillSucceeded(run, k - 1, t);
      } else {
        NotYet(run, k - 1, t);
      }
    }
  }

  lemma StillSucceeded(run: seq<State>, k: nat, t: TestId)
    requires History(run) && k + 1 < |run| && t in run[k].server.runs && t in run[k + 1].server.runs
    requires run[k].server.runs[t].succeeded <==> LastSucceeded(run, k, t)
    ensures run[k + 1].server.runs[t].succeeded <==> LastSucceeded(run, k + 1, t)
  {
    assert Steps(run, k);
    SuccessStays(run, k, t);
    LastNext(run, k, t);
    NotBoth(run, k, t);
  }

  lemma NotYet(run: seq<State>, k: nat, t: TestId)
    requires History(run) && k + 1 < |run| && t !in run[k].server.runs && t in run[k + 1].server.runs
    ensures !run[k + 1].server.runs[t].succeeded && !LastSucceeded(run, k + 1, t)
  {
    assert Steps(run, k);
    SuccessStays(run, k, t);
    LastNext(run, k, t);
    NotBoth(run, k, t);
    NeverBefore(run, k, t);
  }

  lemma NotBoth(run: seq<State>, k: nat, t: TestId)
    requires k + 1 < |run|
    ensures !(ResultAt(run, k, t, true) && ResultAt(run, k, t, false))
    ensures ResultAt(run, k, t, true) || ResultAt(run, k, t, false) ==> t in run[k].server.runs
  {
  }

  lemma LastNext(run: seq<State>, k: nat, t: TestId)
    requires k + 1 < |run|
    ensures LastSucceeded(run, k + 1, t) <==> ResultAt(run, k, t, true) || (LastSucceeded(run, k, t) && !ResultAt(run, k, t, false))
  {
    if ResultAt(run, k, t, true) {
      assert NoneSince(run, k, k + 1, t);
    }
    if LastSucceeded(run, k, t) && !ResultAt(run, k, t, false) {
      var i: nat :| i < k && ResultAt(run, i, t, true) && NoneSince(run, i, k, t);
      assert NoneSince(run, i, k + 1, t);
    }
    if LastSucceeded(run, k + 1, t) && !ResultAt(run, k, t, true) {
      var i: nat :| i < k + 1 && ResultAt(run, i, t, true) && NoneSince(run, i, k + 1, t);
      assert i < k && NoneSince(run, i, k, t);
    }
  }

  /** No results are taken of a run that does not exist yet. */
  lemma NeverBefore(run: seq<State>, k: nat, t: TestId)
    requires History(run) && k < |run| && t !in run[k].server.runs
    ensures !LastSucceeded(run, k, t)
  {
    forall i: nat | i < k ensures !ResultAt(run, i, t, true) {
      if t in run[i].server.runs { RunGrows(run, i, k, t); }
    }
  }

  /*** The two ends ***/

  class Session {
    var runs: map<TestId, Run>
    var currentTestId: Option<TestId>

    function Now(): Server
      reads this
    {
      Server(runs, currentTestId)
    }

    /** Notes one more artifact, or all so far. */
    method RecordArtifacts(t: TestId, artifacts: seq<Artifact>, isCumulative: bool) returns (ok: bool)
      requires !isCumulative ==> |artifacts| == 1
      modifies this`runs
      ensures t !in old(runs) ==> ok && runs == old(runs)
      ensures t in old(runs) ==>
        var run := if isCumulative then AllSoFar(old(runs)[t], artifacts) else OneMore(old(runs)[t], artifacts[0]);
        ok == run.Some? && runs == if ok then old(runs)[t := run.value] else old(runs)
    {
      if t !in runs {
        return true;
      }
      var run := runs[t];
      if !isCumulative {
        var ix := |run.completed|;
        if ix >= |run.declared| || artifacts[0] != run.declared[ix] {
          return false;
        }
        runs := runs[t := run.(completed := run.completed + artifacts)];
        assert artifacts == [artifacts[0]];
      } else {
        if |run.completed| > |artifacts| || artifacts[..|run.completed|] != run.completed {
          return false;
        }
        if |artifacts| > |run.declared| || artifacts != run.declared[..|artifacts|] {
          return false;
        }
        runs := runs[t := run.(completed := artifacts)];
      }
      ok := true;
    }

    method ProcessMsg(m: Msg, alive: bool) returns (ok: bool)
      modifies this
      ensures ok == Handle(old(Now()), m, alive).Some?
      ensures Now() == if ok then Handle(old(Now()), m, alive).value else AfterException(old(Now()), m)
    {
      ok := true;
      match m {
      case ArtifactUploaded(t, a) =>
        if currentTestId == Some(t) {
          ok := RecordArtifacts(t, [a], false);
        }
      case WorkingOnTest(t, artifacts) =>
        ok := RecordArtifacts(t, artifacts, true);
        if ok && t in runs && alive {
          currentTestId := Some(t);
        }
      case TestFinished(t, artifacts, success, isState) =>
        ok := RecordArtifacts(t, artifacts, true);
        if ok && t in runs && !runs[t].canceled {
          if success && runs[t].completed != runs[t].declared {
            ok := false;
          } else {
            runs := runs[t := runs[t].(succeeded := success)];
          }
        }
        if ok && !isState {
          currentTestId := None;
        }
      case TestHeartbeat(t) =>
        if currentTestId == Some(t) && !alive {
          currentTestId := None;
        }
      case Waiting =>
      }
      if !ok {
        currentTestId := None;
      }
    }
  }

  class Client {
    var curTestId: Option<TestId>
    var curArtifacts: seq<Artifact>
    var curTestResults: Option<bool>
    var queue: seq<Msg>

    function Now(): Worker
      reads this
    {
      Worker(curTestId, curArtifacts, curTestResults)
    }

    /** Makes the upload step of the protocol: whatever the server knows and whatever is under way, all stays in step. */
    method RecordArtifactUploaded(a: Artifact)
      requires curTestId.Some?
      modifies this`curArtifacts, this`queue
      ensures curArtifacts == old(curArtifacts) + [a] && queue == old(queue) + [ArtifactUploaded(curTestId.value, a)]
      ensures forall s: State | s.worker == old(Now()) && s.sent == old(queue) && Good(s) ::
                var t := Upload(s, a); Next(s, t) && Good(t) && t.worker == Now() && t.sent == queue
    {
      curArtifacts := curArtifacts + [a];
      queue := queue + [ArtifactUploaded(curTestId.value, a)];
      forall s: State | s.worker == old(Now()) && s.sent == old(queue) && Good(s) ensures Next(s, Upload(s, a)) && Good(Upload(s, a)) {
        UploadGood(s, a);
      }
    }

    /** Answers a server that asks which test this is on. */
    method IdentifyCurrentState()
      modifies this`queue
      ensures queue == old(queue) + [StateMsg(Now())] && Now() == old(Now())
      ensures forall s: State | s.worker == old(Now()) && s.sent == old(queue) && Good(s) ::
                var t := Report(s); Next(s, t) && Good(t) && t.worker == Now() && t.sent == queue
    {
      ghost var was, sent := Now(), queue;
      if curTestId.Some? && curTestResults.Some? {
        queue := queue + [TestFinished(curTestId.value, curArtifacts, curTestResults.value, true)];
      } else if curTestId.Some? {
        queue := queue + [WorkingOnTest(curTestId.value, curArtifacts)];
      } else {
        queue := queue + [Waiting];
      }
      forall s: State | s.worker == was && s.sent == sent && Good(s) ensures Next(s, Report(s)) && Good(Report(s)) {
        NextGood(s, Report(s));
      }
    }

    /** Makes the publishing step of the protocol. */
    method PublishTestResult(success: bool)
      requires curTestId.Some?
      modifies this`curTestResults, this`queue
      ensures curTestResults == Some(success) && queue == old(queue) + [TestFinished(curTestId.value, curArtifacts, success, false)]
      ensures forall s: State | s.worker == old(Now()) && s.sent == old(queue) && Good(s) ::
                var t := Publish(s, success); Next(s, t) && Good(t) && t.worker == Now() && t.sent == queue
    {
      curTestResults := Some(success);
      queue := queue + [TestFinished(curTestId.value, curArtifacts, success, false)];
      forall s: State | s.worker == old(Now()) && s.sent == old(queue) && Good(s) ensures Next(s, Publish(s, success)) && Good(Publish(s, success)) {
        NextGood(s, Publish(s, success));
      }
    }
  }
}
