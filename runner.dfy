// The scenario runner (sanity/runner.py): per server, set up the declared
// fixtures, then for every scenario run setUp, the fixtures' setUp and
// enable, the check, tearDown and the fixtures' disable, recording results
// in the controller's store.
module ScenarioRunner {
  import opened Wrappers
  import opened Results
  import opened Scenarios
  import opened Fixtures
  import opened FloatingIPFixture
  import opened ResultStore

  /** A scenario as the runner sees it: its name and the fixtures its
      check declares. */
  datatype Test = Test(name: string, fixtures: seq<FixtureKind>)

  /** getFixtures(test.test_server) for the five scenarios: each defines
      _test_server, and only the float check's is decorated (with the
      floating-IP fixture). */
  function DeclaredFixtures(k: ScenarioKind): (r: seq<FixtureKind>)
    ensures r == (if k == FloatCheck then [FloatingIP] else [])
  {
    GetFixtures(None, Some(if k == FloatCheck then Some([FloatingIP]) else None))
  }

  function TestOf(k: ScenarioKind): Test { Test(Name(k), DeclaredFixtures(k)) }

  /** The runner's fixture instances, one per fixture class, by state. */
  type FixtureMap = map<FixtureKind, FipState>

  /** The state of a fixture instance, created on first use. */
  function Instance(fx: FixtureMap, k: FixtureKind): FipState
  {
    if k in fx then fx[k] else InitialState
  }

  /** What the cloud answers during one scenario on one server: the
      scenario's setUp and tearDown hooks, the setUp and enable calls of
      the j-th declared fixture, the check itself, the j-th disable call,
      and the elapsed times. */
  datatype FixtureCall = FixtureCall(setUp: SetUpEnv, enable: EnableEnv)
  datatype TestAnswers = TestAnswers(
    setUp: Hook, setUpTime: nat,
    fixtureCalls: nat -> FixtureCall,
    body: Outcome<Result>, bodyTime: nat,
    tearDown: Hook, tearDownTime: nat,
    disables: nat -> DisableEnv)

  /** What the cloud answers while one server is run: prelude(i)(j)
      answers setUpFixtures' setUp of the j-th fixture of the i-th test,
      tests(i) the i-th scenario. */
  datatype ServerAnswers = ServerAnswers(prelude: nat -> nat -> SetUpEnv, tests: nat -> TestAnswers)

  /** The runner state after a step, and whether an exception escaped. */
  datatype Run = Run(fx: FixtureMap, store: Store, raised: bool)

  /** The host a server's results are recorded under: its compute host
      when that is set, else its host_id metadata; reading a missing
      attribute or key raises (None). */
  function HostKey(s: Server): (h: Option<string>)
    ensures h.Some? && s.hostAttr.Some? && s.hostAttr.value != "" ==> h.value == s.hostAttr.value
    ensures h.None? <==> s.hostAttr.None? || (s.hostAttr == Some("") && "host_id" !in s.metadata)
  {
    if s.hostAttr.None? then None
    else if s.hostAttr.value != "" then s.hostAttr
    else if "host_id" in s.metadata then Some(s.metadata["host_id"])
    else None
  }

  /** setUpFixtures() from the j-th fixture of the i-th test on: each
      declared fixture is created when first met and set up; the first
      failing setUp ends the walk and is returned. */
  function SetUpFixturesFrom(tests: seq<Test>, fx: FixtureMap, env: nat -> nat -> SetUpEnv, i: nat, j: nat)
    : (FixtureMap, Option<Result>)
    decreases |tests| - i, if i < |tests| then |tests[i].fixtures| - j else 0
  {
    if i >= |tests| then (fx, None)
    else if j >= |tests[i].fixtures| then SetUpFixturesFrom(tests, fx, env, i + 1, 0)
    else
      var k := tests[i].fixtures[j];
      var (st, r) := SetUpSpec(Instance(fx, k), env(i)(j));
      if IsFailure(r) then (fx[k := st], Some(r))
      else SetUpFixturesFrom(tests, fx[k := st], env, i, j + 1)
  }

  /** _run_test() from the j-th declared fixture on: each fixture is
      created if needed, set up and enabled; the first failure is recorded
      for the scenario and ends it, and otherwise the check's own result is
      recorded. */
  function RunTestFrom(t: Test, fx: FixtureMap, store: Store, host: string, server: Server,
                       a: TestAnswers, j: nat): (Run)
    decreases |t.fixtures| - j
  {
    if j >= |t.fixtures| then Run(fx, Added(store, t.name, host, server.id, TestStep(a.body, a.bodyTime)), false)
    else
      var k := t.fixtures[j];
      var (st1, r1) := SetUpSpec(Instance(fx, k), a.fixtureCalls(j).setUp);
      if IsFailure(r1) then Run(fx[k := st1], Added(store, t.name, host, server.id, r1), false)
      else
        var (st2, r2) := EnableSpec(st1, server, a.fixtureCalls(j).enable);
        if IsFailure(r2) then Run(fx[k := st2], Added(store, t.name, host, server.id, r2), false)
        else RunTestFrom(t, fx[k := st2], store, host, server, a, j + 1)
  }

  /** The disables after a successful tearDown, from the j-th declared
      fixture on, and whether they raised: a fixture never created raises
      KeyError, and the fixtures disabled before it stay disabled. */
  function DisableFrom(t: Test, fx: FixtureMap, server: Server, a: TestAnswers, j: nat): (FixtureMap, bool)
    decreases |t.fixtures| - j
  {
    if j >= |t.fixtures| then (fx, false)
    else
      var k := t.fixtures[j];
      if k !in fx then (fx, true)
      else DisableFrom(t, fx[k := DisableSpec(fx[k], server, a.disables(j)).0], server, a, j + 1)
  }

  /** One scenario on one server (the body of run_server's loop). */
  function RunOne(t: Test, fx: FixtureMap, store: Store, host: string, server: Server, a: TestAnswers): Run
  {
    var r := ScenarioStep(a.setUp, a.setUpTime);
    if IsFailure(r) then Run(fx, Added(store, t.name, host, server.id, r), false)
    else
      var run := RunTestFrom(t, fx, store, host, server, a, 0);
      var td := ScenarioStep(a.tearDown, a.tearDownTime);
      if IsFailure(td) then Run(run.fx, Added(run.store, t.name, host, server.id, td), false)
      else
        var (fx1, raised) := DisableFrom(t, run.fx, server, a, 0);
        Run(fx1, run.store, raised)
  }

  /** run_server's loop from the i-th scenario on. */
  function RunTestsFrom(tests: seq<Test>, fx: FixtureMap, store: Store, host: string, server: Server,
                        answers: nat -> TestAnswers, i: nat): Run
    decreases |tests| - i
  {
    if i >= |tests| then Run(fx, store, false)
    else
      var run := RunOne(tests[i], fx, store, host, server, answers(i));
      if run.raised then run else RunTestsFrom(tests, run.fx, run.store, host, server, answers, i + 1)
  }

  /** run_server(sanity, server). */
  function RunServerSpec(tests: seq<Test>, fx: FixtureMap, store: Store, server: Server, a: ServerAnswers): Run
  {
    var host := HostKey(server);
    if host.None? then Run(fx, store, true)
    else
      var (fx0, _) := SetUpFixturesFrom(tests, fx, a.prelude, 0, 0);
      RunTestsFrom(tests, fx0, store, host.value, server, a.tests, 0)
  }

  /** tearDown() of every fixture instance; each is independent of the
      others, so the order does not matter. */
  function TearDownAll(fx: FixtureMap, env: FixtureKind -> TearDownEnv): FixtureMap
  {
    map k | k in fx :: TearDownSpec(fx[k], env(k)).0
  }

  /** run()'s loop from the i-th server on: a server that raises ends the
      run. */
  function RunServersFrom(tests: seq<Test>, fx: FixtureMap, store: Store, servers: seq<Server>,
                          answers: nat -> ServerAnswers, i: nat): Run
    decreases |servers| - i
  {
    if i >= |servers| then Run(fx, store, false)
    else
      var run := RunServerSpec(tests, fx, store, servers[i], answers(i));
      if run.raised then run else RunServersFrom(tests, run.fx, run.store, servers, answers, i + 1)
  }

  class Runner {
    var tests: seq<Test>
    var fixtures: FixtureMap

    /** Runner(..., tests): one scenario instance per class given, and no
        fixtures yet. */
    constructor (kinds: seq<ScenarioKind>)
      ensures |tests| == |kinds| && forall i :: 0 <= i < |kinds| ==> tests[i] == TestOf(kinds[i])
      ensures fixtures == map[]
    {
      var ts: seq<Test> := [];
      var i := 0;
      while i < |kinds|
        invariant 0 <= i <= |kinds| && |ts| == i
        invariant forall m :: 0 <= m < i ==> ts[m] == TestOf(kinds[m])
      {
        ts := ts + [TestOf(kinds[i])];
        i := i + 1;
      }
      tests := ts;
      fixtures := map[];
    }

    /** The fixture of class k, created on first use, and its setUp(). */
    method SetUpFixture(k: FixtureKind, e: SetUpEnv) returns (r: Result)
      modifies this
      ensures (fixtures, r) == (var res := SetUpSpec(Instance(old(fixtures), k), e); (old(fixtures)[k := res.0], res.1))
      ensures tests == old(tests)
    {
      ghost var before := fixtures;
      if k !in fixtures {
        fixtures := fixtures[k := InitialState];
      }
      var res := SetUpSpec(fixtures[k], e);
      fixtures := fixtures[k := res.0];
      r := res.1;
      assert fixtures == before[k := res.0];
    }

    /** setUpFixtures() */
    method SetUpFixtures(env: nat -> nat -> SetUpEnv) returns (r: Option<Result>)
      modifies this
      ensures (fixtures, r) == SetUpFixturesFrom(tests, old(fixtures), env, 0, 0)
      ensures tests == old(tests)
    {
      var i := 0;
      while i < |tests|
        invariant 0 <= i <= |tests|
        invariant SetUpFixturesFrom(tests, old(fixtures), env, 0, 0) == SetUpFixturesFrom(tests, fixtures, env, i, 0)
        invariant tests == old(tests)
      {
        var fs := tests[i].fixtures;
        var j := 0;
        while j < |fs|
          invariant 0 <= j <= |fs|
          invariant SetUpFixturesFrom(tests, old(fixtures), env, 0, 0) == SetUpFixturesFrom(tests, fixtures, env, i, j)
          invariant tests == old(tests)
        {
          var res := SetUpFixture(fs[j], env(i)(j));
          if IsFailure(res) {
            return Some(res);
          }
          j := j + 1;
        }
        i := i + 1;
      }
      return None;
    }

    /** enableFixture(server) of an existing fixture. */
    method EnableFixture(k: FixtureKind, server: Server, e: EnableEnv) returns (r: Result)
      requires k in fixtures
      modifies this
      ensures (fixtures, r) == (var res := EnableSpec(old(fixtures)[k], server, e); (old(fixtures)[k := res.0], res.1))
      ensures tests == old(tests)
    {
      var res := EnableSpec(fixtures[k], server, e);
      fixtures := fixtures[k := res.0];
      r := res.1;
    }

    /** The j-th declared fixture's setUp and enable within _run_test; done
        when one of them failed and its failure was recorded. */
    method RunTestFixture(sanity: SanityController, t: Test, host: string, server: Server, a: TestAnswers, j: nat)
      returns (done: bool)
      requires j < |t.fixtures|
      modifies this, sanity
      ensures var run := RunTestFrom(t, old(fixtures), old(sanity.testResults), host, server, a, j);
        if done then run == Run(fixtures, sanity.testResults, false)
        else run == RunTestFrom(t, fixtures, sanity.testResults, host, server, a, j + 1)
      ensures tests == old(tests)
    {
      var k := t.fixtures[j];
      ghost var fx := fixtures;
      var r1 := SetUpFixture(k, a.fixtureCalls(j).setUp);
      if IsFailure(r1) {
        sanity.AddTestResult(t.name, host, server.id, r1);
        return true;
      }
      var r2 := EnableFixture(k, server, a.fixtureCalls(j).enable);
      if IsFailure(r2) {
        sanity.AddTestResult(t.name, host, server.id, r2);
        return true;
      }
      assert fixtures == fx[k := fixtures[k]];
      return false;
    }

    /** _run_test(sanity, test, server) */
    method RunTest(sanity: SanityController, t: Test, host: string, server: Server, a: TestAnswers)
      modifies this, sanity
      ensures Run(fixtures, sanity.testResults, false) == RunTestFrom(t, old(fixtures), old(sanity.testResults), host, server, a, 0)
      ensures tests == old(tests)
    {
      var j := 0;
      while j < |t.fixtures|
        invariant 0 <= j <= |t.fixtures|
        invariant RunTestFrom(t, old(fixtures), old(sanity.testResults), host, server, a, 0)
               == RunTestFrom(t, fixtures, sanity.testResults, host, server, a, j)
        invariant tests == old(tests)
      {
        var done := RunTestFixture(sanity, t, host, server, a, j);
        if done {
          return;
        }
        j := j + 1;
      }
      sanity.AddTestResult(t.name, host, server.id, TestStep(a.body, a.bodyTime));
    }

    /** The disables after a successful tearDown; raised when a declared
        fixture was never created. */
    method DisableFixtures(t: Test, server: Server, a: TestAnswers) returns (raised: bool)
      modifies this
      ensures (fixtures, raised) == DisableFrom(t, old(fixtures), server, a, 0)
      ensures tests == old(tests)
    {
      var j := 0;
      while j < |t.fixtures|
        invariant 0 <= j <= |t.fixtures|
        invariant DisableFrom(t, old(fixtures), server, a, 0) == DisableFrom(t, fixtures, server, a, j)
        invariant tests == old(tests)
      {
        var k := t.fixtures[j];
        if k !in fixtures {
          return true;
        }
        var d := DisableSpec(fixtures[k], server, a.disables(j));
        fixtures := fixtures[k := d.0];
        j := j + 1;
      }
      return false;
    }

    /** One pass of run_server's loop. */
    method RunOneTest(sanity: SanityController, t: Test, host: string, server: Server, a: TestAnswers)
      returns (raised: bool)
      modifies this, sanity
      ensures var run := RunOne(t, old(fixtures), old(sanity.testResults), host, server, a);
        raised == run.raised && sanity.testResults == run.store && fixtures == run.fx
      ensures tests == old(tests)
    {
      var r := ScenarioStep(a.setUp, a.setUpTime);
      if IsFailure(r) {
        sanity.AddTestResult(t.name, host, server.id, r);
        return false;
      }
      RunTest(sanity, t, host, server, a);
      var td := ScenarioStep(a.tearDown, a.tearDownTime);
      if IsFailure(td) {
        sanity.AddTestResult(t.name, host, server.id, td);
        return false;
      }
      raised := DisableFixtures(t, server, a);
    }

    /** run_server(sanity, server): raised when the host cannot be read or
        a disable raised; the run then stops where it was, and the fixtures
        stay as that scenario left them for the runner's next use. */
    method RunServer(sanity: SanityController, server: Server, a: ServerAnswers) returns (raised: bool)
      modifies this, sanity
      ensures var run := RunServerSpec(tests, old(fixtures), old(sanity.testResults), server, a);
        raised == run.raised && sanity.testResults == run.store && fixtures == run.fx
      ensures tests == old(tests)
    {
      var host := HostKey(server);
      if host.None? {
        return true;
      }
      var _ := SetUpFixtures(a.prelude);
      ghost var start := sanity.testResults;
      ghost var fx0 := fixtures;
      var i := 0;
      while i < |tests|
        invariant 0 <= i <= |tests|
        invariant RunTestsFrom(tests, fx0, start, host.value, server, a.tests, 0)
               == RunTestsFrom(tests, fixtures, sanity.testResults, host.value, server, a.tests, i)
        invariant tests == old(tests)
        invariant (fx0, start) == (SetUpFixturesFrom(tests, old(fixtures), a.prelude, 0, 0).0, old(sanity.testResults))
      {
        raised := RunOneTest(sanity, tests[i], host.value, server, a.tests(i));
        if raised {
          return;
        }
        i := i + 1;
      }
      return false;
    }

    /** tearDown() of every fixture, in the map's own order. */
    method TearDownFixtures(env: FixtureKind -> TearDownEnv)
      modifies this
      ensures fixtures == TearDownAll(old(fixtures), env)
      ensures tests == old(tests)
    {
      var fx := fixtures;
      var left := fx.Keys;
      while left != {}
        invariant left <= fixtures.Keys && fx.Keys == fixtures.Keys
        invariant forall k :: k in left ==> fx[k] == fixtures[k]
        invariant forall k :: k in fixtures && k !in left ==> fx[k] == TearDownSpec(fixtures[k], env(k)).0
        decreases |left|
      {
        var k :| k in left;
        var td := TearDownSpec(fx[k], env(k));
        fx := fx[k := td.0];
        left := left - {k};
      }
      assert forall k :: k in fx ==> fx[k] == TearDownAll(fixtures, env)[k];
      fixtures := fx;
    }

    /** run(sanity, servers): every server in turn, then every fixture torn
        down once and forgotten; the fixtures as torn down are returned. */
    method RunAll(sanity: SanityController, servers: seq<Server>, answers: nat -> ServerAnswers,
                  tearDowns: FixtureKind -> TearDownEnv)
      returns (raised: bool, finals: FixtureMap)
      modifies this, sanity
      ensures var run := RunServersFrom(tests, old(fixtures), old(sanity.testResults), servers, answers, 0);
        raised == run.raised && sanity.testResults == run.store &&
        (!raised ==> finals == TearDownAll(run.fx, tearDowns) && fixtures == map[]) &&
        (raised ==> finals == fixtures == run.fx)
      ensures tests == old(tests)
    {
      var i := 0;
      while i < |servers|
        invariant 0 <= i <= |servers|
        invariant tests == old(tests)
        invariant RunServersFrom(tests, old(fixtures), old(sanity.testResults), servers, answers, 0)
               == RunServersFrom(tests, fixtures, sanity.testResults, servers, answers, i)
      {
        raised := RunServer(sanity, servers[i], answers(i));
        if raised {
          return true, fixtures;
        }
        i := i + 1;
      }
      TearDownFixtures(tearDowns);
      finals := fixtures;
      fixtures := map[];
      raised := false;
    }

    /** cleanup(): tears every fixture down, logging failures and going
        on; the fixtures stay in the map. */
    method Cleanup(env: FixtureKind -> TearDownEnv)
      modifies this
      ensures fixtures == TearDownAll(old(fixtures), env)
    {
      TearDownFixtures(env);
    }
  }

  /** Where the walk of setUpFixtures() stands: position (i, j) comes no
      later than (i2, j2). */
  predicate NotAfter(i: nat, j: nat, i2: nat, j2: nat) { i < i2 || (i == i2 && j <= j2) }

  /** The j-th fixture declared by the i-th test is of class k. */
  predicate Declares(tests: seq<Test>, i: nat, j: nat, k: FixtureKind)
  {
    i < |tests| && j < |tests[i].fixtures| && tests[i].fixtures[j] == k
  }

  /** Every fixture class some test declares. */
  function AllDeclared(tests: seq<Test>): set<FixtureKind>
  {
    set t, k | t in tests && k in t.fixtures :: k
  }

  /** setUpFixtures() only creates the fixtures the tests declare, and a
      fixture that holds a floating IP keeps that same IP: no second IP is
      ever created for it. */
  lemma {:induction false} SetUpFixturesKeepsIps(tests: seq<Test>, fx: FixtureMap, env: nat -> nat -> SetUpEnv,
                                                 i: nat, j: nat)
    ensures var r := SetUpFixturesFrom(tests, fx, env, i, j);
      && fx.Keys <= r.0.Keys <= fx.Keys + AllDeclared(tests)
      && (forall k :: k in fx && fx[k].floatingIp.Some? ==> r.0[k].floatingIp == fx[k].floatingIp)
    decreases |tests| - i, if i < |tests| then |tests[i].fixtures| - j else 0
  {
    if i >= |tests| {
    } else if j >= |tests[i].fixtures| {
      SetUpFixturesKeepsIps(tests, fx, env, i + 1, 0);
    } else {
      var k0 := tests[i].fixtures[j];
      var res := SetUpSpec(Instance(fx, k0), env(i)(j));
      if Instance(fx, k0).floatingIp.Some? {
        SetUpCreatesAtMostOnce(Instance(fx, k0), env(i)(j), env(i)(j));
      }
      assert tests[i] in tests && k0 in tests[i].fixtures;
      if !IsFailure(res.1) {
        SetUpFixturesKeepsIps(tests, fx[k0 := res.0], env, i, j + 1);
      }
    }
  }

  /** A fixture whose stored result failed fails every later setUp. */
  lemma StoredFailureSticks(st: FipState, e: SetUpEnv)
    requires IsFailure(st.result)
    ensures IsFailure(SetUpSpec(st, e).1)
  {
  }

  /** Once the walk reaches a fixture whose stored result failed, it ends
      with a failure, at the latest there. There is one fixture class, so
      the first declared fixture the walk meets is that one. */
  lemma {:induction false} SetUpFixturesMeetsFailure(tests: seq<Test>, fx: FixtureMap, env: nat -> nat -> SetUpEnv,
                                                     i: nat, j: nat, i2: nat, j2: nat, k: FixtureKind)
    requires k in fx && IsFailure(fx[k].result)
    requires NotAfter(i, j, i2, j2) && Declares(tests, i2, j2, k)
    ensures var r := SetUpFixturesFrom(tests, fx, env, i, j).1; r.Some? && IsFailure(r.value)
    decreases |tests| - i, if i < |tests| then |tests[i].fixtures| - j else 0
  {
    if j >= |tests[i].fixtures| {
      SetUpFixturesMeetsFailure(tests, fx, env, i + 1, 0, i2, j2, k);
    } else {
      assert tests[i].fixtures[j] == FloatingIP == k;
      StoredFailureSticks(fx[k], env(i)(j));
    }
  }

  /** A failing setUpFixtures() leaves the failure stored in the fixture
      that failed, at a position the walk had reached. */
  lemma {:induction false} SetUpFixturesStoresFailure(tests: seq<Test>, fx: FixtureMap, env: nat -> nat -> SetUpEnv,
                                                      i: nat, j: nat)
    requires SetUpFixturesFrom(tests, fx, env, i, j).1.Some?
    ensures var r := SetUpFixturesFrom(tests, fx, env, i, j);
      exists i2, j2, k :: NotAfter(i, j, i2, j2) && Declares(tests, i2, j2, k) &&
        k in r.0 && r.0[k].result == r.1.value && IsFailure(r.1.value)
    decreases |tests| - i, if i < |tests| then |tests[i].fixtures| - j else 0
  {
    if j >= |tests[i].fixtures| {
      SetUpFixturesStoresFailure(tests, fx, env, i + 1, 0);
      var r := SetUpFixturesFrom(tests, fx, env, i + 1, 0);
      var i2, j2, k :| NotAfter(i + 1, 0, i2, j2) && Declares(tests, i2, j2, k) &&
        k in r.0 && r.0[k].result == r.1.value && IsFailure(r.1.value);
      assert NotAfter(i, j, i2, j2);
    } else {
      var k0 := tests[i].fixtures[j];
      var res := SetUpSpec(Instance(fx, k0), env(i)(j));
      var st, r1 := res.0, res.1;
      if IsFailure(r1) {
        assert NotAfter(i, j, i, j) && Declares(tests, i, j, k0);
      } else {
        SetUpFixturesStoresFailure(tests, fx[k0 := st], env, i, j + 1);
        var r := SetUpFixturesFrom(tests, fx[k0 := st], env, i, j + 1);
        var i2, j2, k :| NotAfter(i, j + 1, i2, j2) && Declares(tests, i2, j2, k) &&
          k in r.0 && r.0[k].result == r.1.value && IsFailure(r.1.value);
        assert NotAfter(i, j, i2, j2);
      }
    }
  }

  /** setUpFixtures() runs again for every server: once it has failed, it
      fails again on the next call, whatever the cloud answers. */
  lemma SetUpFixturesFailsAgain(tests: seq<Test>, fx: FixtureMap, env1: nat -> nat -> SetUpEnv,
                                env2: nat -> nat -> SetUpEnv)
    requires SetUpFixturesFrom(tests, fx, env1, 0, 0).1.Some?
    ensures var r := SetUpFixturesFrom(tests, SetUpFixturesFrom(tests, fx, env1, 0, 0).0, env2, 0, 0).1;
      r.Some? && IsFailure(r.value)
  {
    SetUpFixturesStoresFailure(tests, fx, env1, 0, 0);
    var r := SetUpFixturesFrom(tests, fx, env1, 0, 0);
    var i2, j2, k :| NotAfter(0, 0, i2, j2) && Declares(tests, i2, j2, k) &&
      k in r.0 && r.0[k].result == r.1.value && IsFailure(r.1.value);
    SetUpFixturesMeetsFailure(tests, r.0, env2, 0, 0, i2, j2, k);
  }

  /** _run_test() records exactly one result, under its own test name and
      the server's key, and never raises. */
  lemma {:induction false} RunTestRecordsOnce(t: Test, fx: FixtureMap, store: Store, host: string, server: Server,
                                              a: TestAnswers, j: nat)
    ensures var run := RunTestFrom(t, fx, store, host, server, a, j);
      !run.raised && exists r :: run.store == Added(store, t.name, host, server.id, r)
    decreases |t.fixtures| - j
  {
    if j < |t.fixtures| {
      var k := t.fixtures[j];
      var (st1, r1) := SetUpSpec(Instance(fx, k), a.fixtureCalls(j).setUp);
      if !IsFailure(r1) {
        var (st2, r2) := EnableSpec(st1, server, a.fixtureCalls(j).enable);
        if !IsFailure(r2) {
          RunTestRecordsOnce(t, fx[k := st2], store, host, server, a, j + 1);
        }
      }
    }
  }

  /** The names of the tests. */
  function TestNames(tests: seq<Test>): set<string>
  {
    set t | t in tests :: t.name
  }

  /** run_server() changes only the results recorded under the server's own
      key, for the tests the runner has. */
  lemma {:induction false} RunTestsTouchOnlyServer(tests: seq<Test>, fx: FixtureMap, store: Store, host: string,
                                                   server: Server, answers: nat -> TestAnswers, i: nat,
                                                   test: string, host': string, id': string)
    requires test !in TestNames(tests) || (host', id') != (host, server.id)
    ensures Lookup(RunTestsFrom(tests, fx, store, host, server, answers, i).store, test, host', id')
         == Lookup(store, test, host', id')
    decreases |tests| - i
  {
    if i < |tests| {
      var t := tests[i];
      assert t.name in TestNames(tests);
      var a := answers(i);
      var r := ScenarioStep(a.setUp, a.setUpTime);
      if IsFailure(r) {
        AddedLookup(store, t.name, host, server.id, r, test, host', id');
      } else {
        RunTestRecordsOnce(t, fx, store, host, server, a, 0);
        var run := RunTestFrom(t, fx, store, host, server, a, 0);
        var r0 :| run.store == Added(store, t.name, host, server.id, r0);
        AddedLookup(store, t.name, host, server.id, r0, test, host', id');
        var td := ScenarioStep(a.tearDown, a.tearDownTime);
        if IsFailure(td) {
          AddedLookup(run.store, t.name, host, server.id, td, test, host', id');
        }
      }
      var one := RunOne(t, fx, store, host, server, a);
      if !one.raised {
        RunTestsTouchOnlyServer(tests, one.fx, one.store, host, server, answers, i + 1, test, host', id');
      }
    }
  }

  /** The disables keep the set of fixtures. */
  lemma {:induction false} DisableKeepsKeys(t: Test, fx: FixtureMap, server: Server, a: TestAnswers, j: nat)
    ensures DisableFrom(t, fx, server, a, j).0.Keys == fx.Keys
    decreases |t.fixtures| - j
  {
    if j < |t.fixtures| && t.fixtures[j] in fx {
      var k := t.fixtures[j];
      DisableKeepsKeys(t, fx[k := DisableSpec(fx[k], server, a.disables(j)).0], server, a, j + 1);
    }
  }

  /** The disables raise exactly when a declared fixture was never
      created. */
  lemma {:induction false} DisableRaisesIffMissing(t: Test, fx: FixtureMap, server: Server, a: TestAnswers, j: nat)
    ensures DisableFrom(t, fx, server, a, j).1 <==> exists m :: j <= m < |t.fixtures| && t.fixtures[m] !in fx
    decreases |t.fixtures| - j
  {
    if j < |t.fixtures| && t.fixtures[j] in fx {
      var k := t.fixtures[j];
      var fx1 := fx[k := DisableSpec(fx[k], server, a.disables(j)).0];
      assert fx1.Keys == fx.Keys;
      DisableRaisesIffMissing(t, fx1, server, a, j + 1);
      if exists m :: j <= m < |t.fixtures| && t.fixtures[m] !in fx {
        var m :| j <= m < |t.fixtures| && t.fixtures[m] !in fx;
        assert j + 1 <= m;
      }
    }
  }

  /** A scenario whose setUp failed records that failure and touches no
      fixture. */
  lemma ScenarioSetUpFailureSkipsFixtures(t: Test, fx: FixtureMap, store: Store, host: string, server: Server,
                                          a: TestAnswers)
    requires IsFailure(ScenarioStep(a.setUp, a.setUpTime))
    ensures RunOne(t, fx, store, host, server, a) == Run(fx, Added(store, t.name, host, server.id, ScenarioStep(a.setUp, a.setUpTime)), false)
  {
  }

  /** A server with no readable host raises before anything is set up or
      recorded. */
  lemma HostlessServerRaises(tests: seq<Test>, fx: FixtureMap, store: Store, server: Server, a: ServerAnswers)
    requires server.hostAttr.None?
    ensures RunServerSpec(tests, fx, store, server, a) == Run(fx, store, true)
  {
  }

  /** Tearing down keeps every fixture, and a fixture whose floating IP was
      deleted holds none afterwards. */
  lemma TearDownReleasesIps(fx: FixtureMap, env: FixtureKind -> TearDownEnv)
    ensures TearDownAll(fx, env).Keys == fx.Keys
    ensures forall k :: k in fx && env(k).delete.Done? ==> TearDownAll(fx, env)[k].floatingIp.None?
    ensures forall k :: k in fx && env(k).delete.CallRaised? ==> TearDownAll(fx, env)[k].floatingIp == fx[k].floatingIp
  {
  }
}
