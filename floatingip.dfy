// The floating-IP fixture (sanity/fixtures/floatingip.py): holds at most one
// floating IP, attaches it to the server under test and waits for it to
// answer.
module FloatingIPFixture {
  import opened Wrappers
  import opened Results
  import opened Scenarios
  import opened Fixtures

  datatype FloatingIp = FloatingIp(id: string, address: string)

  /** The fixture's fields: _floatingip, ip_address and the stored result. */
  datatype FipState = FipState(floatingIp: Option<FloatingIp>, ipAddress: Option<string>, result: Result)

  /** A fresh fixture: no IP, and the class-level Success() as its result. */
  const InitialState := FipState(None, None, Success(0))

  /** The stored address always belongs to the IP held, when one is held. */
  predicate Consistent(st: FipState)
  {
    st.floatingIp.Some? ==> st.ipAddress == Some(st.floatingIp.value.address)
  }

  /** A network call that either completes or raises. */
  datatype Call = Done | CallRaised(traceback: string)

  /** Oracle answers for one call of each wrapper; elapsed is end - start. */
  datatype SetUpEnv = SetUpEnv(create: Outcome<FloatingIp>, elapsed: nat)
  datatype TearDownEnv = TearDownEnv(delete: Call, elapsed: nat)
  /** first: the first get_floatingip() call, which raises or answers
      whether the IP has a 'status' key; status(k): the k-th
      get_floatingip() poll after it, which raises or reads a status;
      ping(k): the answer of the k-th ping. */
  datatype EnableEnv = EnableEnv(add: Call, first: Outcome<bool>, status: nat -> Outcome<string>, ping: nat -> bool, elapsed: nat)
  datatype DisableEnv = DisableEnv(remove: Call, first: Outcome<bool>, status: nat -> Outcome<string>, elapsed: nat)

  /** The waits give up once their counter exceeds this. */
  const MaxRetries: nat := 8

  /** Reading self._floatingip['id'] while no IP is held raises TypeError. */
  const NoIpTraceback := "TypeError: 'NoneType' object has no attribute '__getitem__'"

  /** '%s' % self.ip_address */
  function IpText(st: FipState): string
  { if st.ipAddress.Some? then st.ipAddress.value else "None" }

  /** Whether a status wait goes on after a poll answered o: the poll did
      not raise, and it read DOWN exactly when the wait is for the IP to
      leave DOWN (whileDown) rather than to reach it. */
  predicate KeepsWaiting(o: Outcome<string>, whileDown: bool)
  { o.Ok? && (o.value == "DOWN") == whileDown }

  /** How a status wait ends from poll k on: Ok(true) when it gives up after
      poll MaxRetries, Ok(false) when a poll ends it, Raised when a poll
      raises first. */
  function WaitFrom(status: nat -> Outcome<string>, whileDown: bool, k: nat): Outcome<bool>
    decreases MaxRetries + 1 - k
  {
    if k > MaxRetries then Ok(true)
    else if status(k).Raised? then Raised(status(k).error)
    else if KeepsWaiting(status(k), whileDown) then WaitFrom(status, whileDown, k + 1)
    else Ok(false)
  }

  /** Every one of the polls 0..MaxRetries reads DOWN. */
  predicate AssociationTimedOut(env: EnableEnv)
  { env.first == Ok(true) && forall k :: 0 <= k <= MaxRetries ==> env.status(k) == Ok("DOWN") }

  /** Some poll raises while every poll before it read DOWN. */
  predicate AssociationRaises(env: EnableEnv)
  { env.first == Ok(true) && WaitFrom(env.status, true, 0).Raised? }

  /** None of the pings 0..MaxRetries answers. */
  predicate PingTimedOut(ping: nat -> bool)
  { forall k :: 0 <= k <= MaxRetries ==> !ping(k) }

  /** Every one of the polls 0..MaxRetries reads something other than DOWN. */
  predicate DisassociationTimedOut(env: DisableEnv)
  { env.first == Ok(true) && forall k :: 0 <= k <= MaxRetries ==> env.status(k).Ok? && env.status(k).value != "DOWN" }

  /** Some poll raises while every poll before it read something else than
      DOWN. */
  predicate DisassociationRaises(env: DisableEnv)
  { env.first == Ok(true) && WaitFrom(env.status, false, 0).Raised? }

  /** A wait gives up exactly when polls 0..MaxRetries all keep it waiting,
      and raises exactly when some poll raises after the ones before it kept
      it waiting, with that poll's traceback. */
  lemma {:induction false} WaitFromMeaning(status: nat -> Outcome<string>, whileDown: bool, k: nat)
    requires k <= MaxRetries + 1
    ensures WaitFrom(status, whileDown, k) == Ok(true) <==>
      forall j :: k <= j <= MaxRetries ==> KeepsWaiting(status(j), whileDown)
    ensures WaitFrom(status, whileDown, k).Raised? <==>
      exists j :: k <= j <= MaxRetries && status(j).Raised? &&
        forall i :: k <= i < j ==> KeepsWaiting(status(i), whileDown)
    ensures WaitFrom(status, whileDown, k).Raised? ==>
      exists j :: k <= j <= MaxRetries && status(j) == Raised(WaitFrom(status, whileDown, k).error)
    decreases MaxRetries + 1 - k
  {
    if k <= MaxRetries && KeepsWaiting(status(k), whileDown) {
      WaitFromMeaning(status, whileDown, k + 1);
      var r := WaitFrom(status, whileDown, k + 1);
      if r.Raised? {
        var j :| k + 1 <= j <= MaxRetries && status(j).Raised? &&
          forall i :: k + 1 <= i < j ==> KeepsWaiting(status(i), whileDown);
        assert forall i :: k <= i < j ==> KeepsWaiting(status(i), whileDown);
      }
      if exists j :: k <= j <= MaxRetries && status(j).Raised? &&
          forall i :: k <= i < j ==> KeepsWaiting(status(i), whileDown) {
        var j :| k <= j <= MaxRetries && status(j).Raised? &&
          forall i :: k <= i < j ==> KeepsWaiting(status(i), whileDown);
        assert j != k;
      }
    }
  }

  function AssociateFailure(st: FipState): Result
  { NewFailure("Failed waiting for Floating IP " + IpText(st) + " to associate.", NoException, "") }

  function PingFailure(st: FipState): Result
  { NewFailure("Floating IP " + IpText(st) + " not replying to ping.", NoException, "") }

  function DisassociateFailure(st: FipState): Result
  { NewFailure("Failed disassociate Floating IP " + IpText(st) + ".", NoException, "") }

  /** _setUp: creates an IP only when none is held and the stored result is
      not a failure; a failed creation stores Error(). Always returns the
      stored result object. */
  function SetUpHook(st: FipState, create: Outcome<FloatingIp>): (res: (FipState, HookReturn))
    ensures res.1 == ReturnedStored
    ensures Consistent(st) ==> Consistent(res.0)
    ensures st.floatingIp.Some? || IsFailure(st.result) ==> res.0 == st
  {
    if st.floatingIp.Some? || IsFailure(st.result) then (st, ReturnedStored)
    else match create
      case Ok(ip) => (st.(floatingIp := Some(ip), ipAddress := Some(ip.address)), ReturnedStored)
      case Raised(tb) => (st.(result := ErrorFromHandler(tb)), ReturnedStored)
  }

  /** _tearDown: without an IP, nothing; otherwise delete it and forget it
      (a raising delete leaves the IP held). */
  function TearDownHook(st: FipState, delete: Call): (res: (FipState, HookReturn))
    ensures st.floatingIp.None? ==> res == (st, ReturnedStored)
    ensures st.floatingIp.Some? && delete.Done? ==> res == (st.(floatingIp := None), ReturnedStored)
    ensures st.floatingIp.Some? && delete.CallRaised? ==> res == (st, RaisedIn(delete.traceback))
  {
    if st.floatingIp.None? then (st, ReturnedStored)
    else match delete
      case Done => (st.(floatingIp := None), ReturnedStored)
      case CallRaised(tb) => (st, RaisedIn(tb))
  }

  /** _enableFixture, stated by outcome: skipped when the server is not
      ACTIVE; an ERROR when attaching raises, no IP is held, or a
      get_floatingip() call raises before the wait ends; a ping failure
      when no ping of the nine answers, else an association failure when
      all nine status polls read DOWN, else the stored result. */
  function EnableHook(st: FipState, server: Server, env: EnableEnv): HookReturn
  {
    if !IsActive(server) then ReturnedNew(Skipped(0))
    else if env.add.CallRaised? then RaisedIn(env.add.traceback)
    else if st.floatingIp.None? then RaisedIn(NoIpTraceback)
    else if env.first.Raised? then RaisedIn(env.first.error)
    else if AssociationRaises(env) then RaisedIn(WaitFrom(env.status, true, 0).error)
    else if PingTimedOut(env.ping) then ReturnedNew(PingFailure(st))
    else if AssociationTimedOut(env) then ReturnedNew(AssociateFailure(st))
    else ReturnedStored
  }

  /** _disableFixture, stated by outcome. */
  function DisableHook(st: FipState, server: Server, env: DisableEnv): HookReturn
  {
    if !IsActive(server) then ReturnedNew(Skipped(0))
    else if env.remove.CallRaised? then RaisedIn(env.remove.traceback)
    else if st.floatingIp.None? then RaisedIn(NoIpTraceback)
    else if env.first.Raised? then RaisedIn(env.first.error)
    else if DisassociationRaises(env) then RaisedIn(WaitFrom(env.status, false, 0).error)
    else if DisassociationTimedOut(env) then ReturnedNew(DisassociateFailure(st))
    else ReturnedStored
  }

  /** Fixture.setUp() around _setUp: the new state and the returned result. */
  function SetUpSpec(st: FipState, env: SetUpEnv): (res: (FipState, Result))
    ensures res.1 == res.0.result && res.1.duration == env.elapsed
    ensures Consistent(st) ==> Consistent(res.0)
  {
    var (st1, ret) := SetUpHook(st, env.create);
    var (stored, r) := SetUpOrTearDown(st1.result, Some(ret), env.elapsed);
    (st1.(result := stored), r)
  }

  /** Fixture.tearDown() around _tearDown. */
  function TearDownSpec(st: FipState, env: TearDownEnv): (res: (FipState, Result))
    ensures res.1.duration == env.elapsed
    ensures Consistent(st) ==> Consistent(res.0)
  {
    var (st1, ret) := TearDownHook(st, env.delete);
    var (stored, r) := SetUpOrTearDown(st1.result, Some(ret), env.elapsed);
    (st1.(result := stored), r)
  }

  /** Fixture.enableFixture() around _enableFixture. */
  function EnableSpec(st: FipState, server: Server, env: EnableEnv): (res: (FipState, Result))
    ensures res.0.floatingIp == st.floatingIp && res.0.ipAddress == st.ipAddress
    ensures IsFailure(res.0.result) == IsFailure(st.result)
  {
    var (stored, r) := EnableOrDisable(st.result, EnableHook(st, server, env), env.elapsed);
    (st.(result := stored), r)
  }

  /** Fixture.disableFixture() around _disableFixture. */
  function DisableSpec(st: FipState, server: Server, env: DisableEnv): (res: (FipState, Result))
    ensures res.0.floatingIp == st.floatingIp && res.0.ipAddress == st.ipAddress
    ensures IsFailure(res.0.result) == IsFailure(st.result)
  {
    var (stored, r) := EnableOrDisable(st.result, DisableHook(st, server, env), env.elapsed);
    (st.(result := stored), r)
  }

  /** FloatingIPFixture: the fixture object whose hooks update its fields. */
  class FloatingIPFixture {
    var floatingIp: Option<FloatingIp>
    var ipAddress: Option<string>
    var result: Result

    function State(): FipState
      reads this
    {
      FipState(floatingIp, ipAddress, result)
    }

    constructor ()
      ensures State() == InitialState
    {
      floatingIp, ipAddress, result := None, None, Success(0);
    }

    /** _setUp(): create an IP unless one is held or the stored result
        already failed. */
    method SetUpHookM(create: Outcome<FloatingIp>) returns (ret: HookReturn)
      modifies this
      ensures (State(), ret) == SetUpHook(old(State()), create)
    {
      if floatingIp.Some? || IsFailure(result) {
        return ReturnedStored;
      }
      if create.Raised? {
        result := ErrorFromHandler(create.error);
      } else {
        floatingIp := Some(create.value);
        ipAddress := Some(create.value.address);
      }
      return ReturnedStored;
    }

    /** _tearDown(): delete the IP held, if any. */
    method TearDownHookM(delete: Call) returns (ret: HookReturn)
      modifies this
      ensures (State(), ret) == TearDownHook(old(State()), delete)
    {
      if floatingIp.None? {
        return ReturnedStored;
      }
      if delete.CallRaised? {
        return RaisedIn(delete.traceback);
      }
      floatingIp := None;
      return ReturnedStored;
    }

    /** The wait while the IP's status reads DOWN: polls get_floatingip()
        until it reads something else, giving up when the counter passes
        MaxRetries; a raising poll ends the wait with its traceback. */
    method WaitWhileDown(status: nat -> Outcome<string>) returns (w: Outcome<bool>)
      ensures w == WaitFrom(status, true, 0)
      ensures w == Ok(true) <==> forall k :: 0 <= k <= MaxRetries ==> status(k) == Ok("DOWN")
    {
      WaitFromMeaning(status, true, 0);
      var count := 0;
      while true
        invariant 0 <= count <= MaxRetries
        invariant WaitFrom(status, true, count) == WaitFrom(status, true, 0)
        decreases MaxRetries - count
      {
        var poll := status(count);
        if poll.Raised? {
          return Raised(poll.error);
        }
        if poll.value != "DOWN" {
          return Ok(false);
        }
        count := count + 1;
        if count > MaxRetries {
          return Ok(true);
        }
      }
    }

    /** The wait for the IP to answer a ping. */
    method WaitForPing(ping: nat -> bool) returns (gaveUp: bool)
      ensures gaveUp <==> PingTimedOut(ping)
    {
      var count := 0;
      while !ping(count)
        invariant 0 <= count <= MaxRetries
        invariant forall k :: 0 <= k < count ==> !ping(k)
        decreases MaxRetries - count
      {
        count := count + 1;
        if count > MaxRetries {
          return true;
        }
      }
      return false;
    }

    /** The wait until the IP's status reads DOWN, as WaitWhileDown. */
    method WaitUntilDown(status: nat -> Outcome<string>) returns (w: Outcome<bool>)
      ensures w == WaitFrom(status, false, 0)
      ensures w == Ok(true) <==> forall k :: 0 <= k <= MaxRetries ==> status(k).Ok? && status(k).value != "DOWN"
    {
      WaitFromMeaning(status, false, 0);
      var count := 0;
      while true
        invariant 0 <= count <= MaxRetries
        invariant WaitFrom(status, false, count) == WaitFrom(status, false, 0)
        decreases MaxRetries - count
      {
        var poll := status(count);
        if poll.Raised? {
          return Raised(poll.error);
        }
        if poll.value == "DOWN" {
          return Ok(false);
        }
        count := count + 1;
        if count > MaxRetries {
          return Ok(true);
        }
      }
    }

    /** _enableFixture(server): attach the IP, wait for it to associate,
        then wait for it to answer a ping. */
    method EnableHookM(server: Server, env: EnableEnv) returns (ret: HookReturn)
      ensures ret == EnableHook(State(), server, env)
    {
      if server.status != Some("ACTIVE") {
        return ReturnedNew(Skipped(0));
      }
      ret := ReturnedStored;
      if env.add.CallRaised? {
        return RaisedIn(env.add.traceback);
      }
      if floatingIp.None? {
        return RaisedIn(NoIpTraceback);
      }
      if env.first.Raised? {
        return RaisedIn(env.first.error);
      }
      if env.first.value {
        var w := WaitWhileDown(env.status);
        if w.Raised? {
          return RaisedIn(w.error);
        }
        if w.value {
          ret := ReturnedNew(AssociateFailure(State()));
        }
      }
      var noReply := WaitForPing(env.ping);
      if noReply {
        ret := ReturnedNew(PingFailure(State()));
      }
    }

    /** _disableFixture(server): detach the IP and wait for it to read
        DOWN. */
    method DisableHookM(server: Server, env: DisableEnv) returns (ret: HookReturn)
      ensures ret == DisableHook(State(), server, env)
    {
      if server.status != Some("ACTIVE") {
        return ReturnedNew(Skipped(0));
      }
      ret := ReturnedStored;
      if env.remove.CallRaised? {
        return RaisedIn(env.remove.traceback);
      }
      if floatingIp.None? {
        return RaisedIn(NoIpTraceback);
      }
      if env.first.Raised? {
        return RaisedIn(env.first.error);
      }
      if env.first.value {
        var w := WaitUntilDown(env.status);
        if w.Raised? {
          return RaisedIn(w.error);
        }
        if w.value {
          ret := ReturnedNew(DisassociateFailure(State()));
        }
      }
    }

    /** Fixture.setUp() */
    method SetUp(env: SetUpEnv) returns (r: Result)
      modifies this
      ensures (State(), r) == SetUpSpec(old(State()), env)
    {
      var ret := SetUpHookM(env.create);
      var step := SetUpOrTearDown(result, Some(ret), env.elapsed);
      result, r := step.0, step.1;
    }

    /** Fixture.tearDown() */
    method TearDown(env: TearDownEnv) returns (r: Result)
      modifies this
      ensures (State(), r) == TearDownSpec(old(State()), env)
    {
      var ret := TearDownHookM(env.delete);
      var step := SetUpOrTearDown(result, Some(ret), env.elapsed);
      result, r := step.0, step.1;
    }

    /** Fixture.enableFixture(server): a stored failure short-circuits. */
    method EnableFixture(server: Server, env: EnableEnv) returns (r: Result)
      modifies this
      ensures (State(), r) == EnableSpec(old(State()), server, env)
    {
      if IsFailure(result) {
        return result;
      }
      var ret := EnableHookM(server, env);
      var step := Step(result, ret, env.elapsed);
      result, r := step.0, step.1;
    }

    /** Fixture.disableFixture(server) */
    method DisableFixture(server: Server, env: DisableEnv) returns (r: Result)
      modifies this
      ensures (State(), r) == DisableSpec(old(State()), server, env)
    {
      if IsFailure(result) {
        return result;
      }
      var ret := DisableHookM(server, env);
      var step := Step(result, ret, env.elapsed);
      result, r := step.0, step.1;
    }
  }

  /** Setting up twice creates one IP: once an IP is held (or the stored
      result failed) setUp never consults the create call. */
  lemma SetUpCreatesAtMostOnce(st: FipState, e1: SetUpEnv, e2: SetUpEnv)
    requires st.floatingIp.Some? || IsFailure(st.result)
    requires e1.elapsed == e2.elapsed
    ensures SetUpSpec(st, e1) == SetUpSpec(st, e2)
    ensures SetUpSpec(st, e1).0.floatingIp == st.floatingIp
  {
  }

  /** A failed creation is stored as an ERROR, and every later enable and
      disable then returns that stored failure without touching the server. */
  lemma FailedCreationShortCircuits(st: FipState, tb: string, elapsed: nat,
                                    server: Server, en: EnableEnv, dis: DisableEnv)
    requires st.floatingIp.None? && !IsFailure(st.result)
    ensures var (st1, r) := SetUpSpec(st, SetUpEnv(Raised(tb), elapsed));
      && r.Error? && st1.result == r && st1.floatingIp.None?
      && EnableSpec(st1, server, en) == (st1, r)
      && DisableSpec(st1, server, dis) == (st1, r)
  {
  }

  /** Tearing down forgets the IP, so the next setUp creates a new one. */
  lemma TearDownThenSetUpCreatesAgain(st: FipState, td: TearDownEnv, ip: FloatingIp, elapsed: nat)
    requires st.floatingIp.Some? && td.delete.Done? && !IsFailure(st.result)
    ensures var (st1, _) := TearDownSpec(st, td);
      && st1.floatingIp.None?
      && SetUpSpec(st1, SetUpEnv(Ok(ip), elapsed)).0.floatingIp == Some(ip)
      && SetUpSpec(st1, SetUpEnv(Ok(ip), elapsed)).0.ipAddress == Some(ip.address)
  {
  }

  /** A raising get_floatingip() call is an ERROR that leaves the state as
      it was. Otherwise an IP that never answers a ping is reported as such,
      whatever the status polls read; when it does answer, nine DOWN polls
      fail the association instead; otherwise the fixture's own result
      comes back. */
  lemma EnableOutcomes(st: FipState, server: Server, env: EnableEnv)
    requires IsActive(server) && env.add.Done? && st.floatingIp.Some? && !IsFailure(st.result)
    ensures env.first.Raised? || AssociationRaises(env) ==>
      EnableSpec(st, server, env).0 == st && EnableSpec(st, server, env).1.Error?
    ensures env.first.Ok? && !AssociationRaises(env) && PingTimedOut(env.ping) ==>
      EnableSpec(st, server, env).1 == Stamp(PingFailure(st), env.elapsed)
    ensures !PingTimedOut(env.ping) && AssociationTimedOut(env) ==>
      EnableSpec(st, server, env).1 == Stamp(AssociateFailure(st), env.elapsed)
    ensures env.first.Ok? && !AssociationRaises(env) && !PingTimedOut(env.ping) && !AssociationTimedOut(env) ==>
      EnableSpec(st, server, env).1 == EnableSpec(st, server, env).0.result == Stamp(st.result, env.elapsed)
  {
    WaitFromMeaning(env.status, true, 0);
  }

  /** A server that is not ACTIVE is skipped by enable and disable, and the
      fixture's state is left as it was. */
  lemma InactiveServerSkipped(st: FipState, server: Server, en: EnableEnv, dis: DisableEnv)
    requires !IsActive(server) && !IsFailure(st.result)
    ensures EnableSpec(st, server, en) == (st, Skipped(en.elapsed))
    ensures DisableSpec(st, server, dis) == (st, Skipped(dis.elapsed))
  {
  }
}
