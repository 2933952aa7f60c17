// The command-line driver's deterministic parts (sanity/cli.py): the booter,
// lister and tester workers as sequential loops over their input queues,
// the choice of testing workers, expand_hosts, the SIGINT window and the
// ETA. Threads are not modelled: what another thread does between two
// steps (stop(), a boot request that raises) is an oracle parameter.
module Cli {
  import opened Wrappers
  import opened Text
  import opened Results
  import opened Scenarios
  import opened HostLists

  // ---------------------------------------------------------------------
  // ThreadedBooter

  /** A nova service as services.list() reports it. */
  datatype Service = Service(host: string, binary: string, state: string, status: string)

  predicate IsCompute(s: Service) { s.binary == "nova-compute" }

  /** list_services(): the nova-compute services by host; of two services
      on one host the one listed later is kept. */
  function ComputeServices(services: seq<Service>): map<string, Service>
  {
    if services == [] then map[]
    else
      var s := services[|services| - 1];
      var m := ComputeServices(services[..|services| - 1]);
      if IsCompute(s) then m[s.host := s] else m
  }

  /** A key exactly for each host with a nova-compute service, holding a
      nova-compute service of that host. */
  lemma {:induction false} ComputeServicesKeys(services: seq<Service>)
    ensures forall h :: h in ComputeServices(services) <==>
      exists k :: 0 <= k < |services| && IsCompute(services[k]) && services[k].host == h
    ensures forall h :: h in ComputeServices(services) ==>
      IsCompute(ComputeServices(services)[h]) && ComputeServices(services)[h].host == h
  {
    if services != [] {
      var n := |services|;
      var before := services[..n - 1];
      var s := services[n - 1];
      ComputeServicesKeys(before);
      var m0 := ComputeServices(before);
      var m := ComputeServices(services);
      assert m == if IsCompute(s) then m0[s.host := s] else m0;
      forall h | h in m
        ensures exists k :: 0 <= k < n && IsCompute(services[k]) && services[k].host == h
      {
        if !(IsCompute(s) && s.host == h) {
          var k :| 0 <= k < |before| && IsCompute(before[k]) && before[k].host == h;
          assert services[k] == before[k];
        }
      }
      forall h, k | 0 <= k < n && IsCompute(services[k]) && services[k].host == h
        ensures h in m
      {
        if k < n - 1 {
          assert before[k] == services[k];
        }
      }
    }
  }

  /** The service kept for a host is the last nova-compute one listed. */
  lemma {:induction false} LastServiceWins(services: seq<Service>, k: nat)
    requires k < |services| && IsCompute(services[k])
    requires forall j :: k < j < |services| && IsCompute(services[j]) ==> services[j].host != services[k].host
    ensures services[k].host in ComputeServices(services)
    ensures ComputeServices(services)[services[k].host] == services[k]
  {
    var n := |services|;
    if k < n - 1 {
      var before := services[..n - 1];
      assert forall j :: k < j < |before| ==> before[j] == services[j];
      LastServiceWins(before, k);
    }
  }

  /** The UnbootableServer the booter reports for host h, or None when h is
      to be booted. The checks run in this order: no nova-compute service
      on h, a service state other than 'up', and, only when the scheduler
      filter is disabled, a service status other than 'enabled'. */
  function Unbootable(h: string, services: map<string, Service>, filterEnabled: bool): Option<Server>
  {
    if h !in services then
      Some(NewUnbootable(None, h, Some("no nova service exists on " + h), Some(h), map["host_id" := h]))
    else
      var service := services[h];
      if service.state != "up" then
        Some(NewUnbootable(None, h, Some("nova service state is " + service.state + " on " + h),
                           Some(service.host), map["host_id" := h]))
      else if !filterEnabled && service.status != "enabled" then
        Some(NewUnbootable(None, h, Some("nova service status is " + service.status + " on " + h),
                           Some(service.host), map["host_id" := h]))
      else None
  }

  /** Which check, if any, makes h unbootable, and the status text it
      writes. */
  lemma UnbootableReasons(h: string, services: map<string, Service>, filterEnabled: bool)
    ensures var r := Unbootable(h, services, filterEnabled);
      && (r.None? <==> h in services && services[h].state == "up" && (filterEnabled || services[h].status == "enabled"))
      && (r.Some? ==> !HasBooted(r.value) && r.value.name == h && r.value.metadata == map["host_id" := h])
      && (r.Some? ==> r.value.hostAttr == Some(if h in services then services[h].host else h))
      && (h !in services ==> r.Some? && r.value.status == Some("no nova service exists on " + h))
      && (h in services && services[h].state != "up" ==>
            r.Some? && r.value.status == Some("nova service state is " + services[h].state + " on " + h))
      && (h in services && services[h].state == "up" && !filterEnabled && services[h].status != "enabled" ==>
            r.Some? && r.value.status == Some("nova service status is " + services[h].status + " on " + h))
  {
  }

  /** The booter between two iterations: its input queue, the servers it
      has put on its output queue, the hosts those servers stand for, and
      how many boot requests it has sent. */
  datatype Booting = Booting(queue: seq<string>, out: seq<Server>, handled: seq<string>, boots: nat)

  /** From b to r no host has been lost or duplicated (each is queued or
      handled), and one server has been put out per host handled. */
  ghost predicate Conserves(b: Booting, r: Booting)
  {
    && multiset(r.queue) + multiset(r.handled) == multiset(b.queue) + multiset(b.handled)
    && |r.out| - |b.out| == |r.handled| - |b.handled| && b.out <= r.out && b.handled <= r.handled
  }

  lemma ConservesTrans(a: Booting, b: Booting, c: Booting)
    requires Conserves(a, b) && Conserves(b, c)
    ensures Conserves(a, c)
  {
    assert a.out <= c.out && a.handled <= c.handled by {
      assert forall k :: 0 <= k < |a.out| ==> a.out[k] == b.out[k] == c.out[k];
      assert forall k :: 0 <= k < |a.handled| ==> a.handled[k] == b.handled[k] == c.handled[k];
    }
  }

  /** One iteration on the host at the head of the queue. An unbootable
      host yields its UnbootableServer; otherwise a boot request is sent,
      and one that raises (boot(boots) == None) puts the host back at the
      end of the queue. */
  function BootStep(b: Booting, services: map<string, Service>, filterEnabled: bool,
                    boot: nat -> Option<Server>): Booting
    requires b.queue != []
  {
    var h := b.queue[0];
    var rest := b.queue[1..];
    var unbootable := Unbootable(h, services, filterEnabled);
    if unbootable.Some? then
      Booting(rest, b.out + [unbootable.value], b.handled + [h], b.boots)
    else
      var server := boot(b.boots);
      if server.None? then Booting(rest + [h], b.out, b.handled, b.boots + 1)
      else Booting(rest, b.out + [server.value], b.handled + [h], b.boots + 1)
  }

  /** One iteration conserves the hosts and puts out one server per host
      it handles. */
  lemma BootStepConserves(b: Booting, services: map<string, Service>, filterEnabled: bool,
                          boot: nat -> Option<Server>)
    requires b.queue != []
    ensures Conserves(b, BootStep(b, services, filterEnabled, boot))
    ensures var r := BootStep(b, services, filterEnabled, boot);
      |r.queue| + |r.handled| == |b.queue| + |b.handled|
  {
    assert b.queue == [b.queue[0]] + b.queue[1..];
  }

  /** ThreadedBooter.__call__ from iteration n on, for at most fuel more
      iterations; the loop ends when the queue is empty or the worker has
      been stopped (stopped(n) is the flag as iteration n reads it). */
  function BootRun(b: Booting, services: map<string, Service>, filterEnabled: bool,
                   stopped: nat -> bool, boot: nat -> Option<Server>, fuel: nat, n: nat): Booting
    decreases fuel
  {
    if fuel == 0 || b.queue == [] || stopped(n) then b
    else BootRun(BootStep(b, services, filterEnabled, boot), services, filterEnabled, stopped, boot, fuel - 1, n + 1)
  }

  /** Every host is either still queued or has produced exactly one server. */
  lemma {:induction false} BootConserves(b: Booting, services: map<string, Service>, filterEnabled: bool,
                                         stopped: nat -> bool, boot: nat -> Option<Server>, fuel: nat, n: nat)
    ensures Conserves(b, BootRun(b, services, filterEnabled, stopped, boot, fuel, n))
    decreases fuel
  {
    if !(fuel == 0 || b.queue == [] || stopped(n)) {
      var b1 := BootStep(b, services, filterEnabled, boot);
      var r := BootRun(b1, services, filterEnabled, stopped, boot, fuel - 1, n + 1);
      assert BootRun(b, services, filterEnabled, stopped, boot, fuel, n) == r;
      BootStepConserves(b, services, filterEnabled, boot);
      BootConserves(b1, services, filterEnabled, stopped, boot, fuel - 1, n + 1);
      ConservesTrans(b, b1, r);
    }
  }

  /** A step whose boot request does not raise handles the head of the
      queue. */
  lemma BootStepHandles(b: Booting, services: map<string, Service>, filterEnabled: bool,
                        boot: nat -> Option<Server>)
    requires b.queue != [] && boot(b.boots).Some?
    ensures var b1 := BootStep(b, services, filterEnabled, boot);
      b1.queue == b.queue[1..] && b1.handled == b.handled + [b.queue[0]] && |b1.out| == |b.out| + 1
    ensures b.handled + [b.queue[0]] + b.queue[1..] == b.handled + b.queue
  {
    assert b.queue == [b.queue[0]] + b.queue[1..];
  }

  /** When no boot request raises and nobody stops the booter, it handles
      every host once, in queue order, within one iteration per host. */
  lemma {:induction false} BootHandlesAll(b: Booting, services: map<string, Service>, filterEnabled: bool,
                                          stopped: nat -> bool, boot: nat -> Option<Server>, fuel: nat, n: nat)
    requires forall k :: boot(k).Some?
    requires forall j :: !stopped(j)
    requires fuel >= |b.queue|
    ensures var r := BootRun(b, services, filterEnabled, stopped, boot, fuel, n);
            r.queue == [] && r.handled == b.handled + b.queue && |r.out| == |b.out| + |b.queue|
    decreases fuel
  {
    if b.queue == [] {
      assert b.handled + b.queue == b.handled;
    } else {
      var b1 := BootStep(b, services, filterEnabled, boot);
      BootStepHandles(b, services, filterEnabled, boot);
      BootHandlesAll(b1, services, filterEnabled, stopped, boot, fuel - 1, n + 1);
    }
  }

  /** ThreadedBooter.__call__: the servers put on the output queue and the
      hosts left on the input queue. The services are listed once, before
      the loop; fuel bounds the iterations. */
  method Boot(hosts: seq<string>, services: seq<Service>, filterEnabled: bool,
              stopped: nat -> bool, boot: nat -> Option<Server>, fuel: nat)
    returns (out: seq<Server>, rest: seq<string>)
    ensures var r := BootRun(Booting(hosts, [], [], 0), ComputeServices(services), filterEnabled, stopped, boot, fuel, 0);
            out == r.out && rest == r.queue
  {
    var m := ComputeServices(services);
    ghost var goal := BootRun(Booting(hosts, [], [], 0), m, filterEnabled, stopped, boot, fuel, 0);
    var queue := hosts;
    out := [];
    ghost var handled: seq<string> := [];
    var boots := 0;
    var n := 0;
    while n < fuel && queue != []
      invariant n <= fuel
      invariant BootRun(Booting(queue, out, handled, boots), m, filterEnabled, stopped, boot, fuel - n, n) == goal
      decreases fuel - n
    {
      if stopped(n) {
        break;
      }
      BootRunNext(Booting(queue, out, handled, boots), m, filterEnabled, stopped, boot, fuel, n);
      queue, out, handled, boots := BootIteration(queue, out, handled, boots, m, filterEnabled, boot);
      n := n + 1;
    }
    rest := queue;
  }

  /** One iteration of ThreadedBooter.__call__'s loop on the host at the
      head of the queue. */
  method BootIteration(queue: seq<string>, out: seq<Server>, ghost handled: seq<string>, boots: nat,
                       m: map<string, Service>, filterEnabled: bool, boot: nat -> Option<Server>)
    returns (queue': seq<string>, out': seq<Server>, ghost handled': seq<string>, boots': nat)
    requires queue != []
    ensures Booting(queue', out', handled', boots') == BootStep(Booting(queue, out, handled, boots), m, filterEnabled, boot)
  {
    var hostname := queue[0];
    queue', out', handled', boots' := queue[1..], out, handled, boots;
    var unbootable := Unbootable(hostname, m, filterEnabled);
    if unbootable.Some? {
      out' := out + [unbootable.value];
      handled' := handled + [hostname];
    } else {
      var server := boot(boots);
      boots' := boots + 1;
      if server.None? {
        queue' := queue' + [hostname];
      } else {
        out' := out + [server.value];
        handled' := handled + [hostname];
      }
    }
  }

  /** A running booter with a non-empty queue does one step and runs on. */
  lemma BootRunNext(b: Booting, services: map<string, Service>, filterEnabled: bool,
                    stopped: nat -> bool, boot: nat -> Option<Server>, fuel: nat, n: nat)
    requires n < fuel && b.queue != [] && !stopped(n)
    ensures BootRun(b, services, filterEnabled, stopped, boot, fuel - n, n) ==
            BootRun(BootStep(b, services, filterEnabled, boot), services, filterEnabled, stopped, boot, fuel - (n + 1), n + 1)
  {
  }

  // ---------------------------------------------------------------------
  // ThreadedLister

  /** {server.metadata['host_id']: server for server in list_servers()}: a
      server without a host_id raises KeyError (None); of two servers for
      one host the one listed later is kept. */
  function ServersByHost(servers: seq<Server>): (r: Option<map<string, Server>>)
    ensures r.Some? <==> forall k :: 0 <= k < |servers| ==> "host_id" in servers[k].metadata
    ensures r.Some? ==> forall h :: h in r.value ==> "host_id" in r.value[h].metadata && r.value[h].metadata["host_id"] == h
    ensures r.Some? ==> forall h :: h in r.value <==>
              exists k :: 0 <= k < |servers| && "host_id" in servers[k].metadata && servers[k].metadata["host_id"] == h
  {
    if servers == [] then Some(map[])
    else
      var before := servers[..|servers| - 1];
      var s := servers[|servers| - 1];
      var m := ServersByHost(before);
      assert forall k :: 0 <= k < |before| ==> before[k] == servers[k];
      if m.None? || "host_id" !in s.metadata then None
      else Some(m.value[s.metadata["host_id"] := s])
  }

  /** The server kept for a host is the last one listed with that host_id. */
  lemma {:induction false} LastServerWins(servers: seq<Server>, k: nat)
    requires ServersByHost(servers).Some?
    requires k < |servers|
    requires forall j :: k < j < |servers| ==> servers[j].metadata["host_id"] != servers[k].metadata["host_id"]
    ensures ServersByHost(servers).value[servers[k].metadata["host_id"]] == servers[k]
  {
    var n := |servers|;
    var before := servers[..n - 1];
    var last := servers[n - 1];
    var m := ServersByHost(before);
    assert m.Some? && ServersByHost(servers) == Some(m.value[last.metadata["host_id"] := last]);
    if k < n - 1 {
      assert servers[k] == before[k];
      assert last.metadata["host_id"] != servers[k].metadata["host_id"];
      assert forall j :: k < j < |before| ==> before[j] == servers[j];
      LastServerWins(before, k);
    }
  }

  /** ThreadedLister.__call__ from the i-th host on: the server found for
      each host, in queue order, until the lister is stopped; a host
      without a server is only logged. */
  function Listed(queue: seq<string>, servers: map<string, Server>, stopped: nat -> bool, i: nat): seq<Server>
    decreases |queue| - i
  {
    if i >= |queue| || stopped(i) then []
    else (if queue[i] in servers then [servers[queue[i]]] else []) + Listed(queue, servers, stopped, i + 1)
  }

  /** What the lister puts out belongs to a queued host, and when nobody
      stops it, every queued host with a server has that server put out. */
  lemma {:induction false} ListedFacts(queue: seq<string>, servers: map<string, Server>, stopped: nat -> bool, i: nat)
    requires forall h :: h in servers ==> "host_id" in servers[h].metadata && servers[h].metadata["host_id"] == h
    ensures forall s :: s in Listed(queue, servers, stopped, i) ==>
              "host_id" in s.metadata && s.metadata["host_id"] in servers &&
              exists j :: i <= j < |queue| && queue[j] == s.metadata["host_id"]
    ensures (forall j :: !stopped(j)) ==>
              forall j :: i <= j < |queue| && queue[j] in servers ==> servers[queue[j]] in Listed(queue, servers, stopped, i)
    decreases |queue| - i
  {
    if i < |queue| && !stopped(i) {
      ListedFacts(queue, servers, stopped, i + 1);
    }
  }

  /** ThreadedLister.__call__ */
  method FindServers(queue: seq<string>, servers: map<string, Server>, stopped: nat -> bool) returns (out: seq<Server>)
    ensures out == Listed(queue, servers, stopped, 0)
  {
    out := [];
    var i := 0;
    while i < |queue|
      invariant 0 <= i <= |queue|
      invariant out + Listed(queue, servers, stopped, i) == Listed(queue, servers, stopped, 0)
    {
      if stopped(i) {
        break;
      }
      ListedStep(out, queue, servers, stopped, i);
      var hostname := queue[i];
      if hostname in servers {
        out := out + [servers[hostname]];
      }
      i := i + 1;
    }
    assert out + Listed(queue, servers, stopped, i) == out;
  }

  /** The lister's step on queue[i], as the remaining list sees it. */
  lemma ListedStep(out: seq<Server>, queue: seq<string>, servers: map<string, Server>, stopped: nat -> bool, i: nat)
    requires i < |queue| && !stopped(i)
    ensures queue[i] in servers ==>
      out + Listed(queue, servers, stopped, i) == (out + [servers[queue[i]]]) + Listed(queue, servers, stopped, i + 1)
    ensures queue[i] !in servers ==>
      out + Listed(queue, servers, stopped, i) == out + Listed(queue, servers, stopped, i + 1)
  {
    if queue[i] !in servers {
      assert [] + Listed(queue, servers, stopped, i + 1) == Listed(queue, servers, stopped, i + 1);
    }
  }

  // ---------------------------------------------------------------------
  // Tester

  /** Tester's options, read from the configuration when it is built:
      action.no_delete and action.no_delete_failed. */
  datatype Settings = Settings(noDelete: bool, noDeleteFailed: bool)

  /** What the tester asks of the controller (wait_for_servers), the runner
      (run_server, cleanup) and the servers (delete). */
  datatype Call = WaitedFor(server: Server) | RanTests(server: Server) | Deleted(server: Server) | CleanedUp

  /** delete_server(server): whether the server is deleted; has_failed_tests
      is only consulted on the last branch. */
  function DeletesServer(noDelete: bool, booted: bool, noDeleteFailed: bool, failedTests: bool): (d: bool)
    ensures d <==> !noDelete && booted && (!noDeleteFailed || !failedTests)
  {
    if noDelete || !booted then false
    else if !noDeleteFailed then true
    else !failedTests
  }

  /** test_server(server): a server that booted is waited for (a timeout is
      only logged), and every server goes to the runner. */
  function TestCalls(s: Server): (cs: seq<Call>)
    ensures cs != [] && cs[|cs| - 1] == RanTests(s)
    ensures WaitedFor(s) in cs <==> HasBooted(s)
    ensures forall c :: c in cs ==> c.WaitedFor? || c.RanTests?
  {
    (if HasBooted(s) then [WaitedFor(s)] else []) + [RanTests(s)]
  }

  function DeleteCalls(settings: Settings, s: Server, failedTests: bool): seq<Call>
  {
    if DeletesServer(settings.noDelete, HasBooted(s), settings.noDeleteFailed, failedTests) then [Deleted(s)] else []
  }

  /** One server taken while the tester runs: it is tested, then perhaps
      deleted; an exception from either step is only logged. */
  function ServerCalls(settings: Settings, s: Server, failedTests: Server -> bool): seq<Call>
  {
    TestCalls(s) + DeleteCalls(settings, s, failedTests(s))
  }

  /** The server taken after stop(): one delete() attempt. An
      UnbootableServer is a dict without delete(); the AttributeError is
      logged, and nothing is deleted. */
  function StopCalls(s: Server): seq<Call>
  {
    if HasBooted(s) then [Deleted(s)] else []
  }

  /** The calls for a run of servers taken one after the other. */
  function AllCalls(settings: Settings, xs: seq<Server>, failedTests: Server -> bool): seq<Call>
  {
    if xs == [] then [] else ServerCalls(settings, xs[0], failedTests) + AllCalls(settings, xs[1..], failedTests)
  }

  /** Over a run of servers: every one goes to the runner, exactly the
      booted ones are waited for, and exactly those the delete rule picks
      are deleted. */
  lemma {:induction false} AllCallsFacts(settings: Settings, xs: seq<Server>, failedTests: Server -> bool)
    ensures forall j :: 0 <= j < |xs| ==> RanTests(xs[j]) in AllCalls(settings, xs, failedTests)
    ensures forall s :: WaitedFor(s) in AllCalls(settings, xs, failedTests) <==> s in xs && HasBooted(s)
    ensures forall s :: Deleted(s) in AllCalls(settings, xs, failedTests) <==>
              s in xs && DeletesServer(settings.noDelete, HasBooted(s), settings.noDeleteFailed, failedTests(s))
    ensures CleanedUp !in AllCalls(settings, xs, failedTests)
  {
    if xs != [] {
      AllCallsFacts(settings, xs[1..], failedTests);
      ServerCallsFacts(settings, xs[0], failedTests);
      var first := ServerCalls(settings, xs[0], failedTests);
      var rest := AllCalls(settings, xs[1..], failedTests);
      assert AllCalls(settings, xs, failedTests) == first + rest;
      assert forall c :: c in first + rest <==> c in first || c in rest;
      assert forall s :: s in xs <==> s == xs[0] || s in xs[1..];
      forall j | 0 < j < |xs|
        ensures RanTests(xs[j]) in rest
      {
        assert xs[j] == xs[1..][j - 1];
      }
    }
  }

  /** One server's calls: it goes to the runner, is waited for exactly
      when it booted, and is deleted exactly when the delete rule says so. */
  lemma ServerCallsFacts(settings: Settings, x: Server, failedTests: Server -> bool)
    ensures RanTests(x) in ServerCalls(settings, x, failedTests)
    ensures forall s :: WaitedFor(s) in ServerCalls(settings, x, failedTests) <==> s == x && HasBooted(x)
    ensures forall s :: Deleted(s) in ServerCalls(settings, x, failedTests) <==>
              s == x && DeletesServer(settings.noDelete, HasBooted(x), settings.noDeleteFailed, failedTests(x))
    ensures CleanedUp !in ServerCalls(settings, x, failedTests)
  {
    var tests := TestCalls(x);
    var deletes := DeleteCalls(settings, x, failedTests(x));
    assert tests[|tests| - 1] == RanTests(x);
    assert forall c :: c in tests + deletes <==> c in tests || c in deletes;
  }

  /** Tester.__call__ from the i-th server taken on, given what it has
      asked for (calls) and put on its output queue (out) so far: those two
      when its loop ends, and how many servers it has taken by then.
      stopped(i) is the stop flag as it reads it after taking the i-th
      server. */
  datatype Served = Served(calls: seq<Call>, out: seq<Server>, taken: nat)

  function Serve(settings: Settings, queue: seq<Server>, stopped: nat -> bool, failedTests: Server -> bool,
                 i: nat, calls: seq<Call>, out: seq<Server>): (r: Served)
    requires i <= |queue|
    ensures i <= r.taken <= |queue|
    decreases |queue| - i
  {
    if i == |queue| then Served(calls, out, i)
    else if stopped(i) then Served(calls + StopCalls(queue[i]), out, i + 1)
    else Serve(settings, queue, stopped, failedTests, i + 1, calls + ServerCalls(settings, queue[i], failedTests), out + [queue[i]])
  }

  /** The first iteration from i on that sees the stop flag, or n. */
  function FirstStop(stopped: nat -> bool, i: nat, n: nat): (k: nat)
    requires i <= n
    ensures i <= k <= n
    ensures forall j :: i <= j < k ==> !stopped(j)
    ensures k < n ==> stopped(k)
    decreases n - i
  {
    if i == n || stopped(i) then i else FirstStop(stopped, i + 1, n)
  }

  /** Every server taken before the stop is tested and put on the output
      queue exactly once, in order; the server taken when the stop is seen
      gets one delete attempt, is not put out, and the loop ends. */
  lemma {:induction false} ServeStops(settings: Settings, queue: seq<Server>, stopped: nat -> bool,
                                      failedTests: Server -> bool, i: nat, calls: seq<Call>, out: seq<Server>)
    requires i <= |queue|
    ensures var r := Serve(settings, queue, stopped, failedTests, i, calls, out);
            var k := FirstStop(stopped, i, |queue|);
            r.out == out + queue[i..k] &&
            r.taken == (if k < |queue| then k + 1 else |queue|) &&
            r.calls == calls + AllCalls(settings, queue[i..k], failedTests) + (if k < |queue| then StopCalls(queue[k]) else [])
    decreases |queue| - i
  {
    var k := FirstStop(stopped, i, |queue|);
    if i == |queue| || stopped(i) {
      assert k == i;
      assert calls + AllCalls(settings, queue[i..k], failedTests) == calls && out + queue[i..k] == out;
    } else {
      var here := ServerCalls(settings, queue[i], failedTests);
      FirstStopNext(stopped, i, |queue|);
      ServeStops(settings, queue, stopped, failedTests, i + 1, calls + here, out + [queue[i]]);
      ServeStep(settings, queue, failedTests, i, k, calls, out);
    }
  }

  /** An iteration that does not see the stop defers to the next one. */
  lemma FirstStopNext(stopped: nat -> bool, i: nat, n: nat)
    requires i < n && !stopped(i)
    ensures FirstStop(stopped, i, n) == FirstStop(stopped, i + 1, n)
  {
  }

  /** Serving queue[i] and then queue[i + 1..k] serves queue[i..k]. */
  lemma ServeStep(settings: Settings, queue: seq<Server>, failedTests: Server -> bool,
                  i: nat, k: nat, calls: seq<Call>, out: seq<Server>)
    requires i < k <= |queue|
    ensures out + [queue[i]] + queue[i + 1..k] == out + queue[i..k]
    ensures calls + ServerCalls(settings, queue[i], failedTests) + AllCalls(settings, queue[i + 1..k], failedTests)
         == calls + AllCalls(settings, queue[i..k], failedTests)
  {
    var run := queue[i..k];
    assert run == [queue[i]] + queue[i + 1..k];
    assert run[1..] == queue[i + 1..k];
  }

  /** Without a stop, every queued server is put out once, in queue order. */
  lemma ServeAll(settings: Settings, queue: seq<Server>, stopped: nat -> bool, failedTests: Server -> bool)
    requires forall j :: !stopped(j)
    ensures var r := Serve(settings, queue, stopped, failedTests, 0, [], []);
            r.out == queue && r.taken == |queue| && r.calls == AllCalls(settings, queue, failedTests)
  {
    ServeStops(settings, queue, stopped, failedTests, 0, [], []);
    assert FirstStop(stopped, 0, |queue|) == |queue|;
    assert queue[0..|queue|] == queue;
    assert [] + AllCalls(settings, queue, failedTests) + [] == AllCalls(settings, queue, failedTests);
  }

  /** A testing worker (class Tester). calls is what it has asked of the
      controller, the runner and the servers; out is its output queue. */
  class Tester {
    const settings: Settings
    var failedFixtures: Option<Result>
    var calls: seq<Call>
    var out: seq<Server>

    constructor (settings: Settings)
      ensures this.settings == settings && failedFixtures == None && calls == [] && out == []
    {
      this.settings := settings;
      failedFixtures := None;
      calls := [];
      out := [];
    }

    /** initialize(): keeps what the runner's setUpFixtures() returned, the
        first failing fixture result or None. */
    method Initialize(setUp: Option<Result>)
      modifies this
      ensures failedFixtures == setUp && calls == old(calls) && out == old(out)
    {
      failedFixtures := setUp;
    }

    /** compromised: a fixture failed to set up. A Result object is always
        truthy, so this is whether one was returned. */
    predicate Compromised()
      reads this
    {
      failedFixtures.Some?
    }

    /** test_server(server) */
    method TestServer(server: Server)
      modifies this
      ensures calls == old(calls) + TestCalls(server)
      ensures out == old(out) && failedFixtures == old(failedFixtures)
    {
      if HasBooted(server) {
        calls := calls + [WaitedFor(server)];
      }
      calls := calls + [RanTests(server)];
    }

    /** delete_server(server); failedTests is what has_failed_tests(server)
        would answer. */
    method DeleteServer(server: Server, failedTests: bool)
      modifies this
      ensures calls == old(calls) + DeleteCalls(settings, server, failedTests)
      ensures out == old(out) && failedFixtures == old(failedFixtures)
    {
      if settings.noDelete || !HasBooted(server) {
      } else if !settings.noDeleteFailed {
        calls := calls + [Deleted(server)];
      } else if !failedTests {
        calls := calls + [Deleted(server)];
      }
    }

    /** One server taken while the worker runs: test_server, then
        delete_server (an exception from either is only logged), then the
        server goes on the output queue. */
    method Handle(server: Server, failedTests: bool)
      modifies this
      ensures calls == old(calls) + (TestCalls(server) + DeleteCalls(settings, server, failedTests))
      ensures out == old(out) + [server] && failedFixtures == old(failedFixtures)
    {
      TestServer(server);
      DeleteServer(server, failedTests);
      out := out + [server];
    }

    /** The server taken after stop(): one delete attempt, whose error is
        only logged, then the runner's cleanup as the loop ends. */
    method StopOn(server: Server)
      modifies this
      ensures calls == old(calls) + StopCalls(server) + [CleanedUp]
      ensures out == old(out) && failedFixtures == old(failedFixtures)
    {
      if HasBooted(server) {
        calls := calls + [Deleted(server)];
      }
      calls := calls + [CleanedUp];
    }

    /** __call__ once the booter has finished, so that queue holds every
        server it will get: the servers are taken in order until the queue
        is empty or the worker is stopped, and the runner is cleaned up once
        at the end. rest is what is left on the input queue. */
    method Run(queue: seq<Server>, stopped: nat -> bool, failedTests: Server -> bool) returns (rest: seq<Server>)
      modifies this
      ensures var r := Serve(settings, queue, stopped, failedTests, 0, old(calls), old(out));
              calls == r.calls + [CleanedUp] && out == r.out && rest == queue[r.taken..]
      ensures failedFixtures == old(failedFixtures)
    {
      ghost var goal := Serve(settings, queue, stopped, failedTests, 0, calls, out);
      var i := 0;
      while i < |queue|
        invariant 0 <= i <= |queue|
        invariant failedFixtures == old(failedFixtures)
        invariant Serve(settings, queue, stopped, failedTests, i, calls, out) == goal
      {
        var server := queue[i];
        if stopped(i) {
          StopOn(server);
          rest := queue[i + 1..];
          return;
        }
        Handle(server, failedTests(server));
        i := i + 1;
      }
      calls := calls + [CleanedUp];
      rest := queue[i..];
    }
  }

  // ---------------------------------------------------------------------
  // Choosing the testing workers

  /** range(lo, hi) */
  function Range(lo: int, hi: int): (r: seq<int>)
    ensures |r| == if hi > lo then hi - lo else 0
    ensures forall k :: 0 <= k < |r| ==> r[k] == lo + k
    decreases hi - lo
  {
    if hi <= lo then [] else [lo] + Range(lo + 1, hi)
  }

  /** xs[:n] */
  function Take<T>(xs: seq<T>, n: nat): (r: seq<T>)
    ensures |r| == if n < |xs| then n else |xs|
    ensures r <= xs
  {
    if n < |xs| then xs[..n] else xs
  }

  /** len(range(1, threads + 1)[:len(host_list)]): one worker per thread,
      but never more workers than hosts. */
  function WorkerCount(threads: int, hosts: nat): (n: nat)
    ensures n == if threads <= 0 then 0 else if threads < hosts then threads else hosts
  {
    |Take(Range(1, threads + 1), hosts)|
  }

  /** filter(controller_filter, testers): the positions, in order, of the
      workers that are not compromised. */
  function Healthy(failed: seq<Option<Result>>): (r: seq<nat>)
    ensures forall k: nat :: k in r <==> k < |failed| && failed[k].None?
    ensures forall a, b :: 0 <= a < b < |r| ==> r[a] < r[b]
    ensures forall a :: 0 <= a < |r| ==> r[a] < |failed|
    ensures (forall k :: 0 <= k < |failed| ==> failed[k].Some?) ==> r == []
  {
    if failed == [] then []
    else
      var before := failed[..|failed| - 1];
      assert forall k :: 0 <= k < |before| ==> before[k] == failed[k];
      Healthy(before) + (if failed[|failed| - 1].None? then [|failed| - 1] else [])
  }

  /** 0, 1, ..., n - 1 */
  function Positions(n: nat): (r: seq<nat>)
    ensures |r| == n && forall k :: 0 <= k < n ==> r[k] == k
  {
    seq(n, k requires 0 <= k < n => k)
  }

  /** The workers that run: the healthy ones if there are any, else all. */
  function ChosenWorkers(failed: seq<Option<Result>>): seq<nat>
  {
    var healthy := Healthy(failed);
    if healthy != [] then healthy else Positions(|failed|)
  }

  /** Some worker always runs when there is one; the compromised workers
      run only when no worker is healthy, and then all of them do. */
  lemma ChosenWorkersFacts(failed: seq<Option<Result>>)
    ensures ChosenWorkers(failed) == [] <==> failed == []
    ensures (exists k :: 0 <= k < |failed| && failed[k].None?) ==>
              forall k: nat :: k in ChosenWorkers(failed) <==> k < |failed| && failed[k].None?
    ensures (forall k :: 0 <= k < |failed| ==> failed[k].Some?) ==> ChosenWorkers(failed) == Positions(|failed|)
  {
    var healthy := Healthy(failed);
    if exists k :: 0 <= k < |failed| && failed[k].None? {
      var k :| 0 <= k < |failed| && failed[k].None?;
      assert k in healthy;
    }
  }

  /** Every chosen position is a worker's. */
  lemma ChosenWorkersBound(failed: seq<Option<Result>>)
    ensures forall j :: 0 <= j < |ChosenWorkers(failed)| ==> ChosenWorkers(failed)[j] < |failed|
  {
    if Healthy(failed) == [] {
      assert ChosenWorkers(failed) == Positions(|failed|);
    }
  }

  /** The testing workers of a run (sanity/cli.py, MainBase.run): one
      Tester per thread, at most one per host, each initialised (setUp(k)
      is what the k-th one's setUpFixtures() returns); then the healthy
      ones, or all of them if none is. */
  method StartTesters(threads: int, hostCount: nat, settings: Settings, setUp: nat -> Option<Result>)
    returns (all: seq<Tester>, chosen: seq<Tester>)
    ensures |all| == WorkerCount(threads, hostCount)
    ensures forall k :: 0 <= k < |all| ==> fresh(all[k]) && all[k].failedFixtures == setUp(k) && all[k].settings == settings
    ensures var failed := seq(|all|, k requires 0 <= k < |all| => setUp(k));
            var picks := ChosenWorkers(failed);
            |chosen| == |picks| && forall j :: 0 <= j < |picks| ==> picks[j] < |all| && chosen[j] == all[picks[j]]
  {
    all := SpawnTesters(WorkerCount(threads, hostCount), settings, setUp);
    var failed := seq(|all|, k requires 0 <= k < |all| => setUp(k));
    var picks := ChosenWorkers(failed);
    ChosenWorkersBound(failed);
    chosen := seq(|picks|, j requires 0 <= j < |picks| => all[picks[j]]);
  }

  /** count new workers, the k-th initialised with setUp(k). */
  method SpawnTesters(count: nat, settings: Settings, setUp: nat -> Option<Result>) returns (all: seq<Tester>)
    ensures |all| == count
    ensures forall k :: 0 <= k < |all| ==> fresh(all[k]) && all[k].failedFixtures == setUp(k) && all[k].settings == settings
  {
    all := [];
    var i := 0;
    while i < count
      invariant 0 <= i <= count && |all| == i
      invariant forall k :: 0 <= k < i ==> fresh(all[k]) && all[k].failedFixtures == setUp(k) && all[k].settings == settings
    {
      var controller := new Tester(settings);
      controller.Initialize(setUp(i));
      all := all + [controller];
      i := i + 1;
    }
  }

  // ---------------------------------------------------------------------
  // expand_hosts

  /** {h.split('.', 1)[0]: h for h in valid}: each host by its short name;
      of two hosts with one short name the one listed later is kept. */
  function ShortNames(valid: seq<string>): (m: map<string, string>)
    ensures forall k :: k in m <==> exists j :: 0 <= j < |valid| && Before(valid[j], '.') == k
    ensures forall k :: k in m ==> m[k] in valid && Before(m[k], '.') == k
  {
    if valid == [] then map[]
    else
      var before := valid[..|valid| - 1];
      var h := valid[|valid| - 1];
      assert forall k :: 0 <= k < |before| ==> before[k] == valid[k];
      ShortNames(before)[Before(h, '.') := h]
  }

  /** valid_hosts_map: every valid host by its full name, then updated with
      every valid host by its short name. */
  function FqdnMap(valid: seq<string>): (m: map<string, string>)
    ensures forall k :: k in m <==> k in valid || exists j :: 0 <= j < |valid| && Before(valid[j], '.') == k
    ensures forall k :: k in m ==> m[k] in valid && (m[k] == k || Before(m[k], '.') == k)
  {
    var full := map h | h in valid :: h;
    full + ShortNames(valid)
  }

  /** valid_hosts_map.get(c), or c itself when that is missing or empty. */
  function Pick(m: map<string, string>, c: string): string
  {
    if c in m && m[c] != "" then m[c] else c
  }

  function Resolve(m: map<string, string>, cs: seq<string>): (r: seq<string>)
    ensures |r| == |cs| && forall k :: 0 <= k < |cs| ==> r[k] == Pick(m, cs[k])
  {
    seq(|cs|, k requires 0 <= k < |cs| => Pick(m, cs[k]))
  }

  /** The names one command-line host expands to, resolved: its expansion
      as a set (listed by enum), each name mapped to its valid host. */
  function ResolveOne(h: string, m: map<string, string>, enum: set<string> -> seq<string>): Option<seq<string>>
  {
    var names := ExpandNames(Joined(h), enum);
    if names.None? then None else Some(Resolve(m, enum(Elems(names.value))))
  }

  function ResolveAll(hosts: seq<string>, m: map<string, string>, enum: set<string> -> seq<string>): Option<seq<string>>
  {
    if hosts == [] then Some([])
    else
      var before := ResolveAll(hosts[..|hosts| - 1], m, enum);
      var last := ResolveOne(hosts[|hosts| - 1], m, enum);
      if before.None? || last.None? then None else Some(before.value + last.value)
  }

  /** expand_hosts(hosts): the valid hosts when none is given; a host
      pattern that does not expand raises. */
  function ExpandHostsSpec(hosts: seq<string>, valid: seq<string>, enum: set<string> -> seq<string>): Option<seq<string>>
  {
    if hosts == [] then Some(valid) else ResolveAll(hosts, FqdnMap(valid), enum)
  }

  /** One host's names: each is a valid host or a name no valid host
      answers to, and (when enum lists sets faithfully) every name the host
      expands to appears, mapped to its valid host. */
  lemma ResolveOneFacts(h: string, valid: seq<string>, enum: set<string> -> seq<string>)
    ensures ResolveOne(h, FqdnMap(valid), enum).None? <==> ExpandNames(Joined(h), enum).None?
    ensures ResolveOne(h, FqdnMap(valid), enum).Some? ==>
              forall x :: x in ResolveOne(h, FqdnMap(valid), enum).value ==> x in valid || x !in FqdnMap(valid)
    ensures ResolveOne(h, FqdnMap(valid), enum).Some? && Lists(enum) ==>
              forall c :: c in ExpandNames(Joined(h), enum).value ==> Pick(FqdnMap(valid), c) in ResolveOne(h, FqdnMap(valid), enum).value
  {
    var m := FqdnMap(valid);
    var names := ExpandNames(Joined(h), enum);
    if names.Some? {
      var cs := enum(Elems(names.value));
      var r := Resolve(m, cs);
      assert ResolveOne(h, m, enum) == Some(r);
      forall x | x in r
        ensures x in valid || x !in m
      {
        var k :| 0 <= k < |cs| && r[k] == x;
        if cs[k] in m && m[cs[k]] != "" {
          assert x == m[cs[k]];
        }
      }
      if Lists(enum) {
        forall c | c in names.value
          ensures Pick(m, c) in r
        {
          assert c in Elems(names.value);
          assert c in Elems(cs);
          var k :| 0 <= k < |cs| && cs[k] == c;
          assert r[k] == Pick(m, c);
        }
      }
    }
  }

  /** expand_hosts raises exactly when one of the hosts given does not
      expand. */
  lemma {:induction false} ResolveAllNone(hosts: seq<string>, m: map<string, string>, enum: set<string> -> seq<string>)
    ensures ResolveAll(hosts, m, enum).None? <==> exists j :: 0 <= j < |hosts| && ResolveOne(hosts[j], m, enum).None?
  {
    if hosts != [] {
      var before := hosts[..|hosts| - 1];
      var last := hosts[|hosts| - 1];
      ResolveAllNone(before, m, enum);
      if ResolveAll(hosts, m, enum).None? {
        if ResolveAll(before, m, enum).None? {
          var j :| 0 <= j < |before| && ResolveOne(before[j], m, enum).None?;
          assert hosts[j] == before[j];
        } else {
          assert ResolveOne(hosts[|hosts| - 1], m, enum).None?;
        }
      } else {
        forall j | 0 <= j < |hosts| ensures ResolveOne(hosts[j], m, enum).Some? {
          if j < |hosts| - 1 {
            assert hosts[j] == before[j];
          }
        }
      }
    }
  }

  /** Every name expand_hosts returns for the hosts given is a valid host
      or a name no valid host answers to. */
  lemma {:induction false} ResolveAllKnown(hosts: seq<string>, valid: seq<string>, enum: set<string> -> seq<string>)
    ensures ResolveAll(hosts, FqdnMap(valid), enum).Some? ==>
              forall x :: x in ResolveAll(hosts, FqdnMap(valid), enum).value ==> x in valid || x !in FqdnMap(valid)
  {
    if hosts != [] {
      var before := hosts[..|hosts| - 1];
      ResolveAllKnown(before, valid, enum);
      ResolveOneFacts(hosts[|hosts| - 1], valid, enum);
    }
  }

  /** When enum lists sets faithfully, every name a given host expands to
      is in what expand_hosts returns, mapped to its valid host. */
  lemma {:induction false} ResolveAllComplete(hosts: seq<string>, valid: seq<string>, enum: set<string> -> seq<string>, j: nat, c: string)
    requires Lists(enum) && j < |hosts|
    requires ResolveAll(hosts, FqdnMap(valid), enum).Some?
    ensures ExpandNames(Joined(hosts[j]), enum).Some?
    ensures c in ExpandNames(Joined(hosts[j]), enum).value ==>
              Pick(FqdnMap(valid), c) in ResolveAll(hosts, FqdnMap(valid), enum).value
  {
    var m := FqdnMap(valid);
    var before := hosts[..|hosts| - 1];
    var last := hosts[|hosts| - 1];
    ResolveOneFacts(last, valid, enum);
    if j < |hosts| - 1 {
      assert before[j] == hosts[j];
      ResolveAllComplete(before, valid, enum, j, c);
    } else {
      ResolveOneFacts(hosts[j], valid, enum);
    }
  }

  /** The names one expansion resolves to (the inner loop of expand_hosts). */
  method ResolveNames(validMap: map<string, string>, canonical: seq<string>) returns (names: seq<string>)
    ensures names == Resolve(validMap, canonical)
  {
    names := [];
    var j := 0;
    while j < |canonical|
      invariant 0 <= j <= |canonical|
      invariant names == Resolve(validMap, canonical[..j])
    {
      var withFqdn := if canonical[j] in validMap then validMap[canonical[j]] else "";
      if withFqdn != "" {
        names := names + [withFqdn];
      } else {
        names := names + [canonical[j]];
      }
      j := j + 1;
    }
    assert canonical[..j] == canonical;
  }

  /** MainBase.expand_hosts(hosts); valid is what the hosts() helper lists. */
  method ExpandHosts(hosts: seq<string>, valid: seq<string>, enum: set<string> -> seq<string>) returns (r: Option<seq<string>>)
    ensures r == ExpandHostsSpec(hosts, valid, enum)
  {
    if hosts == [] {
      return Some(valid);
    }
    var validMap := FqdnMap(valid);
    var hostsToTest: seq<string> := [];
    var i := 0;
    while i < |hosts|
      invariant 0 <= i <= |hosts|
      invariant ResolveAll(hosts[..i], validMap, enum) == Some(hostsToTest)
    {
      ResolveAllPrefix(hosts, validMap, enum, i);
      var names := Expand(Joined(hosts[i]), enum);
      if names.None? {
        ResolveAllFails(hosts, validMap, enum, i + 1);
        return None;
      }
      var resolved := ResolveNames(validMap, enum(Elems(names.value)));
      assert ResolveOne(hosts[i], validMap, enum) == Some(resolved);
      hostsToTest := hostsToTest + resolved;
      i := i + 1;
    }
    assert hosts[..i] == hosts;
    r := Some(hostsToTest);
  }

  /** One more host of the command line resolved after the ones before. */
  lemma ResolveAllPrefix(hosts: seq<string>, m: map<string, string>, enum: set<string> -> seq<string>, i: nat)
    requires i < |hosts|
    ensures ResolveAll(hosts[..i + 1], m, enum) ==
      (var before := ResolveAll(hosts[..i], m, enum);
       var last := ResolveOne(hosts[i], m, enum);
       if before.None? || last.None? then None else Some(before.value + last.value))
  {
    assert hosts[..i + 1][..i] == hosts[..i];
  }

  /** Once a host fails to expand, expand_hosts raises. */
  lemma {:induction false} ResolveAllFails(hosts: seq<string>, m: map<string, string>, enum: set<string> -> seq<string>, n: nat)
    requires 0 < n <= |hosts| && ExpandNames(Joined(hosts[n - 1]), enum).None?
    ensures ResolveAll(hosts, m, enum).None?
    decreases |hosts|
  {
    if n < |hosts| {
      var before := hosts[..|hosts| - 1];
      assert before[n - 1] == hosts[n - 1];
      ResolveAllFails(before, m, enum, n);
    }
  }

  // ---------------------------------------------------------------------
  // sig_int and _eta

  /** A worker thread's stop flag (ChildThread.stop()). */
  class ChildThread {
    var stopped: bool

    constructor ()
      ensures !stopped
    {
      stopped := false;
    }

    method Stop()
      modifies this
      ensures stopped
    {
      stopped := true;
    }
  }

  /** timedelta(seconds=3), in microseconds. */
  const SigIntWindow: int := 3000000

  /** The driver's SIGINT state (MainBase). Times are datetime.utcnow()
      values in microseconds, passed in. */
  class MainBase {
    var sigIntedAt: int
    var threadControllers: seq<ChildThread>

    constructor (now: int)
      ensures sigIntedAt == now && threadControllers == []
    {
      sigIntedAt := now;
      threadControllers := [];
    }

    /** sig_int(): a second Ctrl-C within three seconds of the last one
        that armed the handler stops every worker; any other one arms it. */
    method SigInt(now: int) returns (shutDown: bool)
      modifies this, set c | c in threadControllers
      ensures threadControllers == old(threadControllers)
      ensures shutDown <==> now - old(sigIntedAt) < SigIntWindow
      ensures shutDown ==> sigIntedAt == old(sigIntedAt) && forall c :: c in threadControllers ==> c.stopped
      ensures !shutDown ==> sigIntedAt == now && forall c :: c in threadControllers ==> c.stopped == old(c.stopped)
    {
      if now - sigIntedAt < SigIntWindow {
        var i := 0;
        while i < |threadControllers|
          invariant 0 <= i <= |threadControllers|
          invariant threadControllers == old(threadControllers) && sigIntedAt == old(sigIntedAt)
          invariant forall k :: 0 <= k < i ==> threadControllers[k].stopped
          modifies set c | c in threadControllers
        {
          threadControllers[i].Stop();
          i := i + 1;
        }
        shutDown := true;
      } else {
        sigIntedAt := now;
        shutDown := false;
      }
    }
  }

  /** _eta(completed_hosts, remaining_hosts), with elapsed the microseconds
      since the run started: timedelta / int rounds down, so it is floor
      division; no completed host divides by zero. */
  datatype Eta = NoEta | Eta(micros: int) | ZeroDivision

  function EtaOf(elapsed: int, completed: nat, remaining: int): (e: Eta)
    ensures e.NoEta? <==> remaining == 0
    ensures e.ZeroDivision? <==> remaining != 0 && completed == 0
  {
    if remaining == 0 then NoEta
    else if completed == 0 then ZeroDivision
    else Eta((elapsed / completed) * remaining)
  }

  /** The estimate is the time per completed host, rounded down, times the
      hosts remaining: it never exceeds elapsed * remaining / completed and
      falls short of it by less than one microsecond per remaining host. */
  lemma EtaBounds(elapsed: int, completed: nat, remaining: int)
    requires completed > 0 && remaining > 0
    ensures var e := EtaOf(elapsed, completed, remaining);
            e.Eta? && e.micros * completed <= elapsed * remaining < (e.micros + remaining) * completed
  {
    var per := elapsed / completed;
    assert per * completed <= elapsed < per * completed + completed;
    MulMonotone(per * completed, elapsed, remaining);
    MulMonotone(elapsed + 1, per * completed + completed, remaining);
    assert (per * remaining) * completed == (per * completed) * remaining;
    assert (per * remaining + remaining) * completed == (per * completed + completed) * remaining;
  }

  lemma MulMonotone(a: int, b: int, c: int)
    requires a <= b && c > 0
    ensures a * c <= b * c
  {
  }
}
