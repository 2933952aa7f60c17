# sdu-test-sanity, modelled in Dafny

sdu-test-sanity is a sanity harness for an OpenStack cloud. It boots one server on every
nova-compute host, or finds the servers already there, and runs a set of checks against each one:

- **boot:** did the server reach ACTIVE?
- **console log:** did cloud-init finish?
- **ping:** do its IPv4 addresses answer?
- **floating IP:** does a floating IP attach?

Results are recorded per test, host and server, and reported as tables of failures and errors.
Servers are deleted afterwards according to a delete policy.

This project models the harness's deterministic decision logic. Every cloud client (nova,
neutron, glance, keystone), the clock, `sleep`, the console fetch, `ping` and the regular
expressions are oracles: parameters of the model, mostly total functions from "the k-th call" to
its answer. What is left is sequential code over finite data, and its behaviour is stated and
proved.

| file | module | models |
|---|---|---|
| wrappers.dfy | Wrappers | `Option` and `Outcome` (a value, or the text of an exception raised) |
| text.dfy | Text | `str(int)`, `zfill`, `int()`, `strip`, `split`, `join` on `seq<char>` |
| results.dfy | Results | the result classes of `sanity/results.py`, with the scenario `Success` and `CloudInitSuccess` |
| scenarios.dfy | Scenarios | `UnbootableServer`, `has_booted`, the scenario wrappers, the scenario catalogue |
| boot.dfy, console.dfy, ping.dfy | BootScenario, ConsoleScenario, PingScenario | the three checks |
| fixtures.dfy | Fixtures | the fixture wrappers, `useFixture`, `getFixtures`, the fixture catalogue |
| floatingip.dfy | FloatingIPFixture | the floating-IP fixture as a class with its bounded waits |
| runner.dfy | ScenarioRunner | the scenario/fixture lifecycle of `Runner` |
| result_store.dfy | ResultStore | `SanityController`'s result store and its reports |
| server_wait.dfy | ServerWait | `list_servers` paging and the `wait_for_servers` polling loop |
| sanity_state.dfy | SanityStateCache | `SanityState`'s lazy get-or-create resource cache, its selection rules, `setUp`, `tearDown` and the clean-up calls |
| pyrepr.dfy | PyRepr | Python 2.7's `repr()` of a unicode string, as `%r` prints it |
| order.dfy | Order | Python's string and tuple ordering and the stable sort behind `sorted()` |
| host_lists.dfy | HostLists | the host-range expander (`foo[01-10]`, set difference with `-`) |
| host_compress.dfy | HostCompress | `multikeysort`, `compress_domain` and `compress` |
| cli.dfy | Cli | the booter, the lister, the testing worker, worker selection, `expand_hosts`, `sig_int`, `_eta` |

Modelling conventions:

- Durations are microseconds (`nat`). `timedelta.seconds` is the seconds part without whole days.
- Python 2 dictionaries and sets have no defined order. They become `map` and `set`. Where the
  source iterates over a set, the order is an oracle (`enum`) or an arbitrary choice.
- Objects whose fields the source updates in place are classes:
  - `SanityController`;
  - `SanityState`;
  - `FloatingIPFixture`;
  - `Runner`;
  - `Tester`;
  - `MainBase`;
  - `ChildThread`.
- Each loop is a method. Most are proved equal to a recursive specification function, and the
  properties are lemmas about those functions. A few (`GetFlavor`, `GetImage`, `SpawnTesters`,
  `MainBase.SigInt`) are proved against ensures that state their result's properties directly.
- `compress_domain` and `compress` take the grouping rule as a parameter: `AsWritten` is the
  program, `KeepPadding` the corrected grouping of the finding below.

## Model

| member | source | states |
|---|---|---|
| Results.Seconds | sanity/results.py:34 | `timedelta.seconds` is below one day and, within a day, is the whole seconds of the duration |
| Results.NewFailure | sanity/results.py:47-55 | a text exception is stored verbatim with no traceback; an exception object is stored as "type: message" with the traceback; no exception leaves both None |
| Results.NewError | sanity/results.py:77-79 | an Error keeps Failure's exception handling but always records the traceback |
| Results.ErrorFromHandler | sanity/scenarios/__init__.py:111-112 | `Error()` raised in a handler is a failure with empty reason, no exception text and the current traceback |
| Results.ClockRoundTrip | sanity/results.py:57-63 | the "MM:SS" text reads back as (s mod 3600) div 60 and s mod 60, both below 60, recombining to s mod 3600 |
| Results.Str | sanity/results.py:57-100 | `str()` has its own text exactly for the result kinds that define `__str__` (not the base Result or Success) |
| Results.FailureTextShowsDuration | sanity/results.py:57-87 | a zero duration prints bare FAILURE/ERROR; otherwise the kind, a space and the MM:SS clock of the duration |
| Results.FloatIntPartOfDecimal | sanity/scenarios/console.py:21 | `int(float(t))` of "n.frac" is n |
| Results.ToDict | sanity/results.py:31-95 | every dict has 'result' (the class name) and 'duration' (whole seconds); reason and traceback exactly for failures; 'exception' only for Failure; 5, 4 or 2 keys; only an unreadable boot time raises |
| Results.DictKeepsFailureStatus | sanity/results.py:65-95 | a result is a failure exactly when its dict's 'result' is Failure or Error |
| Scenarios.NewUnbootable | sanity/scenarios/__init__.py:27-36 | a falsy id becomes "UnbootableServer" and a falsy status None; name, metadata and host are kept; the server has not booted |
| Scenarios.TestTableIsShortNames | sanity/scenarios/__init__.py:152-163 | the catalogue maps each scenario's short name to it and nothing else; the default list names catalogue entries only |
| Scenarios.GetEnabledTests | sanity/scenarios/__init__.py:166-173 | [] means the default list; otherwise each name's class in order, duplicates kept; the first unknown name raises ValueError |
| Scenarios.Stamp | sanity/scenarios/__init__.py:115-116 | stamping sets the duration to end - start and changes neither the class nor the failure status |
| Scenarios.HookResult | sanity/scenarios/__init__.py:108-114 | no hook gives the default; otherwise the hook's result, or Error with the traceback when it raised |
| Scenarios.ScenarioStep | sanity/scenarios/__init__.py:103-117 | setUp/tearDown return Success when no hook exists; a failure only comes from a hook; the duration is stamped |
| Scenarios.TestStep | sanity/scenarios/__init__.py:119-127 | test_server returns the check's result stamped, or an Error with the traceback when it raised |
| BootScenario.BootBody | sanity/scenarios/boot.py:37-51 | the four branches: never booted, ACTIVE, not scheduled to a host, stuck; the reasons and fault-message exceptions as written; a missing host attribute raises |
| BootScenario.BootVerdict | sanity/scenarios/boot.py:37-51 | the check fails exactly when the server is not a booted ACTIVE one; it errors exactly when the host attribute is missing; a failure on a booted server carries the fault message |
| ConsoleScenario.FirstMatch | sanity/scenarios/console.py:61-63 | the reason returned is the one of a pattern found in the output; none exactly when no pattern matches |
| ConsoleScenario.FailureResOrder | sanity/scenarios/console.py:31-46 | the metadata pattern beats the kernel-panic pattern, which beats nothing |
| ConsoleScenario.SearchFailures | sanity/scenarios/console.py:61-63 | the loop over failure_res returns the first match |
| ConsoleScenario.Verdict | sanity/scenarios/console.py:54-68 | a poll fails exactly when the fetch raised, a failure pattern matched or the count passed 20; it passes exactly when none of these held and cloud-init finished; a kernel panic wins over a finished line |
| ConsoleScenario.CheckFetch | sanity/scenarios/console.py:55-68 | the loop body decides as Verdict does |
| ConsoleScenario.SleepTotalClosedForm | sanity/scenarios/console.py:70-71 | after n polls the check has slept 2 + 4 + ... + 2n = n(n+1) seconds |
| ConsoleScenario.ConsoleBody | sanity/scenarios/console.py:48-77 | a non-ACTIVE server is skipped with no fetch; otherwise 1 to 21 fetches, every earlier poll undecided and the last one's verdict returned, with the sleeps accounted |
| PingScenario.FailedInMembers | sanity/scenarios/ping.py:38-44 | a pair is reported for a network exactly when it lists the address as IPv4 and the ping fails |
| PingScenario.FailedPingsMembers | sanity/scenarios/ping.py:38-44 | over all networks, a pair is reported exactly when some network of that name lists the address as IPv4 and the ping fails |
| PingScenario.PingBody | sanity/scenarios/ping.py:33-53 | non-ACTIVE is Skipped; otherwise the failed pairs in order; Success when there are none; else Failure with their repr |
| PingScenario.ReprPlainPair | sanity/scenarios/ping.py:52 | one failed pair of plain names prints as [(u'net', u'addr')] |
| PingScenario.PingVerdict | sanity/scenarios/ping.py:36-53 | an ACTIVE server fails exactly when one of its IPv4 addresses does not answer |
| Fixtures.GetEnabledFixtures | sanity/fixtures/__init__.py:112-119 | each name's class in order; no defaults; the first unknown name raises ValueError |
| Fixtures.FunctionAttrs.UseFixture | sanity/fixtures/__init__.py:85-92 | the fixture list is created on first use and the fixture is appended |
| Fixtures.DecorateInOrder | sanity/fixtures/__init__.py:85-92 | decorating with each fixture in turn declares them in decoration order |
| Fixtures.GetFixtures | sanity/fixtures/__init__.py:95-102 | the fixtures of the private `_name` method when it exists (none when undecorated), else of the method itself, else [] |
| Fixtures.Step | sanity/fixtures/__init__.py:34-45 | a hook returning the stored result stamps it; a new result is stamped and the stored one kept; a raise gives an Error |
| Fixtures.SetUpOrTearDown | sanity/fixtures/__init__.py:34-58 | with no hook the stored result is returned and stamped; otherwise the hook's step |
| Fixtures.EnableOrDisable | sanity/fixtures/__init__.py:60-82 | a stored failure is returned unchanged without calling the hook; otherwise the hook's step; the stored failure status never changes |
| FloatingIPFixture.SetUpHook | sanity/fixtures/floatingip.py:54-68 | an IP already held or a stored failure leaves the state alone; it returns the stored result; the stored address always belongs to the IP held |
| FloatingIPFixture.TearDownHook | sanity/fixtures/floatingip.py:70-79 | no IP: nothing; else the IP is deleted and forgotten; a raising delete keeps it |
| FloatingIPFixture.SetUpSpec | sanity/fixtures/floatingip.py:54-68 | setUp returns the stored result, stamped, and keeps the address consistent |
| FloatingIPFixture.TearDownSpec | sanity/fixtures/floatingip.py:70-79 | tearDown is stamped and keeps the address consistent |
| FloatingIPFixture.EnableSpec | sanity/fixtures/floatingip.py:86-123 | enable never changes the IP held nor the stored failure status |
| FloatingIPFixture.DisableSpec | sanity/fixtures/floatingip.py:125-148 | disable never changes the IP held nor the stored failure status |
| FloatingIPFixture.FloatingIPFixture.constructor | sanity/fixtures/floatingip.py:51-52 | a new fixture holds no IP and the class-level Success |
| FloatingIPFixture.FloatingIPFixture.SetUpHookM | sanity/fixtures/floatingip.py:54-68 | `_setUp` updates the fields as SetUpHook states |
| FloatingIPFixture.FloatingIPFixture.TearDownHookM | sanity/fixtures/floatingip.py:70-79 | `_tearDown` updates the fields as TearDownHook states |
| FloatingIPFixture.WaitFromMeaning | sanity/fixtures/floatingip.py:95-107 | a status wait gives up exactly when polls 0..8 all keep it waiting, and raises exactly when a poll raises after the ones before it kept it waiting, with that poll's traceback |
| FloatingIPFixture.FloatingIPFixture.WaitWhileDown | sanity/fixtures/floatingip.py:95-107 | the association wait gives up exactly when polls 0..8 all read DOWN; a raising poll ends it with its traceback |
| FloatingIPFixture.FloatingIPFixture.WaitForPing | sanity/fixtures/floatingip.py:111-122 | the ping wait gives up exactly when pings 0..8 all fail |
| FloatingIPFixture.FloatingIPFixture.WaitUntilDown | sanity/fixtures/floatingip.py:131-144 | the disassociation wait gives up exactly when polls 0..8 all read something other than DOWN; a raising poll ends it with its traceback |
| FloatingIPFixture.FloatingIPFixture.EnableHookM | sanity/fixtures/floatingip.py:81-123 | `_enableFixture` returns what EnableHook states: Skipped, a raise of the attach call or of any get_floatingip() read (the first one, which raises TypeError when no IP is held, or a poll), the ping failure, the association failure, or the stored result |
| FloatingIPFixture.FloatingIPFixture.DisableHookM | sanity/fixtures/floatingip.py:125-148 | `_disableFixture` returns what DisableHook states: Skipped, a raise of the detach call or of any get_floatingip() read, the disassociation failure, or the stored result |
| FloatingIPFixture.FloatingIPFixture.SetUp | sanity/fixtures/__init__.py:34-45 | `Fixture.setUp` updates the state and returns as SetUpSpec states |
| FloatingIPFixture.FloatingIPFixture.TearDown | sanity/fixtures/__init__.py:47-58 | `Fixture.tearDown` updates the state and returns as TearDownSpec states |
| FloatingIPFixture.FloatingIPFixture.EnableFixture | sanity/fixtures/__init__.py:60-70 | `Fixture.enableFixture` as EnableSpec states, a stored failure short-circuiting |
| FloatingIPFixture.FloatingIPFixture.DisableFixture | sanity/fixtures/__init__.py:72-82 | `Fixture.disableFixture` as DisableSpec states |
| FloatingIPFixture.SetUpCreatesAtMostOnce | sanity/fixtures/floatingip.py:55-56 | once an IP is held or setUp failed, setUp gives the same answer whatever the create call would do, and keeps the IP |
| FloatingIPFixture.FailedCreationShortCircuits | sanity/fixtures/floatingip.py:58-63 | a failed creation stores an Error, and every later enable and disable returns it untouched |
| FloatingIPFixture.TearDownThenSetUpCreatesAgain | sanity/fixtures/floatingip.py:70-79 | after tearDown no IP is held, and the next setUp creates and records a fresh one |
| FloatingIPFixture.EnableOutcomes | sanity/fixtures/floatingip.py:95-123 | a raising get_floatingip() read is an Error that leaves the state alone; otherwise a ping time-out gives the ping failure (overwriting an association failure), else an association time-out gives its failure, else the stored result |
| FloatingIPFixture.InactiveServerSkipped | sanity/fixtures/floatingip.py:86-127 | a non-ACTIVE server is Skipped by enable and disable, with the state unchanged |
| ScenarioRunner.DeclaredFixtures | sanity/scenarios/float.py:33 | only the float scenario declares a fixture: the floating IP |
| ScenarioRunner.HostKey | sanity/runner.py:97-98 | the host key is the scheduling host when truthy, else metadata['host_id']; None exactly when either read raises |
| ScenarioRunner.Runner.constructor | sanity/runner.py:32-56 | one scenario instance per class given, in order, and no fixtures |
| ScenarioRunner.Runner.SetUpFixture | sanity/runner.py:87-92 | the fixture is created on first use and set up, the map updated at its key |
| ScenarioRunner.Runner.SetUpFixtures | sanity/runner.py:84-94 | the walk over tests and declared fixtures, ending at the first failing setUp |
| ScenarioRunner.Runner.EnableFixture | sanity/runner.py:165 | enables the fixture in the map and stores its new state |
| ScenarioRunner.Runner.RunTestFixture | sanity/runner.py:152-170 | one fixture's setUp and enable; done exactly when one failed and was recorded |
| ScenarioRunner.Runner.RunTest | sanity/runner.py:142-174 | `_run_test` updates the fixtures and the store as RunTestFrom states |
| ScenarioRunner.Runner.DisableFixtures | sanity/runner.py:122-125 | disables every declared fixture; raises exactly when one was never created |
| ScenarioRunner.Runner.RunOneTest | sanity/runner.py:100-125 | one scenario on one server, as RunOne states, including the fixtures a raising disable leaves behind (those disabled before the missing one stay disabled) |
| ScenarioRunner.Runner.RunServer | sanity/runner.py:96-125 | `run_server` as RunServerSpec states; a raise stops it where it was, and the fixture map is stated on that path too, since the caller goes on with the same runner |
| ScenarioRunner.Runner.TearDownFixtures | sanity/runner.py:80-81 | every fixture is torn down once |
| ScenarioRunner.Runner.RunAll | sanity/runner.py:77-82 | every server in turn, then every fixture torn down and the map emptied; a raise leaves the fixtures as the failing server left them |
| ScenarioRunner.Runner.Cleanup | sanity/runner.py:127-136 | every fixture is torn down; failures are only logged and the map is kept |
| ScenarioRunner.SetUpFixturesKeepsIps | sanity/runner.py:84-94 | fixtures are only added, only of declared classes, and a held IP is never replaced |
| ScenarioRunner.StoredFailureSticks | sanity/fixtures/floatingip.py:55-56 | a fixture whose stored result failed fails every later setUp |
| ScenarioRunner.SetUpFixturesMeetsFailure | sanity/runner.py:84-94 | a walk that will reach a fixture holding a failure returns a failure |
| ScenarioRunner.SetUpFixturesStoresFailure | sanity/runner.py:84-94 | a failing walk leaves its failure stored in a fixture the walk reached |
| ScenarioRunner.SetUpFixturesFailsAgain | sanity/runner.py:84-94 | once setUpFixtures has failed it fails again on the next call, whatever the cloud answers |
| ScenarioRunner.RunTestRecordsOnce | sanity/runner.py:142-174 | `_run_test` records exactly one result under its test name and the server's key, and never raises |
| ScenarioRunner.RunTestsTouchOnlyServer | sanity/runner.py:100-125 | `run_server` changes no result outside its own tests and the server's key |
| ScenarioRunner.DisableKeepsKeys | sanity/runner.py:122-125 | the disables keep the set of fixtures, whether or not they raise |
| ScenarioRunner.DisableRaisesIffMissing | sanity/runner.py:122-123 | the disables raise exactly when a declared fixture was never created |
| ScenarioRunner.ScenarioSetUpFailureSkipsFixtures | sanity/runner.py:102-107 | a failed scenario setUp is recorded and touches no fixture |
| ScenarioRunner.HostlessServerRaises | sanity/runner.py:97-99 | a server without a readable host raises before anything is set up or recorded |
| ScenarioRunner.TearDownReleasesIps | sanity/runner.py:80-81 | tearing down keeps every fixture; a deleted IP is no longer held; a raising delete keeps it |
| ResultStore.Added | sanity/controller.py:655-658 | adding registers the test name |
| ResultStore.AddedLookup | sanity/controller.py:655-663 | adding replaces the entry at its own key and leaves every other lookup as it was |
| ResultStore.ReportsListRecordedFailures | sanity/controller.py:856-876 | both reports have an entry for every test; errors are among failures; an entry is listed exactly when recorded with a failure (an Error) |
| ResultStore.HasFailedTestsIffReported | sanity/controller.py:780-788 | a server has failed tests exactly when a failure report names it |
| ResultStore.AddedHasFailedTests | sanity/controller.py:780-788 | recording a failure marks its server failed; recording for another server leaves this one as it was |
| ResultStore.KeepIn | sanity/controller.py:834-839 | the known columns kept are exactly those present, in order, without repeats |
| ResultStore.Cells | sanity/controller.py:850-852 | one cell per column, the text of that test's result for the key |
| ResultStore.SanityController.constructor | sanity/controller.py:642-647 | the store starts empty |
| ResultStore.SanityController.AddTestResult | sanity/controller.py:655-658 | `add_test_result` leaves the store as Added states |
| ResultStore.SanityController.GetTestResult | sanity/controller.py:660-663 | returns the recorded result or None; an unknown test is registered empty |
| ResultStore.SanityController.ReportColumns | sanity/controller.py:833-841 | every test once; the known ones first, in their fixed order |
| ResultStore.SanityController.ReportResults | sanity/controller.py:827-854 | the columns; the recorded (host, server) keys in strictly ascending order; one row per key with each test's cell; the compute hosts with no result |
| ResultStore.KnownColumns | sanity/controller.py:834-839 | the known-columns loop computes KeepIn |
| ResultStore.AppendRest | sanity/controller.py:840-841 | the other tests are appended once each after the known ones |
| ResultStore.SortKeys | sanity/controller.py:831 | `sorted()` of distinct pairs is strictly ascending and loses none |
| ResultStore.BuildRows | sanity/controller.py:847-853 | the row loop builds [host, server] and the cells for each key |
| ResultStore.MissingHosts | sanity/controller.py:845-849 | a listed host is missing exactly when no row names it |
| ResultStore.AggNamesMembers | sanity/controller.py:889-892 | an aggregate's name is reported for a host exactly when that aggregate lists the host |
| ResultStore.NamesForMembers | sanity/controller.py:891-892 | one aggregate contributes its name to a host exactly when it lists that host |
| ResultStore.AddAggregate | sanity/controller.py:891-892 | the inner loop appends one aggregate's name once per listing of each host |
| ResultStore.GroupAggregates | sanity/controller.py:889-892 | the loop fills `aggregates` so that `get(h, [])` is AggNames for every h |
| ResultStore.SortHosts | sanity/controller.py:894 | `sorted()` of the hosts is ascending, a permutation, and keeps distinctness |
| ResultStore.JoinCells | sanity/controller.py:894-895 | one cell per host: the comma-joined aggregate names |
| ResultStore.SanityController.ReportAggregates | sanity/controller.py:878-896 | the hosts ascending (all compute hosts, or each recorded host once) with the comma-joined aggregates listing each |
| ServerWait.SanityServers | sanity/controller.py:734-738 | the listed servers whose names carry the prefix, and only those |
| ServerWait.ScanListing | sanity/controller.py:810-820 | a poll finishes exactly when a watched server is listed and every listed watched server is settled |
| ServerWait.Ids | sanity/controller.py:801 | the set of ids is exactly the ids of the servers |
| ServerWait.PollOnce | sanity/controller.py:806-820 | one poll lists, filters and scans |
| ServerWait.WaitForServers | sanity/controller.py:791-825 | [] returns at once; otherwise at most timeout polls, all but the last undecided; it returns the last poll's verdict or raises the time-out after exactly the limit |
| ServerWait.ListServers | sanity/controller.py:106-131 | `list_servers` as written computes Listing with Python 2's None comparison |
| ServerWait.ListServersNoLimitFirstPage | sanity/controller.py:110-128 | without a limit, as written, only the first page comes back |
| ServerWait.ListingReadsUpToEmptyPage | sanity/controller.py:116-131 | read as intended, the listing collects every page up to the first empty one |
| ServerWait.ListingIntendedReadsAllPages | sanity/controller.py:116-131 | without a limit, the intended listing returns every page up to the first empty one |
| ServerWait.ListServersDropsSecondPage | sanity/controller.py:127-128 | two pages and no limit: as written [a], as intended [a, b] |
| ServerWait.ListingWithLimitAgrees | sanity/controller.py:110-131 | with a limit given, both readings agree |
| SanityStateCache.GetFlavor | sanity/controller.py:223-230 | the first candidate that matches anything, and the first flavor it matches by id or name; raises exactly when none matches |
| SanityStateCache.NameAfterIsWeakOrder | sanity/controller.py:271-276 | name-descending is a strict weak order on images |
| SanityStateCache.GetImage | sanity/controller.py:270-279 | an image whose name matches, none later in name order, and the first listed under that name (the sort is stable); ImageNotFound exactly when none matches |
| SanityStateCache.SortFirstNamed | sanity/controller.py:271-276 | sorting by name keeps, for every name, the first image listed under it ahead of the others |
| SanityStateCache.ZoneIntended | sanity/controller.py:296-304 | the intended zone is listed, and an ignored zone is only chosen when asked for by name |
| SanityStateCache.GetAvailabilityZone | sanity/controller.py:296-304 | the loop as written picks ZoneAsWritten or raises |
| SanityStateCache.ConfiguredZoneIgnored | sanity/controller.py:298-299 | with a configured zone "az1", as written "internal" is chosen; as intended "az1" |
| SanityStateCache.ZoneIntendedPicksWanted | sanity/controller.py:296-304 | the wanted zone is found when no usable zone precedes it |
| SanityStateCache.FormatNamePrefixField | sanity/controller.py:358 | formatting "prefix{0}" gives the prefix followed by the argument |
| SanityStateCache.DefaultGroupName | sanity/controller.py:145 | the default security group is named after the creation time |
| SanityStateCache.OnlyMatch | sanity/controller.py:445-456 | a router or network is found exactly when exactly one has the name |
| SanityStateCache.FirstMatching | sanity/controller.py:394-400 | the group found matches; none exactly when no group matches |
| SanityStateCache.SanityState.constructor | sanity/controller.py:134-170 | every cache starts empty, with the group name template |
| SanityStateCache.SanityState.GetFlavorId | sanity/controller.py:217-236 | resolved only while the cache is empty, the flavor's id cached; a cached id is returned untouched |
| SanityStateCache.SanityState.GetCachedImage | sanity/controller.py:265-285 | the image property resolves once and caches |
| SanityStateCache.SanityState.GetCachedZone | sanity/controller.py:291-310 | the zone property resolves once, caching the zone name |
| SanityStateCache.SanityState.GetExternalNet | sanity/controller.py:241-260 | the first matching network, cached; raises when none matches |
| SanityStateCache.SanityState.GetKeypair | sanity/controller.py:315-350 | the existing keypair, else a created one; nothing is looked up once cached |
| SanityStateCache.SanityState.GetSecurityGroup | sanity/controller.py:355-420 | an existing matching group is reused with no create; else one named after the time is created and its name kept |
| SanityStateCache.SanityState.GetRouter | sanity/controller.py:425-478 | the only router of that name, else a created one |
| SanityStateCache.SanityState.GetNetwork | sanity/controller.py:501-558 | with floating IPs, the only network of that name, else a created one, cached at once, whose created subnet is attached to the cached router by one request (a raising attach call is raised, with both left created); otherwise the external network |
| SanityStateCache.SanityState.CleanKeypair | sanity/controller.py:336-344 | deletes the cached keypair and then any found under the name; the cache is emptied |
| SanityStateCache.SanityState.CleanSecurityGroup | sanity/controller.py:402-414 | deletes the cached group, or else the first matching one; the cache is emptied |
| SanityStateCache.SanityState.CleanRouter | sanity/controller.py:458-472 | deletes the cached router and then the only one found; the cache is emptied |
| SanityStateCache.SanityState.CleanNetwork | sanity/controller.py:527-535 | deletes the cached network and then the only one found; the cache is emptied |
| SanityStateCache.SecurityGroupTwice | sanity/controller.py:416-420 | asking twice gives one group and at most one create; an existing match means no create at all |
| SanityStateCache.KeypairAfterClean | sanity/controller.py:336-350 | a cleaned keypair is looked up again on next use |
| SanityStateCache.SecurityGroupRules | sanity/controller.py:369-392 | raises exactly when a rule creation fails other than by an HttpException saying "conflict" in any case, with that error, and requests no later rule; on success the ICMP rule and then the SSH rule (TCP 22) are requested |
| SanityStateCache.RulesRerun | sanity/controller.py:369-392 | rules that already exist pass whatever case neutron spells the conflict in; a non-HTTP error saying "conflict" still raises |
| SanityStateCache.UnattachedExactly | sanity/controller.py:615-621 | a floating IP is deleted exactly when one listed under its id has no port |
| SanityStateCache.SanityState.CleanFloatingIp | sanity/controller.py:615-621 | deletes the IPs attached to no port, in listing order, and exactly those |
| SanityStateCache.SubnetToClean | sanity/controller.py:579-588 | a subnet is found exactly when one has the subnet's name, or the only network of that name lists subnets |
| SanityStateCache.LastSubnet | sanity/controller.py:585-586 | the loop keeps the network's last subnet, and none when it lists none |
| SanityStateCache.DeletePorts | sanity/controller.py:605-609 | one port deletion per stale port, in listing order |
| SanityStateCache.SubnetCleanupMeaning | sanity/controller.py:592-610 | raises exactly when detaching fails other than by NotFound, the delete fails other than by an HttpException, or the retry after a conflict fails; on success the router is detached first, the subnet delete is last, and after a conflict every stale port is deleted before it |
| SanityStateCache.CleanSubnetSpec | sanity/controller.py:579-588 | when no subnet is found, nothing is sent |
| SanityStateCache.SanityState.CleanSubnet | sanity/controller.py:579-610 | finds the subnet and removes it with the cached router, else the one listed under the router's name |
| SanityStateCache.SanityState.CheckRouterPorts | sanity/controller.py:480-496 | once per state: the network interface when the router has no port on the network (raising TypeError when the subnet is not found), then the gateway when it has none on the external network |
| SanityStateCache.RouterPortsTwice | sanity/controller.py:480-496 | after a successful check, a second check sends nothing |
| SanityStateCache.SanityState.SetUpInstanceParts | sanity/controller.py:182-186 | flavor, zone, image and keypair are cached on success; when no flavor matches, NoFlavor is raised before anything else is looked up or created |
| SanityStateCache.SanityState.SetUpSecurityGroup | sanity/controller.py:188-189 | the group is cached and its rules requested |
| SanityStateCache.SanityState.SetUpNetworks | sanity/controller.py:191-196 | the external network is cached; with floating networks the router and network too, and the ports checked; without them router, network and the ports flag are untouched |
| SanityStateCache.SanityState.SetUp | sanity/controller.py:182-196 | on success every cache setUp fills is filled, the rules come first among the requests; the first error ends the set-up; nothing is deleted |
| SanityStateCache.SanityState.TearDown | sanity/controller.py:198-213 | the keypair is cleaned first; with floating networks an error cleaning the subnet ends it with router, network and group untouched, else router and network are emptied and the unattached IPs deleted; on success the group is emptied last; the ports flag is left set |
| PyRepr.UnicodeRepr | sanity/scenarios/ping.py:52 | the repr is u, the quote, the body and the same quote |
| PyRepr.HexRoundTrip | sanity/scenarios/ping.py:52 | the hex digits of an escape read back as the character's code |
| PyRepr.EscapeRoundTrip | sanity/scenarios/ping.py:52 | the escaped body unescapes to the text under either quote |
| PyRepr.ReprRoundTrip | sanity/scenarios/ping.py:52 | the text is recovered from its repr |
| PyRepr.PlainRepr | sanity/scenarios/ping.py:52 | printable ASCII without quotes or backslashes prints between u' and ' unchanged |
| Order.StrLessIsOrder | sanity/controller.py:831 | Python's string order is a strict total order |
| Order.PairLessIsOrder | sanity/controller.py:831 | tuple order on (host, server) is a strict total order |
| Order.SortSorted | sanity/host_lists.py:193 | the stable sort orders the elements under a strict weak order, keeping the multiset |
| Order.StrictlySortedUnique | sanity/controller.py:831 | two strictly sorted sequences of the same elements are equal |
| Order.ListSet | sanity/controller.py:831 | `list(set)` lists every element once |
| Order.SortDistinct | sanity/controller.py:831 | sorting distinct elements under a total order is strictly ascending and loses none |
| Text.NatToStringRoundTrip | sanity/host_lists.py:38 | `int(str(n)) == n` |
| Text.ZFillValue | sanity/host_lists.py:36 | zero-filling keeps the value of a digit string |
| Text.ZFillCanonical | sanity/host_lists.py:36 | a digit string is `str(int(s)).zfill(len(s))` |
| Text.UnpaddedCanonical | sanity/host_lists.py:38 | a digit string with no leading zero is `str(int(s))` |
| Text.PyIntSpaceAfterSign | sanity/host_lists.py:34 | Python 2's `int()` takes whitespace between the sign and the digits, and a lone sign raises |
| HostLists.RangeTextValue | sanity/host_lists.py:34-38 | each range value is a digit string of the value, at least as wide as the upper bound when the lower one is zero-padded |
| HostLists.RangeFromAt | sanity/host_lists.py:34-38 | the m-th range value is the text of first + m |
| HostLists.ExpandRange | sanity/host_lists.py:30-41 | the range loop computes RangeValues |
| HostLists.BlockToList | sanity/host_lists.py:19-53 | the character loop computes BlockList |
| HostLists.TerminatedValues | sanity/host_lists.py:24-53 | scanning well-formed items each followed by ',' appends their values in order |
| HostLists.BlockListOfItems | sanity/host_lists.py:19-53 | a block of comma-joined numbers and ranges expands to their values in order |
| HostLists.ZeroPaddedRange | sanity/host_lists.py:34-38 | a zero-padded range yields digit strings at least as wide as the upper bound, counting up from the lower |
| HostLists.BlockListExample | sanity/host_lists.py:20-23 | "1-3,17,19-20" expands to 1, 2, 3, 17, 19, 20 |
| HostLists.Decorate | sanity/host_lists.py:67-68 | each value v becomes prefix + v + rest, in order |
| HostLists.ExpandItem1 | sanity/host_lists.py:56-76 | the character loop computes ItemNames |
| HostLists.PlainItem | sanity/host_lists.py:73-76 | an item without a block expands to itself |
| HostLists.OneBlockItem | sanity/host_lists.py:60-72 | pre[block]rest expands to pre + v + rest for each value of the block |
| HostLists.ItemListAppend | sanity/host_lists.py:86-91 | expanding a concatenation concatenates the expansions |
| HostLists.ExpandItem | sanity/host_lists.py:79-97 | the loop computes ItemListNames |
| HostLists.ItemListOfOne | sanity/host_lists.py:88-91 | an entry expands from the text before its first ':' |
| HostLists.Expand | sanity/host_lists.py:100-127 | the loop computes ExpandNames |
| HostLists.ExpandNoneStays | sanity/host_lists.py:112-123 | once an entry raises, the expansion raises |
| HostLists.ExpandWithoutMinus | sanity/host_lists.py:112-127 | without '-', the groups are concatenated in order |
| HostLists.ExpandSubtracts | sanity/host_lists.py:113-120 | a, '-', b yields a's names minus b's, as a set |
| HostLists.TrailingMinusDrops | sanity/host_lists.py:118-127 | a trailing '-' drops the group before it |
| HostCompress.CmpCompatMeaning | sanity/host_lists.py:130-137 | `cmp_compat` is -1, 0 or 1, negative exactly on less, zero exactly on equal, antisymmetric |
| HostCompress.ValLessTransitive | sanity/host_lists.py:130-137 | Python 2's order on None, numbers and strings is transitive |
| HostCompress.Comparer | sanity/host_lists.py:147-156 | the comparer returns -1, 0 or 1 |
| HostCompress.ComparerSelf | sanity/host_lists.py:147-156 | a row compares equal to itself |
| HostCompress.ComparerAntisymmetric | sanity/host_lists.py:147-156 | swapping the rows negates the comparison |
| HostCompress.ComparerTransitive | sanity/host_lists.py:147-156 | on rows holding every column, less-than is transitive |
| HostCompress.ComparerCongruent | sanity/host_lists.py:147-156 | rows that compare equal compare alike with any row |
| HostCompress.ComparerIsWeakOrder | sanity/host_lists.py:140-156 | on rows holding every column, the comparer is a strict weak order |
| HostCompress.MultiKeySortSorts | sanity/host_lists.py:140-163 | multikeysort returns a permutation, sorted by the columns when every row holds them |
| HostCompress.MissingColumnIsEqual | sanity/host_lists.py:149-152 | a row missing the first column compares equal to every row |
| HostCompress.MatchDottedFails | sanity/host_lists.py:200-208 | parsing a dotted name fails exactly when its first label has no digit |
| HostCompress.MatchDottedGroups | sanity/host_lists.py:200-203 | a parsed name spells itself: the number ends the prefix's digits and the suffix's first label has none |
| HostCompress.DotlessMeaning | sanity/host_lists.py:210-213 | a dotless name parses to itself exactly when it holds a digit |
| HostCompress.ParseRoundTrip | sanity/host_lists.py:199-216 | every parsed entry spells the name it came from |
| HostCompress.SortEntriesIsMultiKeySort | sanity/host_lists.py:217 | sorting entries sorts their dicts exactly as multikeysort does |
| HostCompress.EntryOrder | sanity/host_lists.py:217 | numbered entries order by prefix then number; a dotless entry is unordered with everything |
| HostCompress.GroupScanKeeps | sanity/host_lists.py:218-229 | the grouping loop keeps its invariant |
| HostCompress.GroupedBlocks | sanity/host_lists.py:218-229 | the blocks flatten back to the entries, each is a run, and each block starts where the previous could not be extended |
| HostCompress.ParseHosts | sanity/host_lists.py:198-216 | the parsing loop computes ParseAll |
| HostCompress.GroupEntries | sanity/host_lists.py:218-229 | the grouping loop computes Blocks under the given rule: AsWritten merges consecutive numbers by value as the program does, KeepPadding also keeps their padding |
| HostCompress.PrintBlocks | sanity/host_lists.py:230-250 | the printing loop computes the tokens |
| HostCompress.CompressDomain | sanity/host_lists.py:189-250 | `compress_domain` computes CompressDomainSpec under the given rule: the program's result under AsWritten, the corrected one under KeepPadding |
| HostCompress.RunRange | sanity/host_lists.py:242-249 | a run's range, between its prefix and suffix, spells the run's names |
| HostCompress.TokenExpands | sanity/host_lists.py:231-249 | a block's token expands to exactly its names |
| HostCompress.TokensExpand | sanity/host_lists.py:230-250 | expanding all tokens gives the blocks' names in order |
| HostCompress.ParseAllSpells | sanity/host_lists.py:198-216 | parsing fails exactly when one name fails; the entries spell the names |
| HostCompress.NamesSort | sanity/host_lists.py:193 | sorting reorders the names without loss |
| HostCompress.CompressDomainRoundTrip | sanity/host_lists.py:189-250 | expanding the tokens gives back the names as a multiset |
| HostCompress.PaddingMergeAsWritten | sanity/host_lists.py:218-249 | as written n9.x, n010.x become n[9-010].x, which expands to n9.x, n10.x; kept apart when padding is kept |
| HostCompress.DomainIsJoinSplit | sanity/host_lists.py:173-176 | a name's domain, everything after its first '.', is '.'.join of its split pieces but the first, and '' when it has no '.' |
| HostCompress.DomainsSeenFacts | sanity/host_lists.py:172-180 | each domain once, exactly the names' domains |
| HostCompress.GroupByDomain | sanity/host_lists.py:170-180 | domain_dict maps each domain to its names in order |
| HostCompress.SortedKeys | sanity/host_lists.py:181-182 | the sorted keys are SortedDomains |
| HostCompress.CompressDomains | sanity/host_lists.py:183-186 | the loop over domains computes CompressAll under the given rule, raising at the first domain that raises |
| HostCompress.Compress | sanity/host_lists.py:166-186 | `compress` computes CompressSpec under the given rule: the program's result under AsWritten, the corrected one under KeepPadding |
| HostCompress.SortedDomainsFacts | sanity/host_lists.py:181-182 | the domains are strictly ascending, each of the names' domains once |
| HostCompress.FlatFilterPartition | sanity/host_lists.py:172-186 | splitting by domain loses no name and adds none |
| HostCompress.CompressAllExpands | sanity/host_lists.py:183-186 | expanding the tokens of the domains gives back their names |
| HostCompress.CompressRoundTrip | sanity/host_lists.py:166-186 | `compress` loses no name and adds none: its tokens expand to the names as a multiset |
| HostCompress.CompressDomainOne | sanity/host_lists.py:189-250 | one dotted name comes back as itself, or raises when its first label has no digit |
| HostCompress.CompressOne | sanity/host_lists.py:166-186 | compress of one dotted name is compress_domain of it |
| HostCompress.DotlessIsCompress | sanity/host_lists.py:210-213 | the dotless case is `compress([h + '.'])[0].strip('.')`, raising exactly when that raises |
| Cli.ComputeServicesKeys | sanity/cli.py:380-383 | the nova-compute services by host: a key exactly for each such host, holding a service of that host |
| Cli.LastServiceWins | sanity/cli.py:380-383 | of two services on a host, the later one listed is kept |
| Cli.UnbootableReasons | sanity/cli.py:397-423 | no service, a state other than 'up', or (filter off) a status other than 'enabled' makes an unbootable server with the written status text; otherwise the host is booted |
| Cli.BootStepConserves | sanity/cli.py:392-436 | one iteration conserves the hosts (queued or handled) and puts out one server per host handled |
| Cli.BootConserves | sanity/cli.py:388-436 | every host is either still queued or has produced exactly one server |
| Cli.BootHandlesAll | sanity/cli.py:388-436 | with no failed boot and no stop, every host is handled once, in queue order |
| Cli.Boot | sanity/cli.py:385-437 | the booter's loop computes BootRun |
| Cli.ServersByHost | sanity/cli.py:447-448 | the servers by host_id; a server without host_id raises |
| Cli.LastServerWins | sanity/cli.py:447-448 | of two servers with one host_id, the later one listed is kept |
| Cli.ListedFacts | sanity/cli.py:450-464 | the lister puts out only servers of queued hosts; without a stop, every queued host's server |
| Cli.FindServers | sanity/cli.py:450-465 | the lister's loop computes Listed |
| Cli.DeletesServer | sanity/cli.py:515-523 | a server is deleted iff not no_delete, it booted, and (not no_delete_failed or it has no failed tests) |
| Cli.TestCalls | sanity/cli.py:502-513 | a booted server is waited for, and every server goes to the runner last |
| Cli.AllCallsFacts | sanity/cli.py:544-557 | every server is tested; waited for iff booted; deleted iff the policy says so; no cleanup mid-run |
| Cli.ServeStops | sanity/cli.py:525-560 | up to the first stop every server is handled and put out in order; the server taken then gets one delete attempt and is not put out |
| Cli.ServeAll | sanity/cli.py:525-560 | without a stop, every queued server is put out once, in order |
| Cli.Tester.constructor | sanity/cli.py:483-497 | a new worker keeps its settings, has no failed fixture and has done nothing |
| Cli.Tester.Initialize | sanity/cli.py:499-500 | `initialize` keeps what setUpFixtures returned |
| Cli.Tester.TestServer | sanity/cli.py:502-513 | `test_server` makes TestCalls |
| Cli.Tester.DeleteServer | sanity/cli.py:515-523 | `delete_server` deletes as DeletesServer says |
| Cli.Tester.Handle | sanity/cli.py:544-557 | a server taken is tested, perhaps deleted and put out |
| Cli.Tester.StopOn | sanity/cli.py:534-542 | the server taken after a stop gets one delete attempt, then the cleanup runs |
| Cli.Tester.Run | sanity/cli.py:525-560 | the worker's loop computes Serve, then runs the cleanup once |
| Cli.WorkerCount | sanity/cli.py:689 | min(threads, hosts) workers, none for threads <= 0 |
| Cli.Healthy | sanity/cli.py:696-701 | the positions, ascending, of the workers with no failed fixture |
| Cli.ChosenWorkersFacts | sanity/cli.py:696-701 | some worker runs when there is one; the healthy ones if any, else all of them |
| Cli.StartTesters | sanity/cli.py:688-701 | one initialized worker per slot; the chosen ones are those ChosenWorkers picks |
| Cli.ShortNames | sanity/cli.py:787-788 | each valid host by its short name |
| Cli.FqdnMap | sanity/cli.py:786-788 | each key is a valid host or a short name, mapped to a valid host it names |
| Cli.Resolve | sanity/cli.py:791-795 | each name is mapped to its valid host, or kept |
| Cli.ResolveOneFacts | sanity/cli.py:789-795 | a host raises exactly when it does not expand; each result is a valid host or unknown; each expanded name appears resolved |
| Cli.ResolveAllNone | sanity/cli.py:789-795 | expand_hosts raises exactly when one given host does not expand |
| Cli.ResolveAllKnown | sanity/cli.py:789-795 | every name returned is a valid host or one no valid host answers to |
| Cli.ResolveAllComplete | sanity/cli.py:789-795 | every name a host expands to appears in the result, resolved |
| Cli.ResolveAllFails | sanity/cli.py:789-795 | once a host fails to expand, expand_hosts raises |
| Cli.ResolveNames | sanity/cli.py:790-795 | the inner loop computes Resolve |
| Cli.ExpandHosts | sanity/cli.py:780-798 | `expand_hosts` computes ExpandHostsSpec: all valid hosts when none is given |
| Cli.ChildThread.constructor | sanity/cli.py:351-352 | a worker starts not stopped |
| Cli.ChildThread.Stop | sanity/cli.py:354-355 | `stop()` sets the flag |
| Cli.MainBase.constructor | sanity/cli.py:634-636 | the SIGINT stamp is the start time and there are no workers |
| Cli.MainBase.SigInt | sanity/cli.py:769-778 | a SIGINT within 3 s of the arming one stops every worker; any other re-arms the handler and stops none |
| Cli.EtaOf | sanity/cli.py:800-804 | no ETA exactly when nothing remains; a division by zero exactly when something remains and nothing completed |
| Cli.EtaBounds | sanity/cli.py:800-804 | the ETA is elapsed x remaining / completed, floored to the microsecond at each step |

## Left out

- Threads, queues and the orchestration loop (sanity/cli.py:670-745): the booter, the lister and one `Tester` are each a sequential loop over a sequence, the queue's contents given up front.
- Cli.Tester.Run: models a worker whose producer has already finished, so "finished and queue empty" is "queue consumed"; waiting for more servers is not modelled.
- Cli.Boot: a boot request that keeps failing requeues its host forever; the loop runs on fuel (a bound on iterations), and what happens after the fuel runs out is not modelled.
- Cli.Boot: the sleep between boots and the missing `task_done()` on the unbootable path only affect the queue's join count, which is not modelled.
- Signal registration, `sig_term` and `sys.exit`: only the timestamp comparison in `sig_int` is kept; printing the status is not modelled.
- Cli.EtaOf: `print_eta` and its log line are output only; the ETA value it prints is EtaOf.
- Cloud SDK plumbing (nova, neutron, glance, keystone, `os_sdk`, `host.py`, `boot_server_on_host`), the console fetch, `ping`, the clock and `sleep`: oracles given as parameters.
- The regular expressions (console patterns, image, external-net and security-group name patterns): predicate oracles; the prefix/number/suffix split of `compress_domain` is hand-coded.
- `Fixturer` and `MainBoot`/`MainTest` set-up: outside the modelled core.
- `vnc_console.py` and `float.py`: their checks hinge on requests and paramiko exception hierarchies; only the float scenario's fixture declaration is kept.
- Output: PrettyTable, `print_*`, `print_plan`, the JSON and retry-file dumps.
- Results.ToDict: `int(float(boot_time))` is modelled only for boot times of digits, a dot and a fraction (or plain digits); other float syntaxes raise in the model.
- ScenarioRunner.Runner.RunServer: has_failed_tests, the scenario hooks and every cloud answer are oracles per server; the fixture state is held by value in the runner's map rather than as shared objects.
- ScenarioRunner.DeclaredFixtures: the floating-IP fixture is the only fixture class.
- ResultStore.SanityController.constructor: `_test_results` is a class-level dict shared by every controller; the model gives each controller its own store.
- Order.SortSorted: Python's sort is timsort; the model uses a stable insertion sort. They agree whenever the comparison is a strict weak order.
- HostCompress.MultiKeySortSorts: sortedness is proved only when every row holds every column. Dotless entries have no 'prefix' key and compare equal to everything, so the comparison is not a strict weak order when they mix with numbered entries, and timsort's output then depends on its merge pattern.
- HostCompress.CompressRoundTrip: stated for names without '[' or ':', which the expander would read as range or plugin syntax.
- Cli.ExpandHosts: iterating over a set is the `enum` oracle. The completeness lemmas assume it lists the set faithfully.
- ConsoleScenario.ConsoleBody: the boot time is the captured group as the success oracle returns it.
- PyRepr.UnicodeRepr: the network names and addresses are taken to be unicode (novaclient decodes JSON), and Python a wide build, where a character beyond U+FFFF prints as one \U escape.
- SanityStateCache.SanityState.CheckRouterPorts: requires the router, network and external network already cached, as setUp guarantees before calling it; on an empty cache the source would first look them up or create them.
- SanityStateCache.SanityState.CleanSubnet: a failing port deletion, which the source would raise, is not modelled; each stale port is deleted.
- SanityStateCache.SanityState.TearDown: the router and network listings by name are one answer each, shared by clean_subnet and clean_router/clean_network; the object deletions of clean_router, clean_network and clean_security_group never raise in the model.
- SanityStateCache.SanityState.SetUp: the creation calls (keypair, group, router, network, subnet) and the neutron port listings never raise in the model; the flavor, zone, image and external-network lookups, the rule creations, the router-interface call for a created subnet and the subnet lookup of check_router_ports do.
- SanityStateCache.SanityState.GetNetwork: when no router is cached, the interface request names the empty router `{}` by an empty id; how neutron answers it is the attach oracle's answer.

## Findings

| source | as written | input that shows it | evidently intended | confidence | as-written member | corrected member |
|---|---|---|---|---|---|---|
| sanity/controller.py:127 | `len(servers) > limit` with the default `limit=None`. In Python 2 every int compares above None, so the listing returns after its first page. | two non-empty pages of servers and no limit | with no limit, read every page up to the first empty one | not executed | ServerWait.ListServersDropsSecondPage | ServerWait.ListingIntendedReadsAllPages |
| sanity/controller.py:298 | `zone.zoneName == name or self._availability_zone`. This picks the first zone whenever a zone is configured, even an ignored or unavailable one. | zones ["internal", "az1"], no name, configured zone "az1" | `zone.zoneName == (name or self._availability_zone)` | not executed | SanityStateCache.ConfiguredZoneIgnored | SanityStateCache.ZoneIntendedPicksWanted |
| sanity/host_lists.py:222 | Consecutive numbers are merged by value, whatever their zero padding. The range then takes the padding of its last number. | ["n9.x", "n010.x"] compresses to "n[9-010].x", which expands to n9.x and n10.x | merge only numbers of the same width, or unpadded ones | not executed | HostCompress.PaddingMergeAsWritten | HostCompress.CompressDomainRoundTrip |
