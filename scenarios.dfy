// Servers, the scenario catalogue and the timing wrappers every scenario
// shares (sanity/scenarios/__init__.py).
module Scenarios {
  import opened Wrappers
  import opened Results

  datatype Address = Address(version: Option<int>, addr: string)

  /** A server as the checks see it. hostAttr is the 'OS-EXT-SRV-ATTR:host'
      attribute: None when the attribute is missing (reading it raises),
      Some("") when it is None or empty. status None is Python's None. */
  datatype Server = Server(
    booted: bool,
    id: string,
    name: string,
    status: Option<string>,
    hostAttr: Option<string>,
    metadata: map<string, string>,
    faultMessage: string,
    taskState: Option<string>,
    addresses: seq<(string, seq<Address>)>)

  /** '%s' % status */
  function StatusText(status: Option<string>): string
  { if status.Some? then status.value else "None" }

  predicate IsActive(s: Server) { s.status == Some("ACTIVE") }

  /** UnbootableServer(**kwargs): a falsy id becomes the class name, a falsy
      status becomes None; the metadata defaults to an empty mapping. */
  function NewUnbootable(id: Option<string>, name: string, status: Option<string>,
                         hostAttr: Option<string>, metadata: map<string, string>): (s: Server)
    ensures !s.booted && s.name == name && s.metadata == metadata && s.hostAttr == hostAttr
    ensures s.id == (if id.Some? && id.value != "" then id.value else "UnbootableServer")
    ensures s.status == (if status.Some? && status.value != "" then status else None)
    ensures s.addresses == [] && s.faultMessage == ""
  {
    Server(false,
           if id.Some? && id.value != "" then id.value else "UnbootableServer",
           name,
           if status.Some? && status.value != "" then status else None,
           hostAttr, metadata, "", None, [])
  }

  /** has_booted(server) */
  predicate HasBooted(s: Server) { s.booted }

  datatype ScenarioKind = BootCheck | ConsoleCheck | FloatCheck | PingCheck | VncConsoleCheck

  function Name(k: ScenarioKind): string
  {
    match k
    case BootCheck => "Boot Check"
    case ConsoleCheck => "Console Log Check"
    case FloatCheck => "Float Check"
    case PingCheck => "Ping Check"
    case VncConsoleCheck => "VNC Console Check"
  }

  function ShortName(k: ScenarioKind): string
  {
    match k
    case BootCheck => "boot"
    case ConsoleCheck => "console-log"
    case FloatCheck => "float"
    case PingCheck => "ping"
    case VncConsoleCheck => "vnc-console"
  }

  /** TESTS: short name to scenario. */
  const TestTable: map<string, ScenarioKind> :=
    map["boot" := BootCheck, "console-log" := ConsoleCheck, "float" := FloatCheck,
        "ping" := PingCheck, "vnc-console" := VncConsoleCheck]

  /** DEFAULT: the checks run when none are named. */
  const DefaultTests: seq<string> := ["boot", "console-log", "vnc-console", "float"]

  /** The catalogue is keyed by each scenario's own short name, one entry
      per scenario, and the default list names catalogue entries only. */
  lemma TestTableIsShortNames()
    ensures forall k: ScenarioKind :: ShortName(k) in TestTable && TestTable[ShortName(k)] == k
    ensures forall n :: n in TestTable ==> ShortName(TestTable[n]) == n
    ensures forall i :: 0 <= i < |DefaultTests| ==> DefaultTests[i] in TestTable
  {
    forall k: ScenarioKind ensures ShortName(k) in TestTable && TestTable[ShortName(k)] == k {
      match k
      case BootCheck =>
      case ConsoleCheck =>
      case FloatCheck =>
      case PingCheck =>
      case VncConsoleCheck =>
    }
  }

  /** get_enabled_tests(tests): the scenarios for the given short names, in
      order, or the default list when none are given; the first unknown
      name raises ValueError (Raised carries that name). */
  method GetEnabledTests(tests: seq<string>) returns (r: Outcome<seq<ScenarioKind>>)
    ensures var names := if tests == [] then DefaultTests else tests;
      && (r.Ok? <==> forall i :: 0 <= i < |names| ==> names[i] in TestTable)
      && (r.Ok? ==> |r.value| == |names| &&
                    forall i :: 0 <= i < |names| ==> r.value[i] == TestTable[names[i]])
      && (r.Raised? ==> exists i :: 0 <= i < |names| && names[i] == r.error &&
                          names[i] !in TestTable &&
                          forall j :: 0 <= j < i ==> names[j] in TestTable)
  {
    var names := if tests == [] then DefaultTests else tests;
    var classes: seq<ScenarioKind> := [];
    var i := 0;
    while i < |names|
      invariant 0 <= i <= |names| && |classes| == i
      invariant forall j :: 0 <= j < i ==> names[j] in TestTable && classes[j] == TestTable[names[j]]
    {
      if names[i] !in TestTable {
        return Raised(names[i]);
      }
      classes := classes + [TestTable[names[i]]];
      i := i + 1;
    }
    return Ok(classes);
  }

  /** What a hook such as _setUp yields: not defined, returned a result, or
      raised (with the traceback text format_exc() would give). */
  datatype Hook = Absent | Called(outcome: Outcome<Result>)

  /** The duration stamp every wrapper applies: result.duration = end - start. */
  function Stamp(r: Result, elapsed: nat): (s: Result)
    ensures s.duration == elapsed
    ensures IsFailure(s) == IsFailure(r) && ClassName(s) == ClassName(r)
  { r.(duration := elapsed) }

  /** The hook's own result, Error() when it raised, or the given default
      when no hook is defined. */
  function HookResult(hook: Hook, default: Result): (r: Result)
    ensures hook.Absent? ==> r == default
    ensures hook.Called? && hook.outcome.Ok? ==> r == hook.outcome.value
    ensures hook.Called? && hook.outcome.Raised? ==> r == ErrorFromHandler(hook.outcome.error)
  {
    match hook
    case Absent => default
    case Called(Ok(v)) => v
    case Called(Raised(tb)) => ErrorFromHandler(tb)
  }

  /** SanityScenario.setUp() and tearDown(): the hook's result (a PASS when
      the scenario has none, an ERROR when it raises) stamped with the
      elapsed time. */
  function ScenarioStep(hook: Hook, elapsed: nat): (r: Result)
    ensures r.duration == elapsed
    ensures hook.Absent? ==> r == Pass(elapsed)
    ensures hook.Called? && hook.outcome.Raised? ==> r.Error? && r.traceback == Some(hook.outcome.error)
    ensures IsFailure(r) ==> hook.Called?
  { Stamp(HookResult(hook, Pass(0)), elapsed) }

  /** None of the five scenarios defines _setUp or _tearDown. */
  function ScenarioHook(k: ScenarioKind): Hook { Absent }

  /** SanityScenario.test_server(): the check's result, or ERROR when it
      raised, stamped with the elapsed time. */
  function TestStep(body: Outcome<Result>, elapsed: nat): (r: Result)
    ensures r.duration == elapsed
    ensures body.Ok? ==> r == Stamp(body.value, elapsed)
    ensures body.Raised? ==> r.Error? && r.reason == "" && r.traceback == Some(body.error)
  { Stamp(HookResult(Called(body), Pass(0)), elapsed) }
}
