// The fixture base class, the fixture decorator and lookups
// (sanity/fixtures/__init__.py).
module Fixtures {
  import opened Wrappers
  import opened Results
  import opened Scenarios

  datatype FixtureKind = FloatingIP

  function FixtureShortName(k: FixtureKind): string
  {
    match k
    case FloatingIP => "floatingip"
  }

  /** FIXTURES: short name to fixture class. */
  const FixtureTable: map<string, FixtureKind> := map["floatingip" := FloatingIP]

  /** get_enabled_fixtures(fixtures): the fixture classes for the given
      names in order, with no default list; the first unknown name raises
      ValueError (Raised carries that name). */
  method GetEnabledFixtures(names: seq<string>) returns (r: Outcome<seq<FixtureKind>>)
    ensures r.Ok? <==> forall i :: 0 <= i < |names| ==> names[i] in FixtureTable
    ensures r.Ok? ==>
      |r.value| == |names| && forall i :: 0 <= i < |names| ==> r.value[i] == FixtureTable[names[i]]
    ensures r.Raised? ==>
      exists i :: 0 <= i < |names| && names[i] == r.error && names[i] !in FixtureTable &&
                  forall j :: 0 <= j < i ==> names[j] in FixtureTable
  {
    var classes: seq<FixtureKind> := [];
    var i := 0;
    while i < |names|
      invariant 0 <= i <= |names| && |classes| == i
      invariant forall j :: 0 <= j < i ==> names[j] in FixtureTable && classes[j] == FixtureTable[names[j]]
    {
      if names[i] !in FixtureTable {
        return Raised(names[i]);
      }
      classes := classes + [FixtureTable[names[i]]];
      i := i + 1;
    }
    return Ok(classes);
  }

  /** A Python function object, as far as fixtures are concerned: its
      _fixtures attribute, which is absent (None) until first decorated. */
  class FunctionAttrs {
    var fixtures: Option<seq<FixtureKind>>

    constructor ()
      ensures fixtures == None
    {
      fixtures := None;
    }

    /** useFixture(k) applied to this function: creates the list on first
        use, then appends. */
    method UseFixture(k: FixtureKind)
      modifies this
      ensures fixtures == Some((if old(fixtures).Some? then old(fixtures).value else []) + [k])
    {
      if fixtures.None? {
        fixtures := Some([]);
      }
      fixtures := Some(fixtures.value + [k]);
    }
  }

  /** Decorating a fresh function with each fixture in turn leaves them in
      the order the decorators were applied. */
  method DecorateInOrder(ks: seq<FixtureKind>) returns (declared: seq<FixtureKind>)
    ensures declared == ks
  {
    var f := new FunctionAttrs();
    var i := 0;
    while i < |ks|
      invariant 0 <= i <= |ks|
      invariant if i == 0 then f.fixtures == None else f.fixtures == Some(ks[..i])
    {
      f.UseFixture(ks[i]);
      assert ks[..i + 1] == ks[..i] + [ks[i]];
      i := i + 1;
    }
    declared := GetFixtures(f.fixtures, None);
    if i == 0 { assert ks == []; } else { assert ks[..i] == ks; }
  }

  /** getFixtures(method): the _fixtures of the instance's '_<name>' method
      when the instance has one (own is that method's attribute, or None
      when there is no such method), else of the method itself, else []. */
  function GetFixtures(methodAttr: Option<seq<FixtureKind>>, privateMethod: Option<Option<seq<FixtureKind>>>): (r: seq<FixtureKind>)
    ensures privateMethod.Some? && privateMethod.value.Some? ==> r == privateMethod.value.value
    ensures privateMethod.Some? && privateMethod.value.None? ==> r == []
    ensures privateMethod.None? ==> r == (if methodAttr.Some? then methodAttr.value else [])
  {
    var attr := if privateMethod.Some? then privateMethod.value else methodAttr;
    if attr.Some? then attr.value else []
  }

  /** What a fixture hook (_setUp, _enableFixture, ...) gives back: the
      fixture's own stored result object, another result, or it raises
      (with its traceback text). */
  datatype HookReturn = ReturnedStored | ReturnedNew(result: Result) | RaisedIn(traceback: string)

  /** The timing wrapper around a hook: the returned object gets the elapsed
      time as its duration. When the hook returned the fixture's stored
      result, that stored object is the one stamped. Returns the new stored
      result and the returned result. */
  function Step(stored: Result, ret: HookReturn, elapsed: nat): (res: (Result, Result))
    ensures res.1.duration == elapsed
    ensures ret.ReturnedStored? ==> res.0 == res.1 == Stamp(stored, elapsed)
    ensures !ret.ReturnedStored? ==> res.0 == stored
    ensures ret.ReturnedNew? ==> res.1 == Stamp(ret.result, elapsed)
    ensures ret.RaisedIn? ==> res.1.Error? && res.1.traceback == Some(ret.traceback)
  {
    match ret
    case ReturnedStored => (Stamp(stored, elapsed), Stamp(stored, elapsed))
    case ReturnedNew(r) => (stored, Stamp(r, elapsed))
    case RaisedIn(tb) => (stored, Stamp(ErrorFromHandler(tb), elapsed))
  }

  /** Fixture.setUp() / tearDown(): with no hook the stored result is
      returned (and stamped); otherwise the hook runs under the wrapper. */
  function SetUpOrTearDown(stored: Result, hook: Option<HookReturn>, elapsed: nat): (res: (Result, Result))
    ensures hook.None? ==> res.1 == res.0 == Stamp(stored, elapsed)
    ensures hook.Some? ==> res == Step(stored, hook.value, elapsed)
    ensures res.1.duration == elapsed
  {
    Step(stored, if hook.Some? then hook.value else ReturnedStored, elapsed)
  }

  /** Fixture.enableFixture() / disableFixture(): a stored failure is
      returned as it is, untimed, without calling the hook (ret is then
      not consulted); otherwise the hook runs under the wrapper. */
  function EnableOrDisable(stored: Result, ret: HookReturn, elapsed: nat): (res: (Result, Result))
    ensures IsFailure(stored) ==> res == (stored, stored)
    ensures !IsFailure(stored) ==> res == Step(stored, ret, elapsed)
    ensures IsFailure(res.0) == IsFailure(stored)
  {
    if IsFailure(stored) then (stored, stored) else Step(stored, ret, elapsed)
  }
}
