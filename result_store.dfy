// The result store of SanityController and the reports built from it
// (sanity/controller.py, class SanityController).
module ResultStore {
  import opened Wrappers
  import opened Results
  import opened Scenarios
  import opened Order
  import opened Text

  /** (host, server id) */
  type Key = (string, string)

  /** test name -> (host, server id) -> result */
  type Store = map<string, map<Key, Result>>

  /** The result recorded for a test, host and server, if any. */
  function Lookup(store: Store, test: string, host: string, server: string): Option<Result>
  {
    if test in store && (host, server) in store[test] then Some(store[test][(host, server)]) else None
  }

  /** add_test_result(): the store with one entry set. */
  function Added(store: Store, test: string, host: string, server: string, r: Result): (s: Store)
    ensures s.Keys == store.Keys + {test}
  {
    store[test := (if test in store then store[test] else map[])[(host, server) := r]]
  }

  /** Adding replaces the entry for its own key and leaves every other
      key's lookup as it was. */
  lemma AddedLookup(store: Store, test: string, host: string, server: string, r: Result,
                    test': string, host': string, server': string)
    ensures Lookup(Added(store, test, host, server, r), test', host', server') ==
      if (test, host, server) == (test', host', server') then Some(r)
      else Lookup(store, test', host', server')
  {
  }

  /** has_failed_tests(server): some test recorded a failure (FAILURE or
      ERROR) for this server id, on any host. */
  predicate HasFailedTests(store: Store, serverId: string)
  {
    exists t, k :: t in store && k in store[t] && k.1 == serverId && IsFailure(store[t][k])
  }

  /** report_failures(): for every test, its (host, server, result)
      entries whose result is a failure. */
  function ReportFailures(store: Store): map<string, set<(string, string, Result)>>
  {
    map t | t in store :: set k | k in store[t] && IsFailure(store[t][k]) :: (k.0, k.1, store[t][k])
  }

  /** report_errors(): for every test, its entries whose result is an ERROR. */
  function ReportErrors(store: Store): map<string, set<(string, string, Result)>>
  {
    map t | t in store :: set k | k in store[t] && store[t][k].Error? :: (k.0, k.1, store[t][k])
  }

  /** Both reports have an entry for every test; the errors are among the
      failures, and an entry is listed exactly when it is recorded with
      such a result. */
  lemma ReportsListRecordedFailures(store: Store, t: string, host: string, server: string, r: Result)
    ensures ReportFailures(store).Keys == ReportErrors(store).Keys == store.Keys
    ensures t in store ==> ReportErrors(store)[t] <= ReportFailures(store)[t]
    ensures t in store ==>
      ((host, server, r) in ReportFailures(store)[t] <==> Lookup(store, t, host, server) == Some(r) && IsFailure(r))
    ensures t in store ==>
      ((host, server, r) in ReportErrors(store)[t] <==> Lookup(store, t, host, server) == Some(r) && r.Error?)
  {
    if t in store {
      if (host, server, r) in ReportFailures(store)[t] {
        var k :| k in store[t] && IsFailure(store[t][k]) && (k.0, k.1, store[t][k]) == (host, server, r);
        assert k == (host, server);
      }
      if (host, server, r) in ReportErrors(store)[t] {
        var k :| k in store[t] && store[t][k].Error? && (k.0, k.1, store[t][k]) == (host, server, r);
        assert k == (host, server);
      }
      if Lookup(store, t, host, server) == Some(r) && IsFailure(r) {
        var k := (host, server);
        assert (k.0, k.1, store[t][k]) in ReportFailures(store)[t];
      }
      if Lookup(store, t, host, server) == Some(r) && r.Error? {
        var k := (host, server);
        assert (k.0, k.1, store[t][k]) in ReportErrors(store)[t];
      }
    }
  }

  /** A server has failed tests exactly when some test's failure report
      names it. */
  lemma HasFailedTestsIffReported(store: Store, serverId: string)
    ensures HasFailedTests(store, serverId) <==>
      exists t, e :: t in ReportFailures(store) && e in ReportFailures(store)[t] && e.1 == serverId
  {
    if HasFailedTests(store, serverId) {
      var t: string, k: Key :| t in store && k in store[t] && k.1 == serverId && IsFailure(store[t][k]);
      assert (k.0, k.1, store[t][k]) in ReportFailures(store)[t];
    }
    if exists t, e :: t in ReportFailures(store) && e in ReportFailures(store)[t] && e.1 == serverId {
      var t, e :| t in ReportFailures(store) && e in ReportFailures(store)[t] && e.1 == serverId;
      var k :| k in store[t] && IsFailure(store[t][k]) && (k.0, k.1, store[t][k]) == e;
      assert k.1 == serverId;
    }
  }

  /** Recording a failure marks its server as failed; recording anything
      for another server leaves this one's status as it was. */
  lemma AddedHasFailedTests(store: Store, test: string, host: string, server: string, r: Result, id: string)
    ensures id == server && IsFailure(r) ==> HasFailedTests(Added(store, test, host, server, r), id)
    ensures id != server ==> HasFailedTests(Added(store, test, host, server, r), id) == HasFailedTests(store, id)
  {
    var s := Added(store, test, host, server, r);
    if id == server && IsFailure(r) {
      assert (host, server) in s[test];
    }
    if id != server {
      if HasFailedTests(store, id) {
        var t: string, k: Key :| t in store && k in store[t] && k.1 == id && IsFailure(store[t][k]);
        assert t in s && k in s[t] && s[t][k] == store[t][k];
      }
      if HasFailedTests(s, id) {
        var t: string, k: Key :| t in s && k in s[t] && k.1 == id && IsFailure(s[t][k]);
        assert t in store && k in store[t] && s[t][k] == store[t][k];
      }
    }
  }

  /** The columns of report_results() that come first when present. */
  function KnownOrder(): seq<string>
  {
    [Name(BootCheck), Name(ConsoleCheck), Name(VncConsoleCheck), Name(FloatCheck)]
  }

  /** The elements of xs that are in names, in order. */
  function KeepIn(xs: seq<string>, names: set<string>): (r: seq<string>)
    ensures forall x :: x in r <==> x in xs && x in names
    ensures Distinct(xs) ==> Distinct(r)
  {
    if xs == [] then [] else (if xs[0] in names then [xs[0]] else []) + KeepIn(xs[1..], names)
  }

  /** The text of a report cell: str() of the stored result, or of None. */
  function Cell(store: Store, test: string, key: Key): string
  {
    match Lookup(store, test, key.0, key.1)
    case None => "None"
    case Some(r) => if Str(r).Some? then Str(r).value else ObjectText
  }

  /** str() of a result class without its own text (object.__str__). */
  const ObjectText := "<result object>"

  function Cells(store: Store, columns: seq<string>, key: Key): (r: seq<string>)
    ensures |r| == |columns|
    ensures forall i :: 0 <= i < |columns| ==> r[i] == Cell(store, columns[i], key)
  {
    if columns == [] then [] else [Cell(store, columns[0], key)] + Cells(store, columns[1..], key)
  }

  /** Every (host, server) pair with a result under some test. */
  function AllKeys(store: Store): set<Key>
  {
    set t, k | t in store && k in store[t] :: k
  }

  /** A host, server and result table for every recorded key. */
  class SanityController {
    var testResults: Store

    constructor ()
      ensures testResults == map[]
    {
      testResults := map[];
    }

    /** add_test_result(test_name, host, server, result) */
    method AddTestResult(test: string, host: string, server: string, r: Result)
      modifies this
      ensures testResults == Added(old(testResults), test, host, server, r)
    {
      if test !in testResults {
        testResults := testResults[test := map[]];
      }
      testResults := testResults[test := testResults[test][(host, server) := r]];
    }

    /** get_test_result(test_name, host, server): the recorded result, or
        None; asking about an unknown test registers it with no results. */
    method GetTestResult(test: string, host: string, server: string) returns (r: Option<Result>)
      modifies this
      ensures r == Lookup(old(testResults), test, host, server)
      ensures testResults == if test in old(testResults) then old(testResults) else old(testResults)[test := map[]]
    {
      if test !in testResults {
        testResults := testResults[test := map[]];
      }
      if (host, server) in testResults[test] {
        r := Some(testResults[test][(host, server)]);
      } else {
        r := None;
      }
    }

    /** The column order of report_results(): Boot, Console, VNC and Float
        checks first when present, then the other tests in the store's own
        (arbitrary) order. */
    method ReportColumns() returns (columns: seq<string>)
      ensures Distinct(columns) && (forall c :: c in columns <==> c in testResults)
      ensures |KeepIn(KnownOrder(), testResults.Keys)| <= |columns|
      ensures columns[..|KeepIn(KnownOrder(), testResults.Keys)|] == KeepIn(KnownOrder(), testResults.Keys)
    {
      var known := KnownColumns(testResults.Keys);
      assert Distinct(KnownOrder());
      columns := AppendRest(known, testResults.Keys);
    }

    /** report_results(): the columns, the recorded (host, server) pairs
        sorted by host then server, one row per pair holding the text of
        every test's result for it, and the compute hosts (from the host
        listing) with no result at all. */
    method ReportResults(computeHosts: seq<string>)
      returns (columns: seq<string>, keys: seq<Key>, rows: seq<seq<string>>, missing: set<string>)
      ensures forall c :: c in columns <==> c in testResults
      ensures StrictlySorted(keys, (p, q) => PairLess(p, q))
      ensures forall k :: k in keys <==> k in AllKeys(testResults)
      ensures |rows| == |keys|
      ensures forall i :: 0 <= i < |rows| ==> rows[i] == [keys[i].0, keys[i].1] + Cells(testResults, columns, keys[i])
      ensures forall h :: h in missing <==> h in computeHosts && forall k :: k in AllKeys(testResults) ==> k.0 != h
    {
      columns := ReportColumns();
      var listed := ListSet(AllKeys(testResults));
      keys := SortKeys(listed);
      rows := BuildRows(testResults, columns, keys);
      missing := MissingHosts(computeHosts, keys);
    }

    /** report_aggregates(all_hosts): the hosts in ascending order (every
        compute host from the host listing when all_hosts, else each host
        with a recorded result once), each with the comma-joined names of
        the aggregates listing it. */
    method ReportAggregates(allHosts: bool, computeHosts: seq<string>, aggs: seq<Aggregate>)
      returns (hosts: seq<string>, cells: seq<string>)
      ensures Sorted(hosts, (a, b) => StrLess(a, b))
      ensures allHosts ==> multiset(hosts) == multiset(computeHosts)
      ensures !allHosts ==> Distinct(hosts) && forall h :: h in hosts <==> exists k :: k in AllKeys(testResults) && k.0 == h
      ensures |cells| == |hosts|
      ensures forall i :: 0 <= i < |hosts| ==> cells[i] == JoinOn(AggNames(aggs, hosts[i]), ',')
    {
      var listed: seq<string>;
      if allHosts {
        listed := computeHosts;
      } else {
        listed := ListSet(set k | k in AllKeys(testResults) :: k.0);
      }
      hosts := SortHosts(listed);
      if !allHosts {
        forall h ensures h in hosts <==> h in listed {
          assert h in hosts <==> multiset(hosts)[h] > 0;
          assert h in listed <==> multiset(listed)[h] > 0;
        }
      }
      var aggregates := GroupAggregates(aggs);
      cells := JoinCells(aggregates, aggs, hosts);
    }
  }

  /** A host aggregate: its name and the hosts it lists. */
  datatype Aggregate = Aggregate(name: string, hosts: seq<string>)

  /** The aggregate's name once for every time its host list names h. */
  function NamesFor(name: string, hosts: seq<string>, h: string): seq<string>
  {
    if hosts == [] then []
    else NamesFor(name, hosts[..|hosts| - 1], h) + (if hosts[|hosts| - 1] == h then [name] else [])
  }

  lemma {:induction false} NamesForMembers(name: string, hosts: seq<string>, h: string, x: string)
    ensures x in NamesFor(name, hosts, h) <==> x == name && h in hosts
  {
    if hosts != [] {
      var init := hosts[..|hosts| - 1];
      NamesForMembers(name, init, h, x);
      assert hosts == init + [hosts[|hosts| - 1]];
    }
  }

  /** What report_aggregates() collects for h: the names of the aggregates
      listing h, in listing order, once per listing. */
  function AggNames(aggs: seq<Aggregate>, h: string): seq<string>
  {
    if aggs == [] then []
    else AggNames(aggs[..|aggs| - 1], h) + NamesFor(aggs[|aggs| - 1].name, aggs[|aggs| - 1].hosts, h)
  }

  /** An aggregate's name is reported for h exactly when that aggregate lists h. */
  lemma {:induction false} AggNamesMembers(aggs: seq<Aggregate>, h: string, x: string)
    ensures x in AggNames(aggs, h) <==> exists i :: 0 <= i < |aggs| && aggs[i].name == x && h in aggs[i].hosts
  {
    if aggs != [] {
      var init := aggs[..|aggs| - 1];
      AggNamesMembers(init, h, x);
      NamesForMembers(aggs[|aggs| - 1].name, aggs[|aggs| - 1].hosts, h, x);
      if exists i :: 0 <= i < |aggs| && aggs[i].name == x && h in aggs[i].hosts {
        var i :| 0 <= i < |aggs| && aggs[i].name == x && h in aggs[i].hosts;
        if i < |aggs| - 1 {
          assert init[i] == aggs[i];
        }
      }
      if x in AggNames(init, h) {
        var i :| 0 <= i < |init| && init[i].name == x && h in init[i].hosts;
        assert aggs[i] == init[i];
      }
    }
  }

  /** aggregates.get(h, []) */
  function Get(m: map<string, seq<string>>, h: string): seq<string>
  {
    if h in m then m[h] else []
  }

  lemma NamesForSnoc(name: string, hosts: seq<string>, j: nat, h: string)
    requires j < |hosts|
    ensures NamesFor(name, hosts[..j + 1], h) == NamesFor(name, hosts[..j], h) + (if hosts[j] == h then [name] else [])
  {
    assert hosts[..j + 1][..j] == hosts[..j];
  }

  lemma AggNamesSnoc(aggs: seq<Aggregate>, i: nat, h: string)
    requires i < |aggs|
    ensures AggNames(aggs[..i + 1], h) == AggNames(aggs[..i], h) + NamesFor(aggs[i].name, aggs[i].hosts, h)
  {
    assert aggs[..i + 1][..i] == aggs[..i];
  }

  /** The inner loop of report_aggregates(): one aggregate's name appended
      for every host it lists. */
  method AddAggregate(m0: map<string, seq<string>>, name: string, hosts: seq<string>)
    returns (m: map<string, seq<string>>)
    ensures forall h :: Get(m, h) == Get(m0, h) + NamesFor(name, hosts, h)
  {
    m := m0;
    var j := 0;
    while j < |hosts|
      invariant 0 <= j <= |hosts|
      invariant forall h :: Get(m, h) == Get(m0, h) + NamesFor(name, hosts[..j], h)
    {
      var x := hosts[j];
      ghost var prev := m;
      m := m[x := Get(m, x) + [name]];
      forall h ensures Get(m, h) == Get(m0, h) + NamesFor(name, hosts[..j + 1], h) {
        NamesForSnoc(name, hosts, j, h);
        if h == x {
          assert Get(m, h) == (Get(m0, h) + NamesFor(name, hosts[..j], h)) + [name];
        } else {
          assert Get(m, h) == Get(prev, h);
        }
      }
      j := j + 1;
    }
    assert hosts[..j] == hosts;
  }

  /** The loop filling report_aggregates()'s host -> aggregate names table. */
  method GroupAggregates(aggs: seq<Aggregate>) returns (m: map<string, seq<string>>)
    ensures forall h :: Get(m, h) == AggNames(aggs, h)
  {
    m := map[];
    var i := 0;
    while i < |aggs|
      invariant 0 <= i <= |aggs|
      invariant forall h :: Get(m, h) == AggNames(aggs[..i], h)
    {
      m := AddAggregate(m, aggs[i].name, aggs[i].hosts);
      forall h ensures Get(m, h) == AggNames(aggs[..i + 1], h) {
        AggNamesSnoc(aggs, i, h);
      }
      i := i + 1;
    }
    assert aggs[..i] == aggs;
  }

  /** sorted(hosts) */
  method SortHosts(listed: seq<string>) returns (hosts: seq<string>)
    ensures Sorted(hosts, (a, b) => StrLess(a, b))
    ensures multiset(hosts) == multiset(listed)
    ensures Distinct(listed) ==> Distinct(hosts)
  {
    StrLessIsOrder();
    TotalIsWeak((a: string, b: string) => StrLess(a, b));
    SortSorted(listed, (a, b) => StrLess(a, b));
    if Distinct(listed) {
      SortKeepsDistinct(listed, (a, b) => StrLess(a, b));
    }
    hosts := Sort(listed, (a, b) => StrLess(a, b));
  }

  /** The aggregate column: ','.join(aggregates.get(host, [])) per host. */
  method JoinCells(aggregates: map<string, seq<string>>, aggs: seq<Aggregate>, hosts: seq<string>)
    returns (cells: seq<string>)
    requires forall h :: Get(aggregates, h) == AggNames(aggs, h)
    ensures |cells| == |hosts|
    ensures forall i :: 0 <= i < |hosts| ==> cells[i] == JoinOn(AggNames(aggs, hosts[i]), ',')
  {
    cells := [];
    var i := 0;
    while i < |hosts|
      invariant 0 <= i <= |hosts| && |cells| == i
      invariant forall j :: 0 <= j < i ==> cells[j] == JoinOn(AggNames(aggs, hosts[j]), ',')
    {
      cells := cells + [JoinOn(Get(aggregates, hosts[i]), ',')];
      i := i + 1;
    }
  }

  /** The known columns present, in their fixed order. */
  method KnownColumns(names: set<string>) returns (columns: seq<string>)
    ensures columns == KeepIn(KnownOrder(), names)
  {
    var known := KnownOrder();
    columns := [];
    var i := 0;
    while i < |known|
      invariant 0 <= i <= |known|
      invariant columns == KeepIn(known[..i], names)
    {
      assert known[..i + 1] == known[..i] + [known[i]];
      KeepInAppend(known[..i], known[i], names);
      if known[i] in names {
        columns := columns + [known[i]];
      }
      i := i + 1;
    }
    assert known[..i] == known;
  }

  /** Appends the names not yet listed, in an arbitrary order. */
  method AppendRest(prefix: seq<string>, names: set<string>) returns (columns: seq<string>)
    requires Distinct(prefix) && forall c :: c in prefix ==> c in names
    ensures Distinct(columns) && (forall c :: c in columns <==> c in names)
    ensures |prefix| <= |columns| && columns[..|prefix|] == prefix
  {
    columns := prefix;
    var rest := names - set c | c in columns;
    while rest != {}
      invariant |prefix| <= |columns| && columns[..|prefix|] == prefix
      invariant Distinct(columns)
      invariant forall c :: c in columns ==> c in names
      invariant rest == names - set c | c in columns
      decreases |rest|
    {
      var t :| t in rest;
      columns := columns + [t];
      rest := rest - {t};
    }
  }

  /** sorted(): distinct pairs come out strictly ordered. */
  method SortKeys(listed: seq<Key>) returns (keys: seq<Key>)
    requires Distinct(listed)
    ensures StrictlySorted(keys, (p, q) => PairLess(p, q))
    ensures forall k :: k in keys <==> k in listed
  {
    PairLessIsOrder();
    keys := SortDistinct(listed, (p, q) => PairLess(p, q));
  }

  /** The rows of the report table. */
  method BuildRows(store: Store, columns: seq<string>, keys: seq<Key>) returns (rows: seq<seq<string>>)
    ensures |rows| == |keys|
    ensures forall i :: 0 <= i < |rows| ==> rows[i] == [keys[i].0, keys[i].1] + Cells(store, columns, keys[i])
  {
    rows := [];
    var i := 0;
    while i < |keys|
      invariant 0 <= i <= |keys| && |rows| == i
      invariant forall j :: 0 <= j < i ==> rows[j] == [keys[j].0, keys[j].1] + Cells(store, columns, keys[j])
    {
      var row := BuildRow(store, columns, keys[i]);
      rows := rows + [row];
      i := i + 1;
    }
  }

  /** One row: the key's hostname and test name, then its cell in each
      column. */
  method BuildRow(store: Store, columns: seq<string>, key: Key) returns (row: seq<string>)
    ensures row == [key.0, key.1] + Cells(store, columns, key)
  {
    row := [key.0, key.1];
    var c := 0;
    while c < |columns|
      invariant 0 <= c <= |columns|
      invariant row == [key.0, key.1] + Cells(store, columns[..c], key)
    {
      RowStep(store, columns, c, key);
      row := row + [Cell(store, columns[c], key)];
      c := c + 1;
    }
    assert columns[..c] == columns;
  }

  /** The listed compute hosts that no row mentions. */
  method MissingHosts(computeHosts: seq<string>, keys: seq<Key>) returns (missing: set<string>)
    ensures forall h :: h in missing <==> h in computeHosts && forall k :: k in keys ==> k.0 != h
  {
    missing := set h | h in computeHosts;
    var j := 0;
    while j < |keys|
      invariant 0 <= j <= |keys|
      invariant forall h :: h in missing <==> h in computeHosts && forall m :: 0 <= m < j ==> keys[m].0 != h
    {
      missing := missing - {keys[j].0};
      j := j + 1;
    }
  }

  lemma KeepInAppend(xs: seq<string>, x: string, names: set<string>)
    ensures KeepIn(xs + [x], names) == KeepIn(xs, names) + (if x in names then [x] else [])
  {
    if xs != [] {
      assert (xs + [x])[1..] == xs[1..] + [x];
      KeepInAppend(xs[1..], x, names);
    }
  }

  /** Appending the cell of columns[c] extends the row by one column. */
  lemma RowStep(store: Store, columns: seq<string>, c: nat, key: Key)
    requires c < |columns|
    ensures [key.0, key.1] + Cells(store, columns[..c + 1], key) ==
            [key.0, key.1] + Cells(store, columns[..c], key) + [Cell(store, columns[c], key)]
  {
    assert columns[..c + 1] == columns[..c] + [columns[c]];
    CellsAppend(store, columns[..c], columns[c], key);
  }

  lemma CellsAppend(store: Store, columns: seq<string>, c: string, key: Key)
    ensures Cells(store, columns + [c], key) == Cells(store, columns, key) + [Cell(store, c, key)]
  {
  }
}
