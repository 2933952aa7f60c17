// The ping check (sanity/scenarios/ping.py).
module PingScenario {
  import opened Wrappers
  import opened Results
  import opened Scenarios
  import PyRepr

  type Network = (string, seq<Address>)

  /** The IPv4 addresses of one network that do not answer, as
      (network, address) pairs in listing order. */
  function FailedIn(name: string, addrs: seq<Address>, ping: string -> bool): seq<(string, string)>
  {
    if addrs == [] then []
    else
      var a := addrs[|addrs| - 1];
      FailedIn(name, addrs[..|addrs| - 1], ping) +
      (if a.version == Some(4) && !ping(a.addr) then [(name, a.addr)] else [])
  }

  /** The unanswered IPv4 addresses over all networks, network by network. */
  function FailedPings(nets: seq<Network>, ping: string -> bool): seq<(string, string)>
  {
    if nets == [] then []
    else FailedPings(nets[..|nets| - 1], ping) + FailedIn(nets[|nets| - 1].0, nets[|nets| - 1].1, ping)
  }

  /** addrs lists a as an IPv4 address, and a does not answer. */
  ghost predicate Unanswered(addrs: seq<Address>, ping: string -> bool, a: string)
  {
    exists j :: 0 <= j < |addrs| && addrs[j].version == Some(4) && addrs[j].addr == a && !ping(a)
  }

  /** An address is reported for a network exactly when that network lists
      it as IPv4 and it does not answer. */
  lemma {:induction false} FailedInMembers(name: string, addrs: seq<Address>, ping: string -> bool, p: (string, string))
    ensures p in FailedIn(name, addrs, ping) <==> p.0 == name && Unanswered(addrs, ping, p.1)
  {
    if addrs != [] {
      var init := addrs[..|addrs| - 1];
      FailedInMembers(name, init, ping, p);
      if Unanswered(init, ping, p.1) {
        var j :| 0 <= j < |init| && init[j].version == Some(4) && init[j].addr == p.1 && !ping(p.1);
        assert addrs[j] == init[j];
      }
      if Unanswered(addrs, ping, p.1) {
        var j :| 0 <= j < |addrs| && addrs[j].version == Some(4) && addrs[j].addr == p.1 && !ping(p.1);
        if j < |init| { assert init[j] == addrs[j]; }
      }
    }
  }

  /** A pair is reported exactly when some network of that name lists the
      address as IPv4 and the address does not answer. */
  lemma {:induction false} FailedPingsMembers(nets: seq<Network>, ping: string -> bool, p: (string, string))
    ensures p in FailedPings(nets, ping) <==>
      exists i :: 0 <= i < |nets| && nets[i].0 == p.0 && Unanswered(nets[i].1, ping, p.1)
  {
    if nets != [] {
      var init := nets[..|nets| - 1];
      var last := nets[|nets| - 1];
      FailedPingsMembers(init, ping, p);
      FailedInMembers(last.0, last.1, ping, p);
      assert forall i :: 0 <= i < |init| ==> init[i] == nets[i];
    }
  }

  /** '%r' of the list of (network, address) pairs: Python 2's list and
      tuple repr around the unicode repr of each name and address. */
  function ReprPairs(ps: seq<(string, string)>): string
  {
    "[" + ReprItems(ps) + "]"
  }

  function ReprItems(ps: seq<(string, string)>): string
  {
    if ps == [] then ""
    else
      "(" + PyRepr.UnicodeRepr(ps[0].0) + ", " + PyRepr.UnicodeRepr(ps[0].1) + ")"
      + (if |ps| > 1 then ", " + ReprItems(ps[1..]) else "")
  }

  /** One failed pair of plain names prints as [(u'net', u'addr')]. */
  lemma ReprPlainPair(net: string, addr: string)
    requires PyRepr.Plain(net) && PyRepr.Plain(addr)
    ensures ReprPairs([(net, addr)]) == "[(u'" + net + "', u'" + addr + "')]"
  {
    PyRepr.PlainRepr(net);
    PyRepr.PlainRepr(addr);
  }

  /** PingScenario._test_server(server): a server that is not ACTIVE is
      skipped; otherwise every IPv4 address of every network is pinged and
      the check fails, listing the unanswered (network, address) pairs,
      when any address does not answer. ping(addr) is the answer to one
      ping of that address. */
  method PingBody(s: Server, ping: string -> bool) returns (r: Result, failed: seq<(string, string)>)
    ensures !IsActive(s) ==> r == Skipped(0) && failed == []
    ensures IsActive(s) ==> failed == FailedPings(s.addresses, ping)
    ensures IsActive(s) && failed == [] ==> r == Pass(0)
    ensures IsActive(s) && failed != [] ==>
      r == NewFailure("Interfaces failed. " + ReprPairs(failed) + " ", NoException, "")
  {
    failed := [];
    if s.status != Some("ACTIVE") {
      return Skipped(0), failed;
    }
    var nets := s.addresses;
    var i := 0;
    while i < |nets|
      invariant 0 <= i <= |nets|
      invariant failed == FailedPings(nets[..i], ping)
    {
      var name := nets[i].0;
      var addrs := nets[i].1;
      var before := failed;
      var j := 0;
      while j < |addrs|
        invariant 0 <= j <= |addrs|
        invariant failed == before + FailedIn(name, addrs[..j], ping)
      {
        var a := addrs[j];
        assert addrs[..j + 1][..j] == addrs[..j];
        if a.version == Some(4) && !ping(a.addr) {
          failed := failed + [(name, a.addr)];
        }
        j := j + 1;
      }
      assert addrs[..j] == addrs;
      assert nets[..i + 1][..i] == nets[..i];
      i := i + 1;
    }
    assert nets[..i] == nets;
    if failed != [] {
      return NewFailure("Interfaces failed. " + ReprPairs(failed) + " ", NoException, ""), failed;
    }
    return Pass(0), failed;
  }

  /** An ACTIVE server fails the ping check exactly when one of its IPv4
      addresses does not answer; non-IPv4 addresses never matter. */
  lemma PingVerdict(s: Server, ping: string -> bool)
    requires IsActive(s)
    ensures FailedPings(s.addresses, ping) != [] <==>
      exists i, j :: 0 <= i < |s.addresses| && 0 <= j < |s.addresses[i].1| &&
        s.addresses[i].1[j].version == Some(4) && !ping(s.addresses[i].1[j].addr)
  {
    var f := FailedPings(s.addresses, ping);
    if f != [] {
      FailedPingsMembers(s.addresses, ping, f[0]);
    }
    if exists i, j :: 0 <= i < |s.addresses| && 0 <= j < |s.addresses[i].1| &&
        s.addresses[i].1[j].version == Some(4) && !ping(s.addresses[i].1[j].addr) {
      var i, j :| 0 <= i < |s.addresses| && 0 <= j < |s.addresses[i].1| &&
        s.addresses[i].1[j].version == Some(4) && !ping(s.addresses[i].1[j].addr);
      assert Unanswered(s.addresses[i].1, ping, s.addresses[i].1[j].addr);
      FailedPingsMembers(s.addresses, ping, (s.addresses[i].0, s.addresses[i].1[j].addr));
    }
  }
}
