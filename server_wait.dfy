// Listing the sanity servers and waiting for them to settle
// (sanity/controller.py: list_servers and SanityController.list_servers /
// wait_for_servers).
module ServerWait {
  import opened Wrappers
  import opened Scenarios

  /** The name prefix every server this tool boots carries. */
  const SanityPrefix := "Sanity-"

  const TimeoutMessage := "Timed out waiting for servers."

  predicate StartsWith(s: string, prefix: string)
  {
    |prefix| <= |s| && s[..|prefix|] == prefix
  }

  /** SanityController.list_servers(): the servers of the listing whose
      name starts with the prefix, in listing order. */
  function SanityServers(listing: seq<Server>): (r: seq<Server>)
    ensures forall s :: s in r <==> s in listing && StartsWith(s.name, SanityPrefix)
    ensures |r| <= |listing|
  {
    if listing == [] then []
    else (if StartsWith(listing[0].name, SanityPrefix) then [listing[0]] else []) + SanityServers(listing[1..])
  }

  /** A server is settled when its status is one of the wanted states and
      it has no task in progress. */
  predicate Settled(s: Server, states: set<string>)
  {
    s.status.Some? && s.status.value in states && (s.taskState.None? || s.taskState.value == "")
  }

  /** The listing shows at least one watched server, and every watched
      server it shows is settled; unwatched servers do not matter. */
  predicate AllWatchedSettled(listing: seq<Server>, ids: set<string>, states: set<string>)
  {
    && (exists i :: 0 <= i < |listing| && listing[i].id in ids)
    && (forall i :: 0 <= i < |listing| && listing[i].id in ids ==> Settled(listing[i], states))
  }

  /** The scan over one listing: the flag is set by every watched settled
      server and the scan stops, unset, at the first watched server that is
      not settled. */
  method ScanListing(listing: seq<Server>, ids: set<string>, states: set<string>) returns (finished: bool)
    ensures finished == AllWatchedSettled(listing, ids, states)
  {
    finished := false;
    var i := 0;
    while i < |listing|
      invariant 0 <= i <= |listing|
      invariant finished <==> exists j :: 0 <= j < i && listing[j].id in ids
      invariant forall j :: 0 <= j < i && listing[j].id in ids ==> Settled(listing[j], states)
    {
      var s := listing[i];
      if s.id in ids {
        if !Settled(s, states) {
          return false;
        }
        finished := true;
      }
      i := i + 1;
    }
  }

  /** What one poll decides: an empty listing ends the wait with no
      servers, a settled one with the servers waited for; otherwise the
      wait goes on. */
  function PollVerdict(listing: seq<Server>, servers: seq<Server>, ids: set<string>, states: set<string>): Option<seq<Server>>
  {
    if listing == [] then Some([])
    else if AllWatchedSettled(listing, ids, states) then Some(servers)
    else None
  }

  /** The ids of the servers waited for. */
  function Ids(servers: seq<Server>): (ids: set<string>)
    ensures forall i :: 0 <= i < |servers| ==> servers[i].id in ids
    ensures forall id :: id in ids ==> exists i :: 0 <= i < |servers| && servers[i].id == id
  {
    set s | s in servers :: s.id
  }

  /** The verdict of the k-th poll, listing(k) being what the k-th server
      listing returns before the name filter. */
  function Poll(listing: nat -> seq<Server>, k: nat, servers: seq<Server>, states: set<string>): Option<seq<Server>>
  {
    PollVerdict(SanityServers(listing(k)), servers, Ids(servers), states)
  }

  /** The number of polls allowed: the timeout given, else the configured
      build timeout; none when it is not positive. */
  function PollLimit(timeout: Option<int>, buildTimeout: int): nat
  {
    var t := if timeout.Some? then timeout.value else buildTimeout;
    if t < 0 then 0 else t
  }

  /** One poll: list, filter, and scan. */
  method PollOnce(listing: seq<Server>, servers: seq<Server>, ids: set<string>, states: set<string>)
    returns (v: Option<seq<Server>>)
    ensures v == PollVerdict(SanityServers(listing), servers, ids, states)
  {
    var serverList := SanityServers(listing);
    if serverList == [] {
      return Some([]);
    }
    var finished := ScanListing(serverList, ids, states);
    v := if finished then Some(servers) else None;
  }

  /** What a wait over a non-empty server list may end with: it polled at
      most limit times, every poll but the last left the wait going, and
      either the last poll decided the result or all limit polls ran out
      and the wait raised the timeout. */
  ghost predicate WaitEnded(listing: nat -> seq<Server>, servers: seq<Server>, states: set<string>, limit: nat,
                            r: Outcome<seq<Server>>, polls: nat)
  {
    && polls <= limit
    && (forall k :: 0 <= k < polls - 1 ==> Poll(listing, k, servers, states).None?)
    && (r.Ok? ==> 1 <= polls && Poll(listing, polls - 1, servers, states) == Some(r.value))
    && (r.Raised? ==>
          && r.error == TimeoutMessage
          && polls == limit
          && (polls == 0 || Poll(listing, polls - 1, servers, states).None?))
  }

  /** A poll that decides ends the wait with its verdict. */
  lemma DecidedEnds(listing: nat -> seq<Server>, servers: seq<Server>, states: set<string>, limit: nat,
                    polls: nat, v: seq<Server>)
    requires polls < limit
    requires forall k :: 0 <= k < polls ==> Poll(listing, k, servers, states).None?
    requires Poll(listing, polls, servers, states) == Some(v)
    ensures WaitEnded(listing, servers, states, limit, Ok(v), polls + 1)
  {
  }

  /** Running out of polls ends the wait with the timeout. */
  lemma TimeoutEnds(listing: nat -> seq<Server>, servers: seq<Server>, states: set<string>, limit: nat)
    requires forall k :: 0 <= k < limit ==> Poll(listing, k, servers, states).None?
    ensures WaitEnded(listing, servers, states, limit, Raised(TimeoutMessage), limit)
  {
  }

  /** wait_for_servers(servers, states, timeout): without servers to watch
      it returns [] at once; otherwise it polls until a poll decides, at
      most PollLimit times, and then gives up. */
  method WaitForServers(servers: seq<Server>, states: set<string>, timeout: Option<int>, buildTimeout: int,
                        listing: nat -> seq<Server>)
    returns (r: Outcome<seq<Server>>, polls: nat)
    ensures servers == [] ==> r == Ok([]) && polls == 0
    ensures servers != [] ==> WaitEnded(listing, servers, states, PollLimit(timeout, buildTimeout), r, polls)
  {
    var count := if timeout.Some? then timeout.value else buildTimeout;
    var ids := Ids(servers);
    polls := 0;
    // The id set is empty exactly when there are no servers.
    if servers == [] {
      return Ok([]), 0;
    }
    ghost var limit := PollLimit(timeout, buildTimeout);
    while count > 0
      invariant count <= 0 ==> polls == limit
      invariant count > 0 ==> polls + count == limit
      invariant forall k :: 0 <= k < polls ==> Poll(listing, k, servers, states).None?
      decreases count
    {
      var v := PollOnce(listing(polls), servers, ids, states);
      if v.Some? {
        DecidedEnds(listing, servers, states, limit, polls, v.value);
        return Ok(v.value), polls + 1;
      }
      polls := polls + 1;
      count := count - 1;
    }
    TimeoutEnds(listing, servers, states, limit);
    r := Raised(TimeoutMessage);
  }

  /** The page the k-th listing call returns; calls past the last page
      return nothing. */
  function Page(pages: seq<seq<Server>>, k: nat): seq<Server>
  {
    if k < |pages| then pages[k] else []
  }

  /** The servers of the first k pages, in order. */
  function Collected(pages: seq<seq<Server>>, k: nat): seq<Server>
  {
    if k == 0 then [] else Collected(pages, k - 1) + Page(pages, k - 1)
  }

  /** The index of the first empty page. */
  function FirstEmpty(pages: seq<seq<Server>>, from: nat): (k: nat)
    ensures from <= k && Page(pages, k) == []
    ensures forall j :: from <= j < k ==> Page(pages, j) != []
    decreases |pages| - from
  {
    if Page(pages, from) == [] then from else FirstEmpty(pages, from + 1)
  }

  /** The paging loop of list_servers(client, limit) from page k with the
      servers gathered so far: it stops at an empty page, or after a page
      once more than limit servers are gathered. With pyNone, a missing
      limit compares as Python 2 compares None: below every number. */
  function Listing(pages: seq<seq<Server>>, k: nat, acc: seq<Server>, limit: Option<nat>, pyNone: bool): seq<Server>
    decreases |pages| - k
  {
    if k >= |pages| || pages[k] == [] then acc
    else
      var acc' := acc + pages[k];
      if (limit.Some? && |acc'| > limit.value) || (limit.None? && pyNone) then acc'
      else Listing(pages, k + 1, acc', limit, pyNone)
  }

  /** list_servers(client, limit=limit), as written: pages(k) answers the
      k-th call. */
  method ListServers(pages: seq<seq<Server>>, limit: Option<nat>) returns (servers: seq<Server>)
    ensures servers == Listing(pages, 0, [], limit, true)
  {
    servers := [];
    var k := 0;
    while true
      invariant Listing(pages, 0, [], limit, true) == Listing(pages, k, servers, limit, true)
      decreases |pages| - k
    {
      var result := Page(pages, k);
      if result == [] {
        break;
      }
      servers := servers + result;
      if limit.None? || |servers| > limit.value {
        return;
      }
      k := k + 1;
    }
  }

  /** Without a limit, as written, only the first page comes back. */
  lemma ListServersNoLimitFirstPage(pages: seq<seq<Server>>)
    ensures Listing(pages, 0, [], None, true) == Page(pages, 0)
  {
  }

  lemma {:induction false} ListingReadsUpToEmptyPage(pages: seq<seq<Server>>, k: nat)
    ensures Listing(pages, k, Collected(pages, k), None, false) == Collected(pages, FirstEmpty(pages, k))
    decreases |pages| - k
  {
    if k < |pages| && pages[k] != [] {
      ListingReadsUpToEmptyPage(pages, k + 1);
    }
  }

  /** With the limit missing meaning "no limit", listing reads every page
      up to the first empty one. */
  lemma ListingIntendedReadsAllPages(pages: seq<seq<Server>>)
    ensures Listing(pages, 0, [], None, false) == Collected(pages, FirstEmpty(pages, 0))
  {
    ListingReadsUpToEmptyPage(pages, 0);
  }

  /** Two non-empty pages and no limit: as written the second page is
      dropped, while the intended listing returns both. */
  lemma ListServersDropsSecondPage(a: Server, b: Server)
    ensures Listing([[a], [b]], 0, [], None, true) == [a]
    ensures Listing([[a], [b]], 0, [], None, false) == [a, b]
  {
    ListingIntendedReadsAllPages([[a], [b]]);
    assert FirstEmpty([[a], [b]], 0) == 2;
    assert Collected([[a], [b]], 2) == Collected([[a], [b]], 1) + [b];
  }

  /** With a limit given, both readings agree. */
  lemma {:induction false} ListingWithLimitAgrees(pages: seq<seq<Server>>, k: nat, acc: seq<Server>, n: nat)
    ensures Listing(pages, k, acc, Some(n), true) == Listing(pages, k, acc, Some(n), false)
    decreases |pages| - k
  {
    if k < |pages| && pages[k] != [] {
      ListingWithLimitAgrees(pages, k + 1, acc + pages[k], n);
    }
  }
}
