// The console-log check (sanity/scenarios/console.py): poll the console
// until cloud-init reports it finished, a known failure appears, or the
// attempts run out.
module ConsoleScenario {
  import opened Wrappers
  import opened Results
  import opened Scenarios

  /** One answer of server.get_console_output(). */
  datatype Fetch = Output(text: string) | FetchRaised(typeRepr: string, message: string, traceback: string)

  /** The three patterns the check searches for: success_re (its captured
      boot time when it matches) and the two entries of failure_res. */
  datatype Patterns = Patterns(
    success: string -> Option<string>,
    metadataFailure: string -> bool,
    kernelPanic: string -> bool)

  const MaxCount: nat := 20

  const FetchFailedReason := "Failed to get console log"
  const MetadataReason := "Cloud-init Couldn't get metadata."
  const PanicReason := "Kernel panic"
  const NoEndReason := "Can't find end of cloud-init in output."

  /** failure_res: the failure patterns in the order they are tried. */
  function FailureRes(p: Patterns): seq<(string, string -> bool)>
  {
    [(MetadataReason, p.metadataFailure), (PanicReason, p.kernelPanic)]
  }

  /** The reason of the first failure pattern that occurs in the output. */
  function FirstMatch(res: seq<(string, string -> bool)>, o: string): (m: Option<string>)
    ensures m.Some? ==> exists i :: 0 <= i < |res| && res[i].0 == m.value && res[i].1(o)
    ensures m.None? <==> forall i :: 0 <= i < |res| ==> !res[i].1(o)
  {
    if res == [] then None
    else if res[0].1(o) then Some(res[0].0)
    else FirstMatch(res[1..], o)
  }

  /** The metadata pattern is tried before the kernel-panic pattern. */
  lemma FailureResOrder(p: Patterns, o: string)
    ensures FirstMatch(FailureRes(p), o) ==
      if p.metadataFailure(o) then Some(MetadataReason)
      else if p.kernelPanic(o) then Some(PanicReason)
      else None
  {
    var res: seq<(string, string -> bool)> := FailureRes(p);
    assert res[1..] == [(PanicReason, p.kernelPanic)];
    assert |res[1..][1..]| == 0;
  }

  /** The loop over failure_res: the first pattern found decides. */
  method SearchFailures(res: seq<(string, string -> bool)>, o: string) returns (m: Option<string>)
    ensures m == FirstMatch(res, o)
  {
    var i := 0;
    while i < |res|
      invariant 0 <= i <= |res|
      invariant FirstMatch(res, o) == FirstMatch(res[i..], o)
    {
      assert res[i..][1..] == res[i + 1..];
      if res[i].1(o) {
        return Some(res[i].0);
      }
      i := i + 1;
    }
    return None;
  }

  /** What ends the check right after a fetch, count being the number of
      fetches so far: the fetch raised, a failure pattern occurs, or the
      attempts are used up. */
  function StopAfterFetch(f: Fetch, p: Patterns, count: nat): Option<Result>
  {
    match f
    case FetchRaised(ty, m, tb) => Some(NewFailure(FetchFailedReason, ExcObject(ty, m), tb))
    case Output(o) =>
      var m := if p.metadataFailure(o) then Some(MetadataReason)
               else if p.kernelPanic(o) then Some(PanicReason)
               else None;
      if m.Some? then Some(NewFailure(m.value, NoException, ""))
      else if count > MaxCount then Some(NewFailure(NoEndReason, NoException, ""))
      else None
  }

  /** The loop condition: the output is non-empty and success_re matches. */
  predicate Finished(o: string, p: Patterns) { o != "" && p.success(o).Some? }

  /** The verdict of one fetched output, or None to keep polling. A
      failure pattern beats a success line in the same output, and the
      21st fetch fails even when cloud-init has finished. */
  function Verdict(f: Fetch, p: Patterns, count: nat): (v: Option<Result>)
    ensures v.Some? && IsFailure(v.value) <==>
      f.FetchRaised? || FirstMatch(FailureRes(p), f.text).Some? || count > MaxCount
    ensures v.Some? && v.value.CloudInitPass? <==>
      f.Output? && FirstMatch(FailureRes(p), f.text).None? && count <= MaxCount && Finished(f.text, p)
    ensures v.Some? ==> IsFailure(v.value) || v.value.CloudInitPass?
    ensures f.Output? && p.kernelPanic(f.text) && !p.metadataFailure(f.text) ==>
      v == Some(NewFailure(PanicReason, NoException, ""))
  {
    FailureResOrder(p, if f.Output? then f.text else "");
    var stop := StopAfterFetch(f, p, count);
    if stop.Some? then stop
    else if Finished(f.text, p) then Some(CloudInitPass(0, p.success(f.text).value))
    else None
  }

  /** The verdict is the stop decision when there is one, and otherwise a
      pass exactly when cloud-init has finished. */
  lemma VerdictStep(f: Fetch, p: Patterns, count: nat)
    ensures StopAfterFetch(f, p, count).Some? ==> Verdict(f, p, count) == StopAfterFetch(f, p, count)
    ensures StopAfterFetch(f, p, count).None? && f.Output? && Finished(f.text, p) ==>
      Verdict(f, p, count) == Some(CloudInitPass(0, p.success(f.text).value))
    ensures StopAfterFetch(f, p, count).None? && f.Output? && !Finished(f.text, p) ==> Verdict(f, p, count).None?
  {
  }

  /** The body of the polling loop after a fetch. */
  method CheckFetch(f: Fetch, p: Patterns, count: nat) returns (stop: Option<Result>)
    ensures stop == StopAfterFetch(f, p, count)
    ensures stop.None? ==> f.Output?
  {
    if f.FetchRaised? {
      return Some(NewFailure(FetchFailedReason, ExcObject(f.typeRepr, f.message), f.traceback));
    }
    var m := SearchFailures(FailureRes(p), f.text);
    FailureResOrder(p, f.text);
    if m.Some? {
      return Some(NewFailure(m.value, NoException, ""));
    }
    if count > MaxCount {
      return Some(NewFailure(NoEndReason, NoException, ""));
    }
    return None;
  }

  /** Seconds slept after the first n polls: 2, 4, ..., 2n. */
  function SleepTotal(n: nat): nat { if n == 0 then 0 else SleepTotal(n - 1) + 2 * n }

  /** The check sleeps at most 2 + 4 + ... + 40 = 420 seconds. */
  lemma {:induction false} SleepTotalClosedForm(n: nat)
    ensures SleepTotal(n) == n * (n + 1)
  {
    if n > 0 { SleepTotalClosedForm(n - 1); }
  }

  /** A fetch that neither stops the check nor shows cloud-init finished. */
  predicate Undecided(f: Fetch, p: Patterns, count: nat)
  {
    StopAfterFetch(f, p, count).None? && f.Output? && !Finished(f.text, p)
  }

  /** A fetch leaves the check undecided exactly when its verdict is None. */
  lemma UndecidedIsNone(f: Fetch, p: Patterns, count: nat)
    ensures Undecided(f, p, count) <==> Verdict(f, p, count).None?
  {
    VerdictStep(f, p, count);
  }

  /** The rest of the polling loop once done fetches have been made and
      left the check undecided: the result, the total number of fetches,
      and the seconds slept from then on (the loop sleeps after every fetch
      that does not stop it, the last one included). */
  function PollFrom(fetch: nat -> Fetch, p: Patterns, done: nat): (Result, nat, nat)
    requires done <= MaxCount
    decreases MaxCount - done
  {
    var f := fetch(done);
    var stop := StopAfterFetch(f, p, done + 1);
    if stop.Some? then (stop.value, done + 1, 0)
    else if Finished(f.text, p) then (CloudInitPass(0, p.success(f.text).value), done + 1, 2 * (done + 1))
    else
      var rest := PollFrom(fetch, p, done + 1);
      (rest.0, rest.1, 2 * (done + 1) + rest.2)
  }

  /** What polling from done fetches promises: it ends within the limit;
      every fetch before the last leaves the check undecided; the last
      one's verdict is the result; and the sleeps add up to the closed
      form. */
  ghost predicate PollFacts(fetch: nat -> Fetch, p: Patterns, done: nat)
    requires done <= MaxCount
  {
    var t := PollFrom(fetch, p, done);
    && done + 1 <= t.1 <= MaxCount + 1
    && (forall j :: done <= j < t.1 - 1 ==> Verdict(fetch(j), p, j + 1).None?)
    && Verdict(fetch(t.1 - 1), p, t.1) == Some(t.0)
    && SleepTotal(done) + t.2 == SleepTotal(if t.0.CloudInitPass? then t.1 else t.1 - 1)
  }

  /** One undecided fetch: polling goes on from the next one, after a
      sleep. */
  lemma PollFromUndecided(fetch: nat -> Fetch, p: Patterns, done: nat)
    requires done <= MaxCount && Undecided(fetch(done), p, done + 1)
    ensures done + 1 <= MaxCount
    ensures var rest := PollFrom(fetch, p, done + 1);
      PollFrom(fetch, p, done) == (rest.0, rest.1, 2 * (done + 1) + rest.2)
  {
  }

  /** A fetch that does not stop the check and shows cloud-init finished
      ends it with a pass, after one more sleep. */
  lemma PollFromFinished(fetch: nat -> Fetch, p: Patterns, done: nat)
    requires done <= MaxCount && StopAfterFetch(fetch(done), p, done + 1).None?
    requires Finished(fetch(done).text, p)
    ensures PollFrom(fetch, p, done) == (CloudInitPass(0, p.success(fetch(done).text).value), done + 1, 2 * (done + 1))
  {
  }

  lemma PollStops(fetch: nat -> Fetch, p: Patterns, done: nat)
    requires done <= MaxCount && StopAfterFetch(fetch(done), p, done + 1).Some?
    ensures PollFacts(fetch, p, done)
  {
    var f := fetch(done);
    var stop := StopAfterFetch(f, p, done + 1);
    assert PollFrom(fetch, p, done) == (stop.value, done + 1, 0);
    VerdictStep(f, p, done + 1);
    assert IsFailure(stop.value);
  }

  lemma PollPasses(fetch: nat -> Fetch, p: Patterns, done: nat)
    requires done <= MaxCount && StopAfterFetch(fetch(done), p, done + 1).None?
    requires Finished(fetch(done).text, p)
    ensures PollFacts(fetch, p, done)
  {
    PollFromFinished(fetch, p, done);
    VerdictStep(fetch(done), p, done + 1);
  }

  lemma PollContinues(fetch: nat -> Fetch, p: Patterns, done: nat)
    requires done <= MaxCount && Undecided(fetch(done), p, done + 1)
    requires done + 1 <= MaxCount && PollFacts(fetch, p, done + 1)
    ensures PollFacts(fetch, p, done)
  {
    PollFromUndecided(fetch, p, done);
    UndecidedIsNone(fetch(done), p, done + 1);
  }

  /** Polling from any number of undecided fetches keeps PollFacts. */
  lemma {:induction false} PollFromFacts(fetch: nat -> Fetch, p: Patterns, done: nat)
    requires done <= MaxCount
    ensures PollFacts(fetch, p, done)
    decreases MaxCount - done
  {
    var f := fetch(done);
    if StopAfterFetch(f, p, done + 1).Some? {
      PollStops(fetch, p, done);
    } else if Finished(f.text, p) {
      PollPasses(fetch, p, done);
    } else {
      assert done + 1 <= MaxCount;
      PollFromFacts(fetch, p, done + 1);
      PollContinues(fetch, p, done);
    }
  }

  /** The polling loop of _test_server: fetch(j) answers the j-th fetch;
      the loop runs until a fetch stops the check or shows cloud-init
      finished, which is at the latest the 21st. */
  method PollConsole(fetch: nat -> Fetch, p: Patterns)
    returns (r: Result, fetches: nat, ghost slept: nat)
    ensures (r, fetches, slept) == PollFrom(fetch, p, 0)
  {
    ghost var t := PollFrom(fetch, p, 0);
    slept := 0;
    var count := 0;
    var output: Option<string> := None;
    while !(output.Some? && Finished(output.value, p))
      invariant count <= MaxCount
      invariant output.None? <==> count == 0
      invariant count > 0 ==> fetch(count - 1) == Output(output.value)
      invariant !(output.Some? && Finished(output.value, p)) ==>
        t.0 == PollFrom(fetch, p, count).0 && t.1 == PollFrom(fetch, p, count).1
        && t.2 == slept + PollFrom(fetch, p, count).2
      invariant output.Some? && Finished(output.value, p) ==>
        t.0 == CloudInitPass(0, p.success(output.value).value) && t.1 == count && t.2 == slept
      decreases MaxCount + 1 - count
    {
      var f := fetch(count);
      var stop := CheckFetch(f, p, count + 1);
      if stop.Some? {
        r, fetches := stop.value, count + 1;
        return;
      }
      if Finished(f.text, p) {
        PollFromFinished(fetch, p, count);
      } else {
        PollFromUndecided(fetch, p, count);
      }
      output := Some(f.text);
      count := count + 1;
      slept := slept + 2 * count;
    }
    r, fetches := CloudInitPass(0, p.success(output.value).value), count;
  }

  /** ConsoleScenario._test_server(server): a server that is not ACTIVE is
      skipped; otherwise the console is polled until the first fetch whose
      verdict ends the check, which is at the latest the 21st. Also returns
      the number of fetches and (ghost) the seconds spent sleeping. */
  method ConsoleBody(s: Server, fetch: nat -> Fetch, p: Patterns)
    returns (r: Result, fetches: nat, ghost slept: nat)
    ensures !IsActive(s) ==> r == Skipped(0) && fetches == 0 && slept == 0
    ensures IsActive(s) ==>
      && 1 <= fetches <= MaxCount + 1
      && (forall j :: 0 <= j < fetches - 1 ==> Verdict(fetch(j), p, j + 1).None?)
      && Verdict(fetch(fetches - 1), p, fetches) == Some(r)
      && slept == SleepTotal(if r.CloudInitPass? then fetches else fetches - 1)
  {
    if s.status != Some("ACTIVE") {
      return Skipped(0), 0, 0;
    }
    r, fetches, slept := PollConsole(fetch, p);
    PollFromFacts(fetch, p, 0);
  }
}
