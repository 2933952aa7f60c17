// The outcome of one check: sanity/results.py plus the scenario-level
// success classes (PASS and the cloud-init PASS of the console check).
module Results {
  import opened Wrappers
  import opened Text

  const MicrosPerSecond: nat := 1000000
  const SecondsPerDay: nat := 86400

  /** What the exception argument of Failure(...) / Error(...) can be. */
  datatype ExcArg =
    | NoException                               // None or another falsy value
    | ExcText(text: string)                      // a string, kept verbatim
    | ExcObject(typeRepr: string, message: string) // a raised exception object

  /** A check result. Durations are elapsed microseconds (a timedelta). */
  datatype Result =
    | Plain(duration: nat)          // results.Result
    | Success(duration: nat)        // results.Success
    | Failure(duration: nat, reason: string, exception: Option<string>, traceback: Option<string>)
    | Error(duration: nat, reason: string, exception: Option<string>, traceback: Option<string>)
    | Skipped(duration: nat)
    | Pass(duration: nat)           // sanity.scenarios.Success
    | CloudInitPass(duration: nat, bootTime: string)

  /** A value in the dictionary form of a result. */
  datatype Value = VStr(s: string) | VInt(i: int) | VNone

  /** is_failure(): true exactly for Failure and its subclass Error. */
  predicate IsFailure(r: Result) { r.Failure? || r.Error? }

  /** timedelta.seconds: the seconds part, without whole days. */
  function Seconds(us: nat): (s: nat)
    ensures s < SecondsPerDay
    ensures us < SecondsPerDay * MicrosPerSecond ==> s * MicrosPerSecond <= us < (s + 1) * MicrosPerSecond
  { (us / MicrosPerSecond) % SecondsPerDay }

  /** Failure(reason, exception) with its traceback argument tb
      (the text traceback.format_exc() would return at that point). */
  function NewFailure(reason: string, exc: ExcArg, tb: string): (r: Result)
    ensures r.Failure? && r.duration == 0 && r.reason == reason
    ensures exc.NoException? ==> r.exception == None && r.traceback == None
    ensures exc.ExcText? ==> r.exception == Some(exc.text) && r.traceback == None
    ensures exc.ExcObject? ==>
      r.traceback == Some(tb) && r.exception == Some(exc.typeRepr + ": " + exc.message)
  {
    match exc
    case NoException => Failure(0, reason, None, None)
    case ExcText(t) => Failure(0, reason, Some(t), None)
    case ExcObject(ty, m) => Failure(0, reason, Some(ty + ": " + m), Some(tb))
  }

  /** Error(reason, exception): like Failure, but the traceback is always recorded. */
  function NewError(reason: string, exc: ExcArg, tb: string): (r: Result)
    ensures r.Error? && r.duration == 0 && r.reason == reason
    ensures r.traceback == Some(tb)
    ensures r.exception == NewFailure(reason, exc, tb).exception
  {
    var f := NewFailure(reason, exc, tb);
    Error(0, reason, f.exception, Some(tb))
  }

  /** Error() raised inside an except block: empty reason, no exception text. */
  function ErrorFromHandler(tb: string): (r: Result)
    ensures IsFailure(r) && r.Error? && r.traceback == Some(tb) && r.exception == None
  { NewError("", NoException, tb) }

  /** Python's '{:02}'.format(n) for n < 100. */
  function TwoDigits(n: nat): (t: string)
    requires n < 100
    ensures |t| == 2 && AllDigits(t)
  { [DigitChar(n / 10), DigitChar(n % 10)] }

  /** The 'MM:SS' rendering of the minutes and seconds within the hour. */
  function Clock(seconds: nat): (t: string)
    ensures |t| == 5 && t[2] == ':'
  { TwoDigits(seconds % 3600 / 60) + ":" + TwoDigits(seconds % 60) }

  /** Reads an 'MM:SS' text back into minutes and seconds. */
  function ParseClock(t: string): Option<(nat, nat)>
  {
    if |t| == 5 && t[2] == ':' && AllDigits(t[..2]) && AllDigits(t[3..])
    then Some((DigitsValue(t[..2]), DigitsValue(t[3..])))
    else None
  }

  /** Every clock rendering reads back as the minutes and seconds it shows,
      and they add up to the position within the hour. */
  lemma ClockRoundTrip(seconds: nat)
    ensures ParseClock(Clock(seconds)) == Some((seconds % 3600 / 60, seconds % 60))
    ensures (seconds % 3600 / 60) * 60 + seconds % 60 == seconds % 3600
    ensures seconds % 3600 / 60 < 60 && seconds % 60 < 60
  {
    var t := Clock(seconds);
    var m, s := seconds % 3600 / 60, seconds % 60;
    assert t[..2] == TwoDigits(m);
    assert t[3..] == TwoDigits(s);
    TwoDigitsValue(m);
    TwoDigitsValue(s);
  }

  lemma TwoDigitsValue(n: nat)
    requires n < 100
    ensures DigitsValue(TwoDigits(n)) == n
  {
    var t := TwoDigits(n);
    assert t[..1] == [DigitChar(n / 10)];
    assert t[..1][..0] == [];
    assert DigitsValue(t[..1]) == n / 10;
    assert DigitsValue(t) == DigitsValue(t[..1]) * 10 + DigitValue(t[1]);
  }

  /** str(result); None where Python falls back to the default object text. */
  function Str(r: Result): (t: Option<string>)
    ensures t.Some? <==> !(r.Plain? || r.Success?)
  {
    match r
    case Plain(_) => None
    case Success(_) => None
    case Failure(d, _, _, _) => Some(if d != 0 then "FAILURE " + Clock(Seconds(d)) else "FAILURE")
    case Error(d, _, _, _) => Some(if d != 0 then "ERROR " + Clock(Seconds(d)) else "ERROR")
    case Skipped(_) => Some("SKIPPED")
    case Pass(d) => Some("PASS " + Clock(Seconds(d)))
    case CloudInitPass(d, b) => Some("PASS (" + b + ") " + Clock(Seconds(d)))
  }

  /** The text of a failure shows the clock exactly when its duration is
      non-zero, and that clock reads back as the duration's minutes and
      seconds within the hour. */
  lemma FailureTextShowsDuration(r: Result)
    requires IsFailure(r)
    ensures var t := Str(r).value;
      (r.duration == 0 ==> t == (if r.Failure? then "FAILURE" else "ERROR")) &&
      (r.duration != 0 ==>
        |t| > 5 &&
        t[..|t| - 5] == (if r.Failure? then "FAILURE " else "ERROR ") &&
        ParseClock(t[|t| - 5..]) == Some((Seconds(r.duration) % 3600 / 60, Seconds(r.duration) % 60)))
  {
    if r.duration != 0 {
      var t := Str(r).value;
      var p := if r.Failure? then "FAILURE " else "ERROR ";
      assert t == p + Clock(Seconds(r.duration));
      assert t[|t| - 5..] == Clock(Seconds(r.duration));
      assert t[..|t| - 5] == p;
      ClockRoundTrip(Seconds(r.duration));
    }
  }

  /** int(float(s)) for a capture of the pattern [\d.]+: at most one dot and
      at least one digit make a float, whose integer part is the digits
      before the dot. */
  function FloatIntPart(s: string): (n: Option<nat>)
    ensures n.Some? ==> HasDigit(s)
  {
    if (forall i :: 0 <= i < |s| ==> IsDigit(s[i]) || s[i] == '.') && HasDigit(s) &&
       '.' !in After(s, '.')
    then Some(DigitsValue(Before(s, '.')))
    else None
  }

  /** A boot time written as whole seconds, a dot and a fraction reads back
      as the whole seconds. */
  lemma FloatIntPartOfDecimal(n: nat, frac: string)
    requires AllDigits(frac)
    ensures FloatIntPart(NatToString(n) + "." + frac) == Some(n)
  {
    var w := NatToString(n);
    var s := w + "." + frac;
    BeforeAfterFirst(w, frac);
    assert s[0] == w[0] && IsDigit(s[0]);
    assert forall i :: 0 <= i < |s| ==> IsDigit(s[i]) || s[i] == '.' by {
      forall i | 0 <= i < |s| ensures IsDigit(s[i]) || s[i] == '.' {
        if i < |w| { assert s[i] == w[i]; }
        else if i > |w| { assert s[i] == frac[i - |w| - 1]; }
      }
    }
    NatToStringRoundTrip(n);
  }

  lemma {:induction false} BeforeAfterFirst(w: string, frac: string)
    requires AllDigits(w) && AllDigits(frac)
    ensures Before(w + "." + frac, '.') == w
    ensures After(w + "." + frac, '.') == frac
    ensures '.' !in frac
  {
    if w != [] {
      assert (w + "." + frac)[1..] == w[1..] + "." + frac;
      BeforeAfterFirst(w[1..], frac);
    } else {
      assert (w + "." + frac) == "." + frac;
    }
  }

  /** The class name reported under 'result'. */
  function ClassName(r: Result): string
  {
    match r
    case Plain(_) => "Result"
    case Success(_) => "Success"
    case Failure(_, _, _, _) => "Failure"
    case Error(_, _, _, _) => "Error"
    case Skipped(_) => "Skipped"
    case Pass(_) => "Success"
    case CloudInitPass(_, _) => "Success"
  }

  function OptText(o: Option<string>): Value
  { if o.Some? then VStr(o.value) else VNone }

  /** to_dict(); None where int(float(boot_time)) raises. */
  function ToDict(r: Result): (d: Option<map<string, Value>>)
    ensures d.Some? <==> !r.CloudInitPass? || FloatIntPart(r.bootTime).Some?
    ensures d.Some? ==>
      "result" in d.value && "duration" in d.value && d.value["result"] == VStr(ClassName(r))
    ensures d.Some? && !r.CloudInitPass? ==> d.value["duration"] == VInt(Seconds(r.duration))
    ensures d.Some? ==>
      && ("reason" in d.value <==> IsFailure(r))
      && ("traceback" in d.value <==> IsFailure(r))
      && ("exception" in d.value <==> r.Failure?)
      && |d.value.Keys| == (if r.Failure? then 5 else if r.Error? then 4 else 2)
  {
    var base := map["result" := VStr(ClassName(r)), "duration" := VInt(Seconds(r.duration))];
    match r
    case Failure(_, reason, e, tb) =>
      Some(base["reason" := VStr(reason)]["exception" := OptText(e)]["traceback" := OptText(tb)])
    case Error(_, reason, _, tb) =>
      Some(base["reason" := VStr(reason)]["traceback" := OptText(tb)])
    case CloudInitPass(_, b) =>
      var n := FloatIntPart(b);
      if n.Some? then Some(map["result" := VStr("Success"), "duration" := VInt(n.value)]) else None
    case _ => Some(base)
  }

  /** The dictionary form keeps the failure status: a consumer of the report
      can tell a failed check from a passed one by its 'result' entry. */
  lemma DictKeepsFailureStatus(r: Result)
    requires ToDict(r).Some?
    ensures IsFailure(r) <==> ToDict(r).value["result"] in {VStr("Failure"), VStr("Error")}
  {}
}
