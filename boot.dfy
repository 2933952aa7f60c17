// The boot check (sanity/scenarios/boot.py).
module BootScenario {
  import opened Wrappers
  import opened Results
  import opened Scenarios

  /** BootScenario._test_server(server): an unbooted server fails with its
      status, an ACTIVE one passes, any other fails as stuck (unscheduled
      when it has no compute host) with the server's fault message as the
      exception text. Reading a missing host attribute raises. */
  function BootBody(s: Server): (o: Outcome<Result>)
    ensures !s.booted ==>
      o == Ok(NewFailure("Server didn't boot, " + StatusText(s.status), NoException, ""))
    ensures s.booted && IsActive(s) ==> o == Ok(Pass(0))
    ensures s.booted && !IsActive(s) && s.hostAttr.None? ==> o.Raised?
    ensures s.booted && !IsActive(s) && s.hostAttr == Some("") ==>
      o == Ok(NewFailure("Stuck in " + StatusText(s.status) + " state, never scheduled to host correctly.",
                         ExcText(s.faultMessage), ""))
    ensures s.booted && !IsActive(s) && s.hostAttr.Some? && s.hostAttr.value != "" ==>
      o == Ok(NewFailure("Stuck in " + StatusText(s.status) + " state.", ExcText(s.faultMessage), ""))
  {
    if !HasBooted(s) then
      Ok(NewFailure("Server didn't boot, " + StatusText(s.status), NoException, ""))
    else if s.status == Some("ACTIVE") then
      Ok(Pass(0))
    else if s.hostAttr.None? then
      Raised("AttributeError: OS-EXT-SRV-ATTR:host")
    else if s.hostAttr.value == "" then
      Ok(NewFailure("Stuck in " + StatusText(s.status) + " state, never scheduled to host correctly.",
                    ExcText(s.faultMessage), ""))
    else
      Ok(NewFailure("Stuck in " + StatusText(s.status) + " state.", ExcText(s.faultMessage), ""))
  }

  /** Through the timing wrapper the boot check fails exactly when the
      server did not boot or is not ACTIVE; a failure's exception is the
      server's fault message unless the server never booted. */
  lemma BootVerdict(s: Server, elapsed: nat)
    ensures var r := TestStep(BootBody(s), elapsed);
      && (IsFailure(r) <==> !(s.booted && IsActive(s)))
      && (r.Error? <==> s.booted && !IsActive(s) && s.hostAttr.None?)
      && (r.Failure? && s.booted ==> r.exception == Some(s.faultMessage))
      && r.duration == elapsed
  {}
}
