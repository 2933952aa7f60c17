// The shared cloud resources a sanity run uses, each looked up (or
// created) once and cached: sanity/controller.py, class SanityState.
module SanityStateCache {
  import opened Wrappers
  import opened Text
  import opened Order

  datatype Flavor = Flavor(id: string, name: string)
  datatype Image = Image(id: string, name: string)
  datatype Zone = Zone(zoneName: string, available: bool)
  /** A neutron/nova object that is only stored, created and deleted. */
  datatype Resource = Resource(id: string, name: string)

  const NoFlavor := "Can't find valid flavor."
  const NoImage := "Can't find valid image to use."
  const NoZone := "Can't find valid zone to use."
  const NoExternalNet := "Can't find valid external network to use."

  predicate FlavorMatches(f: Flavor, nameOrId: string) { f.id == nameOrId || f.name == nameOrId }

  /** _get_flavor(*candidates): the candidates are tried in order against
      the flavor listing, and the first flavor whose id or name equals the
      first candidate that matches anything is returned. */
  method GetFlavor(candidates: seq<string>, flavors: seq<Flavor>) returns (r: Outcome<Flavor>)
    ensures r.Raised? <==> forall i, j :: 0 <= i < |candidates| && 0 <= j < |flavors| ==> !FlavorMatches(flavors[j], candidates[i])
    ensures r.Raised? ==> r.error == NoFlavor
    ensures r.Ok? ==>
      exists i, j :: 0 <= i < |candidates| && 0 <= j < |flavors| && r.value == flavors[j]
        && FlavorMatches(flavors[j], candidates[i])
        && (forall j' :: 0 <= j' < j ==> !FlavorMatches(flavors[j'], candidates[i]))
        && (forall i', j' :: 0 <= i' < i && 0 <= j' < |flavors| ==> !FlavorMatches(flavors[j'], candidates[i']))
  {
    var i := 0;
    while i < |candidates|
      invariant 0 <= i <= |candidates|
      invariant forall i', j' :: 0 <= i' < i && 0 <= j' < |flavors| ==> !FlavorMatches(flavors[j'], candidates[i'])
    {
      var j := 0;
      while j < |flavors|
        invariant 0 <= j <= |flavors|
        invariant forall j' :: 0 <= j' < j ==> !FlavorMatches(flavors[j'], candidates[i])
      {
        if flavors[j].id == candidates[i] || flavors[j].name == candidates[i] {
          return Ok(flavors[j]);
        }
        j := j + 1;
      }
      i := i + 1;
    }
    return Raised(NoFlavor);
  }

  /** No candidate names any flavor listed. */
  predicate GetFlavorFails(candidates: seq<string>, flavors: seq<Flavor>) {
    forall i, j :: 0 <= i < |candidates| && 0 <= j < |flavors| ==> !FlavorMatches(flavors[j], candidates[i])
  }

  /** Image a before image b when a's name sorts after b's. */
  predicate NameAfter(a: Image, b: Image) { StrLess(b.name, a.name) }

  lemma NameAfterIsWeakOrder()
    ensures IsStrictWeakOrder((a, b) => NameAfter(a, b))
  {
    forall a: Image ensures !NameAfter(a, a) { StrLessIrreflexive(a.name); }
    forall a: Image, b: Image, c: Image | NameAfter(a, b) && NameAfter(b, c) ensures NameAfter(a, c) {
      StrLessTransitive(c.name, b.name, a.name);
    }
    forall a: Image, b: Image, c: Image | NameAfter(a, c) ensures NameAfter(a, b) || NameAfter(b, c) {
      if b.name != a.name && b.name != c.name {
        StrLessTotal(b.name, a.name);
        if StrLess(a.name, b.name) {
          StrLessTransitive(c.name, a.name, b.name);
        }
      }
    }
  }

  /** _get_image(name_re): the images sorted by name, descending, and the
      first whose name the pattern matches; so the match with the greatest
      name. */
  method GetImage(images: seq<Image>, nameMatches: string -> bool) returns (r: Outcome<Image>)
    ensures r.Raised? <==> forall i :: 0 <= i < |images| ==> !nameMatches(images[i].name)
    ensures r.Raised? ==> r.error == NoImage
    ensures r.Ok? ==>
      && r.value in images && nameMatches(r.value.name)
      && (forall i :: 0 <= i < |images| && nameMatches(images[i].name) ==> !StrLess(r.value.name, images[i].name))
      && exists j :: 0 <= j < |images| && images[j] == r.value && forall i :: 0 <= i < j ==> images[i].name != r.value.name
  {
    var lt := (a, b) => NameAfter(a, b);
    NameAfterIsWeakOrder();
    var sorted := Sort(images, lt);
    SortSorted(images, lt);
    assert forall a, b :: 0 <= a < b < |sorted| ==> !NameAfter(sorted[b], sorted[a]);
    var k := 0;
    while k < |sorted|
      invariant 0 <= k <= |sorted|
      invariant forall m :: 0 <= m < k ==> !nameMatches(sorted[m].name)
    {
      if nameMatches(sorted[k].name) {
        FirstMatchLatest(images, sorted, nameMatches, k);
        FirstNamedAt(sorted, k);
        NameAfterDistinctNames();
        SortFirstNamed(images, lt, sorted[k].name);
        FirstNamedListed(images, sorted[k].name);
        return Ok(sorted[k]);
      }
      k := k + 1;
    }
    NoMatchAnywhere(images, sorted, nameMatches);
    return Raised(NoImage);
  }

  /** Images under one name never sort before one another. */
  lemma NameAfterDistinctNames()
    ensures forall a: Image, b: Image :: NameAfter(a, b) ==> a.name != b.name
  {
    forall a: Image, b: Image | NameAfter(a, b) ensures a.name != b.name {
      StrLessIrreflexive(a.name);
    }
  }

  /** The first image listed under a name. */
  function FirstNamed(xs: seq<Image>, name: string): Option<Image>
  {
    if xs == [] then None
    else if xs[0].name == name then Some(xs[0])
    else FirstNamed(xs[1..], name)
  }

  /** FirstNamed finds the earliest image under the name. */
  lemma {:induction false} FirstNamedListed(xs: seq<Image>, name: string)
    ensures FirstNamed(xs, name).Some? ==>
      exists j :: 0 <= j < |xs| && xs[j] == FirstNamed(xs, name).value && forall i :: 0 <= i < j ==> xs[i].name != name
  {
    if xs != [] && xs[0].name != name && FirstNamed(xs, name).Some? {
      FirstNamedListed(xs[1..], name);
      var j :| 0 <= j < |xs[1..]| && xs[1..][j] == FirstNamed(xs[1..], name).value
               && forall i :: 0 <= i < j ==> xs[1..][i].name != name;
      assert xs[j + 1] == FirstNamed(xs, name).value;
      assert forall i :: 0 <= i < j + 1 ==> xs[i].name != name by {
        forall i | 0 <= i < j + 1 ensures xs[i].name != name {
          if i > 0 { assert xs[i] == xs[1..][i - 1]; }
        }
      }
    } else if xs != [] && xs[0].name == name {
      assert xs[0] == FirstNamed(xs, name).value;
    }
  }

  /** An image with no earlier one under its name is the first named. */
  lemma {:induction false} FirstNamedAt(xs: seq<Image>, k: nat)
    requires k < |xs| && forall m :: 0 <= m < k ==> xs[m].name != xs[k].name
    ensures FirstNamed(xs, xs[k].name) == Some(xs[k])
  {
    if k > 0 {
      assert xs[1..][k - 1] == xs[k];
      FirstNamedAt(xs[1..], k - 1);
    }
  }

  /** Inserting an image keeps the first of each other name, and puts the
      image ahead of any other under its own name. */
  lemma {:induction false} InsertFirstNamed(x: Image, ys: seq<Image>, lt: (Image, Image) -> bool, name: string)
    requires forall a, b :: lt(a, b) ==> a.name != b.name
    ensures FirstNamed(Insert(x, ys, lt), name) == if x.name == name then Some(x) else FirstNamed(ys, name)
  {
    if ys == [] || !lt(ys[0], x) {
      assert Insert(x, ys, lt) == [x] + ys;
      assert ([x] + ys)[1..] == ys;
    } else {
      var r := Insert(x, ys, lt);
      assert r == [ys[0]] + Insert(x, ys[1..], lt);
      assert r[1..] == Insert(x, ys[1..], lt);
      InsertFirstNamed(x, ys[1..], lt, name);
    }
  }

  /** The stable sort keeps the first image listed under each name. */
  lemma {:induction false} SortFirstNamed(xs: seq<Image>, lt: (Image, Image) -> bool, name: string)
    requires forall a, b :: lt(a, b) ==> a.name != b.name
    ensures FirstNamed(Sort(xs, lt), name) == FirstNamed(xs, name)
  {
    if xs != [] {
      SortFirstNamed(xs[1..], lt, name);
      InsertFirstNamed(xs[0], Sort(xs[1..], lt), lt, name);
    }
  }

  /** In the images sorted latest name first, the first one that matches
      has the latest matching name. */
  lemma FirstMatchLatest(images: seq<Image>, sorted: seq<Image>, nameMatches: string -> bool, k: nat)
    requires multiset(sorted) == multiset(images)
    requires forall a, b :: 0 <= a < b < |sorted| ==> !NameAfter(sorted[b], sorted[a])
    requires k < |sorted| && nameMatches(sorted[k].name)
    requires forall m :: 0 <= m < k ==> !nameMatches(sorted[m].name)
    ensures sorted[k] in images
    ensures forall i :: 0 <= i < |images| && nameMatches(images[i].name) ==> !StrLess(sorted[k].name, images[i].name)
  {
    forall i | 0 <= i < |images| && nameMatches(images[i].name)
      ensures !StrLess(sorted[k].name, images[i].name)
    {
      assert images[i] in multiset(sorted);
      var j :| 0 <= j < |sorted| && sorted[j] == images[i];
      if j == k {
        StrLessIrreflexive(sorted[k].name);
      } else {
        assert k < j;
      }
    }
    assert sorted[k] in multiset(images);
  }

  /** A name no sorted image matches is matched by no image. */
  lemma NoMatchAnywhere(images: seq<Image>, sorted: seq<Image>, nameMatches: string -> bool)
    requires multiset(sorted) == multiset(images)
    requires forall m :: 0 <= m < |sorted| ==> !nameMatches(sorted[m].name)
    ensures forall i :: 0 <= i < |images| ==> !nameMatches(images[i].name)
  {
    forall i | 0 <= i < |images| ensures !nameMatches(images[i].name) {
      assert images[i] in multiset(sorted);
    }
  }

  /** The zones _get_availability_zone never picks unless named. */
  const IgnoredZones: set<string> := {"internal", "nova"}

  /** _get_availability_zone(name), as written: the condition
      `zone.zoneName == name or self._availability_zone` returns the first
      zone outright whenever a zone is configured; otherwise the first zone
      called name, or else the first available zone not ignored. */
  function ZoneAsWritten(zones: seq<Zone>, name: Option<string>, configured: Option<string>): Option<Zone>
  {
    if zones == [] then None
    else if (name.Some? && zones[0].zoneName == name.value) || (configured.Some? && configured.value != "") then Some(zones[0])
    else if zones[0].zoneName in IgnoredZones then ZoneAsWritten(zones[1..], name, configured)
    else if zones[0].available then Some(zones[0])
    else ZoneAsWritten(zones[1..], name, configured)
  }

  /** The zone asked for: the name given, else the configured one. */
  function WantedZone(name: Option<string>, configured: Option<string>): Option<string>
  {
    if name.Some? && name.value != "" then name
    else if configured.Some? && configured.value != "" then configured
    else None
  }

  /** _get_availability_zone(name) as evidently intended:
      `zone.zoneName == (name or self._availability_zone)`. */
  function ZoneIntended(zones: seq<Zone>, name: Option<string>, configured: Option<string>): (z: Option<Zone>)
    ensures z.Some? ==> z.value in zones
    ensures z.Some? && z.value.zoneName in IgnoredZones ==> WantedZone(name, configured) == Some(z.value.zoneName)
  {
    var wanted := WantedZone(name, configured);
    if zones == [] then None
    else if wanted.Some? && zones[0].zoneName == wanted.value then Some(zones[0])
    else if zones[0].zoneName in IgnoredZones then ZoneIntended(zones[1..], name, configured)
    else if zones[0].available then Some(zones[0])
    else ZoneIntended(zones[1..], name, configured)
  }

  /** The loop of _get_availability_zone(name), as written. */
  method GetAvailabilityZone(zones: seq<Zone>, name: Option<string>, configured: Option<string>) returns (r: Outcome<Zone>)
    ensures r == (if ZoneAsWritten(zones, name, configured).Some? then Ok(ZoneAsWritten(zones, name, configured).value) else Raised(NoZone))
  {
    var k := 0;
    while k < |zones|
      invariant 0 <= k <= |zones|
      invariant ZoneAsWritten(zones, name, configured) == ZoneAsWritten(zones[k..], name, configured)
    {
      assert zones[k..][1..] == zones[k + 1..];
      var zone := zones[k];
      if (name.Some? && zone.zoneName == name.value) || (configured.Some? && configured.value != "") {
        return Ok(zone);
      }
      if zone.zoneName !in IgnoredZones && zone.available {
        return Ok(zone);
      }
      k := k + 1;
    }
    return Raised(NoZone);
  }

  /** With a zone configured, as written, the first zone listed is used,
      whatever its name: configuring "az1" with zones [internal, az1]
      selects "internal". The intended reading selects "az1". */
  lemma ConfiguredZoneIgnored()
    ensures ZoneAsWritten([Zone("internal", true), Zone("az1", true)], None, Some("az1")) == Some(Zone("internal", true))
    ensures ZoneIntended([Zone("internal", true), Zone("az1", true)], None, Some("az1")) == Some(Zone("az1", true))
  {
    var zs := [Zone("internal", true), Zone("az1", true)];
    assert zs[1..] == [Zone("az1", true)];
  }

  /** As intended, a wanted zone is chosen when every zone listed before it
      is ignored or unavailable, and a zone the operator did not ask for is
      only chosen when it is available and not ignored. */
  lemma {:induction false} ZoneIntendedPicksWanted(zones: seq<Zone>, name: Option<string>, configured: Option<string>, k: nat)
    requires k < |zones| && WantedZone(name, configured) == Some(zones[k].zoneName)
    requires forall j :: 0 <= j < k ==> zones[j].zoneName in IgnoredZones || !zones[j].available
    ensures ZoneIntended(zones, name, configured).Some?
    ensures var z := ZoneIntended(zones, name, configured).value;
      z.zoneName == zones[k].zoneName || (z.available && z.zoneName !in IgnoredZones)
  {
    if k > 0 && zones[0].zoneName != zones[k].zoneName {
      ZoneIntendedPicksWanted(zones[1..], name, configured, k - 1);
    }
  }

  /** str.format(arg) for name templates whose only replacement fields
      are {0}: each {0} becomes arg and all other text is kept. Templates
      with {} or other fields, or with {{ and }} escapes, are not covered. */
  function FormatName(template: string, arg: string): string
    decreases |template|
  {
    if |template| < 3 then template
    else if template[..3] == "{0}" then arg + FormatName(template[3..], arg)
    else [template[0]] + FormatName(template[1..], arg)
  }

  /** A template that is a brace-free prefix followed by one {0} field
      formats to the prefix followed by the argument. */
  lemma {:induction false} FormatNamePrefixField(prefix: string, arg: string)
    requires forall i :: 0 <= i < |prefix| ==> prefix[i] != '{'
    ensures FormatName(prefix + "{0}", arg) == prefix + arg
  {
    var t := prefix + "{0}";
    if prefix == [] {
      assert t[..3] == "{0}" && t[3..] == [];
    } else {
      assert t[0] == prefix[0] != '{';
      assert t[1..] == prefix[1..] + "{0}";
      FormatNamePrefixField(prefix[1..], arg);
    }
  }

  /** The default security group template names new groups after the
      creation time. */
  lemma DefaultGroupName(now: nat)
    ensures FormatName("qaspansecg-{0}", NatToString(now)) == "qaspansecg-" + NatToString(now)
  {
    FormatNamePrefixField("qaspansecg-", NatToString(now));
    assert "qaspansecg-" + "{0}" == "qaspansecg-{0}";
  }

  /** _get_router / _get_network: the only match, or nothing when there
      are none or several. */
  function OnlyMatch<T>(matches: seq<T>): (r: Option<T>)
    ensures r.Some? <==> |matches| == 1
    ensures r.Some? ==> r.value == matches[0]
  {
    if |matches| == 1 then Some(matches[0]) else None
  }

  /** _get_security_group: the first group whose name the template's
      pattern matches. */
  function FirstMatching(groups: seq<Resource>, matches: string -> bool): (r: Option<Resource>)
    ensures r.Some? ==> r.value in groups && matches(r.value.name)
    ensures r.None? <==> forall i :: 0 <= i < |groups| ==> !matches(groups[i].name)
  {
    if groups == [] then None
    else if matches(groups[0].name) then Some(groups[0])
    else FirstMatching(groups[1..], matches)
  }

  /** A subnet as neutron lists it. */
  datatype Subnet = Subnet(id: string, networkId: string)

  /** A floating IP as neutron lists it; portId is None while it is
      attached to no port. */
  datatype FloatingIp = FloatingIp(id: string, portId: Option<string>)

  /** How one neutron call ended: it returned, raised an HttpException
      (a NotFoundException when notFound), or raised anything else. */
  datatype CallAnswer = Done | HttpError(notFound: bool, message: string) | OtherError(message: string)

  /** The requests to neutron issued while the state is set up or torn
      down, in the order they are sent. */
  datatype Request =
    | AddSecurityRule(group: string, protocol: string, portRange: Option<nat>)
    | AddInterface(router: string, subnet: string)
    | SetGateway(router: string, network: string)
    | RemoveInterface(router: string, subnet: string)
    | DeleteSubnet(subnet: string)
    | DeletePort(port: string)

  /** A message that lower-cases to "conflict". */
  predicate ConflictMessage(m: string) { Lower(m) == "conflict" }

  /** An HttpException whose message is "conflict" in any case: the
      object being created already exists, or is still in use. */
  predicate IsConflict(a: CallAnswer) { a.HttpError? && ConflictMessage(a.message) }

  /** A rule creation that create_security_group_rules() lets pass. */
  predicate RuleAccepted(a: CallAnswer) { a.Done? || IsConflict(a) }

  /** create_security_group_rules(): an ingress ICMP rule and then an
      ingress SSH rule (TCP port 22) for the group. A rule that already
      exists is accepted; any other error is raised and no later rule is
      requested. */
  function SecurityGroupRules(group: string, icmp: CallAnswer, ssh: CallAnswer): (r: Outcome<seq<Request>>)
    ensures r.Ok? <==> RuleAccepted(icmp) && RuleAccepted(ssh)
    ensures r.Ok? ==> r.value == [AddSecurityRule(group, "icmp", None), AddSecurityRule(group, "tcp", Some(22))]
    ensures !RuleAccepted(icmp) ==> r == Raised(icmp.message)
    ensures RuleAccepted(icmp) && !RuleAccepted(ssh) ==> r == Raised(ssh.message)
  {
    if !RuleAccepted(icmp) then Raised(icmp.message)
    else if !RuleAccepted(ssh) then Raised(ssh.message)
    else Ok([AddSecurityRule(group, "icmp", None), AddSecurityRule(group, "tcp", Some(22))])
  }

  /** Setting up against a group whose rules already exist succeeds,
      whatever case neutron spells the conflict in; an error that is not
      an HttpException is raised even when its message says conflict. */
  lemma RulesRerun(group: string)
    ensures SecurityGroupRules(group, HttpError(false, "Conflict"), HttpError(false, "CONFLICT")).Ok?
    ensures SecurityGroupRules(group, OtherError("conflict"), Done) == Raised("conflict")
  {
    assert Lower("Conflict") == "conflict";
    assert Lower("CONFLICT") == "conflict";
  }

  /** The floating IPs clean_floatingip() deletes: the ids of those
      attached to no port, in listing order. */
  function Unattached(ips: seq<FloatingIp>): seq<string>
  {
    if ips == [] then []
    else Unattached(ips[..|ips| - 1]) + (if ips[|ips| - 1].portId.None? then [ips[|ips| - 1].id] else [])
  }

  /** An IP is deleted exactly when one listed under its id has no port. */
  lemma {:induction false} UnattachedExactly(ips: seq<FloatingIp>)
    ensures |Unattached(ips)| <= |ips|
    ensures forall id :: id in Unattached(ips) <==> exists i :: 0 <= i < |ips| && ips[i].id == id && ips[i].portId.None?
  {
    if ips != [] {
      var init := ips[..|ips| - 1];
      UnattachedExactly(init);
      forall id | id in Unattached(ips) ensures exists i :: 0 <= i < |ips| && ips[i].id == id && ips[i].portId.None? {
        if id in Unattached(init) {
          var i :| 0 <= i < |init| && init[i].id == id && init[i].portId.None?;
          assert ips[i] == init[i];
        } else {
          assert ips[|ips| - 1].id == id && ips[|ips| - 1].portId.None?;
        }
      }
      forall id | exists i :: 0 <= i < |ips| && ips[i].id == id && ips[i].portId.None? ensures id in Unattached(ips) {
        var i :| 0 <= i < |ips| && ips[i].id == id && ips[i].portId.None?;
        if i < |init| {
          assert init[i] == ips[i];
        }
      }
    }
  }

  /** One DeletePort request per port, in order. */
  function PortDeletions(ports: seq<string>): (r: seq<Request>)
    ensures |r| == |ports| && forall i :: 0 <= i < |ports| ==> r[i] == DeletePort(ports[i])
  {
    if ports == [] then [] else PortDeletions(ports[..|ports| - 1]) + [DeletePort(ports[|ports| - 1])]
  }

  /** The loop of clean_subnet() over a network's subnets: each is
      fetched in turn, and the last one fetched is kept. */
  method LastSubnet(ids: seq<string>, getSubnet: string -> Subnet) returns (subnet: Option<Subnet>)
    ensures subnet.None? <==> ids == []
    ensures ids != [] ==> subnet == Some(getSubnet(ids[|ids| - 1]))
  {
    subnet := None;
    var k := 0;
    while k < |ids|
      invariant 0 <= k <= |ids|
      invariant subnet == if k == 0 then None else Some(getSubnet(ids[k - 1]))
    {
      subnet := Some(getSubnet(ids[k]));
      k := k + 1;
    }
  }

  /** The loop of clean_subnet() deleting the stale ports of the
      subnet's network, one request per port in listing order. */
  method DeletePorts(ports: seq<string>) returns (requests: seq<Request>)
    ensures requests == PortDeletions(ports)
  {
    requests := [];
    var k := 0;
    while k < |ports|
      invariant 0 <= k <= |ports|
      invariant requests == PortDeletions(ports[..k])
    {
      assert ports[..k + 1][..k] == ports[..k];
      requests := requests + [DeletePort(ports[k])];
      k := k + 1;
    }
    assert ports[..k] == ports;
  }

  /** The subnet clean_subnet() removes: the only subnet of that name;
      failing that, on the only network of that name, the subnet listed
      last (each is fetched in turn and the last one fetched is kept). */
  function SubnetToClean(subnetsNamed: seq<Subnet>, networksNamed: seq<Resource>,
                         subnetsOf: string -> seq<string>, getSubnet: string -> Subnet): (r: Option<Subnet>)
    ensures r.None? <==> |subnetsNamed| != 1 && (|networksNamed| != 1 || subnetsOf(networksNamed[0].id) == [])
  {
    if |subnetsNamed| == 1 then Some(subnetsNamed[0])
    else if |networksNamed| != 1 then None
    else
      var ids := subnetsOf(networksNamed[0].id);
      if ids == [] then None else Some(getSubnet(ids[|ids| - 1]))
  }

  /** Detaching a subnet from the router lets a NotFoundException pass. */
  predicate DetachAccepted(a: CallAnswer) { a.Done? || (a.HttpError? && a.notFound) }

  /** The removal of subnet s by clean_subnet(), given the router (if any)
      and how neutron answers: the router interface is removed (a missing
      one is ignored), the subnet deleted; on a conflict the stale ports of
      its network are deleted and the subnet deleted again. Any other
      HttpException of the first delete is swallowed. */
  function SubnetCleanup(s: Subnet, router: Option<Resource>, remove: CallAnswer, delete: CallAnswer,
                         stalePorts: seq<string>, retry: CallAnswer): Outcome<seq<Request>>
  {
    var detach := if router.Some? then [RemoveInterface(router.value.id, s.id)] else [];
    if router.Some? && !DetachAccepted(remove) then Raised(remove.message)
    else if delete.OtherError? then Raised(delete.message)
    else if !IsConflict(delete) then Ok(detach + [DeleteSubnet(s.id)])
    else if !retry.Done? then Raised(retry.message)
    else Ok(detach + [DeleteSubnet(s.id)] + PortDeletions(stalePorts) + [DeleteSubnet(s.id)])
  }

  /** What the removal promises: it raises exactly when detaching fails
      other than by NotFound, the delete fails other than by an
      HttpException, or the retry after a conflict fails; when it
      succeeds, the router (if any) is detached first, the subnet delete
      is the last request, and after a conflict every stale port is
      deleted before it. */
  lemma SubnetCleanupMeaning(s: Subnet, router: Option<Resource>, remove: CallAnswer, delete: CallAnswer,
                             stalePorts: seq<string>, retry: CallAnswer)
    ensures var r := SubnetCleanup(s, router, remove, delete, stalePorts, retry);
      && (r.Raised? <==> (router.Some? && !DetachAccepted(remove)) || delete.OtherError? || (IsConflict(delete) && !retry.Done?))
      && (r.Ok? ==> |r.value| > 0 && r.value[|r.value| - 1] == DeleteSubnet(s.id))
      && (r.Ok? && router.Some? ==> r.value[0] == RemoveInterface(router.value.id, s.id))
      && (r.Ok? && router.None? ==> forall i :: 0 <= i < |r.value| ==> !r.value[i].RemoveInterface?)
      && (r.Ok? && IsConflict(delete) ==> forall p :: p in stalePorts ==> DeletePort(p) in r.value[..|r.value| - 1])
  {
    var r := SubnetCleanup(s, router, remove, delete, stalePorts, retry);
    if r.Ok? && IsConflict(delete) {
      var detach := if router.Some? then [RemoveInterface(router.value.id, s.id)] else [];
      assert r.value[..|r.value| - 1] == detach + [DeleteSubnet(s.id)] + PortDeletions(stalePorts);
      assert forall p :: p in stalePorts ==> DeletePort(p) in PortDeletions(stalePorts);
    }
  }

  /** clean_subnet() on a state whose cached router is cachedRouter; the
      router listed under its name is used when none is cached. */
  function CleanSubnetSpec(cachedRouter: Option<Resource>, subnetsNamed: seq<Subnet>, networksNamed: seq<Resource>,
                           subnetsOf: string -> seq<string>, getSubnet: string -> Subnet, routersNamed: seq<Resource>,
                           remove: CallAnswer, delete: CallAnswer, stalePorts: seq<string>, retry: CallAnswer)
    : (r: Outcome<seq<Request>>)
    ensures SubnetToClean(subnetsNamed, networksNamed, subnetsOf, getSubnet).None? ==> r == Ok([])
  {
    var s := SubnetToClean(subnetsNamed, networksNamed, subnetsOf, getSubnet);
    if s.None? then Ok([])
    else SubnetCleanup(s.value, if cachedRouter.Some? then cachedRouter else OnlyMatch(routersNamed),
                       remove, delete, stalePorts, retry)
  }

  /** Reading the id of a subnet that get_subnet() did not find. */
  const NoSubnetTraceback := "TypeError: 'NoneType' object has no attribute '__getitem__'"

  /** The configuration setUp() and tearDown() read: whether floating
      networks are used, the flavor candidates, the configured zone and
      the name patterns. */
  datatype Conf = Conf(floating: bool, flavorCandidates: seq<string>, zone: Option<string>,
                       imageMatches: string -> bool, externalMatches: string -> bool,
                       groupMatches: string -> string -> bool)

  /** What nova, glance and neutron list while the state is set up or
      torn down. */
  datatype Cloud = Cloud(flavors: seq<Flavor>, zones: seq<Zone>, images: seq<Image>, networks: seq<Resource>,
                         keypairNamed: Option<Resource>, groups: seq<Resource>, routersNamed: seq<Resource>,
                         networksNamed: seq<Resource>, subnetsNamed: seq<Subnet>,
                         subnetsOf: string -> seq<string>, getSubnet: string -> Subnet, ips: seq<FloatingIp>)

  /** The objects setUp() gets back when it has to create one, and how the
      router-interface call made for a created subnet ends. */
  datatype Made = Made(keypair: Resource, now: nat, group: string -> Resource,
                       router: Resource, network: Resource, subnet: Resource, attach: CallAnswer)

  /** What tearDown() sent: the requests of clean_subnet() and the
      floating IPs deleted. */
  datatype TearDownReport = TearDownReport(subnetRequests: seq<Request>, floatingIps: seq<string>)

  /** The router a request names: the cached router's id, or the empty id
      of the empty router {} the cache holds when nothing is cached. */
  function RouterId(router: Option<Resource>): (id: string)
    ensures router.Some? ==> id == router.value.id
    ensures router.None? ==> id == ""
  {
    if router.Some? then router.value.id else ""
  }

  /** SanityState: the cached resources (None while the cache is empty),
      the security group name template, the create and delete calls made
      so far, and whether the router's ports have been checked. */
  class SanityState {
    var flavor: Option<string>
    var externalNet: Option<Resource>
    var image: Option<Image>
    var availabilityZone: Option<string>
    var keypair: Option<Resource>
    var securityGroup: Option<Resource>
    var securityGroupName: string
    var router: Option<Resource>
    var network: Option<Resource>
    var created: seq<Resource>
    var deleted: seq<Resource>
    var routerOk: bool

    constructor (groupTemplate: string)
      ensures flavor == None && externalNet == None && image == None && availabilityZone == None
      ensures keypair == None && securityGroup == None && router == None && network == None
      ensures securityGroupName == groupTemplate && created == [] && deleted == [] && !routerOk
    {
      flavor, externalNet, image, availabilityZone := None, None, None, None;
      keypair, securityGroup, router, network := None, None, None, None;
      securityGroupName := groupTemplate;
      created, deleted := [], [];
      routerOk := false;
    }

    /** The flavor property: resolved from the candidate list on first use
        (the flavor's id is cached), the cached id afterwards. */
    method GetFlavorId(candidates: seq<string>, flavors: seq<Flavor>) returns (r: Outcome<string>)
      modifies this
      ensures old(flavor).Some? ==> r == Ok(old(flavor).value) && flavor == old(flavor)
      ensures old(flavor).None? && r.Ok? ==> flavor == Some(r.value)
      ensures old(flavor).None? && r.Raised? ==> flavor == None && r.error == NoFlavor
      ensures old(flavor).None? ==> (r.Raised? <==> forall i, j :: 0 <= i < |candidates| && 0 <= j < |flavors| ==> !FlavorMatches(flavors[j], candidates[i]))
      ensures unchanged(this`externalNet, this`image, this`availabilityZone, this`keypair, this`securityGroup)
      ensures unchanged(this`securityGroupName, this`router, this`network, this`created, this`deleted, this`routerOk)
    {
      if flavor.None? {
        var f := GetFlavor(candidates, flavors);
        if f.Raised? {
          return Raised(f.error);
        }
        flavor := Some(f.value.id);
      }
      return Ok(flavor.value);
    }

    /** The image property. */
    method GetCachedImage(images: seq<Image>, nameMatches: string -> bool) returns (r: Outcome<Image>)
      modifies this
      ensures old(image).Some? ==> r == Ok(old(image).value) && image == old(image)
      ensures old(image).None? && r.Ok? ==> image == Some(r.value) && r.value in images && nameMatches(r.value.name)
      ensures old(image).None? && r.Raised? ==> image == None && r.error == NoImage
      ensures unchanged(this`flavor, this`externalNet, this`availabilityZone, this`keypair, this`securityGroup)
      ensures unchanged(this`securityGroupName, this`router, this`network, this`created, this`deleted, this`routerOk)
    {
      if image.None? {
        var i := GetImage(images, nameMatches);
        if i.Raised? {
          return Raised(i.error);
        }
        image := Some(i.value);
      }
      return Ok(image.value);
    }

    /** The availability_zone property (the zone's name is cached). */
    method GetCachedZone(zones: seq<Zone>, configured: Option<string>) returns (r: Outcome<string>)
      modifies this
      ensures old(availabilityZone).Some? ==> r == Ok(old(availabilityZone).value) && availabilityZone == old(availabilityZone)
      ensures old(availabilityZone).None? ==>
        var z := ZoneAsWritten(zones, None, configured);
        && (z.Some? ==> r == Ok(z.value.zoneName) && availabilityZone == Some(z.value.zoneName))
        && (z.None? ==> r == Raised(NoZone) && availabilityZone == None)
      ensures unchanged(this`flavor, this`externalNet, this`image, this`keypair, this`securityGroup)
      ensures unchanged(this`securityGroupName, this`router, this`network, this`created, this`deleted, this`routerOk)
    {
      if availabilityZone.None? {
        var z := GetAvailabilityZone(zones, None, configured);
        if z.Raised? {
          return Raised(z.error);
        }
        availabilityZone := Some(z.value.zoneName);
      }
      return Ok(availabilityZone.value);
    }

    /** The external_net property: the first network the pattern matches. */
    method GetExternalNet(networks: seq<Resource>, nameMatches: string -> bool) returns (r: Outcome<Resource>)
      modifies this
      ensures old(externalNet).Some? ==> r == Ok(old(externalNet).value) && externalNet == old(externalNet)
      ensures old(externalNet).None? ==>
        var n := FirstMatching(networks, nameMatches);
        && (n.Some? ==> r == Ok(n.value) && externalNet == n)
        && (n.None? ==> r == Raised(NoExternalNet) && externalNet == None)
      ensures unchanged(this`flavor, this`image, this`availabilityZone, this`keypair, this`securityGroup)
      ensures unchanged(this`securityGroupName, this`router, this`network, this`created, this`deleted, this`routerOk)
    {
      if externalNet.None? {
        var n := FirstMatching(networks, nameMatches);
        if n.None? {
          return Raised(NoExternalNet);
        }
        externalNet := n;
      }
      return Ok(externalNet.value);
    }

    /** The keypair property: the keypair of that name when nova has one,
        else a new one; nothing is looked up once cached. */
    method GetKeypair(found: Option<Resource>, newOne: Resource) returns (k: Resource)
      modifies this
      ensures old(keypair).Some? ==> k == old(keypair).value && created == old(created)
      ensures old(keypair).None? && found.Some? ==> k == found.value && created == old(created)
      ensures old(keypair).None? && found.None? ==> k == newOne && created == old(created) + [newOne]
      ensures keypair == Some(k)
      ensures unchanged(this`flavor, this`externalNet, this`image, this`availabilityZone, this`securityGroup)
      ensures unchanged(this`securityGroupName, this`router, this`network, this`deleted, this`routerOk)
    {
      if keypair.None? {
        if found.Some? {
          keypair := found;
        } else {
          created := created + [newOne];
          keypair := Some(newOne);
        }
      }
      k := keypair.value;
    }

    /** The security_group property: the first group matching the name
        template (with {0} read as any text), else a group created under
        the template filled with the current time, which then becomes the
        name looked for. */
    method GetSecurityGroup(groups: seq<Resource>, matches: string -> string -> bool, now: nat, make: string -> Resource)
      returns (g: Resource)
      modifies this
      ensures old(securityGroup).Some? ==> g == old(securityGroup).value && created == old(created)
      ensures old(securityGroup).None? ==>
        var f := FirstMatching(groups, matches(FormatName(old(securityGroupName), ".*")));
        && (f.Some? ==> g == f.value && created == old(created) && securityGroupName == old(securityGroupName))
        && (f.None? ==>
              var name := FormatName(old(securityGroupName), NatToString(now));
              g == make(name) && created == old(created) + [g] && securityGroupName == name)
      ensures old(securityGroup).Some? ==> securityGroupName == old(securityGroupName)
      ensures securityGroup == Some(g)
      ensures unchanged(this`flavor, this`externalNet, this`image, this`availabilityZone, this`keypair)
      ensures unchanged(this`router, this`network, this`deleted, this`routerOk)
    {
      if securityGroup.None? {
        var f := FirstMatching(groups, matches(FormatName(securityGroupName, ".*")));
        if f.Some? {
          securityGroup := f;
        } else {
          var name := FormatName(securityGroupName, NatToString(now));
          var group := make(name);
          created := created + [group];
          securityGroup := Some(group);
          securityGroupName := name;
        }
      }
      g := securityGroup.value;
    }

    /** The router property: the only router of that name, else a new one. */
    method GetRouter(named: seq<Resource>, newOne: Resource) returns (r: Resource)
      modifies this
      ensures old(router).Some? ==> r == old(router).value && created == old(created)
      ensures old(router).None? && |named| == 1 ==> r == named[0] && created == old(created)
      ensures old(router).None? && |named| != 1 ==> r == newOne && created == old(created) + [newOne]
      ensures router == Some(r)
      ensures unchanged(this`flavor, this`externalNet, this`image, this`availabilityZone, this`keypair)
      ensures unchanged(this`securityGroup, this`securityGroupName, this`network, this`deleted, this`routerOk)
    {
      if router.None? {
        var found := OnlyMatch(named);
        if found.Some? {
          router := found;
        } else {
          created := created + [newOne];
          router := Some(newOne);
        }
      }
      r := router.value;
    }

    /** The network property: with floating networks, the only network of
        that name, else a new one, cached at once, whose subnet is then
        created and attached to the cached router (a raising attach call
        leaves both created); without them, the external network. */
    method GetNetwork(floating: bool, named: seq<Resource>, newOne: Resource, subnet: Resource, attach: CallAnswer,
                      networks: seq<Resource>, nameMatches: string -> bool)
      returns (r: Outcome<Resource>, reqs: seq<Request>)
      modifies this
      ensures !floating ==> network == old(network) && created == old(created) && reqs == []
      ensures !floating && old(externalNet).Some? ==> r == Ok(old(externalNet).value)
      ensures floating && old(network).Some? ==> r == Ok(old(network).value) && created == old(created) && reqs == []
      ensures floating && old(network).None? && |named| == 1 ==> r == Ok(named[0]) && created == old(created) && reqs == []
      ensures floating && old(network).None? && |named| != 1 ==>
        && network == Some(newOne) && created == old(created) + [newOne, subnet]
        && reqs == [AddInterface(RouterId(router), subnet.id)]
        && r == (if attach.Done? then Ok(newOne) else Raised(attach.message))
      ensures floating ==> network.Some? && (r.Ok? ==> network == Some(r.value)) && externalNet == old(externalNet)
      ensures old(externalNet).Some? ==> externalNet == old(externalNet)
      ensures unchanged(this`flavor, this`image, this`availabilityZone, this`keypair)
      ensures unchanged(this`securityGroup, this`securityGroupName, this`router, this`deleted, this`routerOk)
    {
      reqs := [];
      if !floating {
        r := GetExternalNet(networks, nameMatches);
        return;
      }
      if network.None? {
        var found := OnlyMatch(named);
        if found.Some? {
          network := found;
        } else {
          network := Some(newOne);
          created := created + [newOne, subnet];
          reqs := [AddInterface(RouterId(router), subnet.id)];
          if !attach.Done? {
            return Raised(attach.message), reqs;
          }
        }
      }
      r := Ok(network.value);
    }

    /** clean_keypair(): deletes the cached keypair, then any keypair still
        found under the name, and empties the cache. */
    method CleanKeypair(found: Option<Resource>)
      modifies this
      ensures keypair == None
      ensures deleted == old(deleted) + (if old(keypair).Some? then [old(keypair).value] else [])
                                      + (if found.Some? then [found.value] else [])
      ensures unchanged(this`flavor, this`externalNet, this`image, this`availabilityZone, this`securityGroup)
      ensures unchanged(this`securityGroupName, this`router, this`network, this`created, this`routerOk)
    {
      if keypair.Some? {
        deleted := deleted + [keypair.value];
      }
      if found.Some? {
        deleted := deleted + [found.value];
      }
      keypair := None;
    }

    /** clean_security_group(): deletes the cached group, or when none is
        cached the first group matching the name, and empties the cache. */
    method CleanSecurityGroup(groups: seq<Resource>, matches: string -> string -> bool)
      modifies this
      ensures securityGroup == None
      ensures old(securityGroup).Some? ==> deleted == old(deleted) + [old(securityGroup).value]
      ensures old(securityGroup).None? ==>
        var f := FirstMatching(groups, matches(FormatName(securityGroupName, ".*")));
        deleted == old(deleted) + (if f.Some? then [f.value] else [])
      ensures unchanged(this`flavor, this`externalNet, this`image, this`availabilityZone, this`keypair)
      ensures unchanged(this`securityGroupName, this`router, this`network, this`created, this`routerOk)
    {
      if securityGroup.Some? {
        deleted := deleted + [securityGroup.value];
      } else {
        var f := FirstMatching(groups, matches(FormatName(securityGroupName, ".*")));
        if f.Some? {
          deleted := deleted + [f.value];
        }
      }
      securityGroup := None;
    }

    /** clean_router(): deletes the cached router and then the only router
        still found under the name, and empties the cache. */
    method CleanRouter(named: seq<Resource>)
      modifies this
      ensures router == None
      ensures deleted == old(deleted) + (if old(router).Some? then [old(router).value] else [])
                                      + (if |named| == 1 then [named[0]] else [])
      ensures unchanged(this`flavor, this`externalNet, this`image, this`availabilityZone, this`keypair)
      ensures unchanged(this`securityGroup, this`securityGroupName, this`network, this`created, this`routerOk)
    {
      if router.Some? {
        deleted := deleted + [router.value];
      }
      var found := OnlyMatch(named);
      if found.Some? {
        deleted := deleted + [found.value];
      }
      router := None;
    }

    /** clean_network(): like clean_router for the network. */
    method CleanNetwork(named: seq<Resource>)
      modifies this
      ensures network == None
      ensures deleted == old(deleted) + (if old(network).Some? then [old(network).value] else [])
                                      + (if |named| == 1 then [named[0]] else [])
      ensures unchanged(this`flavor, this`externalNet, this`image, this`availabilityZone, this`keypair)
      ensures unchanged(this`securityGroup, this`securityGroupName, this`router, this`created, this`routerOk)
    {
      if network.Some? {
        deleted := deleted + [network.value];
      }
      var found := OnlyMatch(named);
      if found.Some? {
        deleted := deleted + [found.value];
      }
      network := None;
    }

    /** clean_floatingip(): deletes every floating IP attached to no port. */
    method CleanFloatingIp(ips: seq<FloatingIp>) returns (removed: seq<string>)
      ensures removed == Unattached(ips)
      ensures forall id :: id in removed <==> exists i :: 0 <= i < |ips| && ips[i].id == id && ips[i].portId.None?
    {
      removed := [];
      var k := 0;
      while k < |ips|
        invariant 0 <= k <= |ips|
        invariant removed == Unattached(ips[..k])
      {
        assert ips[..k + 1][..k] == ips[..k];
        if ips[k].portId.None? {
          removed := removed + [ips[k].id];
        }
        k := k + 1;
      }
      assert ips[..k] == ips;
      UnattachedExactly(ips);
    }

    /** clean_subnet(): finds the subnet, detaches it from the cached router
        (or the one listed under the router's name) and deletes it. */
    method CleanSubnet(subnetsNamed: seq<Subnet>, networksNamed: seq<Resource>,
                       subnetsOf: string -> seq<string>, getSubnet: string -> Subnet, routersNamed: seq<Resource>,
                       remove: CallAnswer, delete: CallAnswer, stalePorts: seq<string>, retry: CallAnswer)
      returns (r: Outcome<seq<Request>>)
      ensures r == CleanSubnetSpec(router, subnetsNamed, networksNamed, subnetsOf, getSubnet, routersNamed,
                                   remove, delete, stalePorts, retry)
    {
      var subnet := OnlyMatch(subnetsNamed);
      if subnet.None? {
        var net := OnlyMatch(networksNamed);
        if net.None? {
          return Ok([]);
        }
        subnet := LastSubnet(subnetsOf(net.value.id), getSubnet);
      }
      if subnet.None? {
        return Ok([]);
      }
      var s := subnet.value;
      var rt := if router.Some? then router else OnlyMatch(routersNamed);
      var detach: seq<Request> := [];
      if rt.Some? {
        detach := [RemoveInterface(rt.value.id, s.id)];
        if !DetachAccepted(remove) {
          return Raised(remove.message);
        }
      }
      if delete.OtherError? {
        return Raised(delete.message);
      }
      if !IsConflict(delete) {
        return Ok(detach + [DeleteSubnet(s.id)]);
      }
      var ports := DeletePorts(stalePorts);
      if !retry.Done? {
        return Raised(retry.message);
      }
      return Ok(detach + [DeleteSubnet(s.id)] + ports + [DeleteSubnet(s.id)]);
    }

    /** check_router_ports(), once per state: attaches the network to the
        router when the router has no port on it (through the only subnet
        of that name; reading the id of a subnet not found raises), then
        the external gateway when the router has no port on the external
        network. */
    method CheckRouterPorts(networkPorts: seq<string>, gatewayPorts: seq<string>, subnetsNamed: seq<Subnet>)
      returns (r: Outcome<seq<Request>>)
      requires router.Some? && network.Some? && externalNet.Some?
      modifies this
      ensures unchanged(this`flavor, this`externalNet, this`image, this`availabilityZone, this`keypair, this`securityGroup)
      ensures unchanged(this`securityGroupName, this`router, this`network, this`created, this`deleted)
      ensures old(routerOk) ==> r == Ok([]) && routerOk
      ensures !old(routerOk) && networkPorts == [] && |subnetsNamed| != 1 ==> r == Raised(NoSubnetTraceback) && !routerOk
      ensures !old(routerOk) && (networkPorts != [] || |subnetsNamed| == 1) ==>
        && routerOk
        && r == Ok((if networkPorts == [] then [AddInterface(router.value.id, subnetsNamed[0].id)] else [])
                   + (if gatewayPorts == [] then [SetGateway(router.value.id, externalNet.value.id)] else []))
    {
      if routerOk {
        return Ok([]);
      }
      var attach: seq<Request> := [];
      if networkPorts == [] {
        var subnet := OnlyMatch(subnetsNamed);
        if subnet.None? {
          return Raised(NoSubnetTraceback);
        }
        attach := [AddInterface(router.value.id, subnet.value.id)];
      }
      var gateway: seq<Request> := if gatewayPorts == [] then [SetGateway(router.value.id, externalNet.value.id)] else [];
      routerOk := true;
      return Ok(attach + gateway);
    }

    /** tearDown(): the keypair is cleaned first; with floating networks
        the subnet, router, network and unused floating IPs next; the
        security group last. An error raised while cleaning the subnet
        ends the tear-down there. The router-ports flag is left as it is. */
    method TearDown(conf: Conf, cloud: Cloud, remove: CallAnswer, delete: CallAnswer,
                    stalePorts: seq<string>, retry: CallAnswer)
      returns (r: Outcome<TearDownReport>)
      modifies this
      ensures keypair == None
      ensures old(keypair).Some? ==> |deleted| > |old(deleted)| && deleted[|old(deleted)|] == old(keypair).value
      ensures !conf.floating ==> r == Ok(TearDownReport([], [])) && router == old(router) && network == old(network)
      ensures conf.floating ==>
        var sub := CleanSubnetSpec(old(router), cloud.subnetsNamed, cloud.networksNamed, cloud.subnetsOf, cloud.getSubnet,
                                   cloud.routersNamed, remove, delete, stalePorts, retry);
        && (sub.Raised? ==> r == Raised(sub.error) && router == old(router) && network == old(network)
                              && securityGroup == old(securityGroup))
        && (sub.Ok? ==> r == Ok(TearDownReport(sub.value, Unattached(cloud.ips))) && router == None && network == None)
      ensures r.Ok? ==> securityGroup == None
      ensures unchanged(this`flavor, this`externalNet, this`image, this`availabilityZone)
      ensures unchanged(this`securityGroupName, this`created, this`routerOk)
    {
      CleanKeypair(cloud.keypairNamed);
      var report := TearDownReport([], []);
      if conf.floating {
        var sub := CleanSubnet(cloud.subnetsNamed, cloud.networksNamed, cloud.subnetsOf, cloud.getSubnet,
                               cloud.routersNamed, remove, delete, stalePorts, retry);
        if sub.Raised? {
          return Raised(sub.error);
        }
        CleanRouter(cloud.routersNamed);
        CleanNetwork(cloud.networksNamed);
        var ips := CleanFloatingIp(cloud.ips);
        report := TearDownReport(sub.value, ips);
      }
      CleanSecurityGroup(cloud.groups, conf.groupMatches);
      return Ok(report);
    }

    /** The first group of setUp(): flavor, availability zone, image and
        keypair, in that order; the first error raised ends it. */
    method SetUpInstanceParts(conf: Conf, cloud: Cloud, made: Made) returns (r: Outcome<()>)
      modifies this
      ensures r.Ok? ==> flavor.Some? && availabilityZone.Some? && image.Some? && keypair.Some?
      ensures old(flavor).None? && GetFlavorFails(conf.flavorCandidates, cloud.flavors) ==>
        r == Raised(NoFlavor) && availabilityZone == old(availabilityZone) && image == old(image)
        && keypair == old(keypair) && created == old(created)
      ensures unchanged(this`externalNet, this`securityGroup, this`securityGroupName, this`router, this`network)
      ensures unchanged(this`deleted, this`routerOk)
    {
      var f := GetFlavorId(conf.flavorCandidates, cloud.flavors);
      if f.Raised? {
        return Raised(f.error);
      }
      var z := GetCachedZone(cloud.zones, conf.zone);
      if z.Raised? {
        return Raised(z.error);
      }
      var i := GetCachedImage(cloud.images, conf.imageMatches);
      if i.Raised? {
        return Raised(i.error);
      }
      var k := GetKeypair(cloud.keypairNamed, made.keypair);
      return Ok(());
    }

    /** The second group of setUp(): the security group, then its rules. */
    method SetUpSecurityGroup(conf: Conf, cloud: Cloud, made: Made, icmp: CallAnswer, ssh: CallAnswer)
      returns (r: Outcome<seq<Request>>)
      modifies this
      ensures securityGroup.Some?
      ensures r == SecurityGroupRules(securityGroup.value.id, icmp, ssh)
      ensures unchanged(this`flavor, this`externalNet, this`image, this`availabilityZone, this`keypair)
      ensures unchanged(this`router, this`network, this`deleted, this`routerOk)
    {
      var g := GetSecurityGroup(cloud.groups, conf.groupMatches, made.now, made.group);
      r := SecurityGroupRules(g.id, icmp, ssh);
    }

    /** The last group of setUp(): the external network; with floating
        networks the router; the network; with floating networks the
        router's ports. */
    method SetUpNetworks(conf: Conf, cloud: Cloud, made: Made, networkPorts: seq<string>, gatewayPorts: seq<string>)
      returns (r: Outcome<seq<Request>>)
      modifies this
      ensures r.Ok? ==> externalNet.Some?
      ensures r.Ok? && conf.floating ==> router.Some? && network.Some? && routerOk
      ensures !conf.floating ==> router == old(router) && network == old(network) && routerOk == old(routerOk)
      ensures !conf.floating ==> r.Raised? || r == Ok([])
      ensures conf.floating && old(network).None? && |cloud.networksNamed| != 1 && r.Ok? ==>
        made.attach.Done? && |r.value| >= 1 && r.value[0] == AddInterface(router.value.id, made.subnet.id)
      ensures unchanged(this`flavor, this`image, this`availabilityZone, this`keypair, this`securityGroup)
      ensures unchanged(this`securityGroupName, this`deleted)
    {
      var e := GetExternalNet(cloud.networks, conf.externalMatches);
      if e.Raised? {
        return Raised(e.error);
      }
      if conf.floating {
        var rt := GetRouter(cloud.routersNamed, made.router);
      }
      var n, attach := GetNetwork(conf.floating, cloud.networksNamed, made.network, made.subnet, made.attach,
                                  cloud.networks, conf.externalMatches);
      if n.Raised? {
        return Raised(n.error);
      }
      r := Ok(attach);
      if conf.floating {
        var ports := CheckRouterPorts(networkPorts, gatewayPorts, cloud.subnetsNamed);
        r := if ports.Raised? then ports else Ok(attach + ports.value);
      }
    }

    /** setUp(): fills the cache in order (flavor, zone, image, keypair,
        security group and its rules, external network; with floating
        networks the router; the network; with floating networks the
        router's ports). The first error raised ends the set-up there. */
    method SetUp(conf: Conf, cloud: Cloud, made: Made, icmp: CallAnswer, ssh: CallAnswer,
                 networkPorts: seq<string>, gatewayPorts: seq<string>)
      returns (r: Outcome<seq<Request>>)
      modifies this
      ensures r.Ok? ==> flavor.Some? && availabilityZone.Some? && image.Some? && keypair.Some?
      ensures r.Ok? ==> securityGroup.Some? && externalNet.Some?
      ensures r.Ok? && conf.floating ==> router.Some? && network.Some? && routerOk
      ensures r.Ok? ==> RuleAccepted(icmp) && RuleAccepted(ssh) && |r.value| >= 2
                        && r.value[..2] == [AddSecurityRule(securityGroup.value.id, "icmp", None),
                                            AddSecurityRule(securityGroup.value.id, "tcp", Some(22))]
      ensures !conf.floating ==> router == old(router) && network == old(network) && routerOk == old(routerOk)
      ensures old(flavor).None? && GetFlavorFails(conf.flavorCandidates, cloud.flavors) ==>
        r == Raised(NoFlavor) && availabilityZone == old(availabilityZone) && image == old(image)
        && keypair == old(keypair) && created == old(created)
      ensures deleted == old(deleted)
    {
      var parts := SetUpInstanceParts(conf, cloud, made);
      if parts.Raised? {
        return Raised(parts.error);
      }
      var rules := SetUpSecurityGroup(conf, cloud, made, icmp, ssh);
      if rules.Raised? {
        return Raised(rules.error);
      }
      var nets := SetUpNetworks(conf, cloud, made, networkPorts, gatewayPorts);
      if nets.Raised? {
        return Raised(nets.error);
      }
      return Ok(rules.value + nets.value);
    }
  }

  /** Asking for the security group twice creates at most one group, and
      an existing matching group is reused without any create call. */
  method SecurityGroupTwice(st: SanityState, groups: seq<Resource>, matches: string -> string -> bool,
                            now: nat, make: string -> Resource)
    returns (g1: Resource, g2: Resource)
    modifies st
    ensures g1 == g2
    ensures |st.created| <= |old(st.created)| + 1
    ensures old(st.securityGroup).None? && FirstMatching(groups, matches(FormatName(old(st.securityGroupName), ".*"))).Some?
      ==> st.created == old(st.created)
  {
    g1 := st.GetSecurityGroup(groups, matches, now, make);
    g2 := st.GetSecurityGroup(groups, matches, now, make);
  }

  /** The router's ports are checked once: after a successful check, a
      second one sends no request. */
  method RouterPortsTwice(st: SanityState, networkPorts: seq<string>, gatewayPorts: seq<string>, subnetsNamed: seq<Subnet>)
    returns (r1: Outcome<seq<Request>>, r2: Outcome<seq<Request>>)
    requires st.router.Some? && st.network.Some? && st.externalNet.Some?
    modifies st
    ensures r1.Ok? ==> r2 == Ok([])
    ensures old(st.routerOk) ==> r1 == Ok([])
  {
    r1 := st.CheckRouterPorts(networkPorts, gatewayPorts, subnetsNamed);
    r2 := st.CheckRouterPorts(networkPorts, gatewayPorts, subnetsNamed);
  }

  /** A cleaned keypair is looked up again on next use. */
  method KeypairAfterClean(st: SanityState, stale: Option<Resource>, found: Option<Resource>, newOne: Resource)
    returns (k: Resource)
    modifies st
    ensures found.Some? ==> k == found.value
    ensures found.None? ==> k == newOne && st.created == old(st.created) + [newOne]
  {
    st.CleanKeypair(stale);
    k := st.GetKeypair(found, newOne);
  }
}
