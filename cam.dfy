/**
 * The filtered camera of cam.go: configuration validation, the per-image trigger decision
 * (shouldSend) over the configured vision services, and the accepted/rejected counters it keeps.
 */
module Cam {
  import opened Wrappers
  import opened CameraTypes
  import opened TriggerPolicy

  /** One entry of vision_services. */
  datatype VisionServiceConfig = VisionServiceConfig(vision: string, objects: Thresholds, classifications: Thresholds, inhibit: bool)

  /** The service names of the entries whose inhibit flag is `inhibit`, in configuration order. */
  function Names(services: seq<VisionServiceConfig>, inhibit: bool): seq<string> {
    if services == [] then []
    else (if services[0].inhibit == inhibit then [services[0].vision] else []) + Names(services[1..], inhibit)
  }

  /** The index of the first entry without a service name, if any. */
  function FirstUnnamed(services: seq<VisionServiceConfig>): Option<nat> {
    if services == [] then None
    else if services[0].vision == "" then Some(0)
    else
      var r := FirstUnnamed(services[1..]);
      if r.Some? then Some(r.value + 1) else None
  }

  /** FirstUnnamed finds nothing exactly when every entry is named, and otherwise the first
      unnamed entry. */
  lemma {:induction false} FirstUnnamedMeaning(services: seq<VisionServiceConfig>)
    ensures FirstUnnamed(services).None? <==> forall i | 0 <= i < |services| :: services[i].vision != ""
    ensures FirstUnnamed(services).Some? ==>
      var k := FirstUnnamed(services).value;
      k < |services| && services[k].vision == "" && forall i | 0 <= i < k :: services[i].vision != ""
  {
    if services != [] {
      FirstUnnamedMeaning(services[1..]);
      assert forall i | 1 <= i < |services| :: services[i] == services[1..][i - 1];
    }
  }

  /** The configuration of a filtered camera. `visionServices` is None when the list is absent
      (a nil slice), which is not the same as an empty list. */
  datatype Config = Config(
    camera: string,
    vision: string,
    visionServices: Option<seq<VisionServiceConfig>>,
    windowSeconds: int,
    imageFrequency: real,
    classifications: Thresholds,
    objects: Thresholds)
  {
    /** Config.Validate: the camera is required, exactly one of vision and vision_services must be
        given, image_frequency must not be negative, and every listed service needs a name. The
        dependencies are the camera, then the inhibitors, then the other services, each group in
        configuration order. */
    method Validate(path: string) returns (r: Result<seq<string>, ConfigError>)
      ensures camera == "" ==> r == Failure(FieldRequired(At(path), "camera"))
      ensures camera != "" && vision == "" && visionServices.None? ==> r == Failure(FieldRequired(At(path), "vision_services"))
      ensures camera != "" && vision != "" && visionServices.Some? ==> r == Failure(Invalid(At(path), "cannot specify both vision and vision_services"))
      ensures camera != "" && (vision == "" <==> visionServices.Some?) && imageFrequency < 0.0 ==>
        r == Failure(Invalid(At(path), "image_frequency cannot be less than 0"))
      ensures camera != "" && vision != "" && visionServices.None? && imageFrequency >= 0.0 ==> r == Success([camera, vision])
      ensures camera != "" && vision == "" && visionServices.Some? && imageFrequency >= 0.0 ==>
        match FirstUnnamed(visionServices.value)
        case Some(i) => r == Failure(FieldRequired(AtService(path, i), "vision"))
        case None => r == Success([camera] + Names(visionServices.value, true) + Names(visionServices.value, false))
    {
      if camera == "" {
        return Failure(FieldRequired(At(path), "camera"));
      }
      if vision == "" && visionServices.None? {
        return Failure(FieldRequired(At(path), "vision_services"));
      } else if vision != "" && visionServices.Some? {
        return Failure(Invalid(At(path), "cannot specify both vision and vision_services"));
      }
      if imageFrequency < 0.0 {
        return Failure(Invalid(At(path), "image_frequency cannot be less than 0"));
      }
      if vision != "" {
        return Success([camera, vision]);
      }
      var deps := [camera];
      var split := SplitServices(path, visionServices.value);
      match split
      case Failure(e) => return Failure(e);
      case Success(groups) =>
        deps := deps + groups.0;
        deps := deps + groups.1;
        return Success(deps);
    }
  }

  /** The loop over vision_services in Config.Validate: it stops at the first entry without a
      service name, and otherwise collects the inhibitors and the other services, each group in
      configuration order. */
  method SplitServices(path: string, services: seq<VisionServiceConfig>) returns (r: Result<(seq<string>, seq<string>), ConfigError>)
    ensures match FirstUnnamed(services)
      case Some(i) => r == Failure(FieldRequired(AtService(path, i), "vision"))
      case None => r == Success((Names(services, true), Names(services, false)))
  {
    var inhibitors := [];
    var others := [];
    for i := 0 to |services|
      invariant FirstUnnamed(services[..i]).None?
      invariant inhibitors == Names(services[..i], true) && others == Names(services[..i], false)
    {
      NamesSnoc(services[..i], services[i]);
      UnnamedSnoc(services[..i], services[i]);
      assert services[..i + 1] == services[..i] + [services[i]];
      if services[i].vision == "" {
        FirstUnnamedMeaning(services[..i]);
        FirstUnnamedMeaning(services);
        return Failure(FieldRequired(AtService(path, i), "vision"));
      }
      if services[i].inhibit {
        inhibitors := inhibitors + [services[i].vision];
      } else {
        others := others + [services[i].vision];
      }
    }
    assert services[..|services|] == services;
    return Success((inhibitors, others));
  }

  lemma {:induction false} NamesSnoc(services: seq<VisionServiceConfig>, s: VisionServiceConfig)
    ensures Names(services + [s], true) == Names(services, true) + (if s.inhibit then [s.vision] else [])
    ensures Names(services + [s], false) == Names(services, false) + (if s.inhibit then [] else [s.vision])
  {
    if services != [] {
      assert (services + [s])[1..] == services[1..] + [s];
      NamesSnoc(services[1..], s);
    } else {
      assert Names([s][1..], true) == [] && Names([s][1..], false) == [];
    }
  }

  lemma {:induction false} UnnamedSnoc(services: seq<VisionServiceConfig>, s: VisionServiceConfig)
    requires FirstUnnamed(services).None?
    ensures FirstUnnamed(services + [s]) == if s.vision == "" then Some(|services|) else None
  {
    if services != [] {
      assert (services + [s])[1..] == services[1..] + [s];
      assert services[0].vision != "";
      UnnamedSnoc(services[1..], s);
    } else {
      assert [s][1..] == [];
    }
  }

  /** The service names of all entries, in configuration order. */
  function Visions(services: seq<VisionServiceConfig>): (r: seq<string>)
    ensures |r| == |services| && forall i | 0 <= i < |services| :: r[i] == services[i].vision
  {
    if services == [] then [] else [services[0].vision] + Visions(services[1..])
  }

  /** Grouping inhibitors first only reorders the services: each configured service appears
      exactly as often as it is configured. */
  lemma {:induction false} DependenciesArePermutation(services: seq<VisionServiceConfig>)
    ensures multiset(Names(services, true) + Names(services, false)) == multiset(Visions(services))
  {
    if services != [] {
      DependenciesArePermutation(services[1..]);
    }
  }

  /** Services foo and bar accepting and baz inhibiting give the dependencies camera, baz, foo, bar. */
  lemma InhibitorsListedFirst()
    ensures Names([VisionServiceConfig("foo", map[], map[], false), VisionServiceConfig("bar", map[], map[], false), VisionServiceConfig("baz", map[], map[], true)], true) == ["baz"]
    ensures Names([VisionServiceConfig("foo", map[], map[], false), VisionServiceConfig("bar", map[], map[], false), VisionServiceConfig("baz", map[], map[], true)], false) == ["foo", "bar"]
  {
    var s := [VisionServiceConfig("foo", map[], map[], false), VisionServiceConfig("bar", map[], map[], false), VisionServiceConfig("baz", map[], map[], true)];
    assert s[1..] == [s[1], s[2]] && s[1..][1..] == [s[2]] && s[1..][1..][1..] == [];
  }

  /** `m` with the count under `name` raised by one, the key created at 1 when absent. */
  function Bumped(m: map<string, int>, name: string): (r: map<string, int>)
    ensures r.Keys == m.Keys + {name}
    ensures name in m ==> r[name] == m[name] + 1
    ensures name !in m ==> r[name] == 1
    ensures forall key | key in m && key != name :: r[key] == m[key]
  {
    if name !in m then m[name := 1] else m[name := m[name] + 1]
  }

  /** imageStats: how many images were accepted (or rejected), in total and by deciding label. */
  class ImageStats {
    var total: int
    var breakdown: map<string, int>

    constructor ()
      ensures total == 0 && breakdown == map[]
    {
      total := 0;
      breakdown := map[];
    }

    /** update: count one more image under `name`. */
    method Update(name: string)
      modifies this
      ensures total == old(total) + 1
      ensures breakdown == Bumped(old(breakdown), name)
    {
      total := total + 1;
      if name !in breakdown {
        breakdown := breakdown[name := 1];
        return;
      }
      breakdown := breakdown[name := breakdown[name] + 1];
    }
  }

  /** The fields of filteredCamera that the trigger decision uses. Services are known by name. */
  class FilteredCamera {
    var inhibitors: seq<string>
    var otherVisionServices: seq<string>
    var inhibitedClassifications: map<string, Thresholds>
    var acceptedClassifications: map<string, Thresholds>
    var inhibitedObjects: map<string, Thresholds>
    var acceptedObjects: map<string, Thresholds>
    const acceptedStats: ImageStats
    const rejectedStats: ImageStats

    constructor (inhibitors: seq<string>, otherVisionServices: seq<string>,
                 inhibitedClassifications: map<string, Thresholds>, acceptedClassifications: map<string, Thresholds>,
                 inhibitedObjects: map<string, Thresholds>, acceptedObjects: map<string, Thresholds>)
      ensures Policy() == TriggerPolicy.Policy(inhibitors, otherVisionServices, inhibitedClassifications, acceptedClassifications, inhibitedObjects, acceptedObjects)
      ensures fresh(acceptedStats) && fresh(rejectedStats) && acceptedStats != rejectedStats
      ensures acceptedStats.total == 0 && acceptedStats.breakdown == map[]
      ensures rejectedStats.total == 0 && rejectedStats.breakdown == map[]
    {
      this.inhibitors := inhibitors;
      this.otherVisionServices := otherVisionServices;
      this.inhibitedClassifications := inhibitedClassifications;
      this.acceptedClassifications := acceptedClassifications;
      this.inhibitedObjects := inhibitedObjects;
      this.acceptedObjects := acceptedObjects;
      acceptedStats := new ImageStats();
      rejectedStats := new ImageStats();
    }

    /** The trigger configuration as a value. */
    function Policy(): TriggerPolicy.Policy
      reads this
    {
      TriggerPolicy.Policy(inhibitors, otherVisionServices, inhibitedClassifications, acceptedClassifications, inhibitedObjects, acceptedObjects)
    }

    /** classificationMatches: the flag picks the inhibiting or the accepting thresholds of the
        service; some threshold for the label or for "*" must lie strictly below the score. */
    function ClassificationMatches(service: string, c: Classification, inhibit: bool): (r: bool)
      reads this
      ensures var t := Lookup(if inhibit then inhibitedClassifications else acceptedClassifications, service);
        r <==> exists key | key in t :: Applies(key, c.name) && c.score > t[key]
    {
      Matches(Lookup(if inhibit then inhibitedClassifications else acceptedClassifications, service), c)
    }

    /** detectionMatches: the same rule over the object thresholds. */
    function DetectionMatches(service: string, d: Detection, inhibit: bool): (r: bool)
      reads this
      ensures var t := Lookup(if inhibit then inhibitedObjects else acceptedObjects, service);
        r <==> exists key | key in t :: Applies(key, d.name) && d.score > t[key]
    {
      Matches(Lookup(if inhibit then inhibitedObjects else acceptedObjects, service), d)
    }

    /** anyClassificationsMatch: the first classification, in order, that matches. */
    method AnyClassificationsMatch(service: string, cs: seq<Classification>, inhibit: bool) returns (found: bool, c: Option<Classification>)
      ensures found <==> c.Some?
      ensures c == FirstMatch(Lookup(if inhibit then inhibitedClassifications else acceptedClassifications, service), cs)
    {
      for i := 0 to |cs|
        invariant forall j | 0 <= j < i :: !ClassificationMatches(service, cs[j], inhibit)
      {
        if ClassificationMatches(service, cs[i], inhibit) {
          return true, Some(cs[i]);
        }
      }
      return false, None;
    }

    /** anyDetectionsMatch: the first detection, in order, that matches. */
    method AnyDetectionsMatch(service: string, ds: seq<Detection>, inhibit: bool) returns (found: bool, d: Option<Detection>)
      ensures found <==> d.Some?
      ensures d == FirstMatch(Lookup(if inhibit then inhibitedObjects else acceptedObjects, service), ds)
    {
      for i := 0 to |ds|
        invariant forall j | 0 <= j < i :: !DetectionMatches(service, ds[j], inhibit)
      {
        if DetectionMatches(service, ds[i], inhibit) {
          return true, Some(ds[i]);
        }
      }
      return false, None;
    }

    /** The body of shouldSend's loops for one service: its classifications are asked for, and
        searched for a match, only when it has classification thresholds; then likewise its
        detections. A failing call ends the search. */
    method QueryService(vs: string, inhibit: bool, answers: string -> Answers) returns (step: Step)
      ensures step == ServiceStep(vs, if inhibit then inhibitedClassifications else acceptedClassifications,
                                      if inhibit then inhibitedObjects else acceptedObjects, answers)
    {
      if |Lookup(if inhibit then inhibitedClassifications else acceptedClassifications, vs)| > 0 {
        var res := answers(vs).classifications;
        if res.Failure? {
          return Error(res.error);
        }
        var found, hit := AnyClassificationsMatch(vs, res.value, inhibit);
        if found {
          return Matched(hit.value.name);
        }
      }
      if |Lookup(if inhibit then inhibitedObjects else acceptedObjects, vs)| > 0 {
        var res := answers(vs).detections;
        if res.Failure? {
          return Error(res.error);
        }
        var found, hit := AnyDetectionsMatch(vs, res.value, inhibit);
        if found {
          return Matched(hit.value.name);
        }
      }
      return Continue;
    }

    /** shouldSend: decides one image as Evaluate does, counting an accepted image in
        acceptedStats and a rejected one in rejectedStats under the deciding label; a failing
        vision service is reported and counts nothing. */
    method ShouldSend(answers: string -> Answers) returns (r: Result<bool, string>)
      requires acceptedStats != rejectedStats
      modifies acceptedStats, rejectedStats
      ensures match Evaluate(Policy(), answers)
        case Accepted(name) =>
          && r == Success(true)
          && acceptedStats.total == old(acceptedStats.total) + 1
          && acceptedStats.breakdown == Bumped(old(acceptedStats.breakdown), name)
          && unchanged(rejectedStats)
        case Rejected(name) =>
          && r == Success(false)
          && rejectedStats.total == old(rejectedStats.total) + 1
          && rejectedStats.breakdown == Bumped(old(rejectedStats.breakdown), name)
          && unchanged(acceptedStats)
        case Failed(e) => r == Failure(e) && unchanged(acceptedStats) && unchanged(rejectedStats)
    {
      // inhibitors are the first priority
      for i := 0 to |inhibitors|
        invariant Decide(inhibitors, inhibitedClassifications, inhibitedObjects, answers)
               == Decide(inhibitors[i..], inhibitedClassifications, inhibitedObjects, answers)
        invariant unchanged(acceptedStats) && unchanged(rejectedStats)
      {
        assert inhibitors[i..][0] == inhibitors[i] && inhibitors[i..][1..] == inhibitors[i + 1..];
        var step := QueryService(inhibitors[i], true, answers);
        match step
        case Error(e) =>
          return Failure(e);
        case Matched(name) =>
          rejectedStats.Update(name);
          return Success(false);
        case Continue =>
      }

      for i := 0 to |otherVisionServices|
        invariant Decide(otherVisionServices, acceptedClassifications, acceptedObjects, answers)
               == Decide(otherVisionServices[i..], acceptedClassifications, acceptedObjects, answers)
        invariant unchanged(acceptedStats) && unchanged(rejectedStats)
      {
        assert otherVisionServices[i..][0] == otherVisionServices[i] && otherVisionServices[i..][1..] == otherVisionServices[i + 1..];
        var step := QueryService(otherVisionServices[i], false, answers);
        match step
        case Error(e) =>
          return Failure(e);
        case Matched(name) =>
          acceptedStats.Update(name);
          return Success(true);
        case Continue =>
      }
      if |otherVisionServices| == 0 {
        acceptedStats.Update(NoneTriggered);
        return Success(true);
      }
      rejectedStats.Update(NoneTriggered);
      return Success(false);
    }
  }
}
