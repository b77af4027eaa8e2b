/**
 * The trigger rule of cam.go, stated on values: how one (label, score) answer of a vision
 * service is matched against a threshold map, which answer of a list matches first, and what
 * the whole inhibitors-then-acceptors evaluation decides for one image.
 */
module TriggerPolicy {
  import opened Wrappers

  /** A classification or a detection, as far as the filter looks at it: Label() and Score(). */
  datatype Scored = Scored(name: string, score: real)
  type Classification = Scored
  type Detection = Scored

  /** Minimum scores by label; the key "*" applies to every label. */
  type Thresholds = map<string, real>

  const Wildcard: string := "*"

  /** The key under which shouldSend records an image that no service decided. */
  const NoneTriggered: string := "no vision services triggered"

  /** A threshold entry stored under `key` applies to answers labelled `name`. */
  predicate Applies(key: string, name: string) {
    key == name || key == Wildcard
  }

  /** A Go lookup `m[service]` in a map of maps: a missing service has no thresholds. */
  function Lookup(m: map<string, Thresholds>, service: string): (t: Thresholds)
    ensures service !in m ==> t == map[]
  {
    if service in m then m[service] else map[]
  }

  /** The exact label's threshold is tried first, then the wildcard's; a score only counts when it
      is strictly above the threshold. */
  function Matches(t: Thresholds, x: Scored): (r: bool)
    ensures r <==> exists key | key in t :: Applies(key, x.name) && x.score > t[key]
  {
    if x.name in t && x.score > t[x.name] then true
    else if Wildcard in t && x.score > t[Wildcard] then true
    else false
  }

  /** The first answer, in list order, that matches. */
  function FirstMatch(t: Thresholds, xs: seq<Scored>): (r: Option<Scored>)
    ensures r.None? <==> forall i | 0 <= i < |xs| :: !Matches(t, xs[i])
    ensures r.Some? ==> exists i | 0 <= i < |xs| :: xs[i] == r.value && Matches(t, xs[i]) && forall j | 0 <= j < i :: !Matches(t, xs[j])
  {
    if xs == [] then None
    else if Matches(t, xs[0]) then Some(xs[0])
    else
      var r := FirstMatch(t, xs[1..]);
      assert forall i | 1 <= i < |xs| :: xs[i] == xs[1..][i - 1];
      r
  }

  /** What a vision service answers for the image under evaluation. */
  datatype Answers = Answers(classifications: Result<seq<Classification>, string>, detections: Result<seq<Detection>, string>)

  /** The configuration shouldSend consults: the two ordered service lists and, per service name,
      the classification and object thresholds of inhibitors and of acceptors. */
  datatype Policy = Policy(
    inhibitors: seq<string>,
    acceptors: seq<string>,
    inhibitedClassifications: map<string, Thresholds>,
    acceptedClassifications: map<string, Thresholds>,
    inhibitedObjects: map<string, Thresholds>,
    acceptedObjects: map<string, Thresholds>)

  /** What one service, or one list of services, makes of the image. */
  datatype Step = Continue | Matched(name: string) | Error(message: string)

  /** The verdict of shouldSend, with the label it is recorded under. */
  datatype Outcome = Accepted(name: string) | Rejected(name: string) | Failed(message: string)

  /** One kind of query (classifications or detections) to one service: skipped when its thresholds
      are empty, otherwise an error, the first matching label, or nothing. */
  function Query(t: Thresholds, answer: Result<seq<Scored>, string>): Step {
    if |t| == 0 then Continue
    else match answer
      case Failure(e) => Error(e)
      case Success(xs) =>
        match FirstMatch(t, xs)
        case Some(x) => Matched(x.name)
        case None => Continue
  }

  /** One service: its classifications are queried before its detections. */
  function ServiceStep(service: string, classes: map<string, Thresholds>, objects: map<string, Thresholds>, answers: string -> Answers): Step {
    var first := Query(Lookup(classes, service), answers(service).classifications);
    if first != Continue then first
    else Query(Lookup(objects, service), answers(service).detections)
  }

  /** A list of services, in order, until one of them matches or fails. */
  function Decide(services: seq<string>, classes: map<string, Thresholds>, objects: map<string, Thresholds>, answers: string -> Answers): Step {
    if services == [] then Continue
    else
      var step := ServiceStep(services[0], classes, objects, answers);
      if step != Continue then step
      else Decide(services[1..], classes, objects, answers)
  }

  /** shouldSend: inhibitors first, then acceptors; with no decision, an image is accepted exactly
      when there are no acceptors. */
  function Evaluate(p: Policy, answers: string -> Answers): Outcome {
    match Decide(p.inhibitors, p.inhibitedClassifications, p.inhibitedObjects, answers)
    case Error(e) => Failed(e)
    case Matched(name) => Rejected(name)
    case Continue =>
      match Decide(p.acceptors, p.acceptedClassifications, p.acceptedObjects, answers)
      case Error(e) => Failed(e)
      case Matched(name) => Accepted(name)
      case Continue => if |p.acceptors| == 0 then Accepted(NoneTriggered) else Rejected(NoneTriggered)
  }

  /** A score at or below every threshold that applies to its label never matches: the comparison
      is strict. */
  lemma StrictThreshold(t: Thresholds, x: Scored)
    requires forall key | key in t && Applies(key, x.name) :: x.score <= t[key]
    ensures !Matches(t, x)
  {
  }

  /** A higher score for the same label matches whenever a lower one does. */
  lemma MatchesMonotone(t: Thresholds, x: Scored, higher: real)
    requires Matches(t, x) && x.score <= higher
    ensures Matches(t, Scored(x.name, higher))
  {
  }

  /** The exact label's threshold does not shadow the wildcard: an answer below its own label's
      threshold still matches through "*". */
  lemma WildcardNotShadowed(t: Thresholds, x: Scored)
    requires Wildcard in t && x.score > t[Wildcard]
    ensures Matches(t, x)
  {
  }

  /** A service with no thresholds of either kind is never asked anything: whatever it would
      answer, it leaves the decision to the next one. */
  lemma UnconfiguredServiceNotQueried(service: string, classes: map<string, Thresholds>, objects: map<string, Thresholds>, answers: string -> Answers)
    requires |Lookup(classes, service)| == 0 && |Lookup(objects, service)| == 0
    ensures ServiceStep(service, classes, objects, answers) == Continue
  {
  }

  /** Services that let the image pass are skipped over: the decision is the one of the rest. */
  lemma {:induction false} DecideSkips(services: seq<string>, classes: map<string, Thresholds>, objects: map<string, Thresholds>, answers: string -> Answers, k: nat)
    requires k <= |services|
    requires forall j | 0 <= j < k :: ServiceStep(services[j], classes, objects, answers) == Continue
    ensures Decide(services, classes, objects, answers) == Decide(services[k..], classes, objects, answers)
  {
    if k > 0 {
      assert ServiceStep(services[0], classes, objects, answers) == Continue;
      DecideSkips(services[1..], classes, objects, answers, k - 1);
      assert services[1..][k - 1..] == services[k..];
    }
  }

  /** The first inhibitor that matches vetoes the image under the matching label, whatever the
      acceptors would have said. */
  lemma InhibitorVetoes(p: Policy, answers: string -> Answers, i: nat, name: string)
    requires i < |p.inhibitors|
    requires forall j | 0 <= j < i :: ServiceStep(p.inhibitors[j], p.inhibitedClassifications, p.inhibitedObjects, answers) == Continue
    requires ServiceStep(p.inhibitors[i], p.inhibitedClassifications, p.inhibitedObjects, answers) == Matched(name)
    ensures Evaluate(p, answers) == Rejected(name)
  {
    DecideSkips(p.inhibitors, p.inhibitedClassifications, p.inhibitedObjects, answers, i);
  }

  /** With every inhibitor passing, the first acceptor that matches accepts the image under the
      matching label. */
  lemma FirstAcceptorWins(p: Policy, answers: string -> Answers, i: nat, name: string)
    requires forall j | 0 <= j < |p.inhibitors| :: ServiceStep(p.inhibitors[j], p.inhibitedClassifications, p.inhibitedObjects, answers) == Continue
    requires i < |p.acceptors|
    requires forall j | 0 <= j < i :: ServiceStep(p.acceptors[j], p.acceptedClassifications, p.acceptedObjects, answers) == Continue
    requires ServiceStep(p.acceptors[i], p.acceptedClassifications, p.acceptedObjects, answers) == Matched(name)
    ensures Evaluate(p, answers) == Accepted(name)
  {
    DecideSkips(p.inhibitors, p.inhibitedClassifications, p.inhibitedObjects, answers, |p.inhibitors|);
    DecideSkips(p.acceptors, p.acceptedClassifications, p.acceptedObjects, answers, i);
  }

  /** When no service decides, the image is accepted if and only if there are no acceptors. */
  lemma {:induction false} NoDecisionDefault(p: Policy, answers: string -> Answers)
    requires forall j | 0 <= j < |p.inhibitors| :: ServiceStep(p.inhibitors[j], p.inhibitedClassifications, p.inhibitedObjects, answers) == Continue
    requires forall j | 0 <= j < |p.acceptors| :: ServiceStep(p.acceptors[j], p.acceptedClassifications, p.acceptedObjects, answers) == Continue
    ensures |p.acceptors| == 0 ==> Evaluate(p, answers) == Accepted(NoneTriggered)
    ensures |p.acceptors| > 0 ==> Evaluate(p, answers) == Rejected(NoneTriggered)
  {
    DecideSkips(p.inhibitors, p.inhibitedClassifications, p.inhibitedObjects, answers, |p.inhibitors|);
    DecideSkips(p.acceptors, p.acceptedClassifications, p.acceptedObjects, answers, |p.acceptors|);
  }

  /** The same service inhibiting at "a" above 0.7 and accepting "a" above 0.6: an image scored
      0.75 on "a" is rejected, the inhibitor winning over the acceptor. */
  lemma InhibitorBeatsAcceptor(answers: string -> Answers)
    requires answers("svc") == Answers(Success([Scored("a", 0.75)]), Success([]))
    ensures Evaluate(Policy(["svc"], ["svc"], map["svc" := map["a" := 0.7]], map["svc" := map["a" := 0.6]], map[], map[]), answers) == Rejected("a")
  {
    var p := Policy(["svc"], ["svc"], map["svc" := map["a" := 0.7]], map["svc" := map["a" := 0.6]], map[], map[]);
    assert Matches(map["a" := 0.7], Scored("a", 0.75));
    assert FirstMatch(map["a" := 0.7], [Scored("a", 0.75)]) == Some(Scored("a", 0.75));
    assert ServiceStep("svc", p.inhibitedClassifications, p.inhibitedObjects, answers) == Matched("a");
    InhibitorVetoes(p, answers, 0, "a");
  }
}
