/** The failure signals of a health report: pattern tables and what each item of the report shows
    (pkg/failureclassifier/types.go and the per-item branches of classifier.go). */
module FailureSignals {
  import opened Common

  // ---------------------------------------------------------------- the report

  /** Ages are nanoseconds at the fixed clock; None is the zero time. */
  datatype Container = Container(name: string, waiting: string, terminated: string)

  datatype Pod = Pod(name: string, phase: string, age: Option<int>, containers: seq<Container>)

  datatype Event = Event(kind: string, name: string, reason: string, message: string, age: Option<int>)

  datatype Quota = Quota(namespace: string, name: string, exceeded: seq<string>)

  datatype Node = Node(name: string, unhealthyReason: string)

  datatype Deployment = Deployment(namespace: string, name: string, ready: int, replicas: int, age: Option<int>)

  datatype CrSection = CrSection(error: string, name: string)

  datatype Report = Report(
    pods: map<string, seq<Pod>>, events: seq<Event>, quotas: map<string, seq<Quota>>, nodes: seq<Node>,
    deployments: map<string, seq<Deployment>>, operatorDeployment: Option<Deployment>, operatorPods: seq<Pod>,
    dsci: CrSection, dsc: CrSection, otherSectionsOk: bool)

  const PENDING_THRESHOLD: int := 60_000_000_000
  const EVENT_AGE_THRESHOLD: int := 300_000_000_000

  // ---------------------------------------------------------------- the answer

  datatype Category = Infrastructure | Test | Unknown

  datatype Confidence = High | Medium | Low

  datatype Evidence =
    | ContainerWaiting(pod: string, container: string, text: string)
    | ContainerTerminated(pod: string, container: string, text: string)
    | UnrecognizedWaiting(pod: string, container: string, text: string)
    | PodPending(pod: string, age: int)
    | EventSeen(kind: string, name: string, reason: string, message: string)
    | QuotaExceeded(namespace: string, name: string, exceeded: seq<string>)
    | NodeUnhealthy(name: string, reason: string)
    | DeploymentUnready(namespace: string, name: string, ready: int, replicas: int)
    | OperatorScaledToZero(name: string)
    | OperatorUnready(name: string, ready: int, replicas: int)
    | OperatorPodPhase(pod: string, phase: string)
    | OperatorWaiting(pod: string, container: string, text: string)
    | OperatorTerminated(pod: string, container: string, text: string)
    | OperatorUnrecognized(pod: string, container: string, text: string)
    | CrUnhealthy(kind: string, name: string, error: string)
    | NothingMatched
    | NoRule

  datatype Classification = Classification(category: Category, subcategory: string, code: int, evidence: seq<Evidence>,
                                           confidence: Confidence)

  const CODE_IMAGE_PULL := 1001
  const CODE_POD_STARTUP := 1002
  const CODE_NETWORK := 1003
  const CODE_QUOTA_OOM := 1004
  const CODE_NODE_PRESSURE := 1005
  const CODE_STORAGE := 1006
  const CODE_CONTAINER_OOM := 1007
  const CODE_OPERATOR := 1008
  const CODE_DSCI := 1009
  const CODE_DSC := 1010
  const CODE_RBAC := 1011
  const CODE_DNS := 1012
  const CODE_TIMEOUT := 1013
  const CODE_PROBE_FAILURE := 1014
  const CODE_INVALID_FLAGS := 1015
  const CODE_CONTAINER_EXIT := 1016
  const CODE_INFRA_UNKNOWN := 1099
  const CODE_UNCLASSIFIABLE := 3000
  const CODE_NO_SIGNAL := 3001

  /** The documented code range of each category. */
  predicate InRange(c: Classification) {
    match c.category
    case Infrastructure => 1000 <= c.code <= 1999
    case Test => 2000 <= c.code <= 2999
    case Unknown => 3000 <= c.code
  }

  function Infra(subcategory: string, code: int, evidence: Evidence, confidence: Confidence): Classification {
    Classification(Infrastructure, subcategory, code, [evidence], confidence)
  }

  // ---------------------------------------------------------------- patterns

  datatype Pattern = Pattern(text: string, subcategory: string, code: int)

  const WAITING_PATTERNS: seq<Pattern> := [
    Pattern("ImagePullBackOff", "image-pull", CODE_IMAGE_PULL),
    Pattern("ErrImagePull", "image-pull", CODE_IMAGE_PULL),
    Pattern("InvalidImageName", "image-pull", CODE_IMAGE_PULL),
    Pattern("CrashLoopBackOff", "pod-startup", CODE_POD_STARTUP),
    Pattern("CreateContainerConfigError", "pod-startup", CODE_POD_STARTUP),
    Pattern("CreateContainerError", "pod-startup", CODE_POD_STARTUP)]

  const TERMINATED_PATTERNS: seq<Pattern> := [
    Pattern("OOMKilled", "container-oom", CODE_CONTAINER_OOM),
    Pattern("(exit 2)", "invalid-cli-flags", CODE_INVALID_FLAGS),
    Pattern("(exit 137)", "container-exit", CODE_CONTAINER_EXIT),
    Pattern("(exit 143)", "container-exit", CODE_CONTAINER_EXIT)]

  const IMAGE_PULL_MESSAGES: seq<string> := ["unauthorized: authentication", "failed to pull image",
                                             "failed to pull and unpack image"]
  const NETWORK_REASONS: set<string> := {"NetworkNotReady"}
  const NETWORK_MESSAGES: seq<string> := ["network not ready"]
  const STORAGE_REASONS: set<string> := {"FailedAttachVolume", "FailedMount", "ProvisioningFailed"}
  const STORAGE_MESSAGES: seq<string> := [
    "persistentvolumeclaim", "pvc not found", "failed to attach volume", "failed to mount volume",
    "no persistent volumes available"]
  const PROBE_REASONS: set<string> := {"Unhealthy"}
  const PROBE_MESSAGES: seq<string> := ["liveness probe failed", "readiness probe failed", "startup probe failed"]
  const RBAC_MESSAGES: seq<string> := ["is forbidden", "access denied", "does not have permission"]
  const DNS_MESSAGES: seq<string> := [
    "no such host", "failed to resolve", "dns resolution failed", "name or service not known",
    "temporary failure in name resolution"]
  const TIMEOUT_MESSAGES: seq<string> := ["context deadline exceeded", "deadline exceeded", "timed out waiting",
                                          "operation timed out"]

  function ToLower(s: string): string {
    seq(|s|, i requires 0 <= i < |s| => LowerChar(s[i]))
  }

  predicate HasPrefix(s: string, p: string) {
    p <= s
  }

  /** strings.Contains. */
  predicate Contains(s: string, p: string)
    decreases |s|
  {
    HasPrefix(s, p) || (s != [] && Contains(s[1..], p))
  }

  /** Case-insensitive substring search. */
  predicate Mentions(text: string, p: string) {
    Contains(ToLower(text), ToLower(p))
  }

  /** The first pattern of a table that the text mentions. */
  method FirstMention(text: string, patterns: seq<Pattern>) returns (r: Option<Pattern>)
    ensures r == MatchesPattern(text, patterns)
    ensures r.None? <==> text == "" || forall j :: 0 <= j < |patterns| ==> !Mentions(text, patterns[j].text)
    ensures r.Some? ==> exists i :: FirstAt(text, patterns, i) && patterns[i] == r.value
  {
    FirstOfExact(text, patterns);
    if text == "" {
      return None;
    }
    for i := 0 to |patterns|
      invariant FirstOf(text, patterns) == FirstOf(text, patterns[i..])
    {
      if Mentions(text, patterns[i].text) {
        return Some(patterns[i]);
      }
      assert patterns[i..][1..] == patterns[i + 1..];
    }
    return None;
  }

  function FirstOf(text: string, patterns: seq<Pattern>): Option<Pattern>
    decreases |patterns|
  {
    if patterns == [] then None
    else if Mentions(text, patterns[0].text) then Some(patterns[0])
    else FirstOf(text, patterns[1..])
  }

  function MatchesPattern(text: string, patterns: seq<Pattern>): Option<Pattern> {
    if text == "" then None else FirstOf(text, patterns)
  }

  /** The pattern at `i` is the first of the table that the text mentions. */
  ghost predicate FirstAt(text: string, patterns: seq<Pattern>, i: int) {
    && 0 <= i < |patterns| && Mentions(text, patterns[i].text)
    && forall j :: 0 <= j < i ==> !Mentions(text, patterns[j].text)
  }

  lemma {:induction false} FirstOfExact(text: string, patterns: seq<Pattern>)
    ensures forall p ::
              FirstOf(text, patterns) == Some(p) <==> exists i :: FirstAt(text, patterns, i) && patterns[i] == p
    ensures FirstOf(text, patterns).None? <==> forall j :: 0 <= j < |patterns| ==> !Mentions(text, patterns[j].text)
    decreases |patterns|
  {
    if patterns != [] {
      var rest := patterns[1..];
      FirstOfExact(text, rest);
      forall i | 0 <= i < |rest| ensures rest[i] == patterns[i + 1] {
      }
      if Mentions(text, patterns[0].text) {
        assert FirstAt(text, patterns, 0);
        forall i | FirstAt(text, patterns, i) ensures i == 0 {
        }
      } else {
        forall i ensures FirstAt(text, patterns, i + 1) <==> FirstAt(text, rest, i) {
          ShiftedFirst(text, patterns, i);
        }
        forall i | FirstAt(text, patterns, i) ensures FirstAt(text, rest, i - 1) && rest[i - 1] == patterns[i] {
          ShiftedFirst(text, patterns, i - 1);
        }
      }
    }
  }

  lemma ShiftedFirst(text: string, patterns: seq<Pattern>, i: int)
    requires patterns != [] && !Mentions(text, patterns[0].text)
    ensures FirstAt(text, patterns, i + 1) <==> FirstAt(text, patterns[1..], i)
  {
    var rest := patterns[1..];
    if FirstAt(text, patterns, i + 1) {
      assert i >= 0;
      forall j | 0 <= j < i ensures !Mentions(text, rest[j].text) {
        assert rest[j] == patterns[j + 1];
      }
    }
    if FirstAt(text, rest, i) {
      forall j | 0 <= j < i + 1 ensures !Mentions(text, patterns[j].text) {
        assert j > 0 ==> patterns[j] == rest[j - 1];
      }
    }
  }

  /** Substring search finds a pattern wherever it stands. */
  lemma {:induction false} ContainsExact(s: string, p: string)
    ensures Contains(s, p) <==> exists k :: 0 <= k <= |s| && p <= s[k..]
    decreases |s|
  {
    if k :| 0 <= k <= |s| && p <= s[k..] {
      ContainsAt(s, p, k);
    }
    if Contains(s, p) {
      if p <= s {
        assert s[0..] == s;
      } else {
        ContainsExact(s[1..], p);
        var k :| 0 <= k <= |s[1..]| && p <= s[1..][k..];
        assert s[1..][k..] == s[k + 1..];
      }
    }
  }

  /** Case does not matter on either side. */
  lemma MentionsIgnoresCase(text: string, p: string)
    ensures Mentions(text, p) <==> Mentions(ToLower(text), ToLower(p))
  {
    LowerTwice(text);
    LowerTwice(p);
  }

  lemma LowerTwice(s: string)
    ensures ToLower(ToLower(s)) == ToLower(s) && |ToLower(s)| == |s|
  {
  }

  /** The message tables are in lower case already. */
  predicate ContainsAny(text: string, patterns: seq<string>) {
    text != "" && exists p :: p in patterns && Contains(ToLower(text), p)
  }

  predicate Successful(terminated: string) {
    Contains(terminated, "(exit 0)")
  }

  predicate Graceful(terminated: string) {
    HasPrefix(terminated, "Completed ")
  }

  // ---------------------------------------------------------------- what each item shows

  function ContainerHit(p: Pod, c: Container): Option<Classification> {
    var waiting := MatchesPattern(c.waiting, WAITING_PATTERNS);
    if waiting.Some? then
      Some(Infra(waiting.value.subcategory, waiting.value.code, ContainerWaiting(p.name, c.name, c.waiting), Medium))
    else
      var terminated := MatchesPattern(c.terminated, TERMINATED_PATTERNS);
      if !Graceful(c.terminated) && terminated.Some? then
        Some(Infra(terminated.value.subcategory, terminated.value.code,
                   ContainerTerminated(p.name, c.name, c.terminated), Medium))
      else None
  }

  function ContainerDistress(p: Pod, c: Container): seq<Evidence> {
    if c.waiting != "" then [UnrecognizedWaiting(p.name, c.name, c.waiting)]
    else if c.terminated != "" && !Successful(c.terminated) && !Graceful(c.terminated) then
      [ContainerTerminated(p.name, c.name, c.terminated)]
    else []
  }

  function PendingHit(p: Pod): Option<Classification> {
    if p.phase == "Pending" && p.age.Some? && p.age.value > PENDING_THRESHOLD then
      Some(Infra("pod-startup", CODE_POD_STARTUP, PodPending(p.name, p.age.value), High))
    else None
  }

  predicate Stale(e: Event) {
    e.age.Some? && e.age.value > EVENT_AGE_THRESHOLD
  }

  function EventHit(e: Event): Option<Classification> {
    var seen := EventSeen(e.kind, e.name, e.reason, e.message);
    if Stale(e) then None
    else if ContainsAny(e.message, IMAGE_PULL_MESSAGES) then Some(Infra("image-pull", CODE_IMAGE_PULL, seen, Medium))
    else if e.reason in NETWORK_REASONS || ContainsAny(e.message, NETWORK_MESSAGES) then
      Some(Infra("network", CODE_NETWORK, seen, Medium))
    else if e.reason in STORAGE_REASONS || ContainsAny(e.message, STORAGE_MESSAGES) then
      Some(Infra("storage", CODE_STORAGE, seen, Medium))
    else if e.reason in PROBE_REASONS || ContainsAny(e.message, PROBE_MESSAGES) then
      Some(Infra("probe-failure", CODE_PROBE_FAILURE, seen, Medium))
    else if ContainsAny(e.message, RBAC_MESSAGES) then Some(Infra("rbac", CODE_RBAC, seen, Medium))
    else if ContainsAny(e.message, DNS_MESSAGES) then Some(Infra("dns", CODE_DNS, seen, Medium))
    else if ContainsAny(e.message, TIMEOUT_MESSAGES) then Some(Infra("timeout", CODE_TIMEOUT, seen, Medium))
    else None
  }

  function QuotaHit(q: Quota): Option<Classification> {
    if |q.exceeded| > 0 then
      Some(Infra("quota-oom", CODE_QUOTA_OOM, QuotaExceeded(q.namespace, q.name, q.exceeded), High))
    else None
  }

  function NodeHit(n: Node): Option<Classification> {
    if n.unhealthyReason != "" then
      Some(Infra("node-pressure", CODE_NODE_PRESSURE, NodeUnhealthy(n.name, n.unhealthyReason), High))
    else None
  }

  function DeploymentHit(d: Deployment): Option<Classification> {
    if d.ready < d.replicas && !(d.age.Some? && d.age.value < PENDING_THRESHOLD) then
      Some(Infra("cluster-distress", CODE_INFRA_UNKNOWN, DeploymentUnready(d.namespace, d.name, d.ready, d.replicas),
                 Low))
    else None
  }

  function OperatorDeploymentHit(d: Option<Deployment>): Option<Classification> {
    if d.None? then None
    else if d.value.replicas == 0 then Some(Infra("operator", CODE_OPERATOR, OperatorScaledToZero(d.value.name), High))
    else if d.value.ready < d.value.replicas then
      Some(Infra("operator", CODE_OPERATOR, OperatorUnready(d.value.name, d.value.ready, d.value.replicas), High))
    else None
  }

  function OperatorPhaseHit(p: Pod): Option<Classification> {
    if p.phase != "Running" && p.phase != "Succeeded" then
      Some(Infra("operator", CODE_OPERATOR, OperatorPodPhase(p.name, p.phase), High))
    else None
  }

  /** Unlike other pods, a graceful termination of the operator is not exempt from the exit-code patterns. */
  function OperatorContainerHit(p: Pod, c: Container): Option<Classification> {
    if MatchesPattern(c.waiting, WAITING_PATTERNS).Some? then
      Some(Infra("operator", CODE_OPERATOR, OperatorWaiting(p.name, c.name, c.waiting), High))
    else if MatchesPattern(c.terminated, TERMINATED_PATTERNS).Some? then
      Some(Infra("operator", CODE_OPERATOR, OperatorTerminated(p.name, c.name, c.terminated), High))
    else None
  }

  function OperatorContainerDistress(p: Pod, c: Container): seq<Evidence> {
    (if c.waiting != "" then [OperatorUnrecognized(p.name, c.name, c.waiting)] else []) +
    (if c.terminated != "" && !Successful(c.terminated) then [OperatorTerminated(p.name, c.name, c.terminated)] else [])
  }

  function CrHit(kind: string, subcategory: string, section: CrSection, code: int): Option<Classification> {
    if section.error == "" || section.name == "" then None
    else Some(Infra(subcategory, code, CrUnhealthy(kind, section.name, section.error), Medium))
  }

  /** No section failed; the two custom-resource sections are the ones modelled in full. */
  predicate Healthy(r: Report) {
    r.otherSectionsOk && r.dsci.error == "" && r.dsc.error == ""
  }

  /** A specific result: from a known pattern, one piece of evidence, not low. */
  predicate Specific(c: Classification) {
    c.category == Infrastructure && c.confidence != Low && |c.evidence| == 1 && InRange(c)
  }

  /** Every pattern with the verdict that it stands for, in the order of the tables. */
  lemma PatternTables()
    ensures WAITING_PATTERNS == [
              Pattern("ImagePullBackOff", "image-pull", 1001), Pattern("ErrImagePull", "image-pull", 1001),
              Pattern("InvalidImageName", "image-pull", 1001), Pattern("CrashLoopBackOff", "pod-startup", 1002),
              Pattern("CreateContainerConfigError", "pod-startup", 1002),
              Pattern("CreateContainerError", "pod-startup", 1002)]
    ensures TERMINATED_PATTERNS == [
              Pattern("OOMKilled", "container-oom", 1007), Pattern("(exit 2)", "invalid-cli-flags", 1015),
              Pattern("(exit 137)", "container-exit", 1016), Pattern("(exit 143)", "container-exit", 1016)]
  {
  }

  lemma PatternCodes()
    ensures forall p :: p in WAITING_PATTERNS || p in TERMINATED_PATTERNS ==> 1000 <= p.code <= 1999
  {
  }

  lemma ContainerHitIsSpecific(p: Pod, c: Container)
    ensures ContainerHit(p, c).Some? ==> Specific(ContainerHit(p, c).value)
    ensures ContainerHit(p, c).Some? <==>
            || (c.waiting != "" && exists w :: w in WAITING_PATTERNS && Mentions(c.waiting, w.text))
            || (c.terminated != "" && !Graceful(c.terminated) &&
                exists t :: t in TERMINATED_PATTERNS && Mentions(c.terminated, t.text))
  {
    PatternCodes();
    FirstOfExact(c.waiting, WAITING_PATTERNS);
    FirstOfExact(c.terminated, TERMINATED_PATTERNS);
  }

  lemma {:induction false} ContainsAt(s: string, p: string, k: nat)
    requires k <= |s| && HasPrefix(s[k..], p)
    ensures Contains(s, p)
    decreases k
  {
    if k == 0 {
      assert s[0..] == s;
    } else {
      assert s[1..][k - 1..] == s[k..];
      ContainsAt(s[1..], p, k - 1);
    }
  }

  /** A graceful termination with a listed exit code is nothing for an ordinary pod and a failure for the operator. */
  lemma OperatorIgnoresGrace(p: Pod, c: Container)
    requires c.waiting == "" && Graceful(c.terminated)
    ensures ContainerHit(p, c).None? && ContainerDistress(p, c) == []
    ensures OperatorContainerDistress(p, c) != [] <==> !Successful(c.terminated)
    ensures OperatorContainerHit(p, c).Some? <==> exists t :: t in TERMINATED_PATTERNS && Mentions(c.terminated, t.text)
  {
    FirstOfExact(c.terminated, TERMINATED_PATTERNS);
  }

  /** Such a termination: the drain of a pod. */
  lemma DrainedOperatorIsAFailure(p: Pod, name: string)
    ensures var c := Container(name, "", "Completed (exit 143)");
            OperatorContainerHit(p, c) ==
              Some(Infra("operator", CODE_OPERATOR, OperatorTerminated(p.name, name, c.terminated), High)) &&
            ContainerHit(p, c).None? && ContainerDistress(p, c) == []
  {
    var c := Container(name, "", "Completed (exit 143)");
    var text, pattern := ToLower(c.terminated), ToLower("(exit 143)");
    assert c.terminated[10..] == "(exit 143)";
    assert |text| == 20 && |pattern| == 10 && text[10..] == pattern;
    ContainsAt(text, pattern, 10);
    assert TERMINATED_PATTERNS[3].text == "(exit 143)" && TERMINATED_PATTERNS[3] in TERMINATED_PATTERNS;
    assert c.terminated[..10] == "Completed ";
    OperatorIgnoresGrace(p, c);
  }

  /** A container whose waiting state is known is judged by it, even if its last termination is known too. */
  lemma ContainerHitExact(p: Pod, c: Container, h: Classification)
    ensures ContainerHit(p, c) == Some(h) <==>
            || (exists i :: c.waiting != "" && FirstAt(c.waiting, WAITING_PATTERNS, i) &&
                  h == Infra(WAITING_PATTERNS[i].subcategory, WAITING_PATTERNS[i].code,
                             ContainerWaiting(p.name, c.name, c.waiting), Medium))
            || (&& (c.waiting == "" || forall i :: !FirstAt(c.waiting, WAITING_PATTERNS, i))
                && !Graceful(c.terminated)
                && exists i :: c.terminated != "" && FirstAt(c.terminated, TERMINATED_PATTERNS, i) &&
                     h == Infra(TERMINATED_PATTERNS[i].subcategory, TERMINATED_PATTERNS[i].code,
                                ContainerTerminated(p.name, c.name, c.terminated), Medium))
  {
    MatchExact(c.waiting, WAITING_PATTERNS);
    MatchExact(c.terminated, TERMINATED_PATTERNS);
  }

  lemma MatchExact(text: string, patterns: seq<Pattern>)
    ensures MatchesPattern(text, patterns).Some? ==>
              && text != ""
              && exists i :: FirstAt(text, patterns, i) && patterns[i] == MatchesPattern(text, patterns).value
    ensures MatchesPattern(text, patterns).None? ==> text == "" || forall i :: !FirstAt(text, patterns, i)
    ensures forall i, j :: FirstAt(text, patterns, i) && FirstAt(text, patterns, j) ==> i == j
  {
    FirstOfExact(text, patterns);
    if text != "" && FirstOf(text, patterns).Some? {
      var p := FirstOf(text, patterns).value;
      assert FirstOf(text, patterns) == Some(p);
    }
  }

  /** An out-of-memory kill is not taken for its exit code. */
  lemma OomBeatsExitCode(p: Pod, name: string)
    ensures var c := Container(name, "", "OOMKilled (exit 137)");
            ContainerHit(p, c) ==
            Some(Infra("container-oom", CODE_CONTAINER_OOM, ContainerTerminated(p.name, name, c.terminated), Medium))
  {
    var c := Container(name, "", "OOMKilled (exit 137)");
    var text, pattern := ToLower(c.terminated), ToLower("OOMKilled");
    assert c.terminated[..9] == "OOMKilled";
    assert |pattern| == 9 && |text| == 20 && text[..9] == pattern;
    assert text[0..] == text && pattern <= text;
    ContainsAt(text, pattern, 0);
    assert TERMINATED_PATTERNS[0].text == "OOMKilled" && Mentions(c.terminated, TERMINATED_PATTERNS[0].text);
    assert !Graceful(c.terminated) by {
      assert c.terminated[0] != "Completed "[0];
    }
    assert FirstOf(c.terminated, TERMINATED_PATTERNS) == Some(TERMINATED_PATTERNS[0]);
  }

  /** The age limits: a pod is stuck after a minute, an event is stale after five. */
  lemma AgeLimits(p: Pod, e: Event, d: Deployment)
    ensures PendingHit(p).Some? <==> p.phase == "Pending" && p.age.Some? && p.age.value > 60 * 1_000_000_000
    ensures Stale(e) <==> e.age.Some? && e.age.value > 5 * 60 * 1_000_000_000
    ensures DeploymentHit(d).Some? <==> d.ready < d.replicas && (d.age.None? || d.age.value >= 60 * 1_000_000_000)
  {
  }

  /** A message shows a table when it holds one of its texts, in any case. */
  lemma ContainsAnyExact(text: string, patterns: seq<string>)
    ensures ContainsAny(text, patterns) <==>
            text != "" && exists p, k :: p in patterns && 0 <= k <= |text| && p <= ToLower(text)[k..]
  {
    forall p | p in patterns
      ensures Contains(ToLower(text), p) <==> exists k :: 0 <= k <= |text| && p <= ToLower(text)[k..]
    {
      ContainsExact(ToLower(text), p);
    }
  }

  /** How the two kinds of good termination are recognised. */
  lemma TerminationsExact(terminated: string)
    ensures Successful(terminated) <==> exists k :: 0 <= k <= |terminated| && "(exit 0)" <= terminated[k..]
    ensures Graceful(terminated) <==> "Completed " <= terminated
  {
    ContainsExact(terminated, "(exit 0)");
  }

  /** Every verdict cites the item that it is about. */
  lemma EvidenceExact(p: Pod, q: Quota, n: Node, d: Deployment, s: CrSection)
    ensures PendingHit(p).Some? ==> PendingHit(p).value.evidence == [PodPending(p.name, p.age.value)]
    ensures QuotaHit(q).Some? ==> QuotaHit(q).value.evidence == [QuotaExceeded(q.namespace, q.name, q.exceeded)]
    ensures NodeHit(n).Some? ==> NodeHit(n).value.evidence == [NodeUnhealthy(n.name, n.unhealthyReason)]
    ensures DeploymentHit(d).Some? ==>
              DeploymentHit(d).value.evidence == [DeploymentUnready(d.namespace, d.name, d.ready, d.replicas)]
    ensures OperatorPhaseHit(p).Some? ==> OperatorPhaseHit(p).value.evidence == [OperatorPodPhase(p.name, p.phase)]
    ensures OperatorDeploymentHit(Some(d)).Some? ==>
              OperatorDeploymentHit(Some(d)).value.evidence ==
              [if d.replicas == 0 then OperatorScaledToZero(d.name) else OperatorUnready(d.name, d.ready, d.replicas)]
    ensures CrHit("DSC", "dsc-unhealthy", s, CODE_DSC).Some? ==>
              CrHit("DSC", "dsc-unhealthy", s, CODE_DSC).value.evidence == [CrUnhealthy("DSC", s.name, s.error)]
  {
  }

  /** The lines that a container adds to the distress of its pod, or of the operator. */
  lemma DistressExact(p: Pod, c: Container)
    ensures c.waiting != "" ==> ContainerDistress(p, c) == [UnrecognizedWaiting(p.name, c.name, c.waiting)]
    ensures c.waiting == "" ==>
              ContainerDistress(p, c) ==
              if c.terminated == "" || Successful(c.terminated) || Graceful(c.terminated) then []
              else [ContainerTerminated(p.name, c.name, c.terminated)]
    ensures OperatorUnrecognized(p.name, c.name, c.waiting) in OperatorContainerDistress(p, c) <==> c.waiting != ""
    ensures OperatorTerminated(p.name, c.name, c.terminated) in OperatorContainerDistress(p, c) <==>
            c.terminated != "" && !Successful(c.terminated)
    ensures |OperatorContainerDistress(p, c)| <= 2
  {
  }
}
