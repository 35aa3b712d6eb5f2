/** What the classifier promises for every report and every map iteration order. */
module FailureLaws {
  import opened Common
  import opened Text
  import opened FailureSignals
  import opened FailureClassifier

  // ---------------------------------------------------------------- signals, without any order

  ghost predicate KnownTrouble(c: Container) {
    || MatchesPattern(c.waiting, WAITING_PATTERNS).Some?
    || (!Graceful(c.terminated) && MatchesPattern(c.terminated, TERMINATED_PATTERNS).Some?)
  }

  ghost predicate PodSignals(p: Pod) {
    (exists c :: c in p.containers && KnownTrouble(c)) ||
      (p.phase == "Pending" && p.age.Some? && p.age.value > PENDING_THRESHOLD)
  }

  ghost predicate PodUneasy(p: Pod) {
    exists c :: c in p.containers &&
      (c.waiting != "" || (c.terminated != "" && !Successful(c.terminated) && !Graceful(c.terminated)))
  }

  /** The event rules, in the order in which they are tried. */
  datatype EventRule = EventRule(reasons: set<string>, messages: seq<string>, subcategory: string, code: int)

  ghost function EventRules(): seq<EventRule> {
    [ EventRule({}, IMAGE_PULL_MESSAGES, "image-pull", 1001),
      EventRule(NETWORK_REASONS, NETWORK_MESSAGES, "network", 1003),
      EventRule(STORAGE_REASONS, STORAGE_MESSAGES, "storage", 1006),
      EventRule(PROBE_REASONS, PROBE_MESSAGES, "probe-failure", 1014),
      EventRule({}, RBAC_MESSAGES, "rbac", 1011),
      EventRule({}, DNS_MESSAGES, "dns", 1012),
      EventRule({}, TIMEOUT_MESSAGES, "timeout", 1013) ]
  }

  ghost predicate Follows(e: Event, rule: EventRule) {
    e.reason in rule.reasons || ContainsAny(e.message, rule.messages)
  }

  ghost predicate EventSignals(e: Event) {
    !Stale(e) && exists n :: 0 <= n < |EventRules()| && Follows(e, EventRules()[n])
  }

  ghost predicate OperatorPodSignals(p: Pod) {
    || (p.phase != "Running" && p.phase != "Succeeded")
    || exists c :: c in p.containers &&
         (MatchesPattern(c.waiting, WAITING_PATTERNS).Some? || MatchesPattern(c.terminated, TERMINATED_PATTERNS).Some?)
  }

  ghost predicate OperatorPodUneasy(p: Pod) {
    exists c :: c in p.containers && (c.waiting != "" || (c.terminated != "" && !Successful(c.terminated)))
  }

  ghost predicate LongUnready(d: Deployment) {
    d.ready < d.replicas && (d.age.Some? ==> d.age.value >= PENDING_THRESHOLD)
  }

  ghost predicate Broken(section: CrSection) {
    section.error != "" && section.name != ""
  }

  /** The report holds something that this layer looks for. */
  ghost predicate Signal(r: Report, layer: Layer) {
    match layer
    case Pods => exists p :: Held(r.pods, p) && PodSignals(p)
    case Events => exists e :: e in r.events && EventSignals(e)
    case Quotas => exists q :: Held(r.quotas, q) && q.exceeded != []
    case Nodes => exists n :: n in r.nodes && n.unhealthyReason != ""
    case Operator =>
      || (r.operatorDeployment.Some? &&
          (r.operatorDeployment.value.replicas == 0 ||
           r.operatorDeployment.value.ready < r.operatorDeployment.value.replicas))
      || exists p :: p in r.operatorPods && OperatorPodSignals(p)
    case Dsci => Broken(r.dsci)
    case Dsc => Broken(r.dsc)
    case PodsInDistress => exists p :: Held(r.pods, p) && PodUneasy(p)
    case OperatorInDistress => exists p :: p in r.operatorPods && OperatorPodUneasy(p)
    case Unready => exists d :: Held(r.deployments, d) && LongUnready(d)
    case Nothing => true
  }

  predicate IsSpecific(layer: Layer) {
    layer.Pods? || layer.Events? || layer.Quotas? || layer.Nodes? || layer.Operator? || layer.Dsci? || layer.Dsc?
  }

  predicate IsDistress(layer: Layer) {
    layer.PodsInDistress? || layer.OperatorInDistress? || layer.Unready?
  }

  // ---------------------------------------------------------------- items

  lemma PodHitExact(p: Pod)
    ensures PodHit(p).Some? <==> PodSignals(p)
    ensures PodHit(p).Some? ==> Specific(PodHit(p).value)
  {
    var f := c => ContainerHit(p, c);
    FirstExact(p.containers, f);
    if First(p.containers, f).Some? {
      var c :| c in p.containers && f(c) == First(p.containers, f);
      ContainerHitIsSpecific(p, c);
      assert KnownTrouble(c);
    }
    forall c | c in p.containers && KnownTrouble(c) ensures f(c).Some? {
    }
  }

  lemma PodDistressExact(p: Pod)
    ensures PodDistress(p) != [] <==> PodUneasy(p)
  {
    var g := c => ContainerDistress(p, c);
    GatherNonEmpty(p.containers, g);
    forall c
      ensures g(c) != [] <==>
              c.waiting != "" || (c.terminated != "" && !Successful(c.terminated) && !Graceful(c.terminated))
    {
    }
  }

  lemma OperatorPodHitExact(p: Pod)
    ensures OperatorPodHit(p).Some? <==> OperatorPodSignals(p)
    ensures OperatorPodHit(p).Some? ==> Specific(OperatorPodHit(p).value)
  {
    var f := c => OperatorContainerHit(p, c);
    FirstExact(p.containers, f);
    forall c
      ensures f(c).Some? <==>
              || MatchesPattern(c.waiting, WAITING_PATTERNS).Some?
              || MatchesPattern(c.terminated, TERMINATED_PATTERNS).Some?
    {
    }
  }

  lemma OperatorPodDistressExact(p: Pod)
    ensures OperatorPodDistress(p) != [] <==> OperatorPodUneasy(p)
  {
    var g := c => OperatorContainerDistress(p, c);
    GatherNonEmpty(p.containers, g);
    forall c ensures g(c) != [] <==> c.waiting != "" || (c.terminated != "" && !Successful(c.terminated)) {
    }
  }

  /** A current event gets the verdict of the first rule that it follows. */
  lemma FirstRuleDecides(e: Event, n: nat)
    requires n < |EventRules()| && !Stale(e) && Follows(e, EventRules()[n])
    requires forall k :: 0 <= k < n ==> !Follows(e, EventRules()[k])
    ensures EventHit(e) == Some(Infra(EventRules()[n].subcategory, EventRules()[n].code,
                                      EventSeen(e.kind, e.name, e.reason, e.message), Medium))
  {
    var rules := EventRules();
    assert 0 < n ==> !Follows(e, rules[0]);
    assert 1 < n ==> !Follows(e, rules[1]);
    assert 2 < n ==> !Follows(e, rules[2]);
    assert 3 < n ==> !Follows(e, rules[3]);
    assert 4 < n ==> !Follows(e, rules[4]);
    assert 5 < n ==> !Follows(e, rules[5]);
  }

  lemma {:induction false} FirstRule(e: Event, n: nat) returns (k: nat)
    requires n < |EventRules()| && Follows(e, EventRules()[n])
    ensures k <= n && Follows(e, EventRules()[k]) && forall j :: 0 <= j < k ==> !Follows(e, EventRules()[j])
  {
    if j :| 0 <= j < n && Follows(e, EventRules()[j]) {
      k := FirstRule(e, j);
    } else {
      k := n;
    }
  }

  lemma NoRuleNoHit(e: Event)
    requires forall n :: 0 <= n < |EventRules()| ==> !Follows(e, EventRules()[n])
    ensures EventHit(e).None?
  {
    var rules := EventRules();
    assert !Follows(e, rules[0]) && !Follows(e, rules[1]) && !Follows(e, rules[2]) && !Follows(e, rules[3]);
    assert !Follows(e, rules[4]) && !Follows(e, rules[5]) && !Follows(e, rules[6]);
  }

  lemma EventHitExact(e: Event)
    ensures EventHit(e).Some? <==> EventSignals(e)
    ensures EventHit(e).Some? ==> Specific(EventHit(e).value)
  {
    if EventSignals(e) {
      var n :| 0 <= n < |EventRules()| && Follows(e, EventRules()[n]);
      var k := FirstRule(e, n);
      FirstRuleDecides(e, k);
    } else if !Stale(e) {
      NoRuleNoHit(e);
    }
  }

  /** A scan over namespaces answers exactly when some held item shows the signal, in any order. */
  lemma FirstHeld<T(!new)>(m: map<string, seq<T>>, order: seq<string>, hit: T -> Option<Classification>)
    requires Ranges(order, m)
    ensures First(Flat(m, order), hit).Some? <==> exists x :: Held(m, x) && hit(x).Some?
    ensures First(Flat(m, order), hit).Some? ==> exists x :: Held(m, x) && hit(x) == First(Flat(m, order), hit)
  {
    FirstExact(Flat(m, order), hit);
    forall x ensures x in Flat(m, order) <==> Held(m, x) {
      FlatHolds(m, order, x);
    }
  }

  lemma GatherHeld<T(!new)>(m: map<string, seq<T>>, order: seq<string>, lines: T -> seq<Evidence>)
    requires Ranges(order, m)
    ensures Gather(Flat(m, order), lines) != [] <==> exists x :: Held(m, x) && lines(x) != []
  {
    GatherNonEmpty(Flat(m, order), lines);
    forall x ensures x in Flat(m, order) <==> Held(m, x) {
      FlatHolds(m, order, x);
    }
  }

  lemma GatherExact<T(!new)>(xs: seq<T>, lines: T -> seq<Evidence>, uneasy: T -> bool)
    requires forall x :: lines(x) != [] <==> uneasy(x)
    ensures Gather(xs, lines) != [] <==> exists x :: x in xs && uneasy(x)
  {
    GatherNonEmpty(xs, lines);
  }

  // ---------------------------------------------------------------- layers

  lemma PodsLayer(r: Report, o: Order)
    requires Legal(r, o)
    ensures LayerAnswer(r, o, Pods).Some? <==> Signal(r, Pods)
    ensures LayerAnswer(r, o, Pods).Some? ==> Specific(LayerAnswer(r, o, Pods).value)
  {
    FirstHeld(r.pods, o.pods, PodHit);
    forall p ensures (PodHit(p).Some? <==> PodSignals(p)) && (PodHit(p).Some? ==> Specific(PodHit(p).value)) {
      PodHitExact(p);
    }
  }

  lemma EventsLayer(r: Report, o: Order)
    requires Legal(r, o)
    ensures LayerAnswer(r, o, Events).Some? <==> Signal(r, Events)
    ensures LayerAnswer(r, o, Events).Some? ==> Specific(LayerAnswer(r, o, Events).value)
  {
    FirstExact(r.events, EventHit);
    forall e ensures (EventHit(e).Some? <==> EventSignals(e)) && (EventHit(e).Some? ==> Specific(EventHit(e).value)) {
      EventHitExact(e);
    }
  }

  lemma QuotasLayer(r: Report, o: Order)
    requires Legal(r, o)
    ensures LayerAnswer(r, o, Quotas).Some? <==> Signal(r, Quotas)
    ensures var a := LayerAnswer(r, o, Quotas); a.Some? ==>
              && Specific(a.value)
              && a.value == Classification(Infrastructure, "quota-oom", CODE_QUOTA_OOM, a.value.evidence, High)
  {
    FirstHeld(r.quotas, o.quotas, QuotaHit);
  }

  lemma NodesLayer(r: Report, o: Order)
    requires Legal(r, o)
    ensures LayerAnswer(r, o, Nodes).Some? <==> Signal(r, Nodes)
    ensures LayerAnswer(r, o, Nodes).Some? ==> Specific(LayerAnswer(r, o, Nodes).value)
  {
    FirstExact(r.nodes, NodeHit);
  }

  lemma OperatorLayer(r: Report, o: Order)
    requires Legal(r, o)
    ensures LayerAnswer(r, o, Operator).Some? <==> Signal(r, Operator)
    ensures LayerAnswer(r, o, Operator).Some? ==> Specific(LayerAnswer(r, o, Operator).value)
  {
    FirstExact(r.operatorPods, OperatorPodHit);
    forall p
      ensures OperatorPodHit(p).Some? <==> OperatorPodSignals(p)
      ensures OperatorPodHit(p).Some? ==> Specific(OperatorPodHit(p).value)
    {
      OperatorPodHitExact(p);
    }
  }

  ghost predicate Vague(c: Classification) {
    c.category == Infrastructure && c.confidence == Low && c.evidence != [] && InRange(c)
  }

  lemma PodsInDistressLayer(r: Report, o: Order)
    requires Legal(r, o)
    ensures LayerAnswer(r, o, PodsInDistress).Some? <==> Signal(r, PodsInDistress)
    ensures LayerAnswer(r, o, PodsInDistress).Some? ==> Vague(LayerAnswer(r, o, PodsInDistress).value)
  {
    GatherHeld(r.pods, o.pods, PodDistress);
    forall p ensures PodDistress(p) != [] <==> PodUneasy(p) {
      PodDistressExact(p);
    }
  }

  lemma OperatorInDistressLayer(r: Report, o: Order)
    requires Legal(r, o)
    ensures LayerAnswer(r, o, OperatorInDistress).Some? <==> Signal(r, OperatorInDistress)
    ensures LayerAnswer(r, o, OperatorInDistress).Some? ==> Vague(LayerAnswer(r, o, OperatorInDistress).value)
  {
    forall p ensures OperatorPodDistress(p) != [] <==> OperatorPodUneasy(p) {
      OperatorPodDistressExact(p);
    }
    GatherExact(r.operatorPods, OperatorPodDistress, p => OperatorPodUneasy(p));
  }

  lemma UnreadyLayer(r: Report, o: Order)
    requires Legal(r, o)
    ensures LayerAnswer(r, o, Unready).Some? <==> Signal(r, Unready)
    ensures var a := LayerAnswer(r, o, Unready); a.Some? ==>
              && Vague(a.value)
              && a.value ==
                 Classification(Infrastructure, "cluster-distress", CODE_INFRA_UNKNOWN, a.value.evidence, Low)
  {
    FirstHeld(r.deployments, o.deployments, DeploymentHit);
  }

  /** Whether a layer answers does not depend on the order, nor does how sure it is. */
  lemma LayerExact(r: Report, o: Order, layer: Layer)
    requires Legal(r, o)
    ensures LayerAnswer(r, o, layer).Some? <==> Signal(r, layer)
    ensures LayerAnswer(r, o, layer).Some? && IsSpecific(layer) ==> Specific(LayerAnswer(r, o, layer).value)
    ensures LayerAnswer(r, o, layer).Some? && IsDistress(layer) ==> Vague(LayerAnswer(r, o, layer).value)
  {
    match layer
    case Pods => PodsLayer(r, o);
    case Events => EventsLayer(r, o);
    case Quotas => QuotasLayer(r, o);
    case Nodes => NodesLayer(r, o);
    case Operator => OperatorLayer(r, o);
    case Dsci =>
    case Dsc =>
    case PodsInDistress => PodsInDistressLayer(r, o);
    case OperatorInDistress => OperatorInDistressLayer(r, o);
    case Unready => UnreadyLayer(r, o);
    case Nothing =>
  }

  // ---------------------------------------------------------------- the answer

  /** The declared order of the layers. */
  function Rank(layer: Layer): nat {
    match layer
    case Pods => 0
    case Events => 1
    case Quotas => 2
    case Nodes => 3
    case Operator => 4
    case Dsci => 5
    case Dsc => 6
    case PodsInDistress => 7
    case OperatorInDistress => 8
    case Unready => 9
    case Nothing => 10
  }

  /** The first layer for which the report holds a signal. */
  ghost predicate Decides(r: Report, layer: Layer) {
    Signal(r, layer) && forall l :: Rank(l) < Rank(layer) ==> !Signal(r, l)
  }

  lemma Decider(r: Report) returns (layer: Layer)
    ensures Decides(r, layer)
  {
    layer := if Signal(r, Pods) then Pods else if Signal(r, Events) then Events else if Signal(r, Quotas) then Quotas
             else if Signal(r, Nodes) then Nodes else if Signal(r, Operator) then Operator
             else if Signal(r, Dsci) then Dsci
             else if Signal(r, Dsc) then Dsc else if Signal(r, PodsInDistress) then PodsInDistress
             else if Signal(r, OperatorInDistress) then OperatorInDistress
             else if Signal(r, Unready) then Unready else Nothing;
  }

  ghost function Specifics(answer: Layer -> Option<Classification>): Option<Classification> {
    OrElse(answer(Pods), OrElse(OrElse(answer(Events), OrElse(answer(Quotas), answer(Nodes))),
                         OrElse(answer(Operator), OrElse(answer(Dsci), answer(Dsc)))))
  }

  ghost function Distresses(answer: Layer -> Option<Classification>): Option<Classification> {
    OrElse(answer(PodsInDistress), OrElse(answer(OperatorInDistress), answer(Unready)))
  }

  ghost function Chain(answer: Layer -> Option<Classification>): Option<Classification> {
    OrElse(OrElse(Specifics(answer), Distresses(answer)), answer(Nothing))
  }

  ghost function Answers(r: Report, o: Order): Layer -> Option<Classification>
    requires Legal(r, o)
  {
    l => if Legal(r, o) then LayerAnswer(r, o, l) else None
  }

  lemma ChainTakesFirst(answer: Layer -> Option<Classification>, layer: Layer)
    requires answer(layer).Some? && forall l :: Rank(l) < Rank(layer) ==> answer(l).None?
    ensures Chain(answer) == answer(layer)
  {
    assert [Rank(Pods), Rank(Events), Rank(Quotas), Rank(Nodes), Rank(Operator), Rank(Dsci), Rank(Dsc),
            Rank(PodsInDistress), Rank(OperatorInDistress), Rank(Unready)] == [0, 1, 2, 3, 4, 5, 6, 7, 8, 9];
  }

  lemma SpecificsOf(r: Report, o: Order)
    requires Legal(r, o)
    ensures Specifics(Answers(r, o)) ==
            OrElse(PodsAnswer(r, o), OrElse(SectionsAnswer(r, o), OrElse(OperatorHit(r), ConditionsAnswer(r))))
  {
  }

  lemma DistressesOf(r: Report, o: Order)
    requires Legal(r, o)
    ensures Distresses(Answers(r, o)) == DistressAnswer(r, o)
  {
    PodsInDistressAnswer(r, o);
    OperatorInDistressAnswer(r, o);
    UnreadyLayerAnswer(r, o);
    ThreeDistresses(Answers(r, o), PodsDistress(r, o), OperatorDistress(r), UnreadyAnswer(r, o));
  }

  lemma ThreeDistresses(answer: Layer -> Option<Classification>, a: Option<Classification>, b: Option<Classification>,
                        c: Option<Classification>)
    requires answer(PodsInDistress) == a && answer(OperatorInDistress) == b && answer(Unready) == c
    ensures Distresses(answer) == OrElse(a, OrElse(b, c))
  {
  }

  lemma PodsInDistressAnswer(r: Report, o: Order)
    requires Legal(r, o)
    ensures Answers(r, o)(PodsInDistress) == PodsDistress(r, o)
  {
  }

  lemma OperatorInDistressAnswer(r: Report, o: Order)
    requires Legal(r, o)
    ensures Answers(r, o)(OperatorInDistress) == OperatorDistress(r)
  {
  }

  lemma UnreadyLayerAnswer(r: Report, o: Order)
    requires Legal(r, o)
    ensures Answers(r, o)(Unready) == UnreadyAnswer(r, o)
  {
  }

  lemma ClassifiedIsChain(r: Report, o: Order)
    requires Legal(r, o)
    ensures Chain(Answers(r, o)) == Some(Classified(r, o))
  {
    SpecificsOf(r, o);
    DistressesOf(r, o);
  }

  /** The answer is that of the first layer, in the declared order, that has any signal, whatever the map order. */
  lemma FirstSignalDecides(r: Report, o: Order, layer: Layer)
    requires Legal(r, o) && Decides(r, layer)
    ensures LayerAnswer(r, o, layer) == Some(Classified(r, o))
  {
    forall l ensures LayerAnswer(r, o, l).Some? <==> Signal(r, l) {
      LayerExact(r, o, l);
    }
    ClassifiedIsChain(r, o);
    ChainTakesFirst(Answers(r, o), layer);
  }

  /** The code is in the category's range, and there is always evidence. */
  lemma CodeAndEvidence(r: Report, o: Order)
    requires Legal(r, o)
    ensures InRange(Classified(r, o)) && Classified(r, o).evidence != []
    ensures Classified(r, o).category != Test
  {
    var layer := Decider(r);
    FirstSignalDecides(r, o, layer);
    LayerExact(r, o, layer);
  }

  /** A low-confidence infrastructure answer exactly when no specific signal exists anywhere but some distress does. */
  lemma LowConfidenceExact(r: Report, o: Order)
    requires Legal(r, o)
    ensures Classified(r, o).category == Infrastructure && Classified(r, o).confidence == Low <==>
            (forall l :: IsSpecific(l) ==> !Signal(r, l)) && exists l :: IsDistress(l) && Signal(r, l)
  {
    var layer := Decider(r);
    LowWhenDistressDecides(r, o, layer);
    DistressDecides(r, layer);
  }

  lemma LowWhenDistressDecides(r: Report, o: Order, layer: Layer)
    requires Legal(r, o) && Decides(r, layer)
    ensures Classified(r, o).category == Infrastructure && Classified(r, o).confidence == Low <==> IsDistress(layer)
  {
    FirstSignalDecides(r, o, layer);
    LayerExact(r, o, layer);
  }

  lemma DistressDecides(r: Report, layer: Layer)
    requires Decides(r, layer)
    ensures IsDistress(layer) <==>
            (forall l :: IsSpecific(l) ==> !Signal(r, l)) && exists l :: IsDistress(l) && Signal(r, l)
  {
    assert forall l :: IsSpecific(l) <==> Rank(l) < 7;
    assert forall l :: IsDistress(l) <==> 7 <= Rank(l) < 10;
  }

  // ---------------------------------------------------------------- what the order can change

  /** Takes the first key of one order out of the other. */
  lemma SameKeys(a: seq<string>, b: seq<string>) returns (left: seq<string>, right: seq<string>)
    requires NoDuplicates(a) && NoDuplicates(b) && a != [] && forall k :: k in a <==> k in b
    ensures b == left + [a[0]] + right && NoDuplicates(left + right)
    ensures forall x :: x in a[1..] <==> x in left + right
  {
    var k := a[0];
    assert k in a && k in b;
    var j :| 0 <= j < |b| && b[j] == k;
    left, right := b[..j], b[j + 1..];
    assert a == [k] + a[1..];
    forall x ensures x in a[1..] <==> x in left + right {
      if x in a[1..] {
        assert x in a && x in b && x != k;
      }
      if x in left + right {
        assert x in b && x in a && x != k;
      }
    }
  }

  lemma {:induction false} GatherPermuted<T>(m: map<string, seq<T>>, a: seq<string>, b: seq<string>,
                                             lines: T -> seq<Evidence>)
    requires NoDuplicates(a) && NoDuplicates(b)
    requires (forall k :: k in a <==> k in b) && forall k :: k in a ==> k in m
    ensures multiset(Gather(Flat(m, a), lines)) == multiset(Gather(Flat(m, b), lines))
    decreases |a|
  {
    assert b == [] || b[0] in b;
    if a != [] {
      var k := a[0];
      var left, right := SameKeys(a, b);
      GatherPermuted(m, a[1..], left + right, lines);
      FlatAppend(m, left + [k], right);
      FlatAppend(m, left, [k]);
      FlatAppend(m, left, right);
      FlatOne(m, k);
      GatherAppend(m[k], Flat(m, a[1..]), lines);
      GatherAppend(Flat(m, left) + m[k], Flat(m, right), lines);
      GatherAppend(Flat(m, left), m[k], lines);
      GatherAppend(Flat(m, left), Flat(m, right), lines);
    }
  }

  /**
   The map order never changes the category; it changes the rest of the verdict only when pods decide,
   and the evidence only where the deciding layer ranges over a map; deferred pod evidence is only permuted.
   */
  lemma OrderIndependence(r: Report, a: Order, b: Order, layer: Layer)
    requires Legal(r, a) && Legal(r, b) && Decides(r, layer)
    ensures var x, y := Classified(r, a), Classified(r, b);
            && x.category == y.category
            && (layer != Pods ==> x == y.(evidence := x.evidence))
            && (layer !in {Pods, Quotas, PodsInDistress, Unready} ==> x == y)
            && (layer == PodsInDistress ==> multiset(x.evidence) == multiset(y.evidence))
  {
    FirstSignalDecides(r, a, layer);
    FirstSignalDecides(r, b, layer);
    match layer
    case Pods =>
      PodsLayer(r, a);
      PodsLayer(r, b);
    case Quotas =>
      QuotasLayer(r, a);
      QuotasLayer(r, b);
    case PodsInDistress =>
      GatherPermuted(r.pods, a.pods, b.pods, PodDistress);
    case Unready =>
      UnreadyLayer(r, a);
      UnreadyLayer(r, b);
    case _ =>
  }

  /** A layer that ranges over namespaces can give exactly the first verdicts of the single namespaces. */
  lemma PossibleAnswersExact<T>(m: map<string, seq<T>>, hit: T -> Option<Classification>, c: Classification)
    ensures (exists order :: Ranges(order, m) && First(Flat(m, order), hit) == Some(c)) <==>
            (exists ns :: ns in m && First(m[ns], hit) == Some(c))
  {
    if exists order :: Ranges(order, m) && First(Flat(m, order), hit) == Some(c) {
      var order :| Ranges(order, m) && First(Flat(m, order), hit) == Some(c);
      AnsweringNamespace(m, order, hit, c);
    }
    if exists ns :: ns in m && First(m[ns], hit) == Some(c) {
      var ns :| ns in m && First(m[ns], hit) == Some(c);
      var order, rest := Complete(m, [ns]);
      assert [] + [ns] == [ns];
      EarliestNamespace(m, [], ns, rest, hit);
    }
  }

  lemma {:induction false} AnsweringNamespace<T>(m: map<string, seq<T>>, order: seq<string>,
                                                 hit: T -> Option<Classification>, c: Classification)
    requires (forall k :: k in order ==> k in m) && First(Flat(m, order), hit) == Some(c)
    ensures exists ns :: ns in m && First(m[ns], hit) == Some(c)
    decreases |order|
  {
    assert order != [];
    assert order[0] in order;
    FirstAppend(m[order[0]], Flat(m, order[1..]), hit);
    if First(m[order[0]], hit).None? {
      AnsweringNamespace(m, order[1..], hit, c);
    }
  }

  /** The namespaces that answer give the same verdict first. */
  ghost predicate Unanimous(m: map<string, seq<Pod>>) {
    forall x, y :: x in m && y in m && First(m[x], PodHit).Some? && First(m[y], PodHit).Some? ==>
             First(m[x], PodHit) == First(m[y], PodHit)
  }

  lemma SomeOrder(r: Report, pods: seq<string>) returns (o: Order)
    requires Ranges(pods, r.pods)
    ensures Legal(r, o) && o.pods == pods
  {
    var quotas := Enumeration(r.quotas.Keys);
    var deployments := Enumeration(r.deployments.Keys);
    o := Order(pods, quotas, deployments);
  }

  /** The answer that one namespace's pods give is the answer in some order. */
  lemma NamespaceCanDecide(r: Report, ns: string) returns (o: Order)
    requires Decides(r, Pods) && ns in r.pods && First(r.pods[ns], PodHit).Some?
    ensures Legal(r, o) && Some(Classified(r, o)) == First(r.pods[ns], PodHit)
  {
    var c := First(r.pods[ns], PodHit).value;
    PossibleAnswersExact(r.pods, PodHit, c);
    var pods :| Ranges(pods, r.pods) && First(Flat(r.pods, pods), PodHit) == Some(c);
    o := SomeOrder(r, pods);
    FirstSignalDecides(r, o, Pods);
  }

  lemma SomeNamespaceDecides(r: Report, o: Order) returns (ns: string)
    requires Decides(r, Pods) && Legal(r, o)
    ensures ns in r.pods && First(r.pods[ns], PodHit) == Some(Classified(r, o))
  {
    FirstSignalDecides(r, o, Pods);
    PossibleAnswersExact(r.pods, PodHit, Classified(r, o));
    assert Ranges(o.pods, r.pods) && First(Flat(r.pods, o.pods), PodHit) == Some(Classified(r, o));
    ns :| ns in r.pods && First(r.pods[ns], PodHit) == Some(Classified(r, o));
  }

  /** When pods decide, the answer is the same in every order exactly when all namespaces that answer agree. */
  lemma PodOrderMattersExact(r: Report)
    requires Decides(r, Pods)
    ensures (forall a, b :: Legal(r, a) && Legal(r, b) ==> Classified(r, a) == Classified(r, b)) <==> Unanimous(r.pods)
  {
    if Unanimous(r.pods) {
      forall a, b | Legal(r, a) && Legal(r, b) ensures Classified(r, a) == Classified(r, b) {
        var x := SomeNamespaceDecides(r, a);
        var y := SomeNamespaceDecides(r, b);
      }
    } else {
      var x, y :| x in r.pods && y in r.pods && First(r.pods[x], PodHit).Some? && First(r.pods[y], PodHit).Some? &&
                  First(r.pods[x], PodHit) != First(r.pods[y], PodHit);
      var a := NamespaceCanDecide(r, x);
      var b := NamespaceCanDecide(r, y);
    }
  }

  /** A pod that is stuck, next to one whose image cannot be pulled. */
  lemma TwoVerdicts(pending: Pod, pulling: Pod)
    requires pending == Pod("p", "Pending", Some(2 * PENDING_THRESHOLD), [])
    requires pulling == Pod("q", "Pending", None, [Container("c", "ImagePullBackOff", "")])
    ensures PodHit(pending).Some? && PodHit(pending).value.code == CODE_POD_STARTUP
    ensures PodHit(pulling).Some? && PodHit(pulling).value.code == CODE_IMAGE_PULL
  {
    var c := Container("c", "ImagePullBackOff", "");
    assert WAITING_PATTERNS[0].text == c.waiting;
    assert HasPrefix(ToLower(c.waiting), ToLower(c.waiting));
    assert MatchesPattern(c.waiting, WAITING_PATTERNS) == Some(WAITING_PATTERNS[0]);
    var f := c => ContainerHit(pulling, c);
    assert pulling.containers[0] == c && f(c).Some?;
  }

  /** A report on which two orders of the same namespaces give different codes. */
  lemma OrderCanChangeTheCode(r: Report) returns (a: Order, b: Order)
    requires r.pods == map["n" := [Pod("p", "Pending", Some(2 * PENDING_THRESHOLD), [])],
                           "m" := [Pod("q", "Pending", None, [Container("c", "ImagePullBackOff", "")])]]
    ensures Legal(r, a) && Legal(r, b) && Classified(r, a).code == CODE_POD_STARTUP &&
            Classified(r, b).code == CODE_IMAGE_PULL
  {
    var pending, pulling := Pod("p", "Pending", Some(2 * PENDING_THRESHOLD), []),
      Pod("q", "Pending", None, [Container("c", "ImagePullBackOff", "")]);
    TwoVerdicts(pending, pulling);
    assert r.pods["n"] == [pending] && r.pods["m"] == [pulling];
    assert Held(r.pods, pending) by {
      assert pending in r.pods["n"];
    }
    PodHitExact(pending);
    assert Decides(r, Pods);
    a := NamespaceCanDecide(r, "n");
    b := NamespaceCanDecide(r, "m");
  }

  /** A pod is judged by its first container with a known trouble, and by its phase only if there is none. */
  lemma PodHitPriority(p: Pod, i: nat)
    requires i < |p.containers| && ContainerHit(p, p.containers[i]).Some?
    requires forall j :: 0 <= j < i ==> ContainerHit(p, p.containers[j]).None?
    ensures PodHit(p) == ContainerHit(p, p.containers[i])
  {
    FirstAtIndex(p.containers, c => ContainerHit(p, c), i);
  }

  lemma PodPhaseLast(p: Pod)
    requires forall j :: 0 <= j < |p.containers| ==> ContainerHit(p, p.containers[j]).None?
    ensures PodHit(p) == PendingHit(p)
  {
    FirstExact(p.containers, c => ContainerHit(p, c));
  }

  lemma {:induction false} FirstAtIndex<T>(xs: seq<T>, hit: T -> Option<Classification>, i: nat)
    requires i < |xs| && hit(xs[i]).Some? && forall j :: 0 <= j < i ==> hit(xs[j]).None?
    ensures First(xs, hit) == hit(xs[i])
    decreases i
  {
    if i > 0 {
      assert xs[1..][i - 1] == xs[i];
      assert forall j :: 0 <= j < i - 1 ==> xs[1..][j] == xs[j + 1];
      FirstAtIndex(xs[1..], hit, i - 1);
    }
  }

  /** A pod that is pending because its image cannot be pulled is an image-pull failure. */
  lemma ImagePullBeatsPending(p: Pod)
    requires p == Pod("q", "Pending", Some(2 * PENDING_THRESHOLD), [Container("c", "ImagePullBackOff", "")])
    ensures PodHit(p).Some? && PodHit(p).value.code == 1001 && PodHit(p).value.subcategory == "image-pull"
  {
    var c := p.containers[0];
    assert WAITING_PATTERNS[0].text == c.waiting;
    assert HasPrefix(ToLower(c.waiting), ToLower(c.waiting));
    assert MatchesPattern(c.waiting, WAITING_PATTERNS) == Some(WAITING_PATTERNS[0]);
    PodHitPriority(p, 0);
  }

  /** What the layers without patterns say, by name, code and confidence. */
  lemma LayerVerdicts(r: Report, o: Order)
    requires Legal(r, o)
    ensures Says(LayerAnswer(r, o, Quotas), "quota-oom", 1004, High)
    ensures Says(LayerAnswer(r, o, Nodes), "node-pressure", 1005, High)
    ensures Says(LayerAnswer(r, o, Operator), "operator", 1008, High)
    ensures Says(LayerAnswer(r, o, Dsci), "dsci-unhealthy", 1009, Medium)
    ensures Says(LayerAnswer(r, o, Dsc), "dsc-unhealthy", 1010, Medium)
    ensures Says(LayerAnswer(r, o, PodsInDistress), "cluster-distress", 1099, Low)
    ensures Says(LayerAnswer(r, o, OperatorInDistress), "operator", 1008, Low)
    ensures Says(LayerAnswer(r, o, Unready), "cluster-distress", 1099, Low)
    ensures LayerAnswer(r, o, Nothing) ==
            Some(if r.otherSectionsOk && r.dsci.error == "" && r.dsc.error == ""
                 then Classification(Unknown, "no-signal", 3001, [NothingMatched], Low)
                 else Classification(Unknown, "unclassifiable", 3000, [NoRule], Low))
  {
    QuotasLayer(r, o);
    NodesSay(r, o);
    OperatorSays(r, o);
    UnreadyLayer(r, o);
  }

  ghost predicate Says(answer: Option<Classification>, subcategory: string, code: int, confidence: Confidence) {
    answer.Some? ==>
      answer.value == Classification(Infrastructure, subcategory, code, answer.value.evidence, confidence)
  }

  lemma NodesSay(r: Report, o: Order)
    requires Legal(r, o)
    ensures Says(LayerAnswer(r, o, Nodes), "node-pressure", 1005, High)
  {
    FirstExact(r.nodes, NodeHit);
  }

  lemma OperatorPodSays(p: Pod)
    ensures Says(OperatorPodHit(p), "operator", 1008, High)
  {
    FirstExact(p.containers, c => OperatorContainerHit(p, c));
  }

  lemma OperatorSays(r: Report, o: Order)
    requires Legal(r, o)
    ensures Says(LayerAnswer(r, o, Operator), "operator", 1008, High)
  {
    FirstExact(r.operatorPods, OperatorPodHit);
    forall p ensures Says(OperatorPodHit(p), "operator", 1008, High) {
      OperatorPodSays(p);
    }
  }

  /** The operator is judged by its deployment, then by its first pod in trouble; a pod by its phase first. */
  lemma OperatorPriority(r: Report, p: Pod)
    ensures OperatorDeploymentHit(r.operatorDeployment).Some? ==>
              OperatorHit(r) == OperatorDeploymentHit(r.operatorDeployment)
    ensures OperatorDeploymentHit(r.operatorDeployment).None? ==>
              OperatorHit(r) == First(r.operatorPods, OperatorPodHit)
    ensures OperatorPhaseHit(p).Some? ==> OperatorPodHit(p) == OperatorPhaseHit(p)
  {
  }
}
