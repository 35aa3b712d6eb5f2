/** The prioritised classifier over a health report (pkg/failureclassifier/classifier.go). */
module FailureClassifier {
  import opened Common
  import opened Text
  import opened FailureSignals

  // ---------------------------------------------------------------- scanning

  /** The verdict of the first item that has one. */
  function First<T>(xs: seq<T>, hit: T -> Option<Classification>): Option<Classification>
    decreases |xs|
  {
    if xs == [] then None else if hit(xs[0]).Some? then hit(xs[0]) else First(xs[1..], hit)
  }

  function Gather<T>(xs: seq<T>, lines: T -> seq<Evidence>): seq<Evidence>
    decreases |xs|
  {
    if xs == [] then [] else lines(xs[0]) + Gather(xs[1..], lines)
  }

  lemma {:induction false} FirstAppend<T>(xs: seq<T>, ys: seq<T>, hit: T -> Option<Classification>)
    ensures First(xs + ys, hit) == if First(xs, hit).Some? then First(xs, hit) else First(ys, hit)
    decreases |xs|
  {
    if xs == [] {
      assert xs + ys == ys;
    } else {
      assert (xs + ys)[1..] == xs[1..] + ys;
      FirstAppend(xs[1..], ys, hit);
    }
  }

  lemma {:induction false} FirstExact<T>(xs: seq<T>, hit: T -> Option<Classification>)
    ensures First(xs, hit).Some? <==> exists x :: x in xs && hit(x).Some?
    ensures First(xs, hit).Some? ==> exists x :: x in xs && hit(x) == First(xs, hit)
    decreases |xs|
  {
    if xs != [] {
      FirstExact(xs[1..], hit);
      assert xs == [xs[0]] + xs[1..];
      assert xs[0] in xs;
    }
  }

  lemma {:induction false} GatherAppend<T>(xs: seq<T>, ys: seq<T>, lines: T -> seq<Evidence>)
    ensures Gather(xs + ys, lines) == Gather(xs, lines) + Gather(ys, lines)
    decreases |xs|
  {
    if xs == [] {
      assert xs + ys == ys;
    } else {
      assert (xs + ys)[1..] == xs[1..] + ys;
      GatherAppend(xs[1..], ys, lines);
    }
  }

  /** One more item of a scan. */
  lemma ScanStep<T>(xs: seq<T>, i: nat, hit: T -> Option<Classification>, lines: T -> seq<Evidence>)
    requires i < |xs|
    ensures First(xs[i..], hit) == if hit(xs[i]).Some? then hit(xs[i]) else First(xs[i + 1..], hit)
    ensures Gather(xs[..i + 1], lines) == Gather(xs[..i], lines) + lines(xs[i])
  {
    assert xs[i..][1..] == xs[i + 1..];
    assert xs[..i + 1] == xs[..i] + [xs[i]];
    GatherAppend(xs[..i], [xs[i]], lines);
    assert [xs[i]][1..] == [];
    assert Gather([xs[i]], lines) == lines(xs[i]);
  }

  lemma ScanEnds<T>(xs: seq<T>, hit: T -> Option<Classification>, lines: T -> seq<Evidence>)
    ensures First(xs[0..], hit) == First(xs, hit) && First(xs[|xs|..], hit) == None
    ensures Gather(xs[..0], lines) == [] && Gather(xs[..|xs|], lines) == Gather(xs, lines)
  {
    assert xs[0..] == xs && xs[..|xs|] == xs && xs[..0] == [];
  }

  lemma {:induction false} GatherNonEmpty<T>(xs: seq<T>, lines: T -> seq<Evidence>)
    ensures Gather(xs, lines) != [] <==> exists x :: x in xs && lines(x) != []
    decreases |xs|
  {
    if xs != [] {
      GatherNonEmpty(xs[1..], lines);
      assert xs == [xs[0]] + xs[1..];
    }
  }

  /** The items of all namespaces, in the order in which the namespaces are ranged over. */
  function Flat<T>(m: map<string, seq<T>>, order: seq<string>): seq<T>
    requires forall k :: k in order ==> k in m
    decreases |order|
  {
    if order == [] then [] else assert order[0] in order; m[order[0]] + Flat(m, order[1..])
  }

  lemma {:induction false} FlatAppend<T>(m: map<string, seq<T>>, a: seq<string>, b: seq<string>)
    requires (forall k :: k in a ==> k in m) && (forall k :: k in b ==> k in m)
    ensures Flat(m, a + b) == Flat(m, a) + Flat(m, b)
    decreases |a|
  {
    if a == [] {
      assert a + b == b;
    } else {
      assert a[0] in a;
      assert (a + b)[1..] == a[1..] + b;
      FlatAppend(m, a[1..], b);
    }
  }

  lemma FlatOne<T>(m: map<string, seq<T>>, k: string)
    requires k in m
    ensures Flat(m, [k]) == m[k]
  {
    assert [k][1..] == [];
  }

  lemma FlatStep<T>(m: map<string, seq<T>>, order: seq<string>, i: nat)
    requires i < |order| && forall k :: k in order ==> k in m
    ensures order[i] in order && Flat(m, order[i..]) == m[order[i]] + Flat(m, order[i + 1..])
    ensures Flat(m, order[..i + 1]) == Flat(m, order[..i]) + m[order[i]]
  {
    assert order[i] in order;
    assert order[i..][1..] == order[i + 1..];
    assert order[..i + 1] == order[..i] + [order[i]];
    FlatAppend(m, order[..i], [order[i]]);
    FlatOne(m, order[i]);
  }

  lemma FlatEnds<T>(m: map<string, seq<T>>, order: seq<string>)
    requires forall k :: k in order ==> k in m
    ensures Flat(m, order[0..]) == Flat(m, order) == Flat(m, order[..|order|])
    ensures Flat(m, order[|order|..]) == [] == Flat(m, order[..0])
  {
    assert order[0..] == order == order[..|order|];
  }

  lemma {:induction false} FlatMembers<T>(m: map<string, seq<T>>, order: seq<string>, x: T)
    requires forall k :: k in order ==> k in m
    ensures x in Flat(m, order) <==> exists k :: k in order && x in m[k]
    decreases |order|
  {
    if order != [] {
      assert order == [order[0]] + order[1..];
      FlatMembers(m, order[1..], x);
    }
  }

  ghost predicate Held<T>(m: map<string, seq<T>>, x: T) {
    exists k :: k in m && x in m[k]
  }

  lemma FlatHolds<T>(m: map<string, seq<T>>, order: seq<string>, x: T)
    requires Ranges(order, m)
    ensures x in Flat(m, order) <==> Held(m, x)
  {
    FlatMembers(m, order, x);
    if Held(m, x) {
      var k :| k in m && x in m[k];
      assert k in order;
    }
  }

  /** Completes a partial order over the map. */
  lemma Complete<T>(m: map<string, seq<T>>, seen: seq<string>) returns (order: seq<string>, rest: seq<string>)
    requires NoDuplicates(seen) && forall k :: k in seen ==> k in m
    ensures Ranges(order, m) && order == seen + rest
  {
    rest := Enumeration(m.Keys - set k | k in seen);
    order := seen + rest;
    forall i, j | 0 <= i < j < |order| ensures order[i] != order[j] {
      if i < |seen| <= j {
        assert order[i] in seen && order[j] == rest[j - |seen|] && order[j] in rest;
      }
    }
  }

  /** What stands first in the order decides. */
  lemma EarliestNamespace<T>(m: map<string, seq<T>>, seen: seq<string>, ns: string, rest: seq<string>,
                             hit: T -> Option<Classification>)
    requires (forall k :: k in seen ==> k in m) && ns in m && (forall k :: k in rest ==> k in m)
    requires First(Flat(m, seen), hit).None? && First(m[ns], hit).Some?
    ensures First(Flat(m, seen + [ns] + rest), hit) == First(m[ns], hit)
  {
    FlatAppend(m, seen + [ns], rest);
    FlatAppend(m, seen, [ns]);
    FlatOne(m, ns);
    FirstAppend(Flat(m, seen) + m[ns], Flat(m, rest), hit);
    FirstAppend(Flat(m, seen), m[ns], hit);
  }

  // ---------------------------------------------------------------- the layers as functions of the order

  function PodHit(p: Pod): Option<Classification> {
    var hit := First(p.containers, c => ContainerHit(p, c));
    if hit.Some? then hit else PendingHit(p)
  }

  function PodDistress(p: Pod): seq<Evidence> {
    Gather(p.containers, c => ContainerDistress(p, c))
  }

  function Deferred(subcategory: string, code: int, evidence: seq<Evidence>): Option<Classification> {
    if evidence == [] then None else Some(Classification(Infrastructure, subcategory, code, evidence, Low))
  }

  function PodsDeferred(evidence: seq<Evidence>): Option<Classification> {
    Deferred("cluster-distress", CODE_INFRA_UNKNOWN, evidence)
  }

  function OperatorDeferred(evidence: seq<Evidence>): Option<Classification> {
    Deferred("operator", CODE_OPERATOR, evidence)
  }

  function OperatorPodHit(p: Pod): Option<Classification> {
    var phase := OperatorPhaseHit(p);
    if phase.Some? then phase else First(p.containers, c => OperatorContainerHit(p, c))
  }

  function OperatorPodDistress(p: Pod): seq<Evidence> {
    Gather(p.containers, c => OperatorContainerDistress(p, c))
  }

  function OperatorHit(r: Report): Option<Classification> {
    var hit := OperatorDeploymentHit(r.operatorDeployment);
    if hit.Some? then hit else First(r.operatorPods, OperatorPodHit)
  }

  /** Orders in which the three namespace maps are ranged over. */
  datatype Order = Order(pods: seq<string>, quotas: seq<string>, deployments: seq<string>)

  ghost predicate Legal(r: Report, o: Order) {
    Ranges(o.pods, r.pods) && Ranges(o.quotas, r.quotas) && Ranges(o.deployments, r.deployments)
  }

  /** The first layer to have an answer gives it. */
  datatype Layer =
    | Pods | Events | Quotas | Nodes | Operator | Dsci | Dsc
    | PodsInDistress | OperatorInDistress | Unready
    | Nothing

  function Unclassifiable(): Classification {
    Classification(Unknown, "unclassifiable", CODE_UNCLASSIFIABLE, [NoRule], Low)
  }

  function NoSignal(): Classification {
    Classification(Unknown, "no-signal", CODE_NO_SIGNAL, [NothingMatched], Low)
  }

  ghost function PodsAnswer(r: Report, o: Order): Option<Classification>
    requires Legal(r, o)
  {
    First(Flat(r.pods, o.pods), PodHit)
  }

  ghost function QuotasAnswer(r: Report, o: Order): Option<Classification>
    requires Legal(r, o)
  {
    First(Flat(r.quotas, o.quotas), QuotaHit)
  }

  ghost function PodsDistress(r: Report, o: Order): Option<Classification>
    requires Legal(r, o)
  {
    PodsDeferred(Gather(Flat(r.pods, o.pods), PodDistress))
  }

  ghost function OperatorDistress(r: Report): Option<Classification> {
    OperatorDeferred(Gather(r.operatorPods, OperatorPodDistress))
  }

  ghost function UnreadyAnswer(r: Report, o: Order): Option<Classification>
    requires Legal(r, o)
  {
    First(Flat(r.deployments, o.deployments), DeploymentHit)
  }

  ghost function LayerAnswer(r: Report, o: Order, layer: Layer): Option<Classification>
    requires Legal(r, o)
  {
    match layer
    case Pods => PodsAnswer(r, o)
    case Events => First(r.events, EventHit)
    case Quotas => QuotasAnswer(r, o)
    case Nodes => First(r.nodes, NodeHit)
    case Operator => OperatorHit(r)
    case Dsci => CrHit("DSCI", "dsci-unhealthy", r.dsci, CODE_DSCI)
    case Dsc => CrHit("DSC", "dsc-unhealthy", r.dsc, CODE_DSC)
    case PodsInDistress => PodsDistress(r, o)
    case OperatorInDistress => OperatorDistress(r)
    case Unready => UnreadyAnswer(r, o)
    case Nothing => Some(if Healthy(r) then NoSignal() else Unclassifiable())
  }

  // ---------------------------------------------------------------- the layers as loops

  method FirstIn<T>(xs: seq<T>, hit: T -> Option<Classification>) returns (r: Option<Classification>)
    ensures r == First(xs, hit)
  {
    for i := 0 to |xs|
      invariant First(xs, hit) == First(xs[i..], hit)
    {
      var h := hit(xs[i]);
      if h.Some? {
        return h;
      }
      assert xs[i..][1..] == xs[i + 1..];
    }
    return None;
  }

  /** Namespaces in the given order, the items of each in theirs. */
  method FirstInNamespaces<T>(m: map<string, seq<T>>, order: seq<string>, hit: T -> Option<Classification>)
    returns (r: Option<Classification>)
    requires Ranges(order, m)
    ensures r == First(Flat(m, order), hit)
  {
    FlatEnds(m, order);
    for i := 0 to |order|
      invariant First(Flat(m, order), hit) == First(Flat(m, order[i..]), hit)
    {
      FlatStep(m, order, i);
      FirstAppend(m[order[i]], Flat(m, order[i + 1..]), hit);
      r := FirstIn(m[order[i]], hit);
      if r.Some? {
        return;
      }
    }
    return None;
  }

  /** A container is noted at most once here, an operator container possibly twice. */
  method Note(distress: Option<Classification>, subcategory: string, code: int, lines: seq<Evidence>,
              ghost before: seq<Evidence>)
    returns (r: Option<Classification>)
    requires distress == Deferred(subcategory, code, before)
    ensures r == Deferred(subcategory, code, before + lines)
  {
    r := distress;
    assert before + [] == before;
    if lines != [] {
      if r.None? {
        r := Some(Classification(Infrastructure, subcategory, code, [], Low));
      }
      r := Some(r.value.(evidence := r.value.evidence + lines));
      assert before == [] ==> before + lines == lines;
    }
  }

  /** Items in order: the first verdict, or every line of distress added to what was noted before. */
  method Scan<T>(xs: seq<T>, hit: T -> Option<Classification>, lines: T -> seq<Evidence>, subcategory: string,
                 code: int, distress: Option<Classification>, ghost before: seq<Evidence>)
    returns (h: Option<Classification>, distress': Option<Classification>)
    requires distress == Deferred(subcategory, code, before)
    ensures h == First(xs, hit)
    ensures h.None? ==> distress' == Deferred(subcategory, code, before + Gather(xs, lines))
  {
    distress' := distress;
    ghost var noted := before;
    ScanEnds(xs, hit, lines);
    for i := 0 to |xs|
      invariant First(xs, hit) == First(xs[i..], hit)
      invariant noted == before + Gather(xs[..i], lines) && distress' == Deferred(subcategory, code, noted)
    {
      ScanStep(xs, i, hit, lines);
      h := hit(xs[i]);
      if h.Some? {
        return;
      }
      distress' := Note(distress', subcategory, code, lines(xs[i]), noted);
      noted := noted + lines(xs[i]);
    }
    h := None;
  }

  /** classifyFromPods: a specific result at once, or all the distress there is. */
  method ClassifyFromPods(r: Report, order: seq<string>)
    returns (hit: Option<Classification>, distress: Option<Classification>)
    requires Ranges(order, r.pods)
    ensures hit == First(Flat(r.pods, order), PodHit)
    ensures hit.None? ==> distress == PodsDeferred(Gather(Flat(r.pods, order), PodDistress))
  {
    distress := None;
    FlatEnds(r.pods, order);
    for i := 0 to |order|
      invariant First(Flat(r.pods, order), PodHit) == First(Flat(r.pods, order[i..]), PodHit)
      invariant distress == PodsDeferred(Gather(Flat(r.pods, order[..i]), PodDistress))
    {
      FlatStep(r.pods, order, i);
      var pods := r.pods[order[i]];
      FirstAppend(pods, Flat(r.pods, order[i + 1..]), PodHit);
      GatherAppend(Flat(r.pods, order[..i]), pods, PodDistress);
      hit, distress := Scan(pods, PodHit, PodDistress, "cluster-distress", CODE_INFRA_UNKNOWN, distress,
                            Gather(Flat(r.pods, order[..i]), PodDistress));
      if hit.Some? {
        return;
      }
    }
    hit := None;
  }

  /** classifyFromOperator. */
  method ClassifyFromOperator(r: Report) returns (hit: Option<Classification>, distress: Option<Classification>)
    ensures hit == OperatorHit(r)
    ensures hit.None? ==> distress == OperatorDeferred(Gather(r.operatorPods, OperatorPodDistress))
  {
    distress := None;
    hit := OperatorDeploymentHit(r.operatorDeployment);
    if hit.Some? {
      return;
    }
    hit, distress := Scan(r.operatorPods, OperatorPodHit, OperatorPodDistress, "operator", CODE_OPERATOR, distress, []);
    assert [] + Gather(r.operatorPods, OperatorPodDistress) == Gather(r.operatorPods, OperatorPodDistress);
  }

  function OrElse(a: Option<Classification>, b: Option<Classification>): Option<Classification> {
    if a.Some? then a else b
  }

  ghost function Classified(r: Report, o: Order): Classification
    requires Legal(r, o)
  {
    var specific := OrElse(PodsAnswer(r, o), OrElse(SectionsAnswer(r, o), OrElse(OperatorHit(r), ConditionsAnswer(r))));
    var answer := OrElse(specific, DistressAnswer(r, o));
    if answer.Some? then answer.value else if Healthy(r) then NoSignal() else Unclassifiable()
  }

  ghost function SectionsAnswer(r: Report, o: Order): Option<Classification>
    requires Legal(r, o)
  {
    OrElse(First(r.events, EventHit), OrElse(QuotasAnswer(r, o), First(r.nodes, NodeHit)))
  }

  ghost function ConditionsAnswer(r: Report): Option<Classification> {
    OrElse(CrHit("DSCI", "dsci-unhealthy", r.dsci, CODE_DSCI), CrHit("DSC", "dsc-unhealthy", r.dsc, CODE_DSC))
  }

  ghost function DistressAnswer(r: Report, o: Order): Option<Classification>
    requires Legal(r, o)
  {
    OrElse(PodsDistress(r, o), OrElse(OperatorDistress(r), UnreadyAnswer(r, o)))
  }

  /** Events, quotas and nodes, in this order. */
  method ClassifyFromSections(r: Report, o: Order) returns (fc: Option<Classification>)
    requires Legal(r, o)
    ensures fc == SectionsAnswer(r, o)
  {
    fc := FirstIn(r.events, EventHit);
    if fc.Some? {
      return;
    }
    fc := FirstInNamespaces(r.quotas, o.quotas, QuotaHit);
    if fc.Some? {
      return;
    }
    fc := FirstIn(r.nodes, NodeHit);
  }

  /** The two custom resources. */
  method ClassifyFromConditions(r: Report) returns (fc: Option<Classification>)
    ensures fc == ConditionsAnswer(r)
  {
    fc := CrHit("DSCI", "dsci-unhealthy", r.dsci, CODE_DSCI);
    if fc.Some? {
      return;
    }
    fc := CrHit("DSC", "dsc-unhealthy", r.dsc, CODE_DSC);
  }

  /** Classify. A nil report is None; `o` is the order in which this call meets the namespaces. */
  method Classify(report: Option<Report>, o: Order) returns (c: Classification)
    requires report.Some? ==> Legal(report.value, o)
    ensures c == if report.None? then Unclassifiable() else Classified(report.value, o)
  {
    if report.None? {
      return Unclassifiable();
    }
    var r := report.value;
    var specific, podDistress := ClassifyFromPods(r, o.pods);
    if specific.Some? {
      return specific.value;
    }
    var fc := ClassifyFromSections(r, o);
    if fc.Some? {
      return fc.value;
    }
    var specificOperator, operatorDistress := ClassifyFromOperator(r);
    if specificOperator.Some? {
      return specificOperator.value;
    }
    fc := ClassifyFromConditions(r);
    if fc.Some? {
      return fc.value;
    }
    fc := ClassifyClusterDistress(r, o.deployments, podDistress, operatorDistress);
    if fc.Some? {
      return fc.value;
    }
    if Healthy(r) {
      return NoSignal();
    }
    return Unclassifiable();
  }

  /** classifyClusterDistress: deferred signals first, then unready deployments. */
  method ClassifyClusterDistress(r: Report, order: seq<string>, podDistress: Option<Classification>,
                                 operatorDistress: Option<Classification>)
    returns (fc: Option<Classification>)
    requires Ranges(order, r.deployments)
    ensures fc == if podDistress.Some? then podDistress else if operatorDistress.Some? then operatorDistress
                  else First(Flat(r.deployments, order), DeploymentHit)
  {
    if podDistress.Some? {
      return podDistress;
    }
    if operatorDistress.Some? {
      return operatorDistress;
    }
    fc := FirstInNamespaces(r.deployments, order, DeploymentHit);
  }
}
