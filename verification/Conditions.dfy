/** Renaming of status conditions between API versions (withConditionTypeMapping). */
module Conditions {
  import opened Common

  /** A condition: its type and everything else it carries. */
  datatype Condition = Condition(kind: string, payload: string)

  function Renamed(m: map<string, string>, c: Condition): Condition {
    if c.kind in m then c.(kind := m[c.kind]) else c
  }

  /** Some condition of the list is renamed to `kind`. */
  predicate IsTarget(cs: seq<Condition>, m: map<string, string>, kind: string) {
    exists j :: 0 <= j < |cs| && cs[j].kind in m && m[cs[j].kind] == kind
  }

  /** A plain condition is dropped when a renamed one takes its type. */
  predicate Kept(cs: seq<Condition>, m: map<string, string>, i: nat)
    requires i < |cs|
  {
    cs[i].kind in m || !IsTarget(cs, m, cs[i].kind)
  }

  /** The resulting types of the first `n` conditions, in order of first appearance. */
  function Kinds(cs: seq<Condition>, m: map<string, string>, n: nat): (ks: seq<string>)
    requires n <= |cs|
    ensures forall k, l :: 0 <= k < l < |ks| ==> ks[k] != ks[l]
  {
    if n == 0 then [] else
      var ks := Kinds(cs, m, n - 1);
      var kind := Renamed(m, cs[n - 1]).kind;
      if Kept(cs, m, n - 1) && kind !in ks then ks + [kind] else ks
  }

  /** Among the first `n` conditions, the one that speaks for `kind`. */
  function Chosen(cs: seq<Condition>, m: map<string, string>, kind: string, n: nat): (c: Condition)
    requires n <= |cs| && kind in Kinds(cs, m, n)
    ensures c.kind == kind
  {
    if kind !in Kinds(cs, m, n - 1) || (cs[n - 1].kind in m && m[cs[n - 1].kind] == kind)
    then Renamed(m, cs[n - 1])
    else Chosen(cs, m, kind, n - 1)
  }

  function Built(cs: seq<Condition>, m: map<string, string>, n: nat): seq<Condition>
    requires n <= |cs|
  {
    var ks := Kinds(cs, m, n);
    seq(|ks|, k requires 0 <= k < |ks| => Chosen(cs, m, ks[k], n))
  }

  /** The renamed list; a nil list stays nil. */
  function Mapped(cs: Option<seq<Condition>>, m: map<string, string>): Option<seq<Condition>> {
    if cs.None? then None else Some(Built(cs.value, m, |cs.value|))
  }

  lemma TargetsOfPrefix(cs: seq<Condition>, m: map<string, string>, i: nat, t: string)
    requires i < |cs|
    ensures IsTarget(cs[..i + 1], m, t) <==> IsTarget(cs[..i], m, t) || (cs[i].kind in m && m[cs[i].kind] == t)
  {
    var longer, shorter := cs[..i + 1], cs[..i];
    assert longer == shorter + [cs[i]];
    if IsTarget(shorter, m, t) {
      var j :| 0 <= j < |shorter| && shorter[j].kind in m && m[shorter[j].kind] == t;
      assert longer[j] == shorter[j];
    }
    if cs[i].kind in m && m[cs[i].kind] == t {
      assert longer[i] == cs[i];
    }
  }

  /** The first pass: every type that a renamed condition takes. */
  method CollectTargets(cs: seq<Condition>, m: map<string, string>) returns (targets: set<string>)
    ensures forall t :: t in targets <==> IsTarget(cs, m, t)
  {
    targets := {};
    for i := 0 to |cs|
      invariant forall t :: t in targets <==> IsTarget(cs[..i], m, t)
    {
      forall t
        ensures IsTarget(cs[..i + 1], m, t) <==> IsTarget(cs[..i], m, t) || (cs[i].kind in m && m[cs[i].kind] == t)
      {
        TargetsOfPrefix(cs, m, i, t);
      }
      if cs[i].kind in m {
        targets := targets + {m[cs[i].kind]};
      }
    }
    assert cs[..|cs|] == cs;
  }

  /** The index maps each type built so far to its place. */
  ghost predicate IndexOf(ks: seq<string>, index: map<string, nat>) {
    && (forall kind :: kind in index <==> kind in ks)
    && (forall kind :: kind in index ==> index[kind] < |ks| && ks[index[kind]] == kind)
  }

  lemma SkipKeepsBuilt(cs: seq<Condition>, m: map<string, string>, i: nat)
    requires i < |cs| && cs[i].kind !in m && (!Kept(cs, m, i) || cs[i].kind in Kinds(cs, m, i))
    ensures Kinds(cs, m, i + 1) == Kinds(cs, m, i) && Built(cs, m, i + 1) == Built(cs, m, i)
  {
  }

  lemma ReplaceInBuilt(cs: seq<Condition>, m: map<string, string>, i: nat, k: nat)
    requires i < |cs| && cs[i].kind in m
    requires k < |Kinds(cs, m, i)| && Kinds(cs, m, i)[k] == m[cs[i].kind]
    ensures Kinds(cs, m, i + 1) == Kinds(cs, m, i)
    ensures Built(cs, m, i + 1) == Built(cs, m, i)[k := Renamed(m, cs[i])]
  {
    var ks := Kinds(cs, m, i);
    var after, before := Built(cs, m, i + 1), Built(cs, m, i);
    forall l | 0 <= l < |ks| ensures after[l] == before[k := Renamed(m, cs[i])][l] {
      assert l != k ==> ks[l] != ks[k];
    }
  }

  lemma AppendToBuilt(cs: seq<Condition>, m: map<string, string>, i: nat)
    requires i < |cs| && Kept(cs, m, i) && Renamed(m, cs[i]).kind !in Kinds(cs, m, i)
    ensures Kinds(cs, m, i + 1) == Kinds(cs, m, i) + [Renamed(m, cs[i]).kind]
    ensures Built(cs, m, i + 1) == Built(cs, m, i) + [Renamed(m, cs[i])]
  {
    var ks := Kinds(cs, m, i);
    var after, before := Built(cs, m, i + 1), Built(cs, m, i);
    forall l | 0 <= l < |ks| ensures after[l] == before[l] {
      assert Kinds(cs, m, i + 1)[l] == ks[l] && ks[l] in ks;
    }
  }

  /** withConditionTypeMapping: the second pass builds the list with an index into it. */
  method MapConditions(conditions: Option<seq<Condition>>, m: map<string, string>)
    returns (result: Option<seq<Condition>>)
    ensures result == Mapped(conditions, m)
  {
    if conditions.None? {
      return None;
    }
    var cs := conditions.value;
    var targets := CollectTargets(cs, m);
    var built: seq<Condition> := [];
    var index: map<string, nat> := map[];
    for i := 0 to |cs|
      invariant built == Built(cs, m, i)
      invariant IndexOf(Kinds(cs, m, i), index)
    {
      var condition := Renamed(m, cs[i]);
      var mapped := cs[i].kind in m;
      if !mapped && condition.kind in targets {
        SkipKeepsBuilt(cs, m, i);
        continue;
      }
      if condition.kind in index {
        var k := index[condition.kind];
        if mapped {
          ReplaceInBuilt(cs, m, i, k);
          built := built[k := condition];
        } else {
          SkipKeepsBuilt(cs, m, i);
        }
        continue;
      }
      AppendToBuilt(cs, m, i);
      index := index[condition.kind := |built|];
      built := built + [condition];
    }
    return Some(built);
  }

  // ---------------------------------------------------------------- what the list is

  /** Condition `i` is the one to report as `kind`: the last renamed one, else the first plain one. */
  ghost predicate Speaks(cs: seq<Condition>, m: map<string, string>, kind: string, i: nat) {
    i < |cs| && Renamed(m, cs[i]).kind == kind &&
    if IsTarget(cs, m, kind)
    then cs[i].kind in m && forall j :: i < j < |cs| && cs[j].kind in m ==> m[cs[j].kind] != kind
    else forall j :: 0 <= j < i ==> cs[j].kind != kind
  }

  ghost predicate Distinct(cs: seq<Condition>) {
    forall i, j :: 0 <= i < j < |cs| ==> cs[i].kind != cs[j].kind
  }

  lemma {:induction false} KindsOfKept(cs: seq<Condition>, m: map<string, string>, n: nat, i: nat)
    requires i < n <= |cs| && Kept(cs, m, i)
    ensures Renamed(m, cs[i]).kind in Kinds(cs, m, n)
  {
    if i < n - 1 {
      KindsOfKept(cs, m, n - 1, i);
    }
  }

  lemma {:induction false} ChosenSpeaks(cs: seq<Condition>, m: map<string, string>, kind: string, n: nat)
    returns (i: nat)
    requires n <= |cs| && kind in Kinds(cs, m, n)
    ensures i < n && Kept(cs, m, i) && Chosen(cs, m, kind, n) == Renamed(m, cs[i]) && Renamed(m, cs[i]).kind == kind
    ensures forall j :: i < j < n && cs[j].kind in m ==> m[cs[j].kind] != kind
    ensures cs[i].kind !in m ==> forall j :: 0 <= j < i ==> cs[j].kind != kind
  {
    if kind !in Kinds(cs, m, n - 1) || (cs[n - 1].kind in m && m[cs[n - 1].kind] == kind) {
      i := n - 1;
      if cs[i].kind !in m {
        forall j | 0 <= j < i ensures cs[j].kind != kind {
          if cs[j].kind == kind {
            KindsOfKept(cs, m, n - 1, j);
          }
        }
      }
    } else {
      i := ChosenSpeaks(cs, m, kind, n - 1);
    }
  }

  /** The output has distinct types, each content taken from the condition that speaks for the type. */
  lemma OutputSpeaks(cs: seq<Condition>, m: map<string, string>)
    ensures var out := Built(cs, m, |cs|);
            Distinct(out) &&
            forall k :: 0 <= k < |out| ==> exists i: nat :: Speaks(cs, m, out[k].kind, i) && out[k] == Renamed(m, cs[i])
  {
    var out := Built(cs, m, |cs|);
    forall k | 0 <= k < |out| ensures exists i: nat :: Speaks(cs, m, out[k].kind, i) && out[k] == Renamed(m, cs[i]) {
      var i := ChosenSpeaks(cs, m, out[k].kind, |cs|);
      assert Kept(cs, m, i);
      assert Speaks(cs, m, out[k].kind, i);
    }
  }

  /** Every type of the renamed input appears in the output. */
  lemma OutputCovers(cs: seq<Condition>, m: map<string, string>, i: nat)
    requires i < |cs|
    ensures var out := Built(cs, m, |cs|);
            exists k :: 0 <= k < |out| && out[k].kind == Renamed(m, cs[i]).kind
  {
    var kind := Renamed(m, cs[i]).kind;
    var j := i;
    if !Kept(cs, m, i) {
      j :| 0 <= j < |cs| && cs[j].kind in m && m[cs[j].kind] == kind;
    }
    KindsOfKept(cs, m, |cs|, j);
    var ks := Kinds(cs, m, |cs|);
    var k :| 0 <= k < |ks| && ks[k] == kind;
    assert Built(cs, m, |cs|)[k].kind == kind;
  }

  // ---------------------------------------------------------------- undoing a renaming

  ghost predicate OneToOne(m: map<string, string>) {
    forall a, b :: a in m && b in m && a != b ==> m[a] != m[b]
  }

  /** No name is both renamed and a new name. */
  ghost predicate Fresh(m: map<string, string>) {
    forall a :: a in m ==> m[a] !in m
  }

  ghost predicate Inverse(m: map<string, string>, r: map<string, string>) {
    && (forall a :: a in m ==> m[a] in r && r[m[a]] == a)
    && (forall b :: b in r ==> r[b] in m && m[r[b]] == b)
  }

  ghost predicate NoTargets(cs: seq<Condition>, m: map<string, string>) {
    forall i, a :: 0 <= i < |cs| && a in m ==> cs[i].kind != m[a]
  }

  lemma RenamedDiffer(cs: seq<Condition>, m: map<string, string>, i: nat, j: nat)
    requires Distinct(cs) && OneToOne(m) && NoTargets(cs, m)
    requires i < j < |cs|
    ensures Renamed(m, cs[i]).kind != Renamed(m, cs[j]).kind
  {
    assert cs[i].kind != cs[j].kind;
  }

  lemma NewKind(cs: seq<Condition>, m: map<string, string>, last: nat)
    requires last < |cs| && Distinct(cs) && OneToOne(m) && NoTargets(cs, m)
    requires |Kinds(cs, m, last)| == last && forall i :: 0 <= i < last ==> Built(cs, m, last)[i] == Renamed(m, cs[i])
    ensures Renamed(m, cs[last]).kind !in Kinds(cs, m, last)
  {
    var ks, before := Kinds(cs, m, last), Built(cs, m, last);
    forall i | 0 <= i < last ensures ks[i] != Renamed(m, cs[last]).kind {
      assert before[i] == Renamed(m, cs[i]);
      RenamedDiffer(cs, m, i, last);
    }
  }

  lemma {:induction false} PointwisePrefix(cs: seq<Condition>, m: map<string, string>, n: nat)
    requires n <= |cs| && Distinct(cs) && OneToOne(m) && NoTargets(cs, m)
    ensures |Kinds(cs, m, n)| == n
    ensures forall i :: 0 <= i < n ==> Built(cs, m, n)[i] == Renamed(m, cs[i])
  {
    if n > 0 {
      var last := n - 1;
      PointwisePrefix(cs, m, last);
      NewKind(cs, m, last);
      assert Kept(cs, m, last);
      AppendToBuilt(cs, m, last);
    }
  }

  /** On a list with distinct types and none of the new names, renaming is pointwise. */
  lemma MappingIsPointwise(cs: seq<Condition>, m: map<string, string>)
    requires Distinct(cs) && OneToOne(m) && NoTargets(cs, m)
    ensures Built(cs, m, |cs|) == seq(|cs|, i requires 0 <= i < |cs| => Renamed(m, cs[i]))
  {
    PointwisePrefix(cs, m, |cs|);
  }

  /** The reverse renaming undoes a renaming. */
  lemma MappingUndone(cs: seq<Condition>, m: map<string, string>, r: map<string, string>)
    requires Distinct(cs) && OneToOne(m) && Fresh(m) && Inverse(m, r) && NoTargets(cs, m)
    ensures Mapped(Mapped(Some(cs), m), r) == Some(cs)
  {
    var out := Built(cs, m, |cs|);
    MappingIsPointwise(cs, m);
    assert Distinct(out) by {
      forall i, j | 0 <= i < j < |out| ensures out[i].kind != out[j].kind {
        assert cs[i].kind != cs[j].kind;
      }
    }
    assert NoTargets(out, r);
    MappingIsPointwise(out, r);
    var back := Built(out, r, |out|);
    forall i | 0 <= i < |cs| ensures back[i] == cs[i] {
      assert back[i] == Renamed(r, Renamed(m, cs[i]));
    }
    assert back == cs;
  }

  /** Conversely, whatever a renaming produces has distinct types and none of the renamed names. */
  lemma OutputIsNormal(cs: seq<Condition>, m: map<string, string>, r: map<string, string>)
    requires Fresh(m) && Inverse(m, r)
    ensures Distinct(Built(cs, m, |cs|)) && NoTargets(Built(cs, m, |cs|), r)
  {
    var out := Built(cs, m, |cs|);
    OutputSpeaks(cs, m);
    forall k, b | 0 <= k < |out| && b in r ensures out[k].kind != r[b] {
      var i: nat :| Speaks(cs, m, out[k].kind, i) && out[k] == Renamed(m, cs[i]);
    }
  }
}
