/** Strings: the order used by sort.Strings, canonical key lists, and cutting at a character. */
module Text {
  import opened Common

  // ---------------------------------------------------------------- order

  /** Strict lexicographic order. */
  predicate Less(a: string, b: string) {
    b != [] && (a == [] || a[0] < b[0] || (a[0] == b[0] && Less(a[1..], b[1..])))
  }

  lemma {:induction false} LessTransitive(a: string, b: string, c: string)
    requires Less(a, b) && Less(b, c)
    ensures Less(a, c)
  {
    if a != [] && a[0] == b[0] && b[0] == c[0] {
      LessTransitive(a[1..], b[1..], c[1..]);
    }
  }

  lemma {:induction false} LessTotal(a: string, b: string)
    ensures Less(a, b) || a == b || Less(b, a)
    ensures !(Less(a, b) && Less(b, a)) && !Less(a, a)
  {
    if a != [] {
      LessTotal(a[1..], a[1..]);
    }
    if a != [] && b != [] && a[0] == b[0] {
      LessTotal(a[1..], b[1..]);
      assert a == [a[0]] + a[1..] && b == [b[0]] + b[1..];
    }
  }

  ghost predicate Sorted(ks: seq<string>) {
    forall i, j :: 0 <= i < j < |ks| ==> Less(ks[i], ks[j])
  }

  /** Two strictly sorted lists of the same keys are the same list. */
  lemma {:induction false} SortedUnique(xs: seq<string>, ys: seq<string>)
    requires Sorted(xs) && Sorted(ys) && forall k :: k in xs <==> k in ys
    ensures xs == ys
    decreases |xs|
  {
    assert ys == [] || ys[0] in ys;
    if xs != [] {
      assert xs[0] in ys;
      var j :| 0 <= j < |ys| && ys[j] == xs[0];
      assert ys[0] in xs;
      var i :| 0 <= i < |xs| && xs[i] == ys[0];
      LessTotal(xs[0], ys[0]);
      assert xs[0] == ys[0];
      forall k ensures k in xs[1..] <==> k in ys[1..] {
        TailOfSorted(xs, k);
        TailOfSorted(ys, k);
      }
      SortedUnique(xs[1..], ys[1..]);
    }
  }

  lemma TailOfSorted(xs: seq<string>, k: string)
    requires Sorted(xs) && xs != []
    ensures k in xs[1..] <==> k in xs && k != xs[0]
  {
    LessTotal(k, k);
    assert xs == [xs[0]] + xs[1..];
    if k in xs[1..] {
      var i :| 0 <= i < |xs[1..]| && xs[1..][i] == k;
      assert xs[i + 1] == k && Less(xs[0], xs[i + 1]);
    }
  }

  function Insert(x: string, ks: seq<string>): seq<string> {
    if ks == [] || Less(x, ks[0]) then [x] + ks
    else [ks[0]] + Insert(x, ks[1..])
  }

  lemma {:induction false} InsertLaw(x: string, ks: seq<string>)
    requires Sorted(ks) && x !in ks
    ensures Sorted(Insert(x, ks)) && forall k :: k in Insert(x, ks) <==> k == x || k in ks
    decreases |ks|
  {
    var out := Insert(x, ks);
    if ks != [] && !Less(x, ks[0]) {
      assert ks == [ks[0]] + ks[1..];
      InsertLaw(x, ks[1..]);
      var rest := Insert(x, ks[1..]);
      assert ks[0] in ks;
      LessTotal(x, ks[0]);
      forall i, j | 0 <= i < j < |out| ensures Less(out[i], out[j]) {
        if i == 0 {
          assert out[j] == rest[j - 1] && rest[j - 1] in rest;
        }
      }
    } else {
      forall i, j | 0 <= i < j < |out| ensures Less(out[i], out[j]) {
        if i == 0 && j > 1 {
          LessTransitive(x, ks[0], ks[j - 1]);
        }
      }
    }
  }

  function Sort(xs: seq<string>): seq<string> {
    if xs == [] then [] else Insert(xs[0], Sort(xs[1..]))
  }

  ghost predicate NoDuplicates(xs: seq<string>) {
    forall i, j :: 0 <= i < j < |xs| ==> xs[i] != xs[j]
  }

  lemma {:induction false} SortLaw(xs: seq<string>)
    requires NoDuplicates(xs)
    ensures Sorted(Sort(xs)) && forall k :: k in Sort(xs) <==> k in xs
    decreases |xs|
  {
    if xs != [] {
      SortLaw(xs[1..]);
      assert xs == [xs[0]] + xs[1..];
      assert xs[0] !in xs[1..];
      InsertLaw(xs[0], Sort(xs[1..]));
    }
  }

  /** An order in which a Go map may be ranged over. */
  ghost predicate Ranges<V>(keys: seq<string>, m: map<string, V>) {
    NoDuplicates(keys) && forall k :: k in keys <==> k in m
  }

  lemma {:induction false} Enumeration(s: set<string>) returns (xs: seq<string>)
    ensures NoDuplicates(xs) && forall k :: k in xs <==> k in s
  {
    if s == {} {
      xs := [];
    } else {
      var k :| k in s;
      xs := Enumeration(s - {k});
      xs := xs + [k];
    }
  }

  ghost predicate Lists(ks: seq<string>, keys: set<string>) {
    Sorted(ks) && forall k :: k in ks <==> k in keys
  }

  /** The canonical list of a set of keys. */
  ghost function KeysOf(keys: set<string>): (ks: seq<string>)
    ensures Lists(ks, keys)
  {
    ListExists(keys);
    var ks :| Lists(ks, keys);
    ks
  }

  lemma ListExists(keys: set<string>)
    ensures exists ks :: Lists(ks, keys)
  {
    var xs := Enumeration(keys);
    SortLaw(xs);
    assert Lists(Sort(xs), keys);
  }

  lemma KeysOfUnique(keys: set<string>, ks: seq<string>)
    requires Lists(ks, keys)
    ensures ks == KeysOf(keys)
  {
    SortedUnique(ks, KeysOf(keys));
  }

  /** Ranging over a Go map yields its keys in any order; sorting makes the list canonical. */
  method SortedKeys(m: map<string, string>) returns (ks: seq<string>)
    ensures ks == KeysOf(m.Keys)
  {
    var rest := m.Keys;
    var keys: seq<string> := [];
    while rest != {}
      invariant rest <= m.Keys
      invariant NoDuplicates(keys)
      invariant forall k :: k in keys <==> k in m.Keys && k !in rest
      decreases |rest|
    {
      var k :| k in rest;
      keys := keys + [k];
      rest := rest - {k};
    }
    ks := Sort(keys);
    SortLaw(keys);
    KeysOfUnique(m.Keys, ks);
  }

  // ---------------------------------------------------------------- cutting

  ghost predicate Without(s: string, c: char) {
    forall i :: 0 <= i < |s| ==> s[i] != c
  }

  /** strings.Cut at a single character. */
  function Cut(s: string, c: char): Option<(string, string)> {
    if s == [] then None
    else if s[0] == c then Some(([], s[1..]))
    else match Cut(s[1..], c)
      case None => None
      case Some((before, after)) => Some(([s[0]] + before, after))
  }

  lemma {:induction false} CutLaw(before: string, c: char, after: string)
    requires Without(before, c)
    ensures Cut(before + [c] + after, c) == Some((before, after))
    decreases |before|
  {
    var s := before + [c] + after;
    if before == [] {
      assert s[1..] == after;
    } else {
      assert s[1..] == before[1..] + [c] + after;
      CutLaw(before[1..], c, after);
      assert [before[0]] + before[1..] == before;
    }
  }

  lemma {:induction false} CutSplits(s: string, c: char)
    requires Cut(s, c).Some?
    ensures var (before, after) := Cut(s, c).value; s == before + [c] + after && Without(before, c)
    decreases |s|
  {
    if s[0] != c {
      CutSplits(s[1..], c);
      var (before, after) := Cut(s[1..], c).value;
      assert s == [s[0]] + s[1..];
    }
  }

  lemma {:induction false} NoCutNoChar(s: string, c: char)
    requires Cut(s, c).None?
    ensures Without(s, c)
    decreases |s|
  {
    if s != [] {
      NoCutNoChar(s[1..], c);
      assert s == [s[0]] + s[1..];
    }
  }

  /** The order is decided by the first difference; a proper prefix comes first. */
  lemma {:induction false} LessExact(a: string, b: string)
    ensures Less(a, b) <==> exists k :: DiffersAt(a, b, k)
    decreases |a|
  {
    if k :| DiffersAt(a, b, k) {
      if a != [] && k > 0 {
        assert a[..k][0] == b[..k][0];
        assert a[1..][..k - 1] == a[..k][1..] && b[1..][..k - 1] == b[..k][1..];
        assert DiffersAt(a[1..], b[1..], k - 1);
        LessExact(a[1..], b[1..]);
      }
    }
    if Less(a, b) {
      if a == [] || a[0] < b[0] {
        assert DiffersAt(a, b, 0);
      } else {
        LessExact(a[1..], b[1..]);
        var k :| DiffersAt(a[1..], b[1..], k);
        assert a[..k + 1] == [a[0]] + a[1..][..k] && b[..k + 1] == [b[0]] + b[1..][..k];
        assert DiffersAt(a, b, k + 1);
      }
    }
  }

  ghost predicate DiffersAt(a: string, b: string, k: int) {
    && 0 <= k <= |a| && k < |b| && a[..k] == b[..k]
    && (k == |a| || a[k] < b[k])
  }
}
