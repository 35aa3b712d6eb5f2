/** Heading slugs and links of the generated API reference (hack/disambiguate-api-doc-anchors.go). */
module Anchors {
  import opened Common
  import opened Text

  // ---------------------------------------------------------------- slugs

  /** The Unicode classes and the per-character lower-casing that the slug relies on. */
  datatype Script = Script(letterOrDigit: char -> bool, space: char -> bool, lower: char -> char)

  /** What is used of them: parentheses, hyphen and blanks are what they are. */
  ghost predicate Sane(sc: Script) {
    && Mark(sc, ' ') && Mark(sc, '(') && Mark(sc, ')') && Mark(sc, ']') && Mark(sc, '-')
    && sc.space(' ') && !sc.space('(') && !sc.space(')')
    && forall c :: Blank(c) ==> !sc.letterOrDigit(sc.lower(c))
  }

  ghost predicate Mark(sc: Script, c: char) {
    !sc.letterOrDigit(c) && sc.lower(c) == c
  }

  datatype Slugging = Slugging(out: string, separator: bool)

  function Step(sc: Script, st: Slugging, c: char): Slugging {
    if sc.letterOrDigit(c) then
      Slugging((if st.separator && |st.out| > 0 then st.out + "-" else st.out) + [c], false)
    else if sc.space(c) || c == '-' then st.(separator := true)
    else st
  }

  function Fold(sc: Script, s: string, st: Slugging): Slugging
    decreases |s|
  {
    if s == [] then st else Fold(sc, s[1..], Step(sc, st, sc.lower(s[0])))
  }

  function SlugOf(sc: Script, s: string): string {
    Fold(sc, s, Slugging("", false)).out
  }

  /** slug, with its flag and its builder. */
  method Slug(sc: Script, value: string) returns (result: string)
    ensures result == SlugOf(sc, value)
  {
    result := "";
    var separator := false;
    for i := 0 to |value|
      invariant Fold(sc, value[i..], Slugging(result, separator)) == Fold(sc, value, Slugging("", false))
    {
      var c := sc.lower(value[i]);
      assert value[i..][1..] == value[i + 1..];
      if sc.letterOrDigit(c) {
        if separator && |result| > 0 {
          result := result + "-";
        }
        result := result + [c];
        separator := false;
      } else if sc.space(c) || c == '-' {
        separator := true;
      }
    }
  }

  lemma {:induction false} FoldAppend(sc: Script, a: string, b: string, st: Slugging)
    ensures Fold(sc, a + b, st) == Fold(sc, b, Fold(sc, a, st))
    decreases |a|
  {
    if a == [] {
      assert a + b == b;
    } else {
      assert (a + b)[1..] == a[1..] + b;
      FoldAppend(sc, a[1..], b, Step(sc, st, sc.lower(a[0])));
    }
  }

  /** Lower-case letters and digits go through unchanged. */
  ghost predicate Plain(sc: Script, s: string) {
    forall i :: 0 <= i < |s| ==> sc.letterOrDigit(s[i]) && sc.lower(s[i]) == s[i]
  }

  lemma {:induction false} FoldPlain(sc: Script, s: string, out: string)
    requires Plain(sc, s)
    ensures Fold(sc, s, Slugging(out, false)) == Slugging(out + s, false)
    decreases |s|
  {
    if s == [] {
      assert out + s == out;
    } else {
      FoldPlain(sc, s[1..], out + [s[0]]);
      assert out + [s[0]] + s[1..] == out + s;
    }
  }

  ghost predicate HasLetterOrDigit(sc: Script, s: string) {
    exists i :: 0 <= i < |s| && sc.letterOrDigit(sc.lower(s[i]))
  }

  lemma {:induction false} FoldOut(sc: Script, s: string, st: Slugging)
    ensures |Fold(sc, s, st).out| >= |st.out|
    ensures Fold(sc, s, st).out == "" <==> st.out == "" && !HasLetterOrDigit(sc, s)
    decreases |s|
  {
    if s != [] {
      FoldOut(sc, s[1..], Step(sc, st, sc.lower(s[0])));
      assert HasLetterOrDigit(sc, s) <==> sc.letterOrDigit(sc.lower(s[0])) || HasLetterOrDigit(sc, s[1..]) by {
        assert s == [s[0]] + s[1..];
        if HasLetterOrDigit(sc, s[1..]) {
          var i :| 0 <= i < |s[1..]| && sc.letterOrDigit(sc.lower(s[1..][i]));
          assert s[i + 1] == s[1..][i];
        }
        if HasLetterOrDigit(sc, s) {
          var i :| 0 <= i < |s| && sc.letterOrDigit(sc.lower(s[i]));
          assert i > 0 ==> s[1..][i - 1] == s[i];
        }
      }
    }
  }

  function Suffixed(s: string, suffix: string): string {
    s + (" (" + suffix + ")")
  }

  lemma FoldOne(sc: Script, c: char, st: Slugging)
    ensures Fold(sc, [c], st) == Step(sc, st, sc.lower(c))
  {
    assert [c][1..] == [];
  }

  lemma FoldSeparated(sc: Script, s: string, out: string)
    requires s != [] && Plain(sc, s)
    ensures Fold(sc, s, Slugging(out, true)) == Slugging((if out == "" then "" else out + "-") + s, false)
  {
    var first := Step(sc, Slugging(out, true), s[0]);
    FoldPlain(sc, s[1..], first.out);
    assert s == [s[0]] + s[1..];
    assert first.out + s[1..] == (if out == "" then "" else out + "-") + s;
  }

  lemma FoldSuffix(sc: Script, suffix: string, st: Slugging)
    requires Sane(sc) && suffix != [] && Plain(sc, suffix)
    ensures Fold(sc, " (" + suffix + ")", st) == Slugging((if st.out == "" then "" else st.out + "-") + suffix, false)
  {
    assert " (" + suffix + ")" == [' '] + (['('] + (suffix + [')']));
    FoldAppend(sc, [' '], ['('] + (suffix + [')']), st);
    FoldOne(sc, ' ', st);
    FoldAppend(sc, ['('], suffix + [')'], Slugging(st.out, true));
    FoldOne(sc, '(', Slugging(st.out, true));
    FoldAppend(sc, suffix, [')'], Slugging(st.out, true));
    FoldSeparated(sc, suffix, st.out);
    FoldOne(sc, ')', Fold(sc, suffix, Slugging(st.out, true)));
  }

  /** The slug of a renamed heading is the old slug with the suffix, exactly when the heading has a letter or digit. */
  lemma SlugOfSuffixed(sc: Script, heading: string, suffix: string)
    requires Sane(sc) && suffix != [] && Plain(sc, suffix)
    ensures SlugOf(sc, Suffixed(heading, suffix)) == SlugOf(sc, heading) + "-" + suffix <==>
            HasLetterOrDigit(sc, heading)
  {
    var start := Slugging("", false);
    FoldAppend(sc, heading, " (" + suffix + ")", start);
    FoldSuffix(sc, suffix, Fold(sc, heading, start));
    FoldOut(sc, heading, start);
    assert SlugOf(sc, heading) == "" ==> |SlugOf(sc, heading) + "-" + suffix| == |suffix| + 1;
  }

  /** Slugs hold letters, digits and hyphens only. */
  lemma {:induction false} SlugCharacters(sc: Script, s: string, st: Slugging, c: char)
    requires !sc.letterOrDigit(c) && c != '-' && Without(st.out, c)
    ensures Without(Fold(sc, s, st).out, c)
    decreases |s|
  {
    if s != [] {
      SlugCharacters(sc, s[1..], Step(sc, st, sc.lower(s[0])), c);
    }
  }

  // ---------------------------------------------------------------- headings

  /** The class \s of the regular expressions. */
  predicate Blank(c: char) {
    c in {' ', '\t', '\n', '\r', '\U{000C}'}
  }

  function TrimRight(s: string): string {
    if s != [] && Blank(s[|s| - 1]) then TrimRight(s[..|s| - 1]) else s
  }

  /** The lazy group before the optional trailing blanks takes at least one character. */
  function Group(s: string): string
    requires s != []
  {
    if TrimRight(s) == [] then s[..1] else TrimRight(s)
  }

  function Hashes(line: string): (n: nat)
    ensures n <= |line|
  {
    if line != [] && line[0] == '#' then 1 + Hashes(line[1..]) else 0
  }

  /** A heading of a level from `low` to `high`, and its text. */
  function Heading(line: string, low: nat, high: nat): Option<string> {
    var n := Hashes(line);
    if low <= n <= high && n + 1 < |line| && line[n] == ' ' then Some(Group(line[n + 1..])) else None
  }

  function TypeHeading(line: string): Option<string> {
    Heading(line, 3, 6)
  }

  function SectionHeading(line: string): Option<string> {
    Heading(line, 2, 2)
  }

  ghost predicate NoTrailingBlank(s: string) {
    s == [] || !Blank(s[|s| - 1])
  }

  function TrimSuffix(s: string, t: string): string {
    if |t| <= |s| && s[|s| - |t|..] == t then s[..|s| - |t|] else s
  }

  /** The rewritten heading line. */
  function Renamed(line: string, text: string, suffix: string): string {
    TrimSuffix(line, text) + text + " (" + suffix + ")"
  }

  lemma {:induction false} HashesAppend(line: string, x: string)
    requires Hashes(line) < |line|
    ensures Hashes(line + x) == Hashes(line)
    decreases |line|
  {
    if line[0] == '#' {
      assert (line + x)[1..] == line[1..] + x;
      HashesAppend(line[1..], x);
    }
  }

  /** Without trailing blanks a heading is renamed by appending the suffix to line and text alike. */
  lemma HeadingRenamed(line: string, suffix: string)
    requires TypeHeading(line).Some? && NoTrailingBlank(line)
    ensures Renamed(line, TypeHeading(line).value, suffix) == Suffixed(line, suffix)
    ensures TypeHeading(Suffixed(line, suffix)) == Some(Suffixed(TypeHeading(line).value, suffix))
  {
    var n := Hashes(line);
    var text := line[n + 1..];
    assert text[|text| - 1] == line[|line| - 1];
    assert TrimRight(text) == text;
    assert TypeHeading(line).value == text;
    assert TrimSuffix(line, text) + text == line;
    var x := " (" + suffix + ")";
    HashesAppend(line, x);
    assert (line + x)[n + 1..] == text + x;
    assert (text + x)[|text + x| - 1] == ')';
    assert TrimRight(text + x) == text + x;
  }

  lemma {:induction false} TrimRightKeeps(s: string)
    ensures TrimRight(s) <= s && NoTrailingBlank(TrimRight(s))
  {
    if s != [] && Blank(s[|s| - 1]) {
      TrimRightKeeps(s[..|s| - 1]);
    }
  }

  /** Trimming takes the trailing blanks, all of them and nothing else. */
  lemma {:induction false} TrimRightExact(s: string)
    ensures TrimRight(s) <= s && NoTrailingBlank(TrimRight(s))
    ensures forall i :: |TrimRight(s)| <= i < |s| ==> Blank(s[i])
  {
    if s != [] && Blank(s[|s| - 1]) {
      TrimRightExact(s[..|s| - 1]);
    }
  }

  /** What the renaming puts between line and suffix: the text once more when the line does not end in it. */
  function Doubled(line: string, text: string): string {
    if |text| <= |line| && line[|line| - |text|..] == text then [] else text
  }

  /** What follows the marker of a heading. */
  function AfterMarker(line: string): string {
    if Hashes(line) < |line| then line[Hashes(line) + 1..] else []
  }

  lemma GroupKeeps(s: string)
    requires s != []
    ensures Group(s) <= s && Group(s) != []
    ensures Group(s) == s <==> !Blank(s[|s| - 1]) || |s| == 1
  {
    TrimRightKeeps(s);
    if Blank(s[|s| - 1]) {
      TrimRightKeeps(s[..|s| - 1]);
    }
  }

  /** The hashes of a heading and the blank after them. */
  function Marker(line: string): string {
    if Hashes(line) < |line| then line[..Hashes(line) + 1] else line
  }

  lemma {:induction false} MarkerIsPlain(line: string)
    requires Hashes(line) < |line| && line[Hashes(line)] == ' '
    ensures Without(line[..Hashes(line) + 1], ']') && Hashes(line[..Hashes(line) + 1]) == Hashes(line)
    decreases |line|
  {
    var marker := line[..Hashes(line) + 1];
    if line[0] == '#' {
      MarkerIsPlain(line[1..]);
      assert marker[1..] == line[1..][..Hashes(line[1..]) + 1];
      assert marker == [line[0]] + marker[1..];
    }
  }

  ghost predicate IsMarker(marker: string) {
    Without(marker, ']') && 4 <= |marker| <= 7 && Hashes(marker) == |marker| - 1 && marker[|marker| - 1] == ' '
  }

  lemma HeadingParts(line: string)
    requires TypeHeading(line).Some?
    ensures IsMarker(Marker(line)) && AfterMarker(line) != [] && line == Marker(line) + AfterMarker(line)
    ensures TypeHeading(line).value == Group(AfterMarker(line))
  {
    MarkerIsPlain(line);
  }

  lemma HeadingOf(marker: string, text: string)
    requires IsMarker(marker) && text != [] && !Blank(text[|text| - 1])
    ensures TypeHeading(marker + text) == Some(text)
  {
    HashesAppend(marker, text);
    assert (marker + text)[|marker|..] == text;
    assert TrimRight(text) == text;
  }

  lemma RenamedParts(line: string, suffix: string)
    requires TypeHeading(line).Some?
    ensures var text := TypeHeading(line).value;
            Renamed(line, text, suffix) == Marker(line) + Suffixed(AfterMarker(line) + Doubled(line, text), suffix)
  {
    var text, x := TypeHeading(line).value, " (" + suffix + ")";
    var marker, rest, more := Marker(line), AfterMarker(line), Doubled(line, text);
    HeadingParts(line);
    assert TrimSuffix(line, text) + text == line + more;
    assert Renamed(line, text, suffix) == (TrimSuffix(line, text) + text) + x;
    assert (marker + rest + more) + x == marker + ((rest + more) + x);
  }

  /** How a renamed heading reads, whatever blanks its line ended in. */
  lemma RenamedReads(line: string, suffix: string)
    requires TypeHeading(line).Some?
    ensures var text := TypeHeading(line).value;
            TypeHeading(Renamed(line, text, suffix)) == Some(Suffixed(AfterMarker(line) + Doubled(line, text), suffix))
  {
    var text := TypeHeading(line).value;
    HeadingParts(line);
    RenamedParts(line, suffix);
    HeadingOf(Marker(line), Suffixed(AfterMarker(line) + Doubled(line, text), suffix));
  }

  /**
   A heading gets the text that its links expect exactly when its line has no trailing blank, or is one blank long.
   */
  lemma HeadingRenamedExact(line: string, suffix: string)
    requires TypeHeading(line).Some?
    ensures TypeHeading(Renamed(line, TypeHeading(line).value, suffix)) ==
            Some(Suffixed(TypeHeading(line).value, suffix)) <==>
            NoTrailingBlank(line) || |AfterMarker(line)| == 1
  {
    var text, rest := TypeHeading(line).value, AfterMarker(line);
    RenamedReads(line, suffix);
    GroupKeeps(rest);
    assert rest[|rest| - 1] == line[|line| - 1];
    var x := " (" + suffix + ")";
    if rest == text {
      assert Doubled(line, text) == [];
      assert rest + [] == text;
    } else {
      assert |rest + Doubled(line, text) + x| > |text + x|;
    }
  }

  /** A heading is between `low` and `high` hashes, a blank and some text. */
  lemma HeadingExact(line: string, low: nat, high: nat)
    ensures Heading(line, low, high).Some? <==>
            exists n :: low <= n <= high && n + 1 < |line| && line[n] == ' ' && AllHashes(line[..n])
  {
    HashesLead(line);
    if n :| low <= n <= high && n + 1 < |line| && line[n] == ' ' && AllHashes(line[..n]) {
      HashesStop(line, n);
    }
  }

  /** Type headings have three to six hashes, section headings two. */
  lemma HeadingLevels(line: string)
    ensures TypeHeading(line).Some? <==>
            exists n :: 3 <= n <= 6 && n + 1 < |line| && line[n] == ' ' && AllHashes(line[..n])
    ensures SectionHeading(line).Some? <==> |line| > 3 && line[..3] == "## "
  {
    HeadingExact(line, 3, 6);
    HeadingExact(line, 2, 2);
    if |line| > 3 && line[..3] == "## " {
      assert line[..3][0] == '#' && line[..3][1] == '#' && line[..3][2] == ' ';
      assert AllHashes(line[..2]);
    }
    if |line| > 3 && line[2] == ' ' && AllHashes(line[..2]) {
      assert line[..2][0] == '#' && line[..2][1] == '#';
      assert line[..3] == [line[0], line[1], line[2]];
    }
  }

  ghost predicate AllHashes(s: string) {
    forall i :: 0 <= i < |s| ==> s[i] == '#'
  }

  lemma {:induction false} HashesLead(line: string)
    ensures AllHashes(line[..Hashes(line)])
    decreases |line|
  {
    if line != [] && line[0] == '#' {
      HashesLead(line[1..]);
      var n := Hashes(line);
      forall i | 0 <= i < n ensures line[..n][i] == '#' {
        assert i > 0 ==> line[1..][..n - 1][i - 1] == line[i];
      }
    }
  }

  lemma {:induction false} HashesStop(line: string, n: nat)
    requires n < |line| && line[n] != '#' && AllHashes(line[..n])
    ensures Hashes(line) == n
    decreases n
  {
    if n > 0 {
      assert line[..n][0] == '#';
      var rest := line[1..][..n - 1];
      forall i | 0 <= i < |rest| ensures rest[i] == '#' {
        assert line[..n][i + 1] == '#';
      }
      HashesStop(line[1..], n - 1);
    }
  }

  /** Words are joined by one hyphen, however many blanks and hyphens stood between them. */
  lemma SlugOfWords(sc: Script, a: string, gap: string, b: string)
    requires Sane(sc) && Plain(sc, a) && Plain(sc, b) && a != [] && b != [] && gap != []
    requires forall i :: 0 <= i < |gap| ==> gap[i] in {' ', '-'}
    ensures SlugOf(sc, a + (gap + b)) == a + "-" + b
  {
    var start := Slugging("", false);
    FoldAppend(sc, a, gap + b, start);
    FoldPlain(sc, a, "");
    assert "" + a == a;
    FoldAppend(sc, gap, b, Slugging(a, false));
    FoldGap(sc, gap, Slugging(a, false));
    FoldSeparated(sc, b, a);
  }

  lemma {:induction false} FoldGap(sc: Script, gap: string, st: Slugging)
    requires Sane(sc) && gap != [] && forall i :: 0 <= i < |gap| ==> gap[i] in {' ', '-'}
    ensures Fold(sc, gap, st) == st.(separator := true)
    decreases |gap|
  {
    if |gap| > 1 {
      FoldGap(sc, gap[1..], Step(sc, st, sc.lower(gap[0])));
    } else {
      assert gap == [gap[0]];
      FoldOne(sc, gap[0], st);
    }
  }

  // ---------------------------------------------------------------- links

  /** The text before the first "](#" and the text after it. */
  function FindStart(line: string): (r: Option<(string, string)>)
    ensures r.Some? ==> |r.value.0| + 3 + |r.value.1| == |line|
    decreases |line|
  {
    if |line| < 3 then None
    else if line[..3] == "](#" then Some(([], line[3..]))
    else match FindStart(line[1..])
      case None => None
      case Some((before, after)) => Some(([line[0]] + before, after))
  }

  datatype Link = Link(before: string, target: string, after: string)

  /** The leftmost match of the link expression. */
  function FindLink(line: string): (r: Option<Link>)
    ensures r.Some? ==> |r.value.after| < |line|
  {
    match FindStart(line)
    case None => None
    case Some((before, rest)) =>
      match Cut(rest, ')')
      case None => None
      case Some((target, after)) => CutSplits(rest, ')'); Some(Link(before, target, after))
  }

  function Targets(line: string): seq<string>
    decreases |line|
  {
    match FindLink(line)
    case None => []
    case Some(link) => [link.target] + Targets(link.after)
  }

  function Redirect(anchors: map<string, string>, target: string): string {
    if target in anchors then anchors[target] else target
  }

  /** Every match whose target is renamed gets the new target. */
  function ReplaceLinks(line: string, anchors: map<string, string>): string
    decreases |line|
  {
    match FindLink(line)
    case None => line
    case Some(link) =>
      link.before + ("](#" + (Redirect(anchors, link.target) + ([')'] + ReplaceLinks(link.after, anchors))))
  }

  lemma {:induction false} FindStartSplits(line: string)
    requires FindStart(line).Some?
    ensures var (before, after) := FindStart(line).value;
            && line == before + ("](#" + after)
            && forall rest :: FindStart(before + ("](#" + rest)) == Some((before, rest))
    decreases |line|
  {
    var (before, after) := FindStart(line).value;
    if line[..3] == "](#" {
      assert line == "](#" + after;
      forall rest ensures FindStart(before + ("](#" + rest)) == Some((before, rest)) {
        assert before + ("](#" + rest) == "](#" + rest;
        assert ("](#" + rest)[..3] == "](#" && ("](#" + rest)[3..] == rest;
      }
    } else {
      FindStartSplits(line[1..]);
      var (tail, _) := FindStart(line[1..]).value;
      assert before == [line[0]] + tail;
      assert line == [line[0]] + line[1..];
      forall rest ensures FindStart(before + ("](#" + rest)) == Some((before, rest)) {
        var s := before + ("](#" + rest);
        assert s[1..] == tail + ("](#" + rest);
        assert s[..3] != "](#" by {
          SameStart(line, tail, after, rest, s);
        }
      }
    }
  }

  /** Up to and including the first "](#" the two lines agree. */
  lemma SameStart(line: string, tail: string, after: string, rest: string, s: string)
    requires |line| >= 3 && line[..3] != "](#" && line[1..] == tail + ("](#" + after)
    requires s == [line[0]] + tail + ("](#" + rest)
    ensures s[..3] != "](#"
  {
    assert s[1..] == tail + ("](#" + rest);
    assert s[0] == line[0];
    assert s[1] == s[1..][0] && line[1] == line[1..][0] && s[2] == s[1..][1] && line[2] == line[1..][1];
    assert s[1] == line[1] && s[2] == line[2];
    assert s[..3] == [s[0], s[1], s[2]] && line[..3] == [line[0], line[1], line[2]];
  }

  lemma LinkSplits(line: string)
    requires FindLink(line).Some?
    ensures var link := FindLink(line).value;
            line == link.before + ("](#" + (link.target + ([')'] + link.after))) && Without(link.target, ')')
  {
    FindStartSplits(line);
    var link, rest := FindLink(line).value, FindStart(line).value.1;
    CutSplits(rest, ')');
    assert rest == link.target + ([')'] + link.after);
  }

  lemma FindLinkMade(line: string, target: string, after: string)
    requires FindStart(line).Some? && Without(target, ')')
    ensures var before := FindStart(line).value.0;
            FindLink(before + ("](#" + (target + ([')'] + after)))) == Some(Link(before, target, after))
  {
    FindStartSplits(line);
    var before := FindStart(line).value.0;
    var rest := target + ([')'] + after);
    assert FindStart(before + ("](#" + rest)) == Some((before, rest));
    assert rest == target + [')'] + after;
    CutLaw(target, ')', after);
  }

  function RedirectAll(anchors: map<string, string>, targets: seq<string>): seq<string> {
    if targets == [] then [] else [Redirect(anchors, targets[0])] + RedirectAll(anchors, targets[1..])
  }

  /** The links of a rewritten line are the links it had, each redirected. */
  lemma {:induction false} TargetsRedirected(line: string, anchors: map<string, string>)
    requires forall t :: t in anchors ==> Without(anchors[t], ')')
    ensures Targets(ReplaceLinks(line, anchors)) == RedirectAll(anchors, Targets(line))
    decreases |line|
  {
    if FindLink(line).Some? {
      var link := FindLink(line).value;
      LinkSplits(line);
      var target := Redirect(anchors, link.target);
      FindLinkMade(line, target, ReplaceLinks(link.after, anchors));
      TargetsRedirected(link.after, anchors);
      assert Targets(line)[1..] == Targets(link.after);
    }
  }

  /** The text around the targets of a line. */
  function Pieces(line: string): seq<string>
    decreases |line|
  {
    match FindLink(line)
    case None => [line]
    case Some(link) => [link.before] + Pieces(link.after)
  }

  /** A line put together from its pieces and targets. */
  function Weave(pieces: seq<string>, targets: seq<string>): string
    requires |pieces| == |targets| + 1
  {
    if targets == [] then pieces[0]
    else pieces[0] + ("](#" + (targets[0] + ([')'] + Weave(pieces[1..], targets[1..]))))
  }

  /** A line is its pieces and its targets. */
  lemma {:induction false} LineIsWoven(line: string)
    ensures |Pieces(line)| == |Targets(line)| + 1 && Weave(Pieces(line), Targets(line)) == line
    decreases |line|
  {
    if FindLink(line).Some? {
      LinkSplits(line);
      var link := FindLink(line).value;
      LineIsWoven(link.after);
      assert Pieces(line)[1..] == Pieces(link.after) && Targets(line)[1..] == Targets(link.after);
    }
  }

  /** A rewrite changes targets only: the text around them stays. */
  lemma {:induction false} PiecesKept(line: string, anchors: map<string, string>)
    requires forall t :: t in anchors ==> Without(anchors[t], ')')
    ensures Pieces(ReplaceLinks(line, anchors)) == Pieces(line)
    decreases |line|
  {
    if FindLink(line).Some? {
      LinkSplits(line);
      var link := FindLink(line).value;
      FindLinkMade(line, Redirect(anchors, link.target), ReplaceLinks(link.after, anchors));
      PiecesKept(link.after, anchors);
    }
  }

  /** A line none of whose links is renamed stays as it is. */
  lemma {:induction false} NothingToRedirect(line: string, anchors: map<string, string>)
    requires forall t :: t in Targets(line) ==> t !in anchors
    ensures ReplaceLinks(line, anchors) == line
    decreases |line|
  {
    if FindLink(line).Some? {
      var link := FindLink(line).value;
      LinkSplits(line);
      assert link.target in Targets(line);
      assert Targets(line)[1..] == Targets(link.after);
      NothingToRedirect(link.after, anchors);
    }
  }

  lemma {:induction false} NoStartAppend(line: string, x: string)
    requires FindStart(line).None? && FindStart(x).None? && x != [] && x[0] !in {'(', '#'}
    ensures FindStart(line + x).None?
    decreases |line|
  {
    if line == [] {
      assert line + x == x;
    } else {
      assert (line + x)[1..] == line[1..] + x;
      NoStartAppend(line[1..], x);
      if |line| < 3 {
        assert (line + x)[|line|] == x[0];
      } else {
        assert (line + x)[..3] == line[..3];
      }
    }
  }

  lemma {:induction false} NoStart(x: string)
    requires Without(x, ']')
    ensures FindStart(x).None?
    decreases |x|
  {
    if |x| >= 3 {
      assert x[..3][0] == x[0];
      NoStart(x[1..]);
    }
  }

  lemma FindStartAppend(line: string, x: string)
    requires FindStart(line).Some?
    ensures FindStart(line + x) == Some((FindStart(line).value.0, FindStart(line).value.1 + x))
  {
    FindStartSplits(line);
    var (before, after) := FindStart(line).value;
    assert line + x == before + ("](#" + (after + x));
  }

  lemma FindLinkAppend(line: string, x: string)
    requires FindLink(line).Some?
    ensures var link := FindLink(line).value; FindLink(line + x) == Some(link.(after := link.after + x))
  {
    LinkSplits(line);
    FindStartAppend(line, x);
    var link, rest := FindLink(line).value, FindStart(line).value.1;
    CutSplits(rest, ')');
    assert rest + x == link.target + [')'] + (link.after + x);
    CutLaw(link.target, ')', link.after + x);
  }

  /** An appended suffix adds at most one link, and that one is no slug. */
  lemma {:induction false} SuffixTargets(line: string, suffix: string)
    requires Without(suffix, ']') && Without(suffix, ')')
    ensures Targets(line) <= Targets(Suffixed(line, suffix))
    ensures forall t :: t in Targets(Suffixed(line, suffix)) ==> t in Targets(line) || ' ' in t
    decreases |line|
  {
    var x := " (" + suffix + ")";
    if FindLink(line).Some? {
      FindLinkAppend(line, x);
      var after := FindLink(line).value.after;
      SuffixTargets(after, suffix);
    } else if FindStart(line).Some? {
      FindStartAppend(line, x);
      var rest := FindStart(line).value.1;
      UnfinishedLink(rest, suffix);
      NoStart("");
    } else {
      NoStart(x);
      NoStartAppend(line, x);
    }
  }

  lemma UnfinishedLink(rest: string, suffix: string)
    requires Cut(rest, ')').None? && Without(suffix, ')')
    ensures Cut(rest + (" (" + suffix + ")"), ')') == Some((rest + " (" + suffix, ""))
    ensures ' ' in rest + " (" + suffix
  {
    NoCutNoChar(rest, ')');
    var target := rest + " (" + suffix;
    assert target[|rest|] == ' ';
    assert Without(target, ')');
    CutLaw(target, ')', "");
    assert target + [')'] + "" == rest + (" (" + suffix + ")");
  }

  /** Links stay where they are when a line grows at its end. */
  lemma {:induction false} TargetsGrow(line: string, x: string)
    ensures Targets(line) <= Targets(line + x)
    decreases |line|
  {
    if FindLink(line).Some? {
      FindLinkAppend(line, x);
      TargetsGrow(FindLink(line).value.after, x);
    }
  }
}
