/** When links find their headings after the rewrite: the exact condition, a failing input, and the listed versions. */
module AnchorLaws {
  import opened Common
  import opened Text
  import opened Anchors
  import opened AnchorRewrite

  // ---------------------------------------------------------------- counting letters and digits

  /** How many characters of a slug are letters or digits. */
  ghost function Letters(sc: Script, s: string): nat {
    if s == [] then 0 else (if sc.letterOrDigit(s[0]) then 1 else 0) + Letters(sc, s[1..])
  }

  /** How many characters of a text go into its slug. */
  ghost function Heard(sc: Script, s: string): nat {
    if s == [] then 0 else (if sc.letterOrDigit(sc.lower(s[0])) then 1 else 0) + Heard(sc, s[1..])
  }

  lemma {:induction false} LettersAppend(sc: Script, a: string, b: string)
    ensures Letters(sc, a + b) == Letters(sc, a) + Letters(sc, b)
    decreases |a|
  {
    if a == [] {
      assert a + b == b;
    } else {
      assert (a + b)[1..] == a[1..] + b;
      LettersAppend(sc, a[1..], b);
    }
  }

  lemma {:induction false} HeardAppend(sc: Script, a: string, b: string)
    ensures Heard(sc, a + b) == Heard(sc, a) + Heard(sc, b)
    decreases |a|
  {
    if a == [] {
      assert a + b == b;
    } else {
      assert (a + b)[1..] == a[1..] + b;
      HeardAppend(sc, a[1..], b);
    }
  }

  lemma {:induction false} PlainCounts(sc: Script, s: string)
    requires Plain(sc, s)
    ensures Letters(sc, s) == |s| && Heard(sc, s) == |s|
    decreases |s|
  {
    if s != [] {
      PlainCounts(sc, s[1..]);
    }
  }

  lemma LettersOne(sc: Script, c: char)
    ensures Letters(sc, [c]) == if sc.letterOrDigit(c) then 1 else 0
  {
    assert [c][1..] == [];
  }

  /** A slug has as many letters and digits as its text. */
  lemma {:induction false} FoldCounts(sc: Script, s: string, st: Slugging)
    requires Sane(sc)
    ensures Letters(sc, Fold(sc, s, st).out) == Letters(sc, st.out) + Heard(sc, s)
    decreases |s|
  {
    if s != [] {
      var c := sc.lower(s[0]);
      FoldCounts(sc, s[1..], Step(sc, st, c));
      LettersAppend(sc, st.out, "-");
      LettersOne(sc, '-');
      LettersOne(sc, c);
      LettersAppend(sc, st.out, [c]);
      LettersAppend(sc, st.out + "-", [c]);
    }
  }

  lemma SlugCounts(sc: Script, s: string)
    requires Sane(sc)
    ensures Letters(sc, SlugOf(sc, s)) == Heard(sc, s)
  {
    FoldCounts(sc, s, Slugging("", false));
  }

  lemma {:induction false} HeardSome(sc: Script, s: string)
    ensures Heard(sc, s) > 0 <==> HasLetterOrDigit(sc, s)
    decreases |s|
  {
    if s != [] {
      HeardSome(sc, s[1..]);
      assert s == [s[0]] + s[1..];
      if HasLetterOrDigit(sc, s[1..]) {
        var i :| 0 <= i < |s[1..]| && sc.letterOrDigit(sc.lower(s[1..][i]));
        assert s[i + 1] == s[1..][i];
      }
      if HasLetterOrDigit(sc, s) {
        var i :| 0 <= i < |s| && sc.letterOrDigit(sc.lower(s[i]));
        assert i > 0 ==> s[1..][i - 1] == s[i];
      }
    }
  }

  /** A slug starts with a letter or digit. */
  lemma {:induction false} SlugStarts(sc: Script, s: string, st: Slugging)
    requires st.out != "" ==> sc.letterOrDigit(st.out[0])
    ensures var out := Fold(sc, s, st).out; out != "" ==> sc.letterOrDigit(out[0])
    decreases |s|
  {
    if s != [] {
      SlugStarts(sc, s[1..], Step(sc, st, sc.lower(s[0])));
    }
  }

  // ---------------------------------------------------------------- links in a heading

  lemma {:induction false} FindStartSkips(before: string, x: string)
    requires Without(before, ']')
    ensures FindStart(x).None? ==> FindStart(before + x).None?
    ensures FindStart(x).Some? ==> FindStart(before + x) == Some((before + FindStart(x).value.0, FindStart(x).value.1))
    decreases |before|
  {
    if before == [] {
      assert before + x == x;
      assert FindStart(x).Some? ==> before + FindStart(x).value.0 == FindStart(x).value.0;
    } else {
      var s := before + x;
      assert s[1..] == before[1..] + x && s[0] != ']';
      FindStartSkips(before[1..], x);
      if |s| >= 3 {
        assert s[..3][0] == s[0];
      }
      if FindStart(x).Some? {
        assert [before[0]] + (before[1..] + FindStart(x).value.0) == before + FindStart(x).value.0;
      }
    }
  }

  lemma FindLinkSkips(before: string, x: string)
    requires Without(before, ']')
    ensures FindLink(x).None? ==> FindLink(before + x).None?
    ensures FindLink(x).Some? ==>
              FindLink(before + x) == Some(FindLink(x).value.(before := before + FindLink(x).value.before))
  {
    FindStartSkips(before, x);
  }

  /** The marker of a heading takes no part in its links. */
  lemma LinksSkip(before: string, x: string, anchors: map<string, string>)
    requires Without(before, ']')
    ensures Targets(before + x) == Targets(x) && ReplaceLinks(before + x, anchors) == before + ReplaceLinks(x, anchors)
  {
    FindLinkSkips(before, x);
    if FindLink(x).Some? {
      var link := FindLink(x).value;
      var rest := "](#" + (Redirect(anchors, link.target) + ([')'] + ReplaceLinks(link.after, anchors)));
      assert (before + link.before) + rest == before + (link.before + rest);
    }
  }

  lemma {:induction false} ReplaceLinksEnds(x: string, anchors: map<string, string>)
    requires x != [] && x[|x| - 1] == ')'
    ensures var r := ReplaceLinks(x, anchors); r != [] && r[|r| - 1] == ')'
    decreases |x|
  {
    if FindLink(x).Some? {
      LinkSplits(x);
      var link := FindLink(x).value;
      if link.after != [] {
        ReplaceLinksEnds(link.after, anchors);
      }
    }
  }

  /** Every redirected link makes a text longer by the suffix, so more of it goes into the slug. */
  lemma {:induction false} RedirectsAreHeard(sc: Script, x: string, slugs: set<string>, suffix: string)
    requires Plain(sc, suffix) && suffix != []
    ensures Heard(sc, ReplaceLinks(x, AnchorsFor(slugs, suffix))) >= Heard(sc, x)
    ensures (exists t :: t in Targets(x) && t in slugs) ==>
              Heard(sc, ReplaceLinks(x, AnchorsFor(slugs, suffix))) > Heard(sc, x)
    decreases |x|
  {
    var anchors := AnchorsFor(slugs, suffix);
    if FindLink(x).Some? {
      LinkSplits(x);
      var link := FindLink(x).value;
      RedirectsAreHeard(sc, link.after, slugs, suffix);
      HeardLink(sc, link.before, link.target, link.after);
      HeardLink(sc, link.before, Redirect(anchors, link.target), ReplaceLinks(link.after, anchors));
      RedirectIsHeard(sc, slugs, suffix, link.target);
      assert Targets(x)[1..] == Targets(link.after) && Targets(x) == [link.target] + Targets(link.after);
    }
  }

  lemma HeardLink(sc: Script, before: string, target: string, after: string)
    ensures Heard(sc, before + ("](#" + (target + ([')'] + after)))) ==
            Heard(sc, before) + Heard(sc, "](#") + Heard(sc, target) + Heard(sc, [')']) + Heard(sc, after)
  {
    HeardAppend(sc, before, "](#" + (target + ([')'] + after)));
    HeardAppend(sc, "](#", target + ([')'] + after));
    HeardAppend(sc, target, [')'] + after);
    HeardAppend(sc, [')'], after);
  }

  lemma RedirectIsHeard(sc: Script, slugs: set<string>, suffix: string, t: string)
    requires Plain(sc, suffix) && suffix != []
    ensures Heard(sc, Redirect(AnchorsFor(slugs, suffix), t)) >= Heard(sc, t)
    ensures t in slugs ==> Heard(sc, Redirect(AnchorsFor(slugs, suffix), t)) > Heard(sc, t)
  {
    if t in slugs {
      HeardAppend(sc, t + "-", suffix);
      HeardAppend(sc, t, "-");
      PlainCounts(sc, suffix);
    }
  }

  // ---------------------------------------------------------------- the exact condition

  /** How a shared heading reads after both loops. */
  lemma HeadingAfter(line: string, suffix: string, anchors: map<string, string>)
    requires TypeHeading(line).Some?
    ensures var text := TypeHeading(line).value;
            TypeHeading(ReplaceLinks(Renamed(line, text, suffix), anchors)) ==
            Some(ReplaceLinks(Suffixed(AfterMarker(line) + Doubled(line, text), suffix), anchors))
    ensures Targets(line) == Targets(AfterMarker(line))
  {
    var text, marker, rest := TypeHeading(line).value, Marker(line), AfterMarker(line);
    var shown := Suffixed(rest + Doubled(line, text), suffix);
    HeadingParts(line);
    RenamedParts(line, suffix);
    LinksSkip(marker, rest, anchors);
    LinksSkip(marker, shown, anchors);
    ReplaceLinksEnds(shown, anchors);
    HeadingOf(marker, ReplaceLinks(shown, anchors));
  }

  /** The renamed heading says more than its links expect when text is doubled or a link in it is redirected. */
  lemma HeardMore(sc: Script, line: string, suffix: string, slugs: set<string>)
    requires Sane(sc) && Plain(sc, suffix) && suffix != [] && TypeHeading(line).Some? &&
             HasLetterOrDigit(sc, TypeHeading(line).value)
    requires !NoTrailingBlank(line) || exists t :: t in Targets(line) && t in slugs
    ensures var text := TypeHeading(line).value;
            Heard(sc, ReplaceLinks(Suffixed(AfterMarker(line) + Doubled(line, text), suffix),
                                   AnchorsFor(slugs, suffix))) > Heard(sc, text) + |suffix|
  {
    var text, rest := TypeHeading(line).value, AfterMarker(line);
    var doubled := Doubled(line, text);
    var shown := Suffixed(rest + doubled, suffix);
    HeardText(sc, line);
    HeardSuffixed(sc, rest + doubled, suffix);
    HeardAppend(sc, rest, doubled);
    HeardSome(sc, text);
    RedirectsAreHeard(sc, shown, slugs, suffix);
    if !NoTrailingBlank(line) {
      TextIsDoubled(sc, line);
    } else {
      TargetsShown(line, doubled, suffix);
    }
  }

  lemma HeardText(sc: Script, line: string)
    requires TypeHeading(line).Some?
    ensures Heard(sc, AfterMarker(line)) >= Heard(sc, TypeHeading(line).value)
  {
    var text, rest := TypeHeading(line).value, AfterMarker(line);
    GroupKeeps(rest);
    HeardAppend(sc, text, rest[|text|..]);
    assert text + rest[|text|..] == rest;
  }

  lemma TargetsShown(line: string, more: string, suffix: string)
    requires TypeHeading(line).Some?
    ensures Targets(line) <= Targets(Suffixed(AfterMarker(line) + more, suffix))
  {
    var rest, x := AfterMarker(line), " (" + suffix + ")";
    HeadingParts(line);
    LinksSkip(Marker(line), rest, map[]);
    TargetsGrow(rest, more + x);
    assert rest + (more + x) == Suffixed(rest + more, suffix);
  }

  lemma HeardSuffixed(sc: Script, s: string, suffix: string)
    requires Plain(sc, suffix)
    ensures Heard(sc, Suffixed(s, suffix)) >= Heard(sc, s) + |suffix|
  {
    HeardAppend(sc, s, " (" + suffix + ")");
    HeardAppend(sc, " (" + suffix, ")");
    HeardAppend(sc, " (", suffix);
    PlainCounts(sc, suffix);
  }

  /** A trailing blank keeps the old text on the line. */
  lemma TextIsDoubled(sc: Script, line: string)
    requires Sane(sc) && TypeHeading(line).Some? && HasLetterOrDigit(sc, TypeHeading(line).value) &&
             !NoTrailingBlank(line)
    ensures Doubled(line, TypeHeading(line).value) == TypeHeading(line).value
  {
    var text, rest := TypeHeading(line).value, AfterMarker(line);
    TrimRightKeeps(rest);
    GroupKeeps(rest);
    if TrimRight(rest) == [] {
      BlankIsSilent(sc, rest);
      assert false;
    }
    assert text[|text| - 1] != line[|line| - 1];
    assert |text| <= |line| ==> line[|line| - |text|..][|text| - 1] == line[|line| - 1];
  }

  lemma {:induction false} BlankIsSilent(sc: Script, s: string)
    requires Sane(sc) && TrimRight(s) == []
    ensures forall i :: 0 <= i < |s| ==> !sc.letterOrDigit(sc.lower(s[i]))
    decreases |s|
  {
    if s != [] {
      assert Blank(s[|s| - 1]);
      BlankIsSilent(sc, s[..|s| - 1]);
    }
  }

  /**
   A heading that its links still find: it goes into a slug, ends its line, and holds no link that is itself
   redirected.
   */
  ghost predicate Findable(sc: Script, line: string, slugs: set<string>)
    requires TypeHeading(line).Some?
  {
    && HasLetterOrDigit(sc, TypeHeading(line).value) && NoTrailingBlank(line)
    && forall t :: t in Targets(line) ==> t !in slugs
  }

  /**
   A link that pointed at a shared heading's slug points, after the rewrite, at the slug of the heading as it
   now reads exactly when the heading is findable.
   */
  lemma LinksFollowHeadingsExact(sc: Script, lines: seq<string>, previous: Section, current: Section, suffix: string,
                                 i: nat, k: nat, j: nat)
    requires Sane(sc) && suffix != [] && Plain(sc, suffix)
    requires current.start < i < current.end <= |lines| && current.start < k < current.end && j < |Targets(lines[k])|
    requires IsShared(HeadingTexts(lines, previous), lines[i])
    requires Targets(lines[k])[j] == SlugOf(sc, TypeHeading(lines[i]).value)
    ensures var after := Rewritten(sc, lines, previous, current, suffix);
            && TypeHeading(after[i]).Some? && j < |Targets(after[k])|
            && (Targets(after[k])[j] == SlugOf(sc, TypeHeading(after[i]).value) <==>
                Findable(sc, lines[i], SharedSlugs(sc, HeadingTexts(lines, previous), lines, current, current.end)))
  {
    var texts := HeadingTexts(lines, previous);
    var slugs := SharedSlugs(sc, texts, lines, current, current.end);
    var heading := TypeHeading(lines[i]).value;
    SharedIsListed(sc, texts, lines, current, i);
    LinksRedirected(sc, lines, previous, current, suffix, k, j);
    RewrittenAt(sc, lines, previous, current, suffix, i);
    HeadingAfter(lines[i], suffix, AnchorsFor(slugs, suffix));
    if Findable(sc, lines[i], slugs) {
      LinksFollowCleanHeadings(sc, lines, previous, current, suffix, i, k, j);
    } else {
      LinkMisses(sc, lines[i], suffix, slugs);
    }
  }

  lemma LinkMisses(sc: Script, line: string, suffix: string, slugs: set<string>)
    requires Sane(sc) && Plain(sc, suffix) && suffix != [] && TypeHeading(line).Some? && !Findable(sc, line, slugs)
    ensures var text := TypeHeading(line).value;
            SlugOf(sc, text) + "-" + suffix !=
            SlugOf(sc, ReplaceLinks(Suffixed(AfterMarker(line) + Doubled(line, text), suffix),
                                    AnchorsFor(slugs, suffix)))
  {
    var text := TypeHeading(line).value;
    var shown := ReplaceLinks(Suffixed(AfterMarker(line) + Doubled(line, text), suffix), AnchorsFor(slugs, suffix));
    var link := SlugOf(sc, text) + "-" + suffix;
    if HasLetterOrDigit(sc, text) {
      HeardMore(sc, line, suffix, slugs);
      SlugCounts(sc, shown);
      SlugCounts(sc, text);
      LettersAppend(sc, SlugOf(sc, text) + "-", suffix);
      LettersAppend(sc, SlugOf(sc, text), "-");
      LettersOne(sc, '-');
      PlainCounts(sc, suffix);
    } else {
      FoldOut(sc, text, Slugging("", false));
      assert link[0] == '-';
      SlugStarts(sc, shown, Slugging("", false));
    }
  }

  // ---------------------------------------------------------------- the purpose

  /** A type heading of a section has this slug. */
  ghost predicate HasSlug(sc: Script, lines: seq<string>, s: Section, slug: string) {
    exists m :: s.start < m < s.end && m < |lines| && TypeHeading(lines[m]).Some? &&
      SlugOf(sc, TypeHeading(lines[m]).value) == slug
  }

  /**
   What the tool is for: after the rewrite a findable shared heading shares its slug with no heading of the previous
   section, exactly when that section had no heading with the suffixed slug.
   */
  lemma SharedHeadingsAreToldApart(sc: Script, lines: seq<string>, previous: Section, current: Section, suffix: string,
                                   i: nat)
    requires Sane(sc) && suffix != [] && Plain(sc, suffix) && Disjoint(current, previous)
    requires current.start < i < current.end <= |lines| && IsShared(HeadingTexts(lines, previous), lines[i])
    requires Findable(sc, lines[i], SharedSlugs(sc, HeadingTexts(lines, previous), lines, current, current.end))
    ensures var after := Rewritten(sc, lines, previous, current, suffix);
            && TypeHeading(after[i]) == Some(Suffixed(TypeHeading(lines[i]).value, suffix))
            && (HasSlug(sc, after, previous, SlugOf(sc, TypeHeading(after[i]).value)) <==>
                HasSlug(sc, lines, previous, SlugOf(sc, TypeHeading(lines[i]).value) + "-" + suffix))
  {
    var after := Rewritten(sc, lines, previous, current, suffix);
    HeadingKept(sc, lines, previous, current, suffix, i);
    HeadingRenamed(lines[i], suffix);
    SlugOfSuffixed(sc, TypeHeading(lines[i]).value, suffix);
    SlugsKept(sc, lines, after, previous, SlugOf(sc, TypeHeading(lines[i]).value) + "-" + suffix);
  }

  lemma SlugsKept(sc: Script, x: seq<string>, y: seq<string>, s: Section, slug: string)
    requires |x| == |y| && forall m :: s.start < m < s.end && m < |x| ==> x[m] == y[m]
    ensures HasSlug(sc, x, s, slug) <==> HasSlug(sc, y, s, slug)
  {
  }

  /** The exception: the previous section already has a heading that reads as the renamed one will. */
  lemma SuffixAlreadyTaken(sc: Script, lines: seq<string>, previous: Section, suffix: string, m: nat, heading: string)
    requires Sane(sc) && suffix != [] && Plain(sc, suffix) && HasLetterOrDigit(sc, heading)
    requires previous.start < m < previous.end && m < |lines| &&
             TypeHeading(lines[m]) == Some(Suffixed(heading, suffix))
    ensures HasSlug(sc, lines, previous, SlugOf(sc, heading) + "-" + suffix)
  {
    SlugOfSuffixed(sc, heading, suffix);
  }

  // ---------------------------------------------------------------- a heading that its links miss

  /** ASCII letters and digits, and the marks that a link is written with. */
  ghost predicate Ascii(sc: Script) {
    && Sane(sc)
    && Mark(sc, '[') && Mark(sc, '#') && !sc.space('[') && !sc.space(']') && !sc.space('#')
    && (forall c :: 'a' <= c <= 'z' || '0' <= c <= '9' ==> sc.letterOrDigit(c) && sc.lower(c) == c)
    && sc.lower('F') == 'f'
  }

  ghost function HeadingLine(text: string): string {
    "### " + text
  }

  /** A link as Markdown writes it. */
  ghost function LinkTo(caption: string, target: string): string {
    ("[" + caption) + ("](#" + (target + ")"))
  }

  /** Both sections have a word and a link with its slug as headings; the last line links to the second one's slug. */
  ghost function MissingExample(word: string, target: string, link: string): seq<string> {
    [ "## a/v2", HeadingLine(word), HeadingLine(LinkTo(word, target)),
      "## a/v3", HeadingLine(word), HeadingLine(LinkTo(word, target)), LinkTo("x", link) ]
  }

  lemma {:induction false} FoldSilent(sc: Script, s: string, st: Slugging)
    requires forall i :: 0 <= i < |s| ==> Mark(sc, s[i]) && !sc.space(s[i]) && s[i] != '-'
    ensures Fold(sc, s, st) == st
    decreases |s|
  {
    if s != [] {
      FoldSilent(sc, s[1..], st);
    }
  }

  lemma FoldFoo(sc: Script, out: string)
    requires Ascii(sc)
    ensures Fold(sc, "Foo", Slugging(out, false)) == Slugging(out + "foo", false)
  {
    assert "Foo"[1..] == "oo";
    FoldPlain(sc, "oo", out + ['f']);
    assert out + ['f'] + "oo" == out + "foo";
  }

  lemma SlugOfLink(sc: Script)
    requires Ascii(sc)
    ensures SlugOf(sc, "Foo") == "foo" && SlugOf(sc, LinkTo("Foo", "foo")) == "foofoo"
  {
    var start := Slugging("", false);
    FoldFoo(sc, "");
    FoldAppend(sc, "[" + "Foo", "](#" + ("foo" + ")"), start);
    FoldAppend(sc, "[", "Foo", start);
    FoldSilent(sc, "[", start);
    FoldAppend(sc, "](#", "foo" + ")", Slugging("foo", false));
    FoldSilent(sc, "](#", Slugging("foo", false));
    FoldAppend(sc, "foo", ")", Slugging("foo", false));
    FoldPlain(sc, "foo", "foo");
    FoldSilent(sc, ")", Slugging("foo" + "foo", false));
  }

  lemma TypedHeading(text: string)
    requires text != [] && !Blank(text[|text| - 1])
    ensures TypeHeading(HeadingLine(text)) == Some(text)
  {
    assert "### "[1..] == "## " && "## "[1..] == "# " && "# "[1..] == " ";
    assert Hashes(" ") == 0 && Hashes("# ") == 1 && Hashes("## ") == 2 && Hashes("### ") == 3;
    HeadingOf("### ", text);
  }

  lemma LinkTargets(caption: string, target: string)
    requires Without(caption, ']') && Without(target, ')')
    ensures Targets(LinkTo(caption, target)) == [target] == Targets(HeadingLine(LinkTo(caption, target)))
    ensures TypeHeading(HeadingLine(LinkTo(caption, target))) == Some(LinkTo(caption, target))
  {
    var x := "](#" + (target + ")");
    assert x[..3] == "](#" && x[3..] == target + ")";
    FindStartSkips("[" + caption, x);
    CutLaw(target, ')', "");
    assert target + [')'] + "" == target + ")";
    assert Targets("") == [];
    LinksSkip("### ", LinkTo(caption, target), map[]);
    TypedHeading(LinkTo(caption, target));
  }

  /** A heading with a link to another shared heading is missed by the links to itself. */
  lemma LinkedHeadingIsMissed(sc: Script, lines: seq<string>, previous: Section, current: Section, suffix: string,
                              i: nat, m: nat, k: nat, j: nat)
    requires Sane(sc) && suffix != [] && Plain(sc, suffix)
    requires current.start < i < current.end <= |lines| && current.start < m < current.end &&
             current.start < k < current.end
    requires IsShared(HeadingTexts(lines, previous), lines[i]) && IsShared(HeadingTexts(lines, previous), lines[m])
    requires SlugOf(sc, TypeHeading(lines[m]).value) in Targets(lines[i])
    requires j < |Targets(lines[k])| && Targets(lines[k])[j] == SlugOf(sc, TypeHeading(lines[i]).value)
    ensures var after := Rewritten(sc, lines, previous, current, suffix);
            && TypeHeading(after[i]).Some? && j < |Targets(after[k])|
            && Targets(after[k])[j] != SlugOf(sc, TypeHeading(after[i]).value)
  {
    SharedIsListed(sc, HeadingTexts(lines, previous), lines, current, m);
    LinksFollowHeadingsExact(sc, lines, previous, current, suffix, i, k, j);
  }

  lemma SharedThere(lines: seq<string>, s: Section, m: nat, i: nat)
    requires s.start < m < s.end <= |lines| && i < |lines|
    requires TypeHeading(lines[m]).Some? && TypeHeading(lines[m]) == TypeHeading(lines[i]) &&
             TypeHeading(lines[i]).value != "Resource Types"
    ensures IsShared(HeadingTexts(lines, s), lines[i])
  {
  }

  lemma ExampleHeadings(word: string, target: string)
    requires word != [] && !Blank(word[|word| - 1]) && Without(word, ']') && Without(target, ')')
    ensures TypeHeading(HeadingLine(word)) == Some(word) &&
            TypeHeading(HeadingLine(LinkTo(word, target))) == Some(LinkTo(word, target))
    ensures Targets(HeadingLine(LinkTo(word, target))) == [target] && LinkTo(word, target) != "Resource Types"
  {
    TypedHeading(word);
    LinkTargets(word, target);
    LinkIsNoResourceTypes(word, target);
  }

  lemma LinkIsNoResourceTypes(caption: string, target: string)
    ensures LinkTo(caption, target) != "Resource Types"
  {
    assert LinkTo(caption, target)[0] == '[' && "Resource Types"[0] == 'R';
  }

  lemma TwoShared(lines: seq<string>, a: string, b: string)
    requires |lines| == 7 && lines[1] == lines[4] == a && lines[2] == lines[5] == b
    requires TypeHeading(a).Some? && TypeHeading(a).value != "Resource Types" && TypeHeading(b).Some? &&
             TypeHeading(b).value != "Resource Types"
    ensures IsShared(HeadingTexts(lines, Section(0, 3)), a) && IsShared(HeadingTexts(lines, Section(0, 3)), b)
  {
    SharedThere(lines, Section(0, 3), 1, 4);
    SharedThere(lines, Section(0, 3), 2, 5);
  }

  lemma WordExample(sc: Script, word: string, target: string, link: string)
    requires Sane(sc) && Plain(sc, "v3") && word != [] && !Blank(word[|word| - 1]) && word != "Resource Types"
    requires Without(word, ']') && Without(target, ')') && Without(link, ')')
    requires SlugOf(sc, word) == target && SlugOf(sc, LinkTo(word, target)) == link
    ensures var after := Rewritten(sc, MissingExample(word, target, link), Section(0, 3), Section(3, 7), "v3");
            && TypeHeading(after[5]).Some? && |Targets(after[6])| > 0
            && Targets(after[6])[0] != SlugOf(sc, TypeHeading(after[5]).value)
  {
    var lines := MissingExample(word, target, link);
    ExampleHeadings(word, target);
    LinkTargets("x", link);
    TwoShared(lines, HeadingLine(word), HeadingLine(LinkTo(word, target)));
    LinkedHeadingIsMissed(sc, lines, Section(0, 3), Section(3, 7), "v3", 5, 4, 6, 0);
  }

  /** Such an input: the link to "[Foo](#foo)" leads nowhere after the rewrite. */
  lemma LinkedHeadingExample(sc: Script)
    requires Ascii(sc)
    ensures var after := Rewritten(sc, MissingExample("Foo", "foo", "foofoo"), Section(0, 3), Section(3, 7), "v3");
            && TypeHeading(after[5]).Some? && |Targets(after[6])| > 0
            && Targets(after[6])[0] != SlugOf(sc, TypeHeading(after[5]).value)
  {
    SlugOfLink(sc);
    assert |"Foo"| == 3 && |"Resource Types"| == 14;
    WordExample(sc, "Foo", "foo", "foofoo");
  }

  // ---------------------------------------------------------------- the listed versions

  const VERSION_PAIRS: seq<Pair> := [
    Pair("config.opendatahub.io/v1alpha1", "config.opendatahub.io/v1alpha2", "v1alpha2"),
    Pair("datasciencecluster.opendatahub.io/v2", "datasciencecluster.opendatahub.io/v3", "v3")]

  lemma VersionPairsAreDistinct()
    ensures DistinctNames(VERSION_PAIRS)
  {
    var a, b := VERSION_PAIRS[0], VERSION_PAIRS[1];
    assert |a.previous| == 30 && |a.current| == 30 && |b.previous| == 36 && |b.current| == 36;
  }

  lemma VersionSuffixesArePlain(sc: Script, n: nat)
    requires Ascii(sc) && n < |VERSION_PAIRS|
    ensures VERSION_PAIRS[n].suffix != [] && Plain(sc, VERSION_PAIRS[n].suffix)
  {
  }

  /**
   The program on its two pairs: a link to a shared heading's slug finds the heading afterwards exactly when it is
   findable.
   */
  lemma ProgramLinksFollowHeadings(sc: Script, lines: seq<string>, sections: map<string, Section>, n: nat, i: nat,
                                   k: nat, j: nat)
    requires Ascii(sc) && n < |VERSION_PAIRS| && Located(Names(lines), sections) && Listed(sections, VERSION_PAIRS)
    requires VERSION_PAIRS[n] in VERSION_PAIRS
    requires sections[VERSION_PAIRS[n].current].start < i < sections[VERSION_PAIRS[n].current].end <= |lines|
    requires sections[VERSION_PAIRS[n].current].start < k < sections[VERSION_PAIRS[n].current].end
    requires IsShared(HeadingTexts(lines, sections[VERSION_PAIRS[n].previous]), lines[i])
    requires j < |Targets(lines[k])| && Targets(lines[k])[j] == SlugOf(sc, TypeHeading(lines[i]).value)
    ensures var previous, current := sections[VERSION_PAIRS[n].previous], sections[VERSION_PAIRS[n].current];
            var after := RewrittenBy(sc, lines, sections, VERSION_PAIRS);
            && |after| == |lines| && TypeHeading(after[i]).Some? && j < |Targets(after[k])|
            && (Targets(after[k])[j] == SlugOf(sc, TypeHeading(after[i]).value) <==>
                Findable(sc, lines[i], SharedSlugs(sc, HeadingTexts(lines, previous), lines, current, current.end)))
  {
    var p := VERSION_PAIRS[n];
    VersionPairsAreDistinct();
    VersionSuffixesArePlain(sc, n);
    DistinctNamesAreApart(Names(lines), sections, VERSION_PAIRS);
    PairsDoNotInterfere(sc, lines, sections, VERSION_PAIRS, n, i);
    PairsDoNotInterfere(sc, lines, sections, VERSION_PAIRS, n, k);
    LinksFollowHeadingsExact(sc, lines, sections[p.previous], sections[p.current], p.suffix, i, k, j);
  }
}
