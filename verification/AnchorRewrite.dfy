/** The in-place rewrite of one version's section of the API reference (hack/disambiguate-api-doc-anchors.go). */
module AnchorRewrite {
  import opened Common
  import opened Text
  import opened Anchors

  // ---------------------------------------------------------------- sections

  datatype Section = Section(start: nat, end: nat)

  /** The section name that each line announces, if any. */
  function Names(lines: seq<string>): seq<Option<string>> {
    seq(|lines|, i requires 0 <= i < |lines| => SectionHeading(lines[i]))
  }

  /** From the last heading with this name to the next section heading, or to the end of the lines. */
  ghost predicate IsSection(names: seq<Option<string>>, name: string, s: Section) {
    && s.start < s.end <= |names|
    && names[s.start] == Some(name)
    && (forall i :: s.start < i < s.end ==> names[i].None?)
    && (s.end < |names| ==> names[s.end].Some?)
    && (forall i :: s.end <= i < |names| ==> names[i] != Some(name))
  }

  ghost predicate Located(names: seq<Option<string>>, sections: map<string, Section>) {
    && (forall name :: name in sections ==> IsSection(names, name, sections[name]))
    && (forall i :: 0 <= i < |names| && names[i].Some? ==> names[i].value in sections)
  }

  datatype Open = Open(name: string, start: nat)

  /** A section that ended before line `n`; only the open one may have its name again. */
  ghost predicate Closed(names: seq<Option<string>>, n: nat, name: string, s: Section, open: Option<Open>)
    requires n <= |names|
  {
    && s.start < s.end < n
    && names[s.start] == Some(name)
    && (forall i :: s.start < i < s.end ==> names[i].None?)
    && names[s.end].Some?
    && (forall i :: s.end <= i < n && names[i] == Some(name) ==> open == Some(Open(name, i)))
  }

  ghost predicate IsOpen(names: seq<Option<string>>, n: nat, open: Open)
    requires n <= |names|
  {
    open.start < n && names[open.start] == Some(open.name) && forall i :: open.start < i < n ==> names[i].None?
  }

  /** The sections closed and the one open after `n` lines. */
  ghost predicate Scanned(names: seq<Option<string>>, n: nat, sections: map<string, Section>, open: Option<Open>)
    requires n <= |names|
  {
    && (open.Some? ==> IsOpen(names, n, open.value))
    && (forall name :: name in sections ==> Closed(names, n, name, sections[name], open))
    && (forall i :: 0 <= i < n && names[i].Some? ==>
          names[i].value in sections || open == Some(Open(names[i].value, i)))
  }

  function Close(sections: map<string, Section>, open: Option<Open>, end: nat): map<string, Section> {
    if open.None? then sections else sections[open.value.name := Section(open.value.start, end)]
  }

  lemma SameSection(names: seq<Option<string>>, n: nat, sections: map<string, Section>, open: Option<Open>)
    requires n < |names| && names[n].None? && Scanned(names, n, sections, open)
    ensures Scanned(names, n + 1, sections, open)
  {
    forall name | name in sections ensures Closed(names, n + 1, name, sections[name], open) {
      ClosedWaits(names, n, name, sections[name], open);
    }
  }

  lemma ClosedWaits(names: seq<Option<string>>, n: nat, name: string, s: Section, open: Option<Open>)
    requires n < |names| && names[n].None? && Closed(names, n, name, s, open)
    ensures Closed(names, n + 1, name, s, open)
  {
  }

  lemma NextSection(names: seq<Option<string>>, n: nat, sections: map<string, Section>, open: Option<Open>)
    requires n < |names| && names[n].Some? && Scanned(names, n, sections, open)
    ensures Scanned(names, n + 1, Close(sections, open, n), Some(Open(names[n].value, n)))
  {
    var closed := Close(sections, open, n);
    forall name | name in closed ensures Closed(names, n + 1, name, closed[name], Some(Open(names[n].value, n))) {
      if open.Some? && name == open.value.name {
        OpenCloses(names, n, open.value);
      } else {
        ClosedStays(names, n, name, sections[name], open);
      }
    }
  }

  lemma OpenCloses(names: seq<Option<string>>, n: nat, open: Open)
    requires n < |names| && names[n].Some? && IsOpen(names, n, open)
    ensures Closed(names, n + 1, open.name, Section(open.start, n), Some(Open(names[n].value, n)))
  {
  }

  lemma ClosedStays(names: seq<Option<string>>, n: nat, name: string, s: Section, open: Option<Open>)
    requires n < |names| && names[n].Some? && Closed(names, n, name, s, open) &&
             (open.Some? ==> open.value.name != name)
    ensures Closed(names, n + 1, name, s, Some(Open(names[n].value, n)))
  {
  }

  lemma LastSection(names: seq<Option<string>>, sections: map<string, Section>, open: Option<Open>)
    requires Scanned(names, |names|, sections, open)
    ensures Located(names, Close(sections, open, |names|))
  {
    var closed := Close(sections, open, |names|);
    forall name | name in closed ensures IsSection(names, name, closed[name]) {
      if open.None? || name != open.value.name {
        assert Closed(names, |names|, name, sections[name], open);
      }
    }
  }

  /** A section heading closes the open section and opens its own. */
  method ScanLine(ghost names: seq<Option<string>>, i: nat, heading: Option<string>, sections: map<string, Section>,
                  open: Option<Open>)
    returns (sections': map<string, Section>, open': Option<Open>)
    requires i < |names| && names[i] == heading && Scanned(names, i, sections, open)
    ensures Scanned(names, i + 1, sections', open')
  {
    if heading.Some? {
      NextSection(names, i, sections, open);
      return Close(sections, open, i), Some(Open(heading.value, i));
    }
    SameSection(names, i, sections, open);
    return sections, open;
  }

  /** findSections. */
  method FindSections(lines: seq<string>) returns (sections: map<string, Section>)
    ensures Located(Names(lines), sections)
  {
    sections := map[];
    ghost var names := Names(lines);
    var open: Option<Open> := None;
    for i := 0 to |lines|
      invariant Scanned(names, i, sections, open)
    {
      sections, open := ScanLine(names, i, SectionHeading(lines[i]), sections, open);
    }
    LastSection(names, sections, open);
    sections := Close(sections, open, |lines|);
  }

  /** Sections of different names share no line. */
  lemma SectionsDisjoint(names: seq<Option<string>>, a: string, s: Section, b: string, t: Section)
    requires IsSection(names, a, s) && IsSection(names, b, t) && a != b
    ensures Disjoint(s, t)
  {
  }

  // ---------------------------------------------------------------- what one rewrite does

  ghost function HeadingTexts(lines: seq<string>, s: Section): set<string> {
    set i | s.start < i < s.end && i < |lines| && TypeHeading(lines[i]).Some? :: TypeHeading(lines[i]).value
  }

  /** A heading of the current section that the previous one has too. */
  predicate IsShared(texts: set<string>, line: string) {
    TypeHeading(line).Some? && TypeHeading(line).value != "Resource Types" && TypeHeading(line).value in texts
  }

  function RenamedLine(texts: set<string>, line: string, suffix: string): string {
    if IsShared(texts, line) then Renamed(line, TypeHeading(line).value, suffix) else line
  }

  ghost function SharedSlugs(sc: Script, texts: set<string>, lines: seq<string>, s: Section, n: nat): set<string> {
    set i | s.start < i < n && i < |lines| && IsShared(texts, lines[i]) :: SlugOf(sc, TypeHeading(lines[i]).value)
  }

  ghost function AnchorsFor(slugs: set<string>, suffix: string): map<string, string> {
    map t | t in slugs :: t + "-" + suffix
  }

  /** The lines strictly between two positions mapped, the others kept. */
  ghost function MapRange(xs: seq<string>, lo: int, hi: int, f: string -> string): seq<string> {
    seq(|xs|, i requires 0 <= i < |xs| => if lo < i < hi then f(xs[i]) else xs[i])
  }

  lemma MapRangeStep(xs: seq<string>, lo: int, i: nat, f: string -> string)
    requires lo < i < |xs|
    ensures MapRange(xs, lo, i + 1, f) == MapRange(xs, lo, i, f)[i := f(xs[i])] && MapRange(xs, lo, i, f)[i] == xs[i]
    ensures MapRange(xs, lo, lo + 1, f) == xs
  {
  }

  ghost function Renamer(texts: set<string>, suffix: string): string -> string {
    line => RenamedLine(texts, line, suffix)
  }

  ghost function Redirector(anchors: map<string, string>): string -> string {
    line => ReplaceLinks(line, anchors)
  }

  ghost function Rewritten(sc: Script, lines: seq<string>, previous: Section, current: Section, suffix: string)
    : seq<string>
  {
    var texts := HeadingTexts(lines, previous);
    var anchors := AnchorsFor(SharedSlugs(sc, texts, lines, current, current.end), suffix);
    MapRange(MapRange(lines, current.start, current.end, Renamer(texts, suffix)), current.start, current.end,
             Redirector(anchors))
  }

  /** headingsIn. */
  method HeadingsIn(lines: array<string>, s: Section) returns (texts: set<string>)
    requires s.start < s.end <= lines.Length
    ensures texts == HeadingTexts(lines[..], s)
  {
    texts := {};
    for i := s.start + 1 to s.end
      invariant texts == HeadingTexts(lines[..], Section(s.start, i))
    {
      var heading := TypeHeading(lines[i]);
      if heading.Some? {
        texts := texts + {heading.value};
      }
    }
  }

  lemma NextShared(sc: Script, texts: set<string>, lines: seq<string>, s: Section, i: nat)
    requires s.start < i < |lines|
    ensures SharedSlugs(sc, texts, lines, s, i + 1) ==
            SharedSlugs(sc, texts, lines, s, i) +
              if IsShared(texts, lines[i]) then {SlugOf(sc, TypeHeading(lines[i]).value)} else {}
  {
  }

  lemma NextAnchor(slugs: set<string>, slug: string, suffix: string)
    ensures AnchorsFor(slugs + {slug}, suffix) == AnchorsFor(slugs, suffix)[slug := slug + "-" + suffix]
  {
  }

  /** The first loop: renames the shared headings and collects their anchors. */
  method RenameHeadings(sc: Script, lines: array<string>, texts: set<string>, current: Section, suffix: string)
    returns (anchors: map<string, string>)
    requires current.start < current.end <= lines.Length
    modifies lines
    ensures anchors == AnchorsFor(SharedSlugs(sc, texts, old(lines[..]), current, current.end), suffix)
    ensures lines[..] == MapRange(old(lines[..]), current.start, current.end, Renamer(texts, suffix))
  {
    anchors := map[];
    ghost var before, f := lines[..], Renamer(texts, suffix);
    ghost var slugs: set<string> := {};
    assert SharedSlugs(sc, texts, before, current, current.start + 1) == {};
    assert MapRange(before, current.start, current.start + 1, f) == before;
    for i := current.start + 1 to current.end
      invariant slugs == SharedSlugs(sc, texts, before, current, i) && anchors == AnchorsFor(slugs, suffix)
      invariant lines[..] == MapRange(before, current.start, i, f)
    {
      NextShared(sc, texts, before, current, i);
      MapRangeStep(before, current.start, i, f);
      assert lines[i] == lines[..][i] == before[i];
      var heading := TypeHeading(lines[i]);
      if heading.None? || heading.value == "Resource Types" || heading.value !in texts {
        assert lines[..][i := f(before[i])] == lines[..];
        continue;
      }
      var anchor := Slug(sc, heading.value);
      NextAnchor(slugs, anchor, suffix);
      slugs := slugs + {anchor};
      anchors := anchors[anchor := anchor + "-" + suffix];
      lines[i] := Renamed(lines[i], heading.value, suffix);
    }
  }

  /** The second loop: redirects the links. */
  method RewriteLinks(lines: array<string>, current: Section, anchors: map<string, string>)
    requires current.start < current.end <= lines.Length
    modifies lines
    ensures lines[..] == MapRange(old(lines[..]), current.start, current.end, Redirector(anchors))
  {
    ghost var before, f := lines[..], Redirector(anchors);
    assert MapRange(before, current.start, current.start + 1, f) == before;
    for i := current.start + 1 to current.end
      invariant lines[..] == MapRange(before, current.start, i, f)
    {
      MapRangeStep(before, current.start, i, f);
      assert lines[i] == lines[..][i] == before[i];
      lines[i] := ReplaceLinks(lines[i], anchors);
    }
  }

  /** One pair of versions; the program stops without writing when no heading is shared. */
  method RewritePair(sc: Script, lines: array<string>, previous: Section, current: Section, suffix: string)
    returns (ok: bool)
    requires previous.start < previous.end <= lines.Length && current.start < current.end <= lines.Length
    modifies lines
    ensures ok ==> lines[..] == Rewritten(sc, old(lines[..]), previous, current, suffix)
    ensures ok <==> SharedSlugs(sc, HeadingTexts(old(lines[..]), previous), old(lines[..]), current, current.end) != {}
  {
    ghost var before := lines[..];
    var texts := HeadingsIn(lines, previous);
    var anchors := RenameHeadings(sc, lines, texts, current, suffix);
    assert anchors.Keys == SharedSlugs(sc, texts, before, current, current.end);
    if |anchors| == 0 {
      assert anchors.Keys == {};
      return false;
    }
    RewriteLinks(lines, current, anchors);
    return true;
  }

  datatype Pair = Pair(previous: string, current: string, suffix: string)

  ghost predicate Listed(sections: map<string, Section>, pairs: seq<Pair>) {
    forall p :: p in pairs ==> p.previous in sections && p.current in sections
  }

  ghost function RewrittenFor(sc: Script, lines: seq<string>, sections: map<string, Section>, p: Pair): seq<string> {
    if p.previous in sections && p.current in sections
    then Rewritten(sc, lines, sections[p.previous], sections[p.current], p.suffix)
    else lines
  }

  ghost function RewrittenBy(sc: Script, lines: seq<string>, sections: map<string, Section>, pairs: seq<Pair>)
    : seq<string>
    decreases |pairs|
  {
    if pairs == [] then lines else RewrittenBy(sc, RewrittenFor(sc, lines, sections, pairs[0]), sections, pairs[1..])
  }

  /** Both sections are there and have a heading in common. */
  ghost predicate Shares(sc: Script, lines: seq<string>, sections: map<string, Section>, p: Pair) {
    && p.previous in sections && p.current in sections
    && SharedSlugs(sc, HeadingTexts(lines, sections[p.previous]), lines, sections[p.current],
                   sections[p.current].end) != {}
  }

  /** Every pair finds its sections and a shared heading in the lines as the earlier pairs left them. */
  ghost predicate Succeeds(sc: Script, lines: seq<string>, sections: map<string, Section>, pairs: seq<Pair>)
    decreases |pairs|
  {
    pairs == [] || (Shares(sc, lines, sections, pairs[0]) &&
                    Succeeds(sc, RewrittenFor(sc, lines, sections, pairs[0]), sections, pairs[1..]))
  }

  /** One pair by name; a missing section stops the program. */
  method RewriteFor(sc: Script, lines: array<string>, sections: map<string, Section>, p: Pair, ghost start: seq<string>)
    returns (ok: bool)
    requires Located(Names(start), sections) && |start| == lines.Length
    modifies lines
    ensures ok <==> Shares(sc, old(lines[..]), sections, p)
    ensures ok ==> lines[..] == RewrittenFor(sc, old(lines[..]), sections, p)
  {
    if p.previous !in sections || p.current !in sections {
      return false;
    }
    Bounds(Names(start), sections, p.previous);
    Bounds(Names(start), sections, p.current);
    ok := RewritePair(sc, lines, sections[p.previous], sections[p.current], p.suffix);
  }

  /** The program on the lines of its file, for every pair in turn; sections are located once, at the start. */
  method Disambiguate(sc: Script, lines: array<string>, pairs: seq<Pair>)
    returns (ok: bool, sections: map<string, Section>)
    modifies lines
    ensures Located(Names(old(lines[..])), sections)
    ensures ok <==> Succeeds(sc, old(lines[..]), sections, pairs)
    ensures ok ==> Listed(sections, pairs) && lines[..] == RewrittenBy(sc, old(lines[..]), sections, pairs)
  {
    ghost var before := lines[..];
    sections := FindSections(lines[..]);
    for i := 0 to |pairs|
      invariant InStep(sc, before, lines[..], sections, pairs, i)
    {
      ghost var current := lines[..];
      ok := RewriteFor(sc, lines, sections, pairs[i], before);
      StepOn(sc, before, current, sections, pairs, i);
      if !ok {
        return false, sections;
      }
    }
    StepsDone(sc, before, lines[..], sections, pairs);
    ok := true;
  }

  /** What is left to do with the present lines is what was left to do with the first ones. */
  ghost predicate InStep(sc: Script, before: seq<string>, current: seq<string>, sections: map<string, Section>,
                         pairs: seq<Pair>, i: nat)
    requires i <= |pairs|
  {
    && RewrittenBy(sc, current, sections, pairs[i..]) == RewrittenBy(sc, before, sections, pairs)
    && (Succeeds(sc, current, sections, pairs[i..]) <==> Succeeds(sc, before, sections, pairs))
  }

  lemma StepOn(sc: Script, before: seq<string>, current: seq<string>, sections: map<string, Section>, pairs: seq<Pair>,
               i: nat)
    requires i < |pairs| && InStep(sc, before, current, sections, pairs, i)
    ensures Shares(sc, current, sections, pairs[i]) ==>
              InStep(sc, before, RewrittenFor(sc, current, sections, pairs[i]), sections, pairs, i + 1)
    ensures !Shares(sc, current, sections, pairs[i]) ==> !Succeeds(sc, before, sections, pairs)
  {
    assert pairs[i..][1..] == pairs[i + 1..] && pairs[i..][0] == pairs[i];
  }

  lemma StepsDone(sc: Script, before: seq<string>, current: seq<string>, sections: map<string, Section>,
                  pairs: seq<Pair>)
    requires InStep(sc, before, current, sections, pairs, |pairs|)
    ensures Succeeds(sc, before, sections, pairs) && current == RewrittenBy(sc, before, sections, pairs) &&
            Listed(sections, pairs)
  {
    assert pairs[|pairs|..] == [];
    SuccessIsListed(sc, before, sections, pairs);
  }

  lemma {:induction false} SuccessIsListed(sc: Script, lines: seq<string>, sections: map<string, Section>,
                                           pairs: seq<Pair>)
    requires Succeeds(sc, lines, sections, pairs)
    ensures Listed(sections, pairs)
    decreases |pairs|
  {
    if pairs != [] {
      SuccessIsListed(sc, RewrittenFor(sc, lines, sections, pairs[0]), sections, pairs[1..]);
      assert pairs == [pairs[0]] + pairs[1..];
    }
  }

  lemma Bounds(names: seq<Option<string>>, sections: map<string, Section>, name: string)
    requires Located(names, sections) && name in sections
    ensures sections[name].start < sections[name].end <= |names|
  {
    assert IsSection(names, name, sections[name]);
  }

  // ---------------------------------------------------------------- what readers can rely on

  /** Nothing outside the current sections changes. */
  lemma {:induction false} OutsideUnchanged(sc: Script, lines: seq<string>, sections: map<string, Section>,
                                            pairs: seq<Pair>, i: nat)
    requires i < |lines|
    requires forall p :: p in pairs && p.current in sections ==>
               !(sections[p.current].start < i < sections[p.current].end)
    ensures |RewrittenBy(sc, lines, sections, pairs)| == |lines| &&
            RewrittenBy(sc, lines, sections, pairs)[i] == lines[i]
    decreases |pairs|
  {
    if pairs != [] {
      OneOutside(sc, lines, sections, pairs[0], i);
      OutsideUnchanged(sc, RewrittenFor(sc, lines, sections, pairs[0]), sections, pairs[1..], i);
    }
  }

  lemma OneOutside(sc: Script, lines: seq<string>, sections: map<string, Section>, p: Pair, i: nat)
    requires i < |lines| && (p.current in sections ==> !(sections[p.current].start < i < sections[p.current].end))
    ensures |RewrittenFor(sc, lines, sections, p)| == |lines| && RewrittenFor(sc, lines, sections, p)[i] == lines[i]
  {
  }

  lemma AnchorsAreSlugs(sc: Script, slugs: set<string>, suffix: string, t: string)
    requires Sane(sc) && Plain(sc, suffix) && t in slugs && forall x :: x in slugs ==> exists s :: x == SlugOf(sc, s)
    ensures Without(AnchorsFor(slugs, suffix)[t], ')') && ' ' !in t
  {
    var s :| t == SlugOf(sc, s);
    SlugCharacters(sc, s, Slugging("", false), ')');
    SlugCharacters(sc, s, Slugging("", false), ' ');
  }

  lemma {:induction false} RedirectAllAt(anchors: map<string, string>, targets: seq<string>, j: nat)
    requires j < |targets|
    ensures |RedirectAll(anchors, targets)| == |targets| &&
            RedirectAll(anchors, targets)[j] == Redirect(anchors, targets[j])
    decreases |targets|
  {
    if |targets| > 1 {
      RedirectAllAt(anchors, targets[1..], if j == 0 then 0 else j - 1);
    }
  }

  /** Every link of the section is redirected in its place: those to shared headings, and only those. */
  lemma LinksRedirected(sc: Script, lines: seq<string>, previous: Section, current: Section, suffix: string, k: nat,
                        j: nat)
    requires Sane(sc) && Plain(sc, suffix) && current.start < k < current.end <= |lines| && j < |Targets(lines[k])|
    ensures var slugs := SharedSlugs(sc, HeadingTexts(lines, previous), lines, current, current.end);
            var after := Rewritten(sc, lines, previous, current, suffix);
            && j < |Targets(after[k])|
            && Targets(after[k])[j] ==
               (if Targets(lines[k])[j] in slugs then Targets(lines[k])[j] + "-" + suffix else Targets(lines[k])[j])
  {
    var texts := HeadingTexts(lines, previous);
    var slugs := SharedSlugs(sc, texts, lines, current, current.end);
    var anchors := AnchorsFor(slugs, suffix);
    var line := RenamedLine(texts, lines[k], suffix);
    RenamedKeepsTargets(texts, lines[k], suffix);
    RewrittenAt(sc, lines, previous, current, suffix, k);
    forall t | t in anchors ensures Without(anchors[t], ')') {
      AnchorsAreSlugs(sc, slugs, suffix, t);
    }
    TargetsRedirected(line, anchors);
    RedirectAllAt(anchors, Targets(line), j);
  }

  /**
   After the rewrite a link that pointed at a shared heading's slug points at the slug of the heading as it now reads,
   when the heading line has no trailing blank and holds no link that is itself redirected.
   */
  lemma LinksFollowCleanHeadings(sc: Script, lines: seq<string>, previous: Section, current: Section, suffix: string,
                                 i: nat, k: nat, j: nat)
    requires Sane(sc) && suffix != [] && Plain(sc, suffix)
    requires current.start < i < current.end <= |lines| && current.start < k < current.end && j < |Targets(lines[k])|
    requires IsShared(HeadingTexts(lines, previous), lines[i]) && NoTrailingBlank(lines[i])
    requires HasLetterOrDigit(sc, TypeHeading(lines[i]).value)
    requires forall t :: t in Targets(lines[i]) ==>
               t !in SharedSlugs(sc, HeadingTexts(lines, previous), lines, current, current.end)
    requires Targets(lines[k])[j] == SlugOf(sc, TypeHeading(lines[i]).value)
    ensures var after := Rewritten(sc, lines, previous, current, suffix);
            && TypeHeading(after[i]) == Some(Suffixed(TypeHeading(lines[i]).value, suffix))
            && j < |Targets(after[k])| && Targets(after[k])[j] == SlugOf(sc, TypeHeading(after[i]).value)
  {
    var heading := TypeHeading(lines[i]).value;
    SharedIsListed(sc, HeadingTexts(lines, previous), lines, current, i);
    LinksRedirected(sc, lines, previous, current, suffix, k, j);
    SlugOfSuffixed(sc, heading, suffix);
    HeadingKept(sc, lines, previous, current, suffix, i);
    HeadingRenamed(lines[i], suffix);
  }

  lemma SharedIsListed(sc: Script, texts: set<string>, lines: seq<string>, s: Section, i: nat)
    requires s.start < i < s.end <= |lines| && IsShared(texts, lines[i])
    ensures SlugOf(sc, TypeHeading(lines[i]).value) in SharedSlugs(sc, texts, lines, s, s.end)
  {
  }

  lemma RewrittenAt(sc: Script, lines: seq<string>, previous: Section, current: Section, suffix: string, k: nat)
    requires current.start < k < current.end <= |lines|
    ensures var texts := HeadingTexts(lines, previous);
            var anchors := AnchorsFor(SharedSlugs(sc, texts, lines, current, current.end), suffix);
            Rewritten(sc, lines, previous, current, suffix)[k] ==
              ReplaceLinks(RenamedLine(texts, lines[k], suffix), anchors)
  {
  }

  /** A renamed line starts with the line as it was, so its links are still there. */
  lemma RenamedKeepsTargets(texts: set<string>, line: string, suffix: string)
    ensures Targets(line) <= Targets(RenamedLine(texts, line, suffix))
  {
    var renamed := RenamedLine(texts, line, suffix);
    assert line <= renamed;
    TargetsGrow(line, renamed[|line|..]);
    assert line + renamed[|line|..] == renamed;
  }

  /** The second loop leaves such a renamed heading alone. */
  lemma HeadingKept(sc: Script, lines: seq<string>, previous: Section, current: Section, suffix: string, i: nat)
    requires Sane(sc) && Plain(sc, suffix) && current.start < i < current.end <= |lines|
    requires IsShared(HeadingTexts(lines, previous), lines[i]) && NoTrailingBlank(lines[i])
    requires forall t :: t in Targets(lines[i]) ==>
               t !in SharedSlugs(sc, HeadingTexts(lines, previous), lines, current, current.end)
    ensures Rewritten(sc, lines, previous, current, suffix)[i] == Suffixed(lines[i], suffix)
  {
    var slugs := SharedSlugs(sc, HeadingTexts(lines, previous), lines, current, current.end);
    var line := Suffixed(lines[i], suffix);
    HeadingRenamed(lines[i], suffix);
    SuffixTargets(lines[i], suffix);
    forall t | t in Targets(line) ensures t !in AnchorsFor(slugs, suffix) {
      if t in slugs {
        AnchorsAreSlugs(sc, slugs, suffix, t);
      }
    }
    NothingToRedirect(line, AnchorsFor(slugs, suffix));
  }

  // ---------------------------------------------------------------- several pairs

  predicate Disjoint(s: Section, t: Section) {
    s.end <= t.start || t.end <= s.start
  }

  /** No pair rewrites a section that another pair reads or rewrites. */
  ghost predicate Apart(sections: map<string, Section>, pairs: seq<Pair>) {
    && Listed(sections, pairs)
    && forall a, b :: 0 <= a < |pairs| && 0 <= b < |pairs| && a != b ==>
         && Disjoint(sections[pairs[a].current], sections[pairs[b].current])
         && Disjoint(sections[pairs[a].current], sections[pairs[b].previous])
  }

  /** The names of the pairs are all different. */
  ghost predicate DistinctNames(pairs: seq<Pair>) {
    forall a, b :: 0 <= a < |pairs| && 0 <= b < |pairs| && a != b ==>
      pairs[a].current != pairs[b].current && pairs[a].current != pairs[b].previous
  }

  lemma DistinctNamesAreApart(names: seq<Option<string>>, sections: map<string, Section>, pairs: seq<Pair>)
    requires Located(names, sections) && Listed(sections, pairs) && DistinctNames(pairs)
    ensures Apart(sections, pairs)
  {
    forall a, b | 0 <= a < |pairs| && 0 <= b < |pairs| && a != b
      ensures Disjoint(sections[pairs[a].current], sections[pairs[b].current])
      ensures Disjoint(sections[pairs[a].current], sections[pairs[b].previous])
    {
      var x, y, z := pairs[a].current, pairs[b].current, pairs[b].previous;
      assert pairs[a] in pairs && pairs[b] in pairs;
      assert IsSection(names, x, sections[x]) && IsSection(names, y, sections[y]) && IsSection(names, z, sections[z]);
      SectionsDisjoint(names, x, sections[x], y, sections[y]);
      SectionsDisjoint(names, x, sections[x], z, sections[z]);
    }
  }

  ghost predicate SameWithin(x: seq<string>, y: seq<string>, s: Section) {
    |x| == |y| && forall i :: s.start < i < s.end && i < |x| ==> x[i] == y[i]
  }

  /** A rewrite reads nothing outside its two sections. */
  lemma RewriteIsLocal(sc: Script, x: seq<string>, y: seq<string>, previous: Section, current: Section, suffix: string,
                       i: nat)
    requires SameWithin(x, y, previous) && SameWithin(x, y, current) && current.start < i < current.end && i < |x|
    ensures Rewritten(sc, x, previous, current, suffix)[i] == Rewritten(sc, y, previous, current, suffix)[i]
  {
    SameTexts(x, y, previous);
    SameSlugs(sc, HeadingTexts(x, previous), x, y, current);
  }

  lemma SameTexts(x: seq<string>, y: seq<string>, s: Section)
    requires SameWithin(x, y, s)
    ensures HeadingTexts(x, s) == HeadingTexts(y, s)
  {
  }

  lemma SameSlugs(sc: Script, texts: set<string>, x: seq<string>, y: seq<string>, s: Section)
    requires SameWithin(x, y, s)
    ensures SharedSlugs(sc, texts, x, s, s.end) == SharedSlugs(sc, texts, y, s, s.end)
  {
  }

  lemma KeptWithin(sc: Script, lines: seq<string>, sections: map<string, Section>, p: Pair, s: Section)
    requires p.current in sections && Disjoint(sections[p.current], s)
    ensures SameWithin(lines, RewrittenFor(sc, lines, sections, p), s)
  {
    forall i: nat | s.start < i < s.end && i < |lines| ensures RewrittenFor(sc, lines, sections, p)[i] == lines[i] {
      OneOutside(sc, lines, sections, p, i);
    }
    if |lines| > 0 {
      SameLength(sc, lines, sections, p);
    }
  }

  lemma SameLength(sc: Script, lines: seq<string>, sections: map<string, Section>, p: Pair)
    ensures |RewrittenFor(sc, lines, sections, p)| == |lines|
  {
  }

  /** In its own section the program does what the pair alone would do to the original lines. */
  lemma {:induction false} PairsDoNotInterfere(sc: Script, lines: seq<string>, sections: map<string, Section>,
                                               pairs: seq<Pair>, n: nat, i: nat)
    requires Apart(sections, pairs) && n < |pairs| && i < |lines|
    requires pairs[n] in pairs && sections[pairs[n].current].start < i < sections[pairs[n].current].end
    ensures |RewrittenBy(sc, lines, sections, pairs)| == |lines|
    ensures RewrittenBy(sc, lines, sections, pairs)[i] == RewrittenFor(sc, lines, sections, pairs[n])[i]
    decreases |pairs|
  {
    var next := RewrittenFor(sc, lines, sections, pairs[0]);
    SameLength(sc, lines, sections, pairs[0]);
    assert pairs[0] in pairs && forall p :: p in pairs[1..] ==> p in pairs;
    if n == 0 {
      forall p | p in pairs[1..] ensures !(sections[p.current].start < i < sections[p.current].end) {
        var b :| 0 <= b < |pairs[1..]| && pairs[1..][b] == p;
        assert p == pairs[b + 1] && Disjoint(sections[pairs[0].current], sections[pairs[b + 1].current]);
      }
      OutsideUnchanged(sc, next, sections, pairs[1..], i);
    } else {
      var p := pairs[n];
      assert Disjoint(sections[pairs[0].current], sections[p.current]) &&
             Disjoint(sections[pairs[0].current], sections[p.previous]);
      KeptWithin(sc, lines, sections, pairs[0], sections[p.current]);
      KeptWithin(sc, lines, sections, pairs[0], sections[p.previous]);
      RewriteIsLocal(sc, lines, next, sections[p.previous], sections[p.current], p.suffix, i);
      assert p == pairs[1..][n - 1] && p in pairs[1..];
      ApartTail(sections, pairs);
      PairsDoNotInterfere(sc, next, sections, pairs[1..], n - 1, i);
    }
  }

  /**
   For sections that are apart the program succeeds exactly when every pair shares a heading in the original lines.
   */
  lemma {:induction false} SucceedsExact(sc: Script, lines: seq<string>, sections: map<string, Section>,
                                         pairs: seq<Pair>)
    requires Apart(sections, pairs)
    ensures Succeeds(sc, lines, sections, pairs) <==> forall p :: p in pairs ==> Shares(sc, lines, sections, p)
    decreases |pairs|
  {
    if pairs != [] {
      var next := RewrittenFor(sc, lines, sections, pairs[0]);
      ApartTail(sections, pairs);
      SucceedsExact(sc, next, sections, pairs[1..]);
      TailShares(sc, lines, sections, pairs);
      assert pairs == [pairs[0]] + pairs[1..];
    }
  }

  lemma TailShares(sc: Script, lines: seq<string>, sections: map<string, Section>, pairs: seq<Pair>)
    requires Apart(sections, pairs) && pairs != []
    ensures forall p :: p in pairs[1..] ==>
              (Shares(sc, lines, sections, p) <==> Shares(sc, RewrittenFor(sc, lines, sections, pairs[0]), sections, p))
  {
    forall p | p in pairs[1..]
      ensures Shares(sc, lines, sections, p) <==> Shares(sc, RewrittenFor(sc, lines, sections, pairs[0]), sections, p)
    {
      var b :| 0 <= b < |pairs[1..]| && pairs[1..][b] == p;
      assert p == pairs[b + 1] && p in pairs && pairs[0] in pairs;
      SharingKept(sc, lines, sections, pairs[0], p);
    }
  }

  lemma SharingKept(sc: Script, lines: seq<string>, sections: map<string, Section>, first: Pair, p: Pair)
    requires first.current in sections && p.previous in sections && p.current in sections
    requires Disjoint(sections[first.current], sections[p.current]) &&
             Disjoint(sections[first.current], sections[p.previous])
    ensures Shares(sc, lines, sections, p) <==> Shares(sc, RewrittenFor(sc, lines, sections, first), sections, p)
  {
    var next := RewrittenFor(sc, lines, sections, first);
    KeptWithin(sc, lines, sections, first, sections[p.current]);
    KeptWithin(sc, lines, sections, first, sections[p.previous]);
    SameTexts(lines, next, sections[p.previous]);
    SameSlugs(sc, HeadingTexts(lines, sections[p.previous]), lines, next, sections[p.current]);
  }

  lemma ApartTail(sections: map<string, Section>, pairs: seq<Pair>)
    requires Apart(sections, pairs) && pairs != []
    ensures Apart(sections, pairs[1..])
  {
    var tail := pairs[1..];
    assert forall p :: p in tail ==> p in pairs;
    forall a, b | 0 <= a < |tail| && 0 <= b < |tail| && a != b
      ensures Disjoint(sections[tail[a].current], sections[tail[b].current]) &&
              Disjoint(sections[tail[a].current], sections[tail[b].previous])
    {
      assert tail[a] == pairs[a + 1] && tail[b] == pairs[b + 1];
    }
  }

  /** A heading is shared when the previous section has one that reads the same, "Resource Types" excepted. */
  lemma SharedExact(lines: seq<string>, previous: Section, line: string)
    ensures IsShared(HeadingTexts(lines, previous), line) <==>
            && TypeHeading(line).Some? && TypeHeading(line) != Some("Resource Types")
            && exists m ::
                 previous.start < m < previous.end && m < |lines| && TypeHeading(lines[m]) == TypeHeading(line)
  {
  }
}
