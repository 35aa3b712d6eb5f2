/** Label rendering of the Prometheus text exposition format (pkg/clusterhealth/metrics_export.go). */
module PromLabels {
  import opened Common
  import opened Text

  // ---------------------------------------------------------------- escaping

  /** strings.ReplaceAll for a one-character pattern. */
  function ReplaceAll(s: string, c: char, r: string): string {
    if s == [] then [] else (if s[0] == c then r else [s[0]]) + ReplaceAll(s[1..], c, r)
  }

  /** escapePromLabelValue as written: four replacements, one after the other. */
  function EscapeSequentially(s: string): string {
    ReplaceAll(ReplaceAll(ReplaceAll(ReplaceAll(s, '\\', "\\\\"), '\"', "\\\""), '\n', "\\n"), '\r', "\\r")
  }

  /** The one-pass escaper of the format. */
  function EscapeChar(c: char): string {
    if c == '\\' then "\\\\"
    else if c == '\"' then "\\\""
    else if c == '\n' then "\\n"
    else if c == '\r' then "\\r"
    else [c]
  }

  function Escape(s: string): string {
    if s == [] then [] else EscapeChar(s[0]) + Escape(s[1..])
  }

  lemma {:induction false} ReplaceAllAppend(a: string, b: string, c: char, r: string)
    ensures ReplaceAll(a + b, c, r) == ReplaceAll(a, c, r) + ReplaceAll(b, c, r)
    decreases |a|
  {
    if a == [] {
      assert a + b == b;
    } else {
      assert (a + b)[1..] == a[1..] + b;
      ReplaceAllAppend(a[1..], b, c, r);
    }
  }

  lemma ReplaceAllOne(x: char, c: char, r: string)
    ensures ReplaceAll([x], c, r) == if x == c then r else [x]
  {
    assert [x][1..] == [];
    assert ReplaceAll([x], c, r) == (if x == c then r else [x]) + ReplaceAll([], c, r);
  }

  lemma ReplaceAllTwo(x: char, y: char, c: char, r: string)
    requires x != c && y != c
    ensures ReplaceAll([x, y], c, r) == [x, y]
  {
    ReplaceAllAppend([x], [y], c, r);
    ReplaceAllOne(x, c, r);
    ReplaceAllOne(y, c, r);
    assert [x] + [y] == [x, y];
  }

  lemma EscapeCharSequentially(c: char)
    ensures EscapeSequentially([c]) == EscapeChar(c)
  {
    ReplaceAllOne(c, '\\', "\\\\");
    ReplaceAllOne(c, '\"', "\\\"");
    ReplaceAllOne(c, '\n', "\\n");
    ReplaceAllOne(c, '\r', "\\r");
    ReplaceAllTwo('\\', '\\', '\"', "\\\"");
    ReplaceAllTwo('\\', '\\', '\n', "\\n");
    ReplaceAllTwo('\\', '\\', '\r', "\\r");
    ReplaceAllTwo('\\', '\"', '\n', "\\n");
    ReplaceAllTwo('\\', '\"', '\r', "\\r");
    ReplaceAllTwo('\\', 'n', '\r', "\\r");
  }

  /** The order of the four replacements is right: together they are the one-pass escaper. */
  lemma {:induction false} SequentialIsOnePass(s: string)
    ensures EscapeSequentially(s) == Escape(s)
    decreases |s|
  {
    if s != [] {
      var head, tail := [s[0]], s[1..];
      assert s == head + tail;
      var h1, t1 := ReplaceAll(head, '\\', "\\\\"), ReplaceAll(tail, '\\', "\\\\");
      var h2, t2 := ReplaceAll(h1, '\"', "\\\""), ReplaceAll(t1, '\"', "\\\"");
      var h3, t3 := ReplaceAll(h2, '\n', "\\n"), ReplaceAll(t2, '\n', "\\n");
      ReplaceAllAppend(head, tail, '\\', "\\\\");
      ReplaceAllAppend(h1, t1, '\"', "\\\"");
      ReplaceAllAppend(h2, t2, '\n', "\\n");
      ReplaceAllAppend(h3, t3, '\r', "\\r");
      EscapeCharSequentially(s[0]);
      SequentialIsOnePass(tail);
    }
  }

  /** The method reassigns its argument four times. */
  method EscapePromLabelValue(value: string) returns (s: string)
    ensures s == Escape(value)
  {
    s := value;
    s := ReplaceAll(s, '\\', "\\\\");
    s := ReplaceAll(s, '\"', "\\\"");
    s := ReplaceAll(s, '\n', "\\n");
    s := ReplaceAll(s, '\r', "\\r");
    SequentialIsOnePass(value);
  }

  /** A rendered value stays on its line. */
  lemma {:induction false} EscapeHasNoLineBreaks(s: string)
    ensures Without(Escape(s), '\n') && Without(Escape(s), '\r')
    decreases |s|
  {
    if s != [] {
      EscapeHasNoLineBreaks(s[1..]);
      assert Without(EscapeChar(s[0]), '\n') && Without(EscapeChar(s[0]), '\r');
    }
  }

  /** A reader of quoted values: up to the first bare quote, undoing the escapes. */
  function ReadValue(s: string): Option<(string, string)> {
    if s == [] then None
    else if s[0] == '\"' then Some(([], s[1..]))
    else if s[0] == '\\' then
      if |s| < 2 then None else
        var c := if s[1] == 'n' then '\n' else if s[1] == 'r' then '\r' else s[1];
        match ReadValue(s[2..])
        case None => None
        case Some((value, rest)) => Some(([c] + value, rest))
    else
      match ReadValue(s[1..])
      case None => None
      case Some((value, rest)) => Some(([s[0]] + value, rest))
  }

  lemma ReadStep(c: char, t: string)
    ensures ReadValue(EscapeChar(c) + t) ==
            match ReadValue(t)
            case None => None
            case Some((value, rest)) => Some(([c] + value, rest))
  {
    var e := EscapeChar(c);
    var s := e + t;
    assert s[|e|..] == t && s[0] == e[0];
    if |e| == 2 {
      assert s[1] == e[1];
    }
  }

  /** Escaping has a left inverse, and no escaped value ends early or runs on: its quotes are never bare. */
  lemma {:induction false} ReadEscaped(value: string, rest: string)
    ensures ReadValue(Escape(value) + "\"" + rest) == Some((value, rest))
    decreases |value|
  {
    if value == [] {
      assert Escape(value) + "\"" + rest == "\"" + rest;
      assert ("\"" + rest)[1..] == rest;
    } else {
      var t := Escape(value[1..]) + "\"" + rest;
      assert Escape(value) + "\"" + rest == EscapeChar(value[0]) + t;
      ReadStep(value[0], t);
      ReadEscaped(value[1..], rest);
      assert [value[0]] + value[1..] == value;
    }
  }

  // ---------------------------------------------------------------- label sets

  function Part(key: string, value: string): string {
    key + "=\"" + Escape(value) + "\""
  }

  /** strings.Join with commas. */
  function Join(parts: seq<string>): string {
    if parts == [] then "" else if |parts| == 1 then parts[0] else parts[0] + "," + Join(parts[1..])
  }

  function Parts(labels: map<string, string>, keys: seq<string>): seq<string>
    requires forall k :: k in keys ==> k in labels
  {
    seq(|keys|, i requires 0 <= i < |keys| => Part(keys[i], labels[keys[i]]))
  }

  /** The rendering is a function of the label set alone. */
  ghost function Format(labels: map<string, string>): string {
    if labels == map[] then "" else "{" + Join(Parts(labels, KeysOf(labels.Keys))) + "}"
  }

  /** formatPromLabels: whatever order the map is ranged over, the result is the same. */
  method FormatPromLabels(labels: map<string, string>) returns (s: string)
    ensures s == Format(labels)
  {
    if |labels| == 0 {
      return "";
    }
    var keys := SortedKeys(labels);
    var parts: seq<string> := [];
    for i := 0 to |keys|
      invariant parts == Parts(labels, keys[..i])
    {
      assert keys[i] in keys;
      var escaped := EscapePromLabelValue(labels[keys[i]]);
      parts := parts + [keys[i] + "=\"" + escaped + "\""];
    }
    assert keys[..|keys|] == keys;
    return "{" + Join(parts) + "}";
  }

  datatype Entry = Entry(key: string, value: string, rest: string)

  /** One entry: the name up to '=', then a quoted value. */
  function ReadEntry(s: string): (e: Option<Entry>)
  {
    match Cut(s, '=')
    case None => None
    case Some((key, after)) =>
      if after == [] || after[0] != '\"' then None else
        match ReadValue(after[1..])
        case None => None
        case Some((value, rest)) => Some(Entry(key, value, rest))
  }

  /** A parser for label sets: entries separated by commas up to the closing brace. */
  function ParseEntries(s: string, sofar: map<string, string>): Option<map<string, string>>
    decreases |s|
  {
    match ReadEntry(s)
    case None => None
    case Some(Entry(key, value, rest)) =>
      if rest == "}" then Some(sofar[key := value])
      else if rest == [] || rest[0] != ',' || |rest| > |s| then None
      else ParseEntries(rest[1..], sofar[key := value])
  }

  function Parse(s: string): Option<map<string, string>> {
    if s == "" then Some(map[])
    else if s[0] != '{' then None
    else ParseEntries(s[1..], map[])
  }

  /** One entry is consumed exactly, whatever its value contains. */
  lemma ReadRendered(key: string, value: string, tail: string)
    requires Without(key, '=')
    ensures ReadEntry(Part(key, value) + tail) == Some(Entry(key, value, tail))
  {
    var quoted := Escape(value) + "\"" + tail;
    var after := "\"" + quoted;
    assert Part(key, value) + tail == key + ['='] + after;
    CutLaw(key, '=', after);
    assert after[1..] == quoted;
    ReadEscaped(value, tail);
  }

  lemma JoinedTail(parts: seq<string>)
    requires |parts| > 1
    ensures Join(parts) + "}" == parts[0] + ("," + (Join(parts[1..]) + "}"))
  {
  }

  function Sublabels(labels: map<string, string>, keys: seq<string>): map<string, string>
    requires forall k :: k in keys ==> k in labels
  {
    map k | k in keys :: labels[k]
  }

  lemma ParseStep(key: string, value: string, tail: string, sofar: map<string, string>)
    requires Without(key, '=')
    ensures ParseEntries(Part(key, value) + ("," + tail), sofar) == ParseEntries(tail, sofar[key := value])
    ensures ParseEntries(Part(key, value) + "}", sofar) == Some(sofar[key := value])
  {
    ReadRendered(key, value, "," + tail);
    ReadRendered(key, value, "}");
    assert ("," + tail)[1..] == tail;
  }

  lemma SublabelsStep(labels: map<string, string>, keys: seq<string>, sofar: map<string, string>)
    requires keys != [] && forall k :: k in keys ==> k in labels
    ensures keys[0] in labels
    ensures sofar[keys[0] := labels[keys[0]]] + Sublabels(labels, keys[1..]) == sofar + Sublabels(labels, keys)
  {
    assert keys == [keys[0]] + keys[1..];
  }

  lemma {:induction false} ParseJoined(labels: map<string, string>, keys: seq<string>, sofar: map<string, string>)
    requires keys != [] && forall k :: k in keys ==> k in labels && Without(k, '=')
    ensures ParseEntries(Join(Parts(labels, keys)) + "}", sofar) == Some(sofar + Sublabels(labels, keys))
    decreases |keys|
  {
    assert keys[0] in keys;
    var key, parts := keys[0], Parts(labels, keys);
    var sofar' := sofar[key := labels[key]];
    var rest := Join(parts[1..]) + "}";
    ParseStep(key, labels[key], rest, sofar);
    SublabelsStep(labels, keys, sofar);
    if |keys| == 1 {
      assert Join(parts) == Part(key, labels[key]);
      assert sofar' + Sublabels(labels, keys[1..]) == sofar';
    } else {
      JoinedTail(parts);
      assert parts[1..] == Parts(labels, keys[1..]);
      ParseJoined(labels, keys[1..], sofar');
    }
  }

  /** The rendering is undone by the parser: no two label sets look alike. */
  lemma FormatRoundTrip(labels: map<string, string>)
    requires forall k :: k in labels ==> Without(k, '=')
    ensures Parse(Format(labels)) == Some(labels)
  {
    if labels != map[] {
      var keys := KeysOf(labels.Keys);
      var s := Format(labels);
      assert keys != [] by {
        var k :| k in labels.Keys;
        assert k in keys;
      }
      assert s[1..] == Join(Parts(labels, keys)) + "}";
      ParseJoined(labels, keys, map[]);
      assert map[] + Sublabels(labels, keys) == labels;
    }
  }

  /** The four escapes of the format; every other character stands for itself. */
  lemma EscapeTable(c: char)
    ensures Escape("\\") == "\\\\" && Escape("\"") == "\\\"" && Escape("\n") == "\\n" && Escape("\r") == "\\r"
    ensures c !in {'\\', '\"', '\n', '\r'} ==> Escape([c]) == [c]
  {
    assert [c][1..] == [] && "\\"[1..] == [] && "\""[1..] == [] && "\n"[1..] == [] && "\r"[1..] == [];
    assert Escape([c]) == EscapeChar(c) + [];
    assert Escape("\\") == EscapeChar('\\') + [] && Escape("\"") == EscapeChar('\"') + [];
    assert Escape("\n") == EscapeChar('\n') + [] && Escape("\r") == EscapeChar('\r') + [];
  }

  /** No labels print as nothing. */
  lemma FormatNone()
    ensures Format(map[]) == ""
  {
  }

  /** One label as it is printed. */
  lemma FormatOne(a: string, x: string)
    ensures Format(map[a := x]) == "{" + (a + "=\"" + Escape(x) + "\"") + "}"
  {
    var one: map<string, string> := map[a := x];
    KeysOfUnique(one.Keys, [a]);
    assert a in one;
    assert Parts(one, [a]) == [Part(a, x)];
  }

  /** Two labels as they are printed: in order, with a comma between them. */
  lemma FormatTwo(labels: map<string, string>, a: string, b: string)
    requires labels.Keys == {a, b} && Less(a, b)
    ensures Format(labels) ==
            "{" + ((a + "=\"" + Escape(labels[a]) + "\"") + "," + (b + "=\"" + Escape(labels[b]) + "\"")) + "}"
  {
    TwoKeys(labels.Keys, a, b);
    JoinTwo(Part(a, labels[a]), Part(b, labels[b]));
    assert a in labels;
    assert Parts(labels, [a, b]) == [Part(a, labels[a]), Part(b, labels[b])];
  }

  lemma TwoKeys(keys: set<string>, a: string, b: string)
    requires keys == {a, b} && Less(a, b)
    ensures KeysOf(keys) == [a, b]
  {
    LessTotal(a, b);
    KeysOfUnique(keys, [a, b]);
  }

  lemma JoinTwo(p: string, q: string)
    ensures Join([p, q]) == p + "," + q
  {
    assert [p, q][1..] == [q];
  }
}
