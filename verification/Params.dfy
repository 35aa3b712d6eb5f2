/** Reading, overriding and rewriting params.env files (pkg/deploy/envParams.go). */
module Params {
  import opened Common
  import opened Text

  // ---------------------------------------------------------------- the file format

  /** bufio.MaxScanTokenSize: a line that fills the scanner's buffer is an error. */
  const LINE_LIMIT: nat := 65536

  /** The first line, without its line feed, and what follows it. */
  function NextLine(s: string): (r: (string, string))
    requires s != []
    ensures |r.1| < |s|
  {
    match Cut(s, '\n')
    case None => (s, [])
    case Some(r) => CutSplits(s, '\n'); r
  }

  /** bufio.ScanLines drops one trailing carriage return. */
  function DropCR(line: string): string {
    if line != [] && line[|line| - 1] == '\r' then line[..|line| - 1] else line
  }

  function Record(params: map<string, string>, line: string): map<string, string> {
    match Cut(line, '=')
    case None => params
    case Some((key, value)) => params[key := value]
  }

  /** The parameters of a text, added to those already known; None when a line is too long. */
  function Parse(s: string, params: map<string, string>): Option<map<string, string>>
    decreases |s|
  {
    if s == [] then Some(params)
    else
      var (line, rest) := NextLine(s);
      if |line| >= LINE_LIMIT then None else Parse(rest, Record(params, DropCR(line)))
  }

  /** parseParams, on the contents of an existing file. */
  method ParseParams(text: string) returns (r: Option<map<string, string>>)
    ensures r == Parse(text, map[])
  {
    var rest := text;
    var params: map<string, string> := map[];
    while rest != []
      invariant Parse(rest, params) == Parse(text, map[])
      decreases |rest|
    {
      var (line, after) := NextLine(rest);
      if |line| >= LINE_LIMIT {
        return None;
      }
      var text := DropCR(line);
      var cut := Cut(text, '=');
      if cut.Some? {
        params := params[cut.value.0 := cut.value.1];
      }
      rest := after;
    }
    return Some(params);
  }

  function LineOf(key: string, value: string): string {
    key + "=" + value
  }

  /** The text for the keys in the order in which the map happened to be ranged over. */
  function Written(params: map<string, string>, keys: seq<string>): string
    requires forall k :: k in keys ==> k in params
  {
    if keys == [] then []
    else assert keys[0] in keys; LineOf(keys[0], params[keys[0]]) + ['\n'] + Written(params, keys[1..])
  }

  lemma {:induction false} WrittenAppend(params: map<string, string>, keys: seq<string>, k: string)
    requires k in params && forall x :: x in keys ==> x in params
    ensures Written(params, keys + [k]) == Written(params, keys) + LineOf(k, params[k]) + ['\n']
    decreases |keys|
  {
    if keys == [] {
      assert [] + [k] == [k];
      assert [k][1..] == [];
    } else {
      assert keys[0] in keys;
      assert (keys + [k])[1..] == keys[1..] + [k];
      WrittenAppend(params, keys[1..], k);
    }
  }

  /** writeParamsToTmp: one line for each key, in whatever order the map yields them. */
  method WriteParams(params: map<string, string>) returns (text: string)
    ensures exists keys :: Ranges(keys, params) && text == Written(params, keys)
  {
    var rest := params.Keys;
    text := "";
    ghost var keys: seq<string> := [];
    while rest != {}
      invariant rest <= params.Keys && NoDuplicates(keys)
      invariant forall k :: k in keys <==> k in params && k !in rest
      invariant text == Written(params, keys)
      decreases |rest|
    {
      var k :| k in rest;
      WrittenAppend(params, keys, k);
      text := text + LineOf(k, params[k]);
      text := text + ['\n'];
      keys := keys + [k];
      rest := rest - {k};
    }
    assert Ranges(keys, params);
  }

  // ---------------------------------------------------------------- writing, then reading

  ghost predicate Separable(key: string, value: string) {
    Without(key, '=') && Without(key, '\n') && Without(value, '\n')
  }

  /** What a params.env line can carry. */
  ghost predicate Writable(params: map<string, string>) {
    forall k :: k in params ==>
      Separable(k, params[k]) && DropCR(params[k]) == params[k] && |LineOf(k, params[k])| < LINE_LIMIT
  }

  lemma ReadLine(key: string, value: string, rest: string, params: map<string, string>)
    requires Separable(key, value)
    ensures Parse(LineOf(key, value) + ['\n'] + rest, params) ==
            if |LineOf(key, value)| >= LINE_LIMIT then None else Parse(rest, params[key := DropCR(value)])
  {
    var line := LineOf(key, value);
    CutLaw(line, '\n', rest);
    assert DropCR(line) == key + ['='] + DropCR(value);
    CutLaw(key, '=', DropCR(value));
  }

  /** A line without '=', such as a blank line or a comment, adds no parameter. */
  lemma OtherLine(line: string, rest: string, params: map<string, string>)
    requires Without(line, '\n') && Without(line, '=') && |line| < 65536
    ensures Parse(line + ['\n'] + rest, params) == Parse(rest, params)
    ensures Parse(line, params) == Some(params)
  {
    CutLaw(line, '\n', rest);
    NoCut(line, '\n');
    NoCut(DropCR(line), '=');
  }

  lemma {:induction false} NoCut(s: string, c: char)
    requires Without(s, c)
    ensures Cut(s, c).None?
    decreases |s|
  {
    if s != [] {
      NoCut(s[1..], c);
    }
  }

  /** A line that fills the scanner's buffer is an error, wherever it stands. */
  lemma LongLine(line: string, rest: string, params: map<string, string>)
    requires Without(line, '\n') && |line| >= 65536
    ensures Parse(line + ['\n'] + rest, params).None? && Parse(line, params).None?
  {
    CutLaw(line, '\n', rest);
    NoCut(line, '\n');
  }

  /** A later line for the same key wins, and its value starts after the first '='. */
  lemma LaterLineWins(key: string, a: string, b: string, params: map<string, string>)
    requires Separable(key, a) && Separable(key, b) && |LineOf(key, a)| < 65536 && |LineOf(key, b)| < 65536
    ensures Parse(LineOf(key, a) + ['\n'] + (LineOf(key, b) + ['\n'] + []), params) == Some(params[key := DropCR(b)])
  {
    ReadLine(key, a, LineOf(key, b) + ['\n'] + [], params);
    ReadLine(key, b, [], params[key := DropCR(a)]);
    assert params[key := DropCR(a)][key := DropCR(b)] == params[key := DropCR(b)];
  }

  /** Reading a written text back overlays its keys, each value short of one trailing carriage return. */
  lemma {:induction false} ReadWritten(params: map<string, string>, keys: seq<string>, base: map<string, string>,
                                       k: string)
    requires NoDuplicates(keys) && forall x :: x in keys ==> x in params && Separable(x, params[x])
    ensures Parse(Written(params, keys), base).None? <==> exists x :: x in keys && |LineOf(x, params[x])| >= LINE_LIMIT
    ensures var r := Parse(Written(params, keys), base);
            r.Some? ==>
              && r.value.Keys == base.Keys + (set x | x in keys)
              && (k in keys ==> r.value[k] == DropCR(params[k]))
              && (k in base && k !in keys ==> r.value[k] == base[k])
    decreases |keys|
  {
    if keys != [] {
      var x := keys[0];
      assert keys == [x] + keys[1..] && x in keys && x !in keys[1..];
      ReadLine(x, params[x], Written(params, keys[1..]), base);
      ReadWritten(params, keys[1..], base[x := DropCR(params[x])], k);
    }
  }

  /** What has been read never holds a key with '=' or a line feed, nor a value with a line feed. */
  lemma {:induction false} ParsedIsSeparable(s: string, params: map<string, string>)
    requires forall k :: k in params ==> Separable(k, params[k])
    requires Parse(s, params).Some?
    ensures forall k :: k in Parse(s, params).value ==> Separable(k, Parse(s, params).value[k])
    decreases |s|
  {
    if s != [] {
      var (line, rest) := NextLine(s);
      FirstLineHasNoLineFeed(s);
      var text := DropCR(line);
      if Cut(text, '=').Some? {
        CutSplits(text, '=');
        var (key, value) := Cut(text, '=').value;
        assert Without(text, '\n');
        assert forall i :: 0 <= i < |key| ==> key[i] == text[i];
        assert forall i :: 0 <= i < |value| ==> value[i] == text[|key| + 1 + i];
      }
      ParsedIsSeparable(rest, Record(params, text));
    }
  }

  lemma FirstLineHasNoLineFeed(s: string)
    requires s != []
    ensures Without(NextLine(s).0, '\n')
  {
    if Cut(s, '\n').Some? {
      CutSplits(s, '\n');
    } else {
      NoCutNoChar(s, '\n');
    }
  }

  /** Written in any order, the parameters read back unchanged exactly when the lines can carry them. */
  lemma WriteReadExact(params: map<string, string>, keys: seq<string>)
    requires Ranges(keys, params)
    ensures Parse(Written(params, keys), map[]) == Some(params) <==> Writable(params)
  {
    var r := Parse(Written(params, keys), map[]);
    if r == Some(params) {
      ParsedIsSeparable(Written(params, keys), map[]);
    }
    if forall k :: k in params ==> Separable(k, params[k]) {
      ReadWritten(params, keys, map[], "");
      if r.Some? {
        assert r.value.Keys == params.Keys;
        forall k | k in params ensures r.value[k] == DropCR(params[k]) && |LineOf(k, params[k])| < LINE_LIMIT {
          ReadWritten(params, keys, map[], k);
        }
        if Writable(params) {
          assert r.value == params;
        }
      }
    }
  }

  // ---------------------------------------------------------------- overrides

  /** Image parameter names, the process environment, and the extra parameters in call order. */
  datatype Overrides = Overrides(
    images: map<string, string>,
    env: map<string, string>,
    extras: seq<map<string, string>>)

  function Getenv(env: map<string, string>, name: string): string {
    if name != "" && name in env then env[name] else ""
  }

  function Image(o: Overrides, key: string): string {
    Getenv(o.env, Lookup(o.images, key))
  }

  /** The image of a parameter is the value of the environment variable that its name is mapped to. */
  lemma ImageExact(o: Overrides, key: string, value: string)
    requires value != ""
    ensures Image(o, key) == value <==>
            key in o.images && o.images[key] != "" && o.images[key] in o.env && o.env[o.images[key]] == value
  {
  }

  /** updateMap: a missing key reads as the empty string, so setting it to "" does not add it. */
  function Updated(params: map<string, string>, key: string, value: string): map<string, string> {
    if Lookup(params, key) == value then params else params[key := value]
  }

  /** The images that the environment supplies for keys of the file. */
  ghost function Images(o: Overrides, params: map<string, string>): map<string, string> {
    map k | k in params && Image(o, k) != "" :: Image(o, k)
  }

  ghost function WithExtra(params: map<string, string>, extra: map<string, string>): map<string, string> {
    map k | k in params.Keys + extra.Keys && (k in params || extra[k] != "") ::
        if k in extra then extra[k] else params[k]
  }

  ghost function AfterExtras(o: Overrides, params: map<string, string>, n: nat): map<string, string>
    requires n <= |o.extras|
  {
    if n == 0 then WithExtra(params, Images(o, params)) else WithExtra(AfterExtras(o, params, n - 1), o.extras[n - 1])
  }

  /** Images first, then each extra map in turn. */
  ghost function Applied(o: Overrides, params: map<string, string>): map<string, string> {
    AfterExtras(o, params, |o.extras|)
  }

  /** Some single update changed a value; the result may still equal the start. */
  ghost predicate Touched(o: Overrides, params: map<string, string>) {
    TouchedBy(o, params, |o.extras|)
  }

  ghost predicate TouchedBy(o: Overrides, params: map<string, string>, n: nat)
    requires n <= |o.extras|
  {
    if n == 0 then AfterExtras(o, params, 0) != params
    else TouchedBy(o, params, n - 1) || AfterExtras(o, params, n) != AfterExtras(o, params, n - 1)
  }

  /** The value of the last extra map that names the key. */
  function LastExtra(extras: seq<map<string, string>>, key: string): Option<string>
    decreases |extras|
  {
    if extras == [] then None
    else
      var e := extras[|extras| - 1];
      if key in e then Some(e[key]) else LastExtra(extras[..|extras| - 1], key)
  }

  ghost predicate SomeExtraSets(extras: seq<map<string, string>>, key: string) {
    exists e :: e in extras && key in e && e[key] != ""
  }

  lemma {:induction false} AfterExtrasExact(o: Overrides, params: map<string, string>, n: nat, key: string)
    requires n <= |o.extras|
    ensures var r := AfterExtras(o, params, n);
            && (key in r <==> key in params || SomeExtraSets(o.extras[..n], key))
            && (key in r && key !in params ==> LastExtra(o.extras[..n], key).Some?)
            && (key in r ==>
                  r[key] == if LastExtra(o.extras[..n], key).Some? then LastExtra(o.extras[..n], key).value
                            else if Image(o, key) != "" then Image(o, key) else params[key])
  {
    if n == 0 {
      assert o.extras[..0] == [];
    } else {
      AfterExtrasExact(o, params, n - 1, key);
      var e := o.extras[n - 1];
      assert o.extras[..n] == o.extras[..n - 1] + [e];
      assert o.extras[..n][..n - 1] == o.extras[..n - 1];
      assert SomeExtraSets(o.extras[..n], key) <==>
             SomeExtraSets(o.extras[..n - 1], key) || (key in e && e[key] != "") by {
        assert forall x :: x in o.extras[..n] <==> x in o.extras[..n - 1] || x == e;
      }
    }
  }

  /** The last extra map wins over earlier ones, any of them over the image, the image over the file. */
  lemma AppliedExact(o: Overrides, params: map<string, string>, key: string)
    ensures key in Applied(o, params) <==> key in params || SomeExtraSets(o.extras, key)
    ensures key in Applied(o, params) && LastExtra(o.extras, key).Some? ==>
              Applied(o, params)[key] == LastExtra(o.extras, key).value
    ensures key in Applied(o, params) && LastExtra(o.extras, key).None? ==>
              key in params && Applied(o, params)[key] == if Image(o, key) != "" then Image(o, key) else params[key]
  {
    AfterExtrasExact(o, params, |o.extras|, key);
    assert o.extras[..|o.extras|] == o.extras;
  }

  lemma AppliedIdempotent(o: Overrides, params: map<string, string>)
    ensures Applied(o, Applied(o, params)) == Applied(o, params)
  {
    var once := Applied(o, params);
    var twice := Applied(o, once);
    forall k ensures (k in twice <==> k in once) && (k in once ==> twice[k] == once[k]) {
      AppliedExact(o, params, k);
      AppliedExact(o, once, k);
    }
  }

  /** Every override already holds. */
  ghost predicate Agrees(o: Overrides, params: map<string, string>) {
    && (forall k :: k in params && Image(o, k) != "" ==> params[k] == Image(o, k))
    && (forall e, k :: e in o.extras && k in e ==> Updated(params, k, e[k]) == params)
  }

  lemma WithExtraSame(params: map<string, string>, extra: map<string, string>)
    ensures WithExtra(params, extra) == params <==> forall k :: k in extra ==> Updated(params, k, extra[k]) == params
  {
    var r := WithExtra(params, extra);
    if r == params {
      forall k | k in extra ensures Updated(params, k, extra[k]) == params {
        assert k in r <==> k in params || extra[k] != "";
      }
    }
    if forall k :: k in extra ==> Updated(params, k, extra[k]) == params {
      forall k ensures (k in r <==> k in params) && (k in params ==> r[k] == params[k]) {
        if k in extra {
          assert Updated(params, k, extra[k]) == params;
          UpdatedSame(params, k, extra[k]);
        }
      }
    }
  }

  lemma UpdatedSame(params: map<string, string>, key: string, value: string)
    ensures Updated(params, key, value) == params <==> Lookup(params, key) == value
  {
    assert Updated(params, key, value) == params ||
           (key in Updated(params, key, value) && Updated(params, key, value)[key] == value);
  }

  lemma ImagedSame(o: Overrides, params: map<string, string>)
    ensures WithExtra(params, Images(o, params)) == params <==>
            forall k :: k in params && Image(o, k) != "" ==> params[k] == Image(o, k)
  {
    var images := Images(o, params);
    WithExtraSame(params, images);
    forall k | k in images ensures Updated(params, k, images[k]) == params <==> params[k] == Image(o, k) {
      UpdatedSame(params, k, images[k]);
    }
  }

  lemma {:induction false} UntouchedSoFar(o: Overrides, params: map<string, string>, n: nat)
    requires n <= |o.extras| && !TouchedBy(o, params, n)
    ensures AfterExtras(o, params, n) == params
    ensures forall e, k :: e in o.extras[..n] && k in e ==> Updated(params, k, e[k]) == params
  {
    if n > 0 {
      UntouchedSoFar(o, params, n - 1);
      WithExtraSame(params, o.extras[n - 1]);
      assert o.extras[..n] == o.extras[..n - 1] + [o.extras[n - 1]];
    }
  }

  lemma {:induction false} AgreesSoFar(o: Overrides, params: map<string, string>, n: nat)
    requires n <= |o.extras| && Agrees(o, params)
    ensures AfterExtras(o, params, n) == params && !TouchedBy(o, params, n)
  {
    if n == 0 {
      ImagedSame(o, params);
    } else {
      AgreesSoFar(o, params, n - 1);
      assert o.extras[n - 1] in o.extras;
      WithExtraSame(params, o.extras[n - 1]);
    }
  }

  lemma {:induction false} UntouchedFromStart(o: Overrides, params: map<string, string>, n: nat)
    requires n <= |o.extras| && !TouchedBy(o, params, n)
    ensures WithExtra(params, Images(o, params)) == params
  {
    if n > 0 {
      UntouchedFromStart(o, params, n - 1);
    }
  }

  /** Nothing is written exactly when every override already holds. */
  lemma TouchedExact(o: Overrides, params: map<string, string>)
    ensures !Touched(o, params) <==> Agrees(o, params)
  {
    var n := |o.extras|;
    if Agrees(o, params) {
      AgreesSoFar(o, params, n);
    }
    if !Touched(o, params) {
      UntouchedSoFar(o, params, n);
      UntouchedFromStart(o, params, n);
      ImagedSame(o, params);
      assert o.extras[..n] == o.extras;
    }
  }

  // ---------------------------------------------------------------- the update loops

  method UpdateMap(params: map<string, string>, key: string, value: string) returns (r: map<string, string>, n: nat)
    ensures r == Updated(params, key, value) && (n != 0 <==> r != params)
  {
    UpdatedSame(params, key, value);
    var current := Lookup(params, key);
    if current == value {
      return params, 0;
    }
    return params[key := value], 1;
  }

  /** One more key of an overriding map. */
  lemma WithExtraStep(params: map<string, string>, part: map<string, string>, k: string, v: string)
    requires k !in part
    ensures WithExtra(params, part[k := v]) == Updated(WithExtra(params, part), k, v)
    ensures WithExtra(params, part[k := v]) == params <==>
            WithExtra(params, part) == params && Updated(WithExtra(params, part), k, v) == WithExtra(params, part)
  {
    var before, after := WithExtra(params, part), WithExtra(params, part[k := v]);
    assert k in before <==> k in params;
    assert after == Updated(before, k, v);
    if after == params {
      UpdatedSame(before, k, v);
      assert k in after <==> k in params;
      assert after == before;
    }
  }

  lemma NextKey(extra: map<string, string>, rest: set<string>, k: string)
    requires k in rest && k in extra
    ensures k !in extra - rest && extra - (rest - {k}) == (extra - rest)[k := extra[k]]
  {
  }

  lemma NextOther(extra: map<string, string>, rest: set<string>, k: string)
    requires k !in extra
    ensures extra - (rest - {k}) == extra - rest
  {
  }

  lemma AllDone(extra: map<string, string>, params: map<string, string>)
    ensures extra - {} == extra && extra - extra.Keys == map[] && WithExtra(params, map[]) == params
  {
  }

  /** The keys of the file, in any order. */
  method UpdateImages(o: Overrides, params: map<string, string>) returns (r: map<string, string>, updated: bool)
    ensures r == WithExtra(params, Images(o, params)) && (updated <==> r != params)
  {
    r, updated := params, false;
    var rest := params.Keys;
    ghost var images := Images(o, params);
    AllDone(images, params);
    assert images - rest == map[];
    while rest != {}
      invariant rest <= params.Keys
      invariant r == WithExtra(params, images - rest)
      invariant updated <==> r != params
      decreases |rest|
    {
      var k :| k in rest;
      var image := Image(o, k);
      if image != "" {
        NextKey(images, rest, k);
        WithExtraStep(params, images - rest, k, image);
        var n;
        r, n := UpdateMap(r, k, image);
        updated := updated || n != 0;
      } else {
        NextOther(images, rest, k);
      }
      rest := rest - {k};
    }
  }

  /** One extra map, in any order. */
  method UpdateExtra(extra: map<string, string>, params: map<string, string>)
    returns (r: map<string, string>, updated: bool)
    ensures r == WithExtra(params, extra) && (updated <==> r != params)
  {
    r, updated := params, false;
    var rest := extra.Keys;
    AllDone(extra, params);
    while rest != {}
      invariant rest <= extra.Keys
      invariant r == WithExtra(params, extra - rest)
      invariant updated <==> r != params
      decreases |rest|
    {
      var k :| k in rest;
      NextKey(extra, rest, k);
      WithExtraStep(params, extra - rest, k, extra[k]);
      var n;
      r, n := UpdateMap(r, k, extra[k]);
      updated := updated || n != 0;
      rest := rest - {k};
    }
  }

  /** Both kinds of override, with the flag that decides whether the file is rewritten. */
  method Override(o: Overrides, params: map<string, string>) returns (r: map<string, string>, updated: bool)
    ensures r == Applied(o, params) && (updated <==> Touched(o, params))
  {
    r, updated := UpdateImages(o, params);
    for i := 0 to |o.extras|
      invariant r == AfterExtras(o, params, i)
      invariant updated <==> TouchedBy(o, params, i)
    {
      var more;
      r, more := UpdateExtra(o.extras[i], r);
      updated := updated || more;
    }
  }

  /** What ApplyParams may leave behind. */
  ghost predicate Outcome(o: Overrides, before: Option<string>, after: Option<string>, failed: bool) {
    if before.None? then after == before && !failed
    else
      var parsed := Parse(before.value, map[]);
      if parsed.None? then after == before && failed
      else if !Touched(o, parsed.value) then after == before && !failed
      else if failed then after == before
      else
        exists keys ::
          Ranges(keys, Applied(o, parsed.value)) && after == Some(Written(Applied(o, parsed.value), keys))
  }

  /** A params.env path: its file, if there is one. */
  class ParamsFile {
    var content: Option<string>

    constructor (text: Option<string>)
      ensures content == text
    {
      content := text;
    }

    /** ApplyParams; `canReplace` says whether the temporary file can be written and renamed. */
    method ApplyParams(o: Overrides, canReplace: bool) returns (failed: bool)
      modifies this
      ensures Outcome(o, old(content), content, failed)
      ensures canReplace && (content.Some? ==> Parse(old(content).value, map[]).Some?) ==> !failed
    {
      if content.None? {
        return false;
      }
      var parsed := ParseParams(content.value);
      if parsed.None? {
        return true;
      }
      var params, updated := Override(o, parsed.value);
      if !updated {
        return false;
      }
      var text := WriteParams(params);
      if !canReplace {
        return true;
      }
      content := Some(text);
      return false;
    }
  }

  // ---------------------------------------------------------------- what the file then says

  /**
   A successful call leaves a file that reads as the overridden parameters, unless it had to write one it cannot
   carry.
   */
  lemma ApplyGivesApplied(o: Overrides, before: string, after: string)
    requires Outcome(o, Some(before), Some(after), false)
    ensures Parse(before, map[]).Some?
    ensures var params := Parse(before, map[]).value;
            Parse(after, map[]) == Some(Applied(o, params)) <==> !Touched(o, params) || Writable(Applied(o, params))
  {
    var params := Parse(before, map[]).value;
    if Touched(o, params) {
      var keys :| Ranges(keys, Applied(o, params)) && after == Written(Applied(o, params), keys);
      WriteReadExact(Applied(o, params), keys);
    } else {
      UntouchedSoFar(o, params, |o.extras|);
    }
  }

  /** Applying twice gives the parameters that applying once gave. */
  lemma ApplyTwice(o: Overrides, before: string, once: string, twice: string)
    requires Outcome(o, Some(before), Some(once), false) && Outcome(o, Some(once), Some(twice), false)
    requires var p := Parse(before, map[]); p.Some? && Touched(o, p.value) ==> Writable(Applied(o, p.value))
    ensures Parse(once, map[]).Some? && Parse(twice, map[]) == Parse(once, map[])
    ensures Agrees(o, Parse(once, map[]).value) ==> twice == once
  {
    ApplyGivesApplied(o, before, once);
    var params := Parse(before, map[]).value;
    ApplyGivesApplied(o, once, twice);
    AppliedIdempotent(o, params);
    TouchedExact(o, Applied(o, params));
  }

  /** Every order of the keys starts a text with its first key. */
  lemma FirstKey(params: map<string, string>, keys: seq<string>)
    requires Writable(params) && keys != [] && forall k :: k in keys ==> k in params
    ensures Cut(Written(params, keys), '=').Some? && Cut(Written(params, keys), '=').value.0 == keys[0]
  {
    assert keys[0] in keys;
    var rest := params[keys[0]] + ['\n'] + Written(params, keys[1..]);
    CutLaw(keys[0], '=', rest);
    KeyLeads(keys[0], params[keys[0]], Written(params, keys[1..]));
  }

  lemma KeyLeads(key: string, value: string, rest: string)
    ensures LineOf(key, value) + ['\n'] + rest == key + ['='] + (value + ['\n'] + rest)
  {
  }

  /** Another order of the same keys, starting with another one. */
  lemma OtherOrder(params: map<string, string>, keys: seq<string>) returns (other: seq<string>)
    requires Ranges(keys, params) && |params| > 1
    ensures Ranges(other, params) && other != [] && keys != [] && other[0] != keys[0]
  {
    assert |params.Keys| > 1;
    var some :| some in params.Keys;
    assert some in keys;
    assert keys[0] in keys && params.Keys != {keys[0]};
    var k :| k in params.Keys && k != keys[0];
    var rest := Enumeration(params.Keys - {k});
    other := [k] + rest;
    forall i, j | 0 <= i < j < |other| ensures other[i] != other[j] {
      assert i == 0 ==> rest[j - 1] in rest;
    }
  }

  /** An order of a set of keys is as long as the set is large. */
  lemma {:induction false} OrderLength(keys: seq<string>, all: set<string>)
    requires NoDuplicates(keys) && forall k :: k in keys <==> k in all
    ensures |keys| == |all|
    decreases |keys|
  {
    if keys == [] {
      assert all == {};
    } else {
      var last := keys[|keys| - 1];
      assert last in keys && keys == keys[..|keys| - 1] + [last];
      OrderLength(keys[..|keys| - 1], all - {last});
    }
  }

  /** A map with at most one key has one order only. */
  lemma OneOrder(params: map<string, string>, a: seq<string>, b: seq<string>)
    requires Ranges(a, params) && Ranges(b, params) && |params| <= 1
    ensures a == b
  {
    assert |params| == |params.Keys|;
    OrderLength(a, params.Keys);
    OrderLength(b, params.Keys);
    if |a| == 1 {
      assert a[0] in a;
      assert a[0] in b;
    }
  }

  /**
   A second call leaves the bytes as they are, whatever map order it meets, exactly when every override holds
   in the result or the result has at most one parameter.
   */
  lemma ApplyTwiceBytesExact(o: Overrides, before: string, once: string)
    requires Outcome(o, Some(before), Some(once), false)
    requires var p := Parse(before, map[]); p.Some? && Touched(o, p.value) ==> Writable(Applied(o, p.value))
    ensures Parse(before, map[]).Some?
    ensures var result := Applied(o, Parse(before, map[]).value);
            (forall twice: string :: Outcome(o, Some(once), Some(twice), false) ==> twice == once) <==>
            Agrees(o, result) || |result| <= 1
  {
    ApplyGivesApplied(o, before, once);
    var params := Parse(before, map[]).value;
    var result := Applied(o, params);
    AppliedIdempotent(o, params);
    TouchedExact(o, result);
    if !Agrees(o, result) {
      TouchedTwice(o, params);
      var keys :| Ranges(keys, result) && once == Written(result, keys);
      if |result| <= 1 {
        forall twice: string | Outcome(o, Some(once), Some(twice), false) ensures twice == once {
          var again :| Ranges(again, result) && twice == Written(result, again);
          OneOrder(result, keys, again);
        }
      } else {
        var other := OtherOrder(result, keys);
        FirstKey(result, keys);
        FirstKey(result, other);
        assert Outcome(o, Some(once), Some(Written(result, other)), false);
      }
    }
  }

  /** What a call leaves alone stays settled. */
  lemma TouchedTwice(o: Overrides, params: map<string, string>)
    requires !Agrees(o, Applied(o, params))
    ensures Touched(o, params)
  {
    if !Touched(o, params) {
      UntouchedSoFar(o, params, |o.extras|);
      TouchedExact(o, params);
    }
  }

  /**
   The overrides hold in the result exactly when no key is set to two values by extras, or by an image and an
   extra.
   */
  lemma AgreesExact(o: Overrides, params: map<string, string>)
    ensures Agrees(o, Applied(o, params)) <==>
            && (forall e, k :: e in o.extras && k in e ==> LastExtra(o.extras, k) == Some(e[k]))
            && (forall k :: k in Applied(o, params) && Image(o, k) != "" && LastExtra(o.extras, k).Some? ==>
                  LastExtra(o.extras, k) == Some(Image(o, k)))
  {
    var result := Applied(o, params);
    forall e, k | e in o.extras && k in e
      ensures Updated(result, k, e[k]) == result <==> LastExtra(o.extras, k) == Some(e[k])
    {
      AppliedExact(o, params, k);
      NamedHasLast(o.extras, e, k);
      UpdatedSame(result, k, e[k]);
      assert e[k] == "" || SomeExtraSets(o.extras, k);
    }
    forall k | k in result && Image(o, k) != ""
      ensures result[k] == Image(o, k) <==> LastExtra(o.extras, k).None? || LastExtra(o.extras, k) == Some(Image(o, k))
    {
      AppliedExact(o, params, k);
    }
  }

  /** A named key has a last value, which is one of those given. */
  lemma {:induction false} NamedHasLast(extras: seq<map<string, string>>, e: map<string, string>, k: string)
    requires e in extras && k in e
    ensures LastExtra(extras, k).Some?
    ensures !SomeExtraSets(extras, k) ==> LastExtra(extras, k) == Some("")
    decreases |extras|
  {
    var last := extras[|extras| - 1];
    assert last in extras;
    if k !in last {
      assert extras == extras[..|extras| - 1] + [last];
      NamedHasLast(extras[..|extras| - 1], e, k);
      if SomeExtraSets(extras[..|extras| - 1], k) {
        var x :| x in extras[..|extras| - 1] && k in x && x[k] != "";
        assert x in extras;
      }
    }
  }

  /** An image and an extra that disagree: each call writes the file again, in any order. */
  lemma BytesCanChange()
    ensures var o := Overrides(map["A" := "IMAGE"], map["IMAGE" := "i"], [map["A" := "x"]]);
            Outcome(o, Some("A=x\nB=y\n"), Some("B=y\nA=x\n"), false)
  {
    var o := Overrides(map["A" := "IMAGE"], map["IMAGE" := "i"], [map["A" := "x"]]);
    assert Image(o, "A") == "i" && Image(o, "B") == "";
    assert "A=x\nB=y\n" == TwoLines("A", "x", "B", "y") && "B=y\nA=x\n" == TwoLines("B", "y", "A", "x");
    ConflictRewrites(o, "A", "x", "B", "y");
  }

  /** The parameters stay, the order of the lines need not. */
  lemma ConflictRewrites(o: Overrides, a: string, x: string, b: string, y: string)
    requires Separable(a, x) && Separable(b, y) && DropCR(x) == x && DropCR(y) == y && |a| + |x| < 100 &&
             |b| + |y| < 100
    requires a != b && o.extras == [map[a := x]] && x != "" && Image(o, a) !in {"", x} && Image(o, b) == ""
    ensures Outcome(o, Some(TwoLines(a, x, b, y)), Some(TwoLines(b, y, a, x)), false)
  {
    var m: map<string, string> := map[][a := x][b := y];
    ReadsTwoLines(a, x, b, y);
    ConflictTouches(o, m, a);
    LastOfOne(map[a := x], a);
    LastOfOne(map[a := x], b);
    forall k ensures k in Applied(o, m) <==> k in m {
      AppliedExact(o, m, k);
    }
    AppliedExact(o, m, a);
    AppliedExact(o, m, b);
    assert Applied(o, m) == m;
    WrittenTwo(m, b, a);
    assert Ranges([b, a], m);
  }

  lemma LastOfOne(e: map<string, string>, k: string)
    ensures LastExtra([e], k) == if k in e then Some(e[k]) else None
  {
    assert [e][..0] == [];
  }

  /** Two lines as WriteParams writes them. */
  ghost function TwoLines(a: string, x: string, b: string, y: string): string {
    LineOf(a, x) + ['\n'] + (LineOf(b, y) + ['\n'] + [])
  }

  lemma ReadsTwoLines(a: string, x: string, b: string, y: string)
    requires Separable(a, x) && Separable(b, y) && DropCR(x) == x && DropCR(y) == y && |a| + |x| < 100 &&
             |b| + |y| < 100
    ensures Parse(TwoLines(a, x, b, y), map[]) == Some(map[][a := x][b := y])
  {
    ReadLine(a, x, LineOf(b, y) + ['\n'] + [], map[]);
    ReadLine(b, y, [], map[][a := x]);
  }

  lemma WrittenTwo(params: map<string, string>, a: string, b: string)
    requires a in params && b in params
    ensures Written(params, [a, b]) == TwoLines(a, params[a], b, params[b])
  {
    assert [a, b][1..] == [b] && [b][1..] == [];
    assert Written(params, [b]) == LineOf(b, params[b]) + ['\n'] + [];
  }

  /** An image that differs from the file is an update, whatever an extra does later. */
  lemma ConflictTouches(o: Overrides, params: map<string, string>, k: string)
    requires k in params && Image(o, k) != "" && Image(o, k) != params[k]
    ensures Touched(o, params)
  {
    TouchedExact(o, params);
  }

  /** A value that ends in a carriage return loses it as soon as another parameter forces a rewrite. */
  lemma RewriteDropsCarriageReturn(o: Overrides, before: string, after: string, params: map<string, string>, k: string)
    requires Outcome(o, Some(before), Some(after), false) && Parse(before, map[]) == Some(params) && Touched(o, params)
    requires k in Applied(o, params) && DropCR(Applied(o, params)[k]) != Applied(o, params)[k]
    ensures Parse(after, map[]) != Some(Applied(o, params))
  {
    ApplyGivesApplied(o, before, after);
  }

  /** Such values exist: a reader drops one of two trailing carriage returns. */
  lemma ValuesMayEndInCarriageReturn()
    ensures Parse("a=x\r\r\n", map[]) == Some(map["a" := "x\r"])
  {
    assert "a=x\r\r\n" == LineOf("a", "x\r\r") + ['\n'] + [];
    ReadLine("a", "x\r\r", [], map[]);
    assert DropCR("x\r\r") == "x\r";
    assert |LineOf("a", "x\r\r")| == 5;
  }
}
