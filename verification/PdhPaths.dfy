/** The text side of the PDH collector: counter paths and NUL-separated string blocks. */
module PdhPaths {
  import opened Text

  // ---------------------------------------------------------------- counter paths

  datatype PathParts = PathParts(obj: string, instance: string, counter: string)

  /** `\<object>[(<instance>)]\<counter>` */
  function ParsePath(path: string): Option<PathParts> {
    if |path| < 3 || path[0] != '\\' then None
    else
      var open := FindChar(path, '(', 1);
      var lastBs := FindLastChar(path, '\\');
      if lastBs <= 0 then None
      else
        var counter := path[lastBs + 1..];
        if open < |path| && open < lastBs then
          var close := FindChar(path, ')', open);
          if close == |path| || close > lastBs then None
          else Named(PathParts(path[1..open], path[open + 1..close], counter))
        else Named(PathParts(path[1..lastBs], "", counter))
  }

  function Named(parts: PathParts): Option<PathParts> {
    if parts.obj != "" && parts.counter != "" then Some(parts) else None
  }

  /** How a path is put together again. */
  function Build(parts: PathParts): string {
    "\\" + parts.obj + (if parts.instance == "" then "" else "(" + parts.instance + ")") + "\\" + parts.counter
  }

  predicate Lacks(s: string, c: char) { forall i :: 0 <= i < |s| ==> s[i] != c }

  predicate WellFormed(parts: PathParts) {
    && parts.obj != "" && Lacks(parts.obj, '(')
    && Lacks(parts.instance, ')')
    && parts.counter != "" && Lacks(parts.counter, '\\')
  }

  lemma ParsedIsWellFormed(path: string)
    ensures ParsePath(path).Some? ==> WellFormed(ParsePath(path).value)
  {
  }

  lemma FindCharAt(s: string, c: char, from: nat, at: nat)
    requires from <= at <= |s| && (at < |s| ==> s[at] == c)
    requires forall i :: from <= i < at ==> s[i] != c
    ensures FindChar(s, c, from) == at
  {
  }

  lemma FindLastCharAt(s: string, c: char, at: nat)
    requires at < |s| && s[at] == c && forall i :: at < i < |s| ==> s[i] != c
    ensures FindLastChar(s, c) == at
  {
  }

  /** The counter begins behind the last backslash. */
  lemma CutAtCounter(path: string, front: string, counter: string)
    requires path == front + "\\" + counter && Lacks(counter, '\\')
    ensures FindLastChar(path, '\\') == |front| && path[|front| + 1..] == counter
  {
    forall i | |front| < i < |path| ensures path[i] != '\\' { assert path[i] == counter[i - |front| - 1]; }
    FindLastCharAt(path, '\\', |front|);
  }

  lemma PlainParses(path: string, parts: PathParts)
    requires IsPlain(path, parts)
    ensures ParsePath(path) == Some(parts)
  {
    var n := |parts.obj|;
    var front := "\\" + parts.obj;
    CutAtCounter(path, front, parts.counter);
    assert path[1..n + 1] == parts.obj;
    forall i | 1 <= i < n + 2 ensures path[i] != '(' {
      if i < n + 1 { assert path[i] == parts.obj[i - 1]; } else { assert path[i] == '\\'; }
    }
    assert FindChar(path, '(', 1) > n + 1;
  }

  lemma InstanceParses(path: string, parts: PathParts, junk: string)
    requires HasInstance(path, parts, junk)
    ensures ParsePath(path) == Some(parts)
  {
    var front := "\\" + parts.obj + ("(" + parts.instance + ")") + junk;
    FrontParts(front, parts, junk);
    InstanceCut(path, front, parts);
  }

  /** Where object and instance stand. */
  predicate Fronted(front: string, parts: PathParts) {
    var n, m := |parts.obj|, |parts.instance|;
    && |front| >= n + m + 3 && front[0] == '\\' && front[n + 1] == '(' && front[n + 2 + m] == ')'
    && front[1..n + 1] == parts.obj && front[n + 2..n + 2 + m] == parts.instance
  }

  lemma FrontParts(front: string, parts: PathParts, junk: string)
    requires front == "\\" + parts.obj + ("(" + parts.instance + ")") + junk
    ensures Fronted(front, parts)
  {
  }

  lemma InstanceCut(path: string, front: string, parts: PathParts)
    requires WellFormed(parts) && Fronted(front, parts) && path == front + "\\" + parts.counter
    ensures ParsePath(path) == Some(parts)
  {
    var open, close := |parts.obj| + 1, |parts.obj| + 2 + |parts.instance|;
    assert FindLastChar(path, '\\') == |front| && path[|front| + 1..] == parts.counter by {
      CutAtCounter(path, front, parts.counter);
    }
    assert FindChar(path, '(', 1) == open && FindChar(path, ')', open) == close
        && path[1..open] == parts.obj && path[open + 1..close] == parts.instance by {
      assert front <= path;
      InstanceFound(path, front, parts);
    }
    assert path[0] == front[0];
    assert ParsePath(path) == Named(parts) by { ParseAt(path, open, close, |front|); }
  }

  lemma ParseAt(path: string, open: nat, close: nat, lastBs: nat)
    requires 1 <= open < close < lastBs < |path| && path[0] == '\\'
    requires FindChar(path, '(', 1) == open && FindChar(path, ')', open) == close && FindLastChar(path, '\\') == lastBs
    ensures ParsePath(path) == Named(PathParts(path[1..open], path[open + 1..close], path[lastBs + 1..]))
  {
  }

  lemma InstanceFound(path: string, front: string, parts: PathParts)
    requires Lacks(parts.obj, '(') && Lacks(parts.instance, ')') && Fronted(front, parts) && front <= path
    ensures var n, m := |parts.obj|, |parts.instance|;
            && FindChar(path, '(', 1) == n + 1 && FindChar(path, ')', n + 1) == n + 2 + m
            && path[1..n + 1] == parts.obj && path[n + 2..n + 2 + m] == parts.instance
  {
    var n, m := |parts.obj|, |parts.instance|;
    forall i | 1 <= i < n + 1 ensures path[i] != '(' { assert path[i] == parts.obj[i - 1]; }
    FindCharAt(path, '(', 1, n + 1);
    forall i | n + 1 <= i < n + 2 + m ensures path[i] != ')' {
      if i > n + 1 { assert path[i] == parts.instance[i - n - 2]; }
    }
    FindCharAt(path, ')', n + 1, n + 2 + m);
  }

  /** An object and a counter. */
  predicate IsPlain(path: string, parts: PathParts) {
    WellFormed(parts) && parts.instance == "" && path == "\\" + parts.obj + "\\" + parts.counter
  }

  /** An object, an instance in parentheses, anything, and a counter. */
  predicate HasInstance(path: string, parts: PathParts, junk: string) {
    WellFormed(parts) && path == "\\" + parts.obj + ("(" + parts.instance + ")") + junk + "\\" + parts.counter
  }

  /** Exactly the paths of one of these two forms parse, to the parts they are made of. */
  lemma ParsesIff(path: string, parts: PathParts)
    ensures ParsePath(path) == Some(parts) <==> IsPlain(path, parts) || exists junk :: HasInstance(path, parts, junk)
  {
    if IsPlain(path, parts) { PlainParses(path, parts); }
    if junk :| HasInstance(path, parts, junk) { InstanceParses(path, parts, junk); }
    if ParsePath(path) == Some(parts) { ParsedForm(path); }
  }

  lemma ParsedForm(path: string)
    requires ParsePath(path).Some?
    ensures var parts := ParsePath(path).value;
            IsPlain(path, parts) || exists junk :: HasInstance(path, parts, junk)
  {
    var parts := ParsePath(path).value;
    var open, lastBs := FindChar(path, '(', 1), FindLastChar(path, '\\');
    ParsedIsWellFormed(path);
    if open > lastBs {
      GluePlain(path, lastBs);
      assert IsPlain(path, parts);
    } else {
      var close := FindChar(path, ')', open);
      GlueInstance(path, open, close, lastBs);
      assert HasInstance(path, parts, path[close + 1..lastBs]);
    }
  }

  lemma GlueInstance(path: string, open: nat, close: nat, lastBs: nat)
    requires 1 <= open < close < lastBs < |path| && path[0] == '\\' && path[lastBs] == '\\'
    requires path[open] == '(' && path[close] == ')'
    ensures path == "\\" + path[1..open] + ("(" + path[open + 1..close] + ")") + path[close + 1..lastBs] + "\\" + path[lastBs + 1..]
  {
    assert path[..open] == "\\" + path[1..open];
    assert path[open..close + 1] == "(" + path[open + 1..close] + ")";
    assert path[lastBs..] == "\\" + path[lastBs + 1..];
    assert path == path[..open] + path[open..close + 1] + path[close + 1..lastBs] + path[lastBs..];
  }

  lemma BuiltParses(parts: PathParts)
    requires WellFormed(parts)
    ensures ParsePath(Build(parts)) == Some(parts)
  {
    if parts.instance == "" {
      assert Build(parts) == "\\" + parts.obj + "\\" + parts.counter;
      PlainParses(Build(parts), parts);
    } else {
      var front := "\\" + parts.obj + ("(" + parts.instance + ")");
      assert front + "" == front;
      assert HasInstance(Build(parts), parts, "");
      InstanceParses(Build(parts), parts, "");
    }
  }

  /** Parsing a rebuilt path gives its parts back exactly when they are well formed; counters may hold
      parentheses and instances backslashes. */
  lemma PathRoundTrip(parts: PathParts)
    ensures ParsePath(Build(parts)) == Some(parts) <==> WellFormed(parts)
  {
    ParsedIsWellFormed(Build(parts));
    if WellFormed(parts) { BuiltParses(parts); }
  }

  /** A parsed path, rebuilt, parses to the same parts; the text itself comes back unless something
      stood between the instance and the counter, or the instance was an empty pair of parentheses. */
  lemma ParseBuild(path: string)
    requires ParsePath(path).Some?
    ensures ParsePath(Build(ParsePath(path).value)) == ParsePath(path)
    ensures var open, lastBs := FindChar(path, '(', 1), FindLastChar(path, '\\');
            Build(ParsePath(path).value) == path
            <==> open > lastBs || (FindChar(path, ')', open) == lastBs - 1 && open < lastBs - 2)
  {
    ParsedIsWellFormed(path);
    BuiltParses(ParsePath(path).value);
    RebuiltText(path);
  }

  lemma RebuiltText(path: string)
    requires ParsePath(path).Some?
    ensures var open, lastBs := FindChar(path, '(', 1), FindLastChar(path, '\\');
            Build(ParsePath(path).value) == path
            <==> open > lastBs || (FindChar(path, ')', open) == lastBs - 1 && open < lastBs - 2)
  {
    var open, lastBs := FindChar(path, '(', 1), FindLastChar(path, '\\');
    if open > lastBs {
      RebuiltPlain(path);
    } else {
      RebuiltLength(path);
      if FindChar(path, ')', open) == lastBs - 1 && open < lastBs - 2 { RebuiltInstance(path); }
    }
  }

  lemma RebuiltPlain(path: string)
    requires ParsePath(path).Some? && FindChar(path, '(', 1) > FindLastChar(path, '\\')
    ensures Build(ParsePath(path).value) == path
  {
    GluePlain(path, FindLastChar(path, '\\'));
  }

  lemma RebuiltInstance(path: string)
    requires ParsePath(path).Some?
    requires var open, lastBs := FindChar(path, '(', 1), FindLastChar(path, '\\');
             open < lastBs - 2 && FindChar(path, ')', open) == lastBs - 1
    ensures Build(ParsePath(path).value) == path
  {
    Glue(path, FindChar(path, '(', 1), FindLastChar(path, '\\'));
  }

  lemma GluePlain(path: string, lastBs: nat)
    requires 1 <= lastBs < |path| && path[0] == '\\' && path[lastBs] == '\\'
    ensures path == "\\" + path[1..lastBs] + "\\" + path[lastBs + 1..]
  {
  }

  lemma Glue(path: string, open: nat, lastBs: nat)
    requires 1 <= open && open + 2 < lastBs < |path| && path[0] == '\\' && path[lastBs] == '\\'
    requires path[open] == '(' && path[lastBs - 1] == ')'
    ensures path == "\\" + path[1..open] + ("(" + path[open + 1..lastBs - 1] + ")") + "\\" + path[lastBs + 1..]
  {
    assert path[..open] == "\\" + path[1..open];
    assert path[open..lastBs] == "(" + path[open + 1..lastBs - 1] + ")";
    assert path[lastBs..] == "\\" + path[lastBs + 1..];
    assert path == path[..open] + path[open..lastBs] + path[lastBs..];
  }

  lemma RebuiltLength(path: string)
    requires ParsePath(path).Some? && FindChar(path, '(', 1) < FindLastChar(path, '\\')
    ensures var open, lastBs := FindChar(path, '(', 1), FindLastChar(path, '\\');
            var close := FindChar(path, ')', open);
            |path| - |Build(ParsePath(path).value)| == if close == open + 1 then lastBs - open else lastBs - 1 - close
  {
  }

  /** `LocalizePath`, for whatever the name lookup answers. */
  function LocalizePath(path: string, localized: string -> string): string {
    match ParsePath(path)
    case None => path
    case Some(parts) => Build(PathParts(localized(parts.obj), parts.instance, localized(parts.counter)))
  }

  /** Localizing changes the object and counter names and nothing else, for every translation whose
      answers can stand in a path; and a path that does not parse is left alone. */
  lemma LocalizedParts(path: string, localized: string -> string)
    ensures match ParsePath(path)
            case None => LocalizePath(path, localized) == path
            case Some(parts) =>
              var translated := PathParts(localized(parts.obj), parts.instance, localized(parts.counter));
              ParsePath(LocalizePath(path, localized)) == Some(translated)
              <==> && translated.obj != "" && Lacks(translated.obj, '(')
                   && translated.counter != "" && Lacks(translated.counter, '\\')
  {
    ParsedIsWellFormed(path);
    if ParsePath(path).Some? {
      var parts := ParsePath(path).value;
      PathRoundTrip(PathParts(localized(parts.obj), parts.instance, localized(parts.counter)));
    }
  }

  /** A path with an asterisk stands for all the paths it matches. */
  predicate Wildcard(path: string) { FindChar(path, '*', 0) < |path| }

  /** As long as no name holds an asterisk, whether a localized path is a wildcard is a matter of its
      instance alone. */
  lemma InstanceDecidesWildcard(path: string, localized: string -> string)
    requires ParsePath(path).Some?
    requires var parts := ParsePath(path).value; Lacks(localized(parts.obj), '*') && Lacks(localized(parts.counter), '*')
    ensures Wildcard(LocalizePath(path, localized)) <==> '*' in ParsePath(path).value.instance
  {
    var parts := ParsePath(path).value;
    var obj, counter := localized(parts.obj), localized(parts.counter);
    var instance := if parts.instance == "" then "" else "(" + parts.instance + ")";
    var text := LocalizePath(path, localized);
    assert text == "\\" + obj + instance + "\\" + counter;
    assert Wildcard(text) <==> '*' in text;
    assert '*' in text <==> '*' in obj || '*' in instance || '*' in counter;
    assert '*' in instance <==> '*' in parts.instance;
  }

  // ---------------------------------------------------------------- NUL-separated blocks

  const NUL: char := 0 as char

  /** The C string at p: up to the next NUL, or to the terminator that `c_str()` puts behind the
      buffer. */
  function CStringAt(buf: string, p: nat): (s: string)
    requires p <= |buf|
    ensures p + |s| <= |buf| && s == buf[p..p + |s|]
    ensures Lacks(s, NUL) && (p + |s| < |buf| ==> buf[p + |s|] == NUL)
  {
    buf[p..FindChar(buf, NUL, p)]
  }

  /** The strings of a block, read one behind the other until an empty one or the limit. */
  function Strings(buf: string, limit: nat, p: nat): seq<string>
    requires limit <= |buf|
    decreases limit - p
  {
    if p >= limit || buf[p] == NUL then []
    else
      var s := CStringAt(buf, p);
      [s] + Strings(buf, limit, p + |s| + 1)
  }

  /** How the strings are stored: each with its NUL, and one more NUL at the end. */
  function Block(strings: seq<string>): string {
    if strings == [] then [NUL] else strings[0] + [NUL] + Block(strings[1..])
  }

  predicate Storable(strings: seq<string>) {
    forall i :: 0 <= i < |strings| ==> strings[i] != "" && Lacks(strings[i], NUL)
  }

  lemma StringsNext(buf: string, limit: nat, p: nat)
    requires p < limit <= |buf| && buf[p] != NUL
    ensures var s := CStringAt(buf, p);
            Strings(buf, limit, p) == [s] + Strings(buf, limit, p + |s| + 1)
  {
  }

  lemma StorableTail(strings: seq<string>)
    requires Storable(strings) && strings != []
    ensures Storable(strings[1..])
  {
  }

  /** From position p on the buffer holds the block, with whatever behind it. */
  ghost predicate Holds(buf: string, p: nat, strings: seq<string>, padding: string) {
    p < |buf| && buf[p..] == Block(strings) + padding
  }

  /** Reading the first string of a block. */
  lemma BlockFront(buf: string, p: nat, strings: seq<string>, padding: string)
    requires Storable(strings) && Holds(buf, p, strings, padding)
    ensures buf[p] == NUL <==> strings == []
    ensures strings != [] ==> CStringAt(buf, p) == strings[0]
  {
    assert buf[p] == buf[p..][0];
    if strings != [] {
      var s := strings[0];
      assert buf[p..] == s + [NUL] + (Block(strings[1..]) + padding);
      forall i | p <= i < p + |s| ensures buf[i] == s[i - p] { assert buf[i] == buf[p..][i - p]; }
      assert buf[p + |s|] == buf[p..][|s|];
      FindCharAt(buf, NUL, p, p + |s|);
      assert CStringAt(buf, p) == s;
    }
  }

  /** Behind it the rest of the block begins. */
  lemma BlockRest(buf: string, p: nat, strings: seq<string>, padding: string)
    requires strings != [] && Holds(buf, p, strings, padding)
    ensures Holds(buf, p + |strings[0]| + 1, strings[1..], padding)
  {
    var s := strings[0];
    assert buf[p..] == s + [NUL] + (Block(strings[1..]) + padding);
    assert buf[p + |s| + 1..] == buf[p..][|s| + 1..];
    assert |Block(strings[1..])| >= 1;
  }

  lemma {:induction false} BlockRoundTrip(buf: string, p: nat, strings: seq<string>, padding: string)
    requires Storable(strings) && Holds(buf, p, strings, padding)
    ensures Strings(buf, |buf|, p) == strings
    decreases |strings|
  {
    BlockFront(buf, p, strings, padding);
    if strings != [] {
      var s, rest := strings[0], strings[1..];
      var next := p + |s| + 1;
      assert Strings(buf, |buf|, next) == rest by {
        BlockRest(buf, p, strings, padding);
        StorableTail(strings);
        BlockRoundTrip(buf, next, rest, padding);
      }
      assert Strings(buf, |buf|, p) == [s] + Strings(buf, |buf|, next) by { StringsNext(buf, |buf|, p); }
      assert strings == [s] + rest;
    }
  }

  // ---------------------------------------------------------------- the name table

  predicate SameFolded(a: string, b: string, lower: char -> char) {
    |a| == |b| && forall i :: 0 <= i < |a| ==> lower(a[i]) == lower(b[i])
  }

  function Folded(s: string, lower: char -> char): (r: string)
    ensures |r| == |s| && forall i :: 0 <= i < |s| ==> r[i] == lower(s[i])
  {
    seq(|s|, i requires 0 <= i < |s| => lower(s[i]))
  }

  /** Names match exactly when they read the same with every letter folded; without folding, when they
      are the same. */
  lemma SameFoldedIsEqual(a: string, b: string, lower: char -> char)
    ensures SameFolded(a, b, lower) <==> Folded(a, lower) == Folded(b, lower)
    ensures (forall c :: lower(c) == c) ==> (SameFolded(a, b, lower) <==> a == b)
  {
    if Folded(a, lower) == Folded(b, lower) {
      forall i | 0 <= i < |a| ensures lower(a[i]) == lower(b[i]) {
        assert Folded(a, lower)[i] == Folded(b, lower)[i];
      }
    }
  }

  /** The index text before the first name that matches, in a list index, name, index, name, ... */
  function FirstMatch(strings: seq<string>, name: string, lower: char -> char): Option<string> {
    if |strings| < 2 then None
    else if SameFolded(strings[1], name, lower) then Some(strings[0])
    else FirstMatch(strings[2..], name, lower)
  }

  /** The inner loop: equal length and equal letters, whatever the case. */
  method SameName(name: string, englishName: string, lower: char -> char) returns (same: bool)
    ensures same <==> SameFolded(name, englishName, lower)
  {
    if |name| != |englishName| {
      return false;
    }
    for i := 0 to |name|
      invariant forall k :: 0 <= k < i ==> lower(name[k]) == lower(englishName[k])
    {
      if lower(name[i]) != lower(englishName[i]) {
        return false;
      }
    }
    return true;
  }

  /** What the scan of the filled part answers from position p on. */
  ghost function FirstFrom(buf: string, end: nat, p: nat, name: string, lower: char -> char): Option<string>
    requires end <= |buf|
  {
    FirstMatch(Strings(buf, end, p), name, lower)
  }

  lemma NoPair(buf: string, end: nat, p: nat, name: string, lower: char -> char)
    requires p < end <= |buf| && buf[p] != NUL
    requires var q := p + |CStringAt(buf, p)| + 1; q >= end || buf[q] == NUL
    ensures FirstFrom(buf, end, p, name, lower) == None
  {
    assert |Strings(buf, end, p)| == 1;
  }

  lemma OnePair(buf: string, end: nat, p: nat, name: string, lower: char -> char)
    requires p < end <= |buf| && buf[p] != NUL
    requires var q := p + |CStringAt(buf, p)| + 1; q < end && buf[q] != NUL
    ensures var q := p + |CStringAt(buf, p)| + 1;
            var next := q + |CStringAt(buf, q)| + 1;
            FirstFrom(buf, end, p, name, lower)
            == if SameFolded(CStringAt(buf, q), name, lower) then Some(CStringAt(buf, p))
               else FirstFrom(buf, end, next, name, lower)
  {
    var q := p + |CStringAt(buf, p)| + 1;
    var rest := Strings(buf, end, q + |CStringAt(buf, q)| + 1);
    assert Strings(buf, end, p) == [CStringAt(buf, p), CStringAt(buf, q)] + rest;
    assert Strings(buf, end, p)[2..] == rest;
  }

  /** The scan of the registry block. `end` is how much of the buffer the registry filled; `toIndex`
      is wcstoul. The cursor is dereferenced only below `end`, and every C string it starts ends at the
      latest at the terminator behind the buffer. */
  method EnglishNameToIndex(buf: string, end: nat, englishName: string, lower: char -> char, toIndex: string -> nat)
      returns (found: bool, index: nat)
    requires end <= |buf|
    ensures var first := FirstFrom(buf, end, 0, englishName, lower);
            && (found <==> first.Some?)
            && (found ==> index == toIndex(first.value))
  {
    var p := 0;
    while p < end && buf[p] != NUL
      invariant FirstFrom(buf, end, 0, englishName, lower) == FirstFrom(buf, end, p, englishName, lower)
      decreases end - p
    {
      ghost var start := p;
      var idx := CStringAt(buf, p);
      p := p + |idx| + 1;
      if p >= end || buf[p] == NUL {
        NoPair(buf, end, start, englishName, lower);
        return false, 0;
      }
      OnePair(buf, end, start, englishName, lower);
      var name := CStringAt(buf, p);
      p := p + |name| + 1;
      var same := SameName(name, englishName, lower);
      if same {
        return true, toIndex(idx);
      }
    }
    return false, 0;
  }

  /** For every table of pairs of storable strings, the scan of its block answers with the first name
      that matches without regard to case. */
  lemma TableLookup(table: seq<string>, name: string, lower: char -> char)
    requires Storable(table)
    ensures FirstFrom(Block(table), |Block(table)|, 0, name, lower) == FirstMatch(table, name, lower)
  {
    assert Block(table)[0..] == Block(table) + "";
    BlockRoundTrip(Block(table), 0, table, "");
  }

  ghost predicate Matches(table: seq<string>, k: nat, name: string, lower: char -> char) {
    2 * k + 1 < |table| && SameFolded(table[2 * k + 1], name, lower)
  }

  ghost predicate FirstAt(table: seq<string>, k: nat, idx: string, name: string, lower: char -> char) {
    && Matches(table, k, name, lower) && table[2 * k] == idx
    && forall j: nat :: j < k ==> !Matches(table, j, name, lower)
  }

  /** `FirstMatch` is what it says: the index text of the least matching pair, when there is one. */
  lemma {:induction false} FirstMatchIsFirst(table: seq<string>, name: string, lower: char -> char) returns (k: nat)
    ensures match FirstMatch(table, name, lower)
            case None => forall j: nat :: !Matches(table, j, name, lower)
            case Some(idx) => FirstAt(table, k, idx, name, lower)
    decreases |table|
  {
    k := 0;
    if |table| >= 2 && !SameFolded(table[1], name, lower) {
      var rest := table[2..];
      k := FirstMatchIsFirst(rest, name, lower);
      forall j: nat ensures Matches(table, j, name, lower) <==> j > 0 && Matches(rest, j - 1, name, lower) {
        if j > 0 && 2 * j + 1 < |table| { assert rest[2 * (j - 1) + 1] == table[2 * j + 1]; }
      }
      if FirstMatch(rest, name, lower).Some? {
        assert rest[2 * k] == table[2 * (k + 1)];
        k := k + 1;
      }
    }
  }

  /** No two names of the table differ only in case. */
  ghost predicate NamesApart(table: seq<string>, lower: char -> char) {
    forall j: nat, k: nat :: j < k && 2 * k + 1 < |table| ==> Folded(table[2 * j + 1], lower) != Folded(table[2 * k + 1], lower)
  }

  /** Looking up a name in such a table, laid out as a block and in any mixture of cases, yields its own
      index text. */
  lemma NameFindsItsIndex(table: seq<string>, k: nat, name: string, lower: char -> char)
    requires Storable(table) && NamesApart(table, lower) && 2 * k + 1 < |table|
    requires Folded(name, lower) == Folded(table[2 * k + 1], lower)
    ensures FirstFrom(Block(table), |Block(table)|, 0, name, lower) == Some(table[2 * k])
  {
    TableLookup(table, name, lower);
    forall j: nat | 2 * j + 1 < |table| ensures Matches(table, j, name, lower) <==> j == k {
      SameFoldedIsEqual(table[2 * j + 1], name, lower);
    }
    assert Matches(table, k, name, lower);
    var first := FirstMatchIsFirst(table, name, lower);
  }

  ghost predicate HasName(table: seq<string>, k: nat, name: string, lower: char -> char) {
    2 * k + 1 < |table| && Folded(table[2 * k + 1], lower) == Folded(name, lower)
  }

  /** In any table a name is found if and only if it is there. */
  lemma FoundIffThere(table: seq<string>, name: string, lower: char -> char)
    requires Storable(table)
    ensures FirstFrom(Block(table), |Block(table)|, 0, name, lower).Some? <==> exists k: nat :: HasName(table, k, name, lower)
  {
    TableLookup(table, name, lower);
    forall j: nat ensures Matches(table, j, name, lower) <==> HasName(table, j, name, lower) {
      if 2 * j + 1 < |table| { SameFoldedIsEqual(table[2 * j + 1], name, lower); }
    }
    var first := FirstMatchIsFirst(table, name, lower);
    if FirstMatch(table, name, lower).Some? { assert HasName(table, first, name, lower); }
  }
}
