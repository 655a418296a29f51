/** The power plan executor: scheme GUIDs as text, and the proof that switching plans can be undone. */
module PowerPlan {
  import opened Text
  import opened Profiles
  import opened Switching
  import opened ProfileRuns

  // ---------------------------------------------------------------- hexadecimal text

  predicate IsHex(c: char) { '0' <= c <= '9' || 'a' <= c <= 'f' || 'A' <= c <= 'F' }

  function DigitValue(c: char): (v: nat)
    requires IsHex(c)
    ensures v < 16
  {
    if '0' <= c <= '9' then c as int - '0' as int
    else if 'a' <= c <= 'f' then c as int - 'a' as int + 10
    else c as int - 'A' as int + 10
  }

  function DigitChar(v: nat): (c: char)
    requires v < 16
    ensures IsHex(c) && DigitValue(c) == v && LowerChar(c) == c
  {
    if v < 10 then ('0' as int + v) as char else ('a' as int + v - 10) as char
  }

  function LowerChar(c: char): char {
    if 'A' <= c <= 'Z' then (c as int - 'A' as int + 'a' as int) as char else c
  }

  function Lower(s: string): (r: string)
    ensures |r| == |s|
    ensures forall i :: 0 <= i < |s| ==> r[i] == LowerChar(s[i])
  {
    seq(|s|, i requires 0 <= i < |s| => LowerChar(s[i]))
  }

  lemma LowerConcat(a: string, b: string)
    ensures Lower(a + b) == Lower(a) + Lower(b)
  {
  }

  predicate AllHex(s: string) { forall i :: 0 <= i < |s| ==> IsHex(s[i]) }

  function HexValue(s: string): nat
    requires AllHex(s)
  {
    if s == [] then 0 else HexValue(s[..|s| - 1]) * 16 + DigitValue(s[|s| - 1])
  }

  function Pow16(n: nat): (p: nat)
    ensures p >= 1
  {
    if n == 0 then 1 else 16 * Pow16(n - 1)
  }

  lemma {:induction false} HexValueBound(s: string)
    requires AllHex(s)
    ensures HexValue(s) < Pow16(|s|)
  {
    if s != [] { HexValueBound(s[..|s| - 1]); }
  }

  lemma Powers()
    ensures Pow16(2) == 0x100 && Pow16(4) == 0x1_0000 && Pow16(8) == 0x1_0000_0000
  {
    assert Pow16(1) == 16 && Pow16(2) == 256 && Pow16(3) == 4096 && Pow16(4) == 65536;
    assert Pow16(5) == 1048576 && Pow16(6) == 16777216 && Pow16(7) == 268435456;
  }

  /** printf's `%0<width>x`: zero-padded to at least `width` lower-case digits. */
  function Padded(v: nat, width: nat): string
    decreases v + width
  {
    if v < 16 && width <= 1 then [DigitChar(v)]
    else Padded(v / 16, if width == 0 then 0 else width - 1) + [DigitChar(v % 16)]
  }

  lemma Digits(high: nat, low: nat)
    requires low < 16
    ensures (high * 16 + low) / 16 == high && (high * 16 + low) % 16 == low
  {
  }

  lemma HighPart(v: nat, p: nat)
    requires v < 16 * p
    ensures v / 16 < p && v == (v / 16) * 16 + v % 16
  {
  }

  lemma AppendDigit(high: string, d: nat)
    requires AllHex(high) && d < 16
    ensures var s := high + [DigitChar(d)];
            && AllHex(s) && HexValue(s) == HexValue(high) * 16 + d
            && (Lower(high) == high ==> Lower(s) == s)
  {
    var s := high + [DigitChar(d)];
    assert s[..|s| - 1] == high;
    if Lower(high) == high {
      forall i | 0 <= i < |s| ensures LowerChar(s[i]) == s[i] {
        if i < |high| { assert s[i] == high[i] == Lower(high)[i]; }
      }
    }
  }

  lemma {:induction false} PaddedIsHex(v: nat, width: nat)
    requires 1 <= width && v < Pow16(width)
    ensures |Padded(v, width)| == width && AllHex(Padded(v, width)) && HexValue(Padded(v, width)) == v
    ensures Lower(Padded(v, width)) == Padded(v, width)
    decreases width
  {
    if width > 1 {
      HighPart(v, Pow16(width - 1));
      PaddedIsHex(v / 16, width - 1);
      assert Padded(v, width) == Padded(v / 16, width - 1) + [DigitChar(v % 16)];
      AppendDigit(Padded(v / 16, width - 1), v % 16);
    }
  }

  /** Printing the value of any hex digits gives them back in lower case. */
  lemma {:induction false} PrintHexValue(s: string)
    requires AllHex(s) && s != []
    ensures Padded(HexValue(s), |s|) == Lower(s)
  {
    var n := |s| - 1;
    var high, d := s[..n], DigitValue(s[n]);
    assert DigitChar(d) == LowerChar(s[n]);
    if n == 0 {
      assert HexValue(s) == d;
    } else {
      PrintHexValue(high);
      Digits(HexValue(high), d);
      assert HexValue(s) / 16 == HexValue(high) && HexValue(s) % 16 == d;
      assert Lower(s) == Lower(high) + [LowerChar(s[n])];
    }
  }

  // ---------------------------------------------------------------- scanning

  predicate IsSpace(c: char) { c in " \t\n\r" || c as int == 11 || c as int == 12 }

  function SkipSpace(s: string, pos: nat): (p: nat)
    requires pos <= |s|
    ensures pos <= p <= |s|
    decreases |s| - pos
  {
    if pos < |s| && IsSpace(s[pos]) then SkipSpace(s, pos + 1) else pos
  }

  function DigitsEnd(s: string, pos: nat, limit: nat): (p: nat)
    requires pos <= limit <= |s|
    ensures pos <= p <= limit && AllHex(s[pos..p])
    ensures p < limit ==> !IsHex(s[p])
    decreases limit - pos
  {
    if pos < limit && IsHex(s[pos]) then
      var p := DigitsEnd(s, pos + 1, limit);
      assert s[pos..p] == [s[pos]] + s[pos + 1..p];
      p
    else pos
  }

  /** The six characters of `isspace` in the C locale. */
  lemma SpacesAre(c: char)
    ensures IsSpace(c) <==> c as int in {9, 10, 11, 12, 13, 32}
  {
  }

  /** Behind an optional sign, and behind an optional 0x. */
  function AfterSign(s: string, pos: nat, limit: nat): (p: nat)
    requires pos <= limit <= |s|
    ensures pos <= p <= limit && p <= pos + 1
  {
    if pos < limit && s[pos] in "+-" then pos + 1 else pos
  }

  function AfterPrefix(s: string, pos: nat, limit: nat): (p: nat)
    requires pos <= limit <= |s|
    ensures pos <= p <= limit
  {
    if pos + 1 < limit && s[pos] == '0' && s[pos + 1] in "xX" then pos + 2 else pos
  }

  function WidthLimit(s: string, start: nat, width: nat): (limit: nat)
    requires start <= |s|
    ensures start <= limit <= |s|
  {
    if start + width < |s| then start + width else |s|
  }

  /** scanf's `%<width>x` (section 7.21.6.2 of ISO C11): white space is skipped first; then at most
      `width` characters of an optional sign, an optional 0x and hex digits. */
  function ScanHex(s: string, pos: nat, width: nat): (r: Option<(nat, nat)>)
    requires pos <= |s|
    ensures r.Some? ==> pos < r.value.1 <= |s|
  {
    var start := SkipSpace(s, pos);
    var limit := WidthLimit(s, start, width);
    var digits := AfterSign(s, start, limit);
    var first := AfterPrefix(s, digits, limit);
    var end := DigitsEnd(s, first, limit);
    if end == first then None
    else
      var value := HexValue(s[first..end]);
      Some((if digits > start && s[start] == '-' then (0x1_0000_0000 - value % 0x1_0000_0000) % 0x1_0000_0000 else value, end))
  }

  /** On exactly `width` hex digits the scan reads their value and stops behind them. */
  lemma ScanHexExact(s: string, pos: nat, width: nat)
    requires 1 <= width && pos + width <= |s| && AllHex(s[pos..pos + width])
    ensures ScanHex(s, pos, width) == Some((HexValue(s[pos..pos + width]), pos + width))
  {
    forall i | pos <= i < pos + width ensures IsHex(s[i]) { assert s[pos..pos + width][i - pos] == s[i]; }
    DigitsAll(s, pos, pos + width);
  }

  lemma {:induction false} DigitsAll(s: string, pos: nat, limit: nat)
    requires pos <= limit <= |s| && forall i :: pos <= i < limit ==> IsHex(s[i])
    ensures DigitsEnd(s, pos, limit) == limit
    decreases limit - pos
  {
    if pos < limit { DigitsAll(s, pos + 1, limit); }
  }

  lemma {:induction false} SkipAll(s: string, pos: nat, end: nat)
    requires pos <= end <= |s| && (forall i :: pos <= i < end ==> IsSpace(s[i])) && (end < |s| ==> !IsSpace(s[end]))
    ensures SkipSpace(s, pos) == end
    decreases end - pos
  {
    if pos < end { SkipAll(s, pos + 1, end); }
  }

  lemma {:induction false} DigitsUpTo(s: string, pos: nat, end: nat, limit: nat)
    requires pos <= end <= limit <= |s| && (forall i :: pos <= i < end ==> IsHex(s[i])) && (end < limit ==> !IsHex(s[end]))
    ensures DigitsEnd(s, pos, limit) == end
    decreases end - pos
  {
    if pos < end { DigitsUpTo(s, pos + 1, end, limit); }
  }

  /** What the conversion matches: white space, then at most `width` characters of sign, 0x and digits,
      as many digits as there are. */
  datatype Subject = Subject(spaces: string, sign: string, prefix: string, digits: string, rest: string) {
    function Text(): string { spaces + (sign + (prefix + (digits + rest))) }
    function Length(): nat { |sign| + |prefix| + |digits| }
    predicate Fits(width: nat) {
      && (forall i :: 0 <= i < |spaces| ==> IsSpace(spaces[i]))
      && sign in {"", "+", "-"} && prefix in {"", "0x", "0X"}
      && digits != [] && AllHex(digits) && Length() <= width
      && (rest != [] && Length() < width ==> !IsHex(rest[0]) && (prefix == "" && digits == "0" ==> rest[0] !in "xX"))
    }
    /** A minus sign negates in 32 bits. */
    function Value(): nat
      requires AllHex(digits)
    {
      if sign == "-" then (0x1_0000_0000 - HexValue(digits) % 0x1_0000_0000) % 0x1_0000_0000 else HexValue(digits)
    }
  }

  /** A text whose parts stand where the subject says. */
  predicate Begins(s: string, x: Subject, width: nat) {
    var start := |x.spaces|;
    var digits := start + |x.sign|;
    && start <= |s| && SkipSpace(s, 0) == start
    && var limit := WidthLimit(s, start, width);
    && AfterSign(s, start, limit) == digits && AfterPrefix(s, digits, limit) == digits + |x.prefix|
    && (x.sign == "-" <==> digits > start && s[start] == '-')
  }

  predicate Ends(s: string, x: Subject, width: nat) {
    var start := |x.spaces|;
    var first, end := start + |x.sign| + |x.prefix|, start + x.Length();
    && start <= |s|
    && var limit := WidthLimit(s, start, width);
    && end <= limit && DigitsEnd(s, first, limit) == end && s[first..end] == x.digits
  }

  lemma SubjectBegins(x: Subject, width: nat)
    requires x.Fits(width)
    ensures Begins(x.Text(), x, width)
  {
    SubjectChars(x);
    BeginsAt(x.Text(), x, width);
  }

  lemma BeginsAt(s: string, x: Subject, width: nat)
    requires x.Fits(width) && Spread(s, x)
    ensures Begins(s, x, width)
  {
    SkipAll(s, 0, |x.spaces|);
    if x.prefix == "" { NoPrefix(s, x, width); }
  }

  /** Digits are not mistaken for a 0x. */
  lemma NoPrefix(s: string, x: Subject, width: nat)
    requires x.Fits(width) && Spread(s, x) && x.prefix == ""
    ensures var first := |x.spaces| + |x.sign|;
            AfterPrefix(s, first, WidthLimit(s, |x.spaces|, width)) == first
  {
    var first := |x.spaces| + |x.sign|;
    assert s[first + 0] == x.digits[0];
    if |x.digits| >= 2 { assert s[first + 1] == x.digits[1] && IsHex(x.digits[1]); }
  }

  lemma SubjectEnds(x: Subject, width: nat)
    requires x.Fits(width)
    ensures Ends(x.Text(), x, width)
  {
    SubjectChars(x);
    EndsAt(x.Text(), x, width);
  }

  lemma EndsAt(s: string, x: Subject, width: nat)
    requires x.Fits(width) && Spread(s, x)
    ensures Ends(s, x, width)
  {
    var start := |x.spaces|;
    var first, end := start + |x.sign| + |x.prefix|, start + x.Length();
    var limit := WidthLimit(s, start, width);
    forall i | first <= i < end ensures IsHex(s[i]) { assert s[first + (i - first)] == x.digits[i - first]; }
    DigitsUpTo(s, first, end, limit);
    assert s[first..end] == x.digits;
  }

  lemma ScanLocated(s: string, x: Subject, width: nat)
    requires AllHex(x.digits) && x.digits != [] && Begins(s, x, width) && Ends(s, x, width)
    ensures ScanHex(s, 0, width) == Some((x.Value(), |x.spaces| + x.Length()))
  {
  }

  /** Every such text is read as the value of its digits, and the scan stops right behind them. */
  lemma ScanHexReads(x: Subject, width: nat)
    requires x.Fits(width)
    ensures ScanHex(x.Text(), 0, width) == Some((x.Value(), |x.spaces| + x.Length()))
  {
    SubjectBegins(x, width);
    SubjectEnds(x, width);
    ScanLocated(x.Text(), x, width);
  }

  /** Which characters stand where. */
  predicate Spread(s: string, x: Subject) {
    var start := |x.spaces|;
    var digits := start + |x.sign|;
    var first := digits + |x.prefix|;
    && |s| == first + |x.digits| + |x.rest| && x.digits != []
    && (forall i :: 0 <= i < start ==> s[i] == x.spaces[i])
    && !IsSpace(s[start]) && (x.sign != "" ==> s[start] == x.sign[0]) && (x.sign == "" ==> s[start] !in "+-")
    && (x.prefix != "" ==> first == digits + 2 && s[digits] == '0' && s[digits + 1] in "xX")
    && (forall i :: 0 <= i < |x.digits| ==> s[first + i] == x.digits[i])
    && (x.rest != [] ==> s[first + |x.digits|] == x.rest[0])
  }

  lemma SubjectChars(x: Subject)
    requires x.sign in {"", "+", "-"} && x.prefix in {"", "0x", "0X"} && x.digits != [] && AllHex(x.digits)
    ensures Spread(x.Text(), x)
  {
  }

  lemma ScanHexNothing(s: string, pos: nat, end: nat, width: nat)
    requires pos <= end <= |s| && (forall i :: pos <= i < end ==> IsSpace(s[i]))
    requires end < |s| ==> !IsSpace(s[end]) && !IsHex(s[end]) && s[end] !in "+-"
    ensures ScanHex(s, pos, width) == None
  {
    SkipAll(s, pos, end);
  }

  // ---------------------------------------------------------------- the GUID format

  datatype Directive = Hex(width: nat) | Dash

  /** `%08x-%04x-%04x-%02x%02x-%02x%02x%02x%02x%02x%02x`, for printing and for scanning. */
  const GUID_FORMAT: seq<Directive> :=
    HEAD + PAIR + [Dash] + PAIR + PAIR + PAIR
  const HEAD: seq<Directive> := [Hex(8), Dash, Hex(4), Dash, Hex(4), Dash]
  const PAIR: seq<Directive> := [Hex(2), Hex(2)]

  function Fields(format: seq<Directive>): (n: nat) {
    if format == [] then 0 else (if format[0].Hex? then 1 else 0) + Fields(format[1..])
  }

  lemma {:induction false} FieldsSplit(a: seq<Directive>, b: seq<Directive>)
    ensures Fields(a + b) == Fields(a) + Fields(b)
  {
    if a == [] {
      assert a + b == b;
    } else {
      assert (a + b)[1..] == a[1..] + b;
      FieldsSplit(a[1..], b);
    }
  }

  lemma ElevenFields()
    ensures Fields(GUID_FORMAT) == 11
  {
    var one: seq<Directive> := [Hex(2)];
    assert PAIR == one + one && Fields(one) == 1;
    FieldsSplit(one, one);
    var d: seq<Directive> := [Dash];
    var first, second: seq<Directive> := [Hex(8), Dash], [Hex(4), Dash];
    assert HEAD == first + second + second;
    assert first[1..] == d && second[1..] == d && Fields(d) == 0;
    FieldsSplit(first, second);
    FieldsSplit(first + second, second);
    FieldsSplit(HEAD, PAIR);
    FieldsSplit(HEAD + PAIR, d);
    FieldsSplit(HEAD + PAIR + d, PAIR);
    FieldsSplit(HEAD + PAIR + d + PAIR, PAIR);
    FieldsSplit(HEAD + PAIR + d + PAIR + PAIR, PAIR);
  }

  predicate Fit(format: seq<Directive>, values: seq<nat>) {
    if format == [] then values == []
    else match format[0]
      case Dash => Fit(format[1..], values)
      case Hex(w) => w >= 1 && values != [] && values[0] < Pow16(w) && Fit(format[1..], values[1..])
  }

  function Render(format: seq<Directive>, values: seq<nat>): string {
    if format == [] then ""
    else match format[0]
      case Dash => "-" + Render(format[1..], values)
      case Hex(w) => if values == [] then "" else Padded(values[0], w) + Render(format[1..], values[1..])
  }

  /** All conversions, or None as soon as one fails to match. Text behind the last one is not looked at. */
  function Scan(s: string, pos: nat, format: seq<Directive>): (values: Option<seq<nat>>)
    requires pos <= |s|
    ensures values.Some? ==> |values.value| == Fields(format)
    decreases |format|
  {
    if format == [] then Some([])
    else match format[0]
      case Dash =>
        if pos < |s| && s[pos] == '-' then Scan(s, pos + 1, format[1..]) else None
      case Hex(w) =>
        match ScanHex(s, pos, w)
        case None => None
        case Some(read) =>
          match Scan(s, read.1, format[1..])
          case None => None
          case Some(rest) => Some([read.0] + rest)
  }

  /** `s` from pos on has hex digits and dashes exactly where the format wants them. */
  predicate Shaped(s: string, pos: nat, format: seq<Directive>)
    requires pos <= |s|
    decreases |format|
  {
    if format == [] then pos == |s|
    else match format[0]
      case Dash => pos < |s| && s[pos] == '-' && Shaped(s, pos + 1, format[1..])
      case Hex(w) => w >= 1 && pos + w <= |s| && AllHex(s[pos..pos + w]) && Shaped(s, pos + w, format[1..])
  }

  lemma ScanDashStep(s: string, pos: nat, format: seq<Directive>)
    requires format != [] && format[0].Dash? && pos < |s| && s[pos] == '-'
    ensures Scan(s, pos, format) == Scan(s, pos + 1, format[1..])
  {
  }

  lemma ScanHexStep(s: string, pos: nat, format: seq<Directive>, v: nat, rest: seq<nat>)
    requires format != [] && format[0].Hex? && pos + format[0].width <= |s|
    requires ScanHex(s, pos, format[0].width) == Some((v, pos + format[0].width))
    requires Scan(s, pos + format[0].width, format[1..]) == Some(rest)
    ensures Scan(s, pos, format) == Some([v] + rest)
  {
    var read := (v, pos + format[0].width);
    assert ScanHex(s, pos, format[0].width).value == read;
    assert Scan(s, read.1, format[1..]).value == rest;
  }

  lemma Cut(s: string, pos: nat, front: string, back: string)
    requires pos <= |s| && s[pos..] == front + back
    ensures pos + |front| <= |s| && s[pos..pos + |front|] == front && s[pos + |front|..] == back
  {
    assert s[pos..pos + |front|] == s[pos..][..|front|];
    assert s[pos + |front|..] == s[pos..][|front|..];
  }

  /** The numbers at the places the format wants them. */
  function ReadOff(s: string, pos: nat, format: seq<Directive>): seq<nat>
    requires pos <= |s| && Shaped(s, pos, format)
    decreases |format|
  {
    if format == [] then []
    else match format[0]
      case Dash => ReadOff(s, pos + 1, format[1..])
      case Hex(w) => [HexValue(s[pos..pos + w])] + ReadOff(s, pos + w, format[1..])
  }

  lemma RenderedHex(s: string, pos: nat, format: seq<Directive>, values: seq<nat>)
    requires pos <= |s| && Fit(format, values) && s[pos..] == Render(format, values)
    requires format != [] && format[0].Hex?
    ensures var w := format[0].width;
            && w >= 1 && values != [] && pos + w <= |s|
            && AllHex(s[pos..pos + w]) && HexValue(s[pos..pos + w]) == values[0]
            && Fit(format[1..], values[1..]) && s[pos + w..] == Render(format[1..], values[1..])
  {
    FitHex(format, values);
    PaddedIsHex(values[0], format[0].width);
    CutNumber(s, pos, Padded(values[0], format[0].width), Render(format[1..], values[1..]));
  }

  lemma FitHex(format: seq<Directive>, values: seq<nat>)
    requires Fit(format, values) && format != [] && format[0].Hex?
    ensures format[0].width >= 1 && values != [] && values[0] < Pow16(format[0].width) && Fit(format[1..], values[1..])
    ensures Render(format, values) == Padded(values[0], format[0].width) + Render(format[1..], values[1..])
  {
  }

  lemma CutNumber(s: string, pos: nat, front: string, back: string)
    requires pos <= |s| && s[pos..] == front + back && AllHex(front)
    ensures pos + |front| <= |s| && s[pos + |front|..] == back
    ensures AllHex(s[pos..pos + |front|]) && HexValue(s[pos..pos + |front|]) == HexValue(front)
  {
    Cut(s, pos, front, back);
  }

  lemma ShapedHex(s: string, pos: nat, format: seq<Directive>)
    requires format != [] && format[0].Hex? && format[0].width >= 1 && pos + format[0].width <= |s|
    requires AllHex(s[pos..pos + format[0].width]) && Shaped(s, pos + format[0].width, format[1..])
    ensures Shaped(s, pos, format)
    ensures ReadOff(s, pos, format)
            == [HexValue(s[pos..pos + format[0].width])] + ReadOff(s, pos + format[0].width, format[1..])
  {
  }

  /** What is printed is shaped as the format wants and has the values printed. */
  lemma {:induction false} RenderedShape(s: string, pos: nat, format: seq<Directive>, values: seq<nat>)
    requires pos <= |s| && Fit(format, values) && s[pos..] == Render(format, values)
    ensures Shaped(s, pos, format) && ReadOff(s, pos, format) == values
    decreases |format|
  {
    if format != [] {
      if format[0].Dash? {
        Cut(s, pos, "-", Render(format[1..], values));
        assert s[pos..pos + 1][0] == '-';
        RenderedShape(s, pos + 1, format[1..], values);
      } else {
        RenderedHex(s, pos, format, values);
        RenderedShape(s, pos + format[0].width, format[1..], values[1..]);
        ShapedHex(s, pos, format);
      }
    }
  }

  /** Scanning a shaped text reads off its numbers. */
  lemma {:induction false} ScanShaped(s: string, pos: nat, format: seq<Directive>)
    requires pos <= |s| && Shaped(s, pos, format)
    ensures Scan(s, pos, format) == Some(ReadOff(s, pos, format))
    decreases |format|
  {
    if format != [] {
      match format[0]
      case Dash =>
        assert Scan(s, pos, format) == Scan(s, pos + 1, format[1..]) by { ScanDashStep(s, pos, format); }
        ScanShaped(s, pos + 1, format[1..]);
      case Hex(w) =>
        assert ScanHex(s, pos, w) == Some((HexValue(s[pos..pos + w]), pos + w)) by { ScanHexExact(s, pos, w); }
        ScanShaped(s, pos + w, format[1..]);
        ScanHexStep(s, pos, format, HexValue(s[pos..pos + w]), ReadOff(s, pos + w, format[1..]));
    }
  }

  /** What stands behind the last conversion is not looked at. */
  lemma {:induction false} ScanIgnoresRest(s: string, pos: nat, format: seq<Directive>, rest: string)
    requires pos <= |s| && Shaped(s, pos, format)
    ensures Scan(s + rest, pos, format) == Some(ReadOff(s, pos, format))
    decreases |format|
  {
    if format != [] {
      var all := s + rest;
      match format[0]
      case Dash =>
        ScanIgnoresRest(s, pos + 1, format[1..], rest);
        ScanDashStep(all, pos, format);
      case Hex(w) =>
        assert all[pos..pos + w] == s[pos..pos + w];
        assert ScanHex(all, pos, w) == Some((HexValue(s[pos..pos + w]), pos + w)) by { ScanHexExact(all, pos, w); }
        ScanIgnoresRest(s, pos + w, format[1..], rest);
        ScanHexStep(all, pos, format, HexValue(s[pos..pos + w]), ReadOff(s, pos + w, format[1..]));
    }
  }

  function Dashes(s: string): nat {
    if s == [] then 0 else (if s[0] == '-' then 1 else 0) + Dashes(s[1..])
  }

  function DashesIn(format: seq<Directive>): nat {
    if format == [] then 0 else (if format[0].Dash? then 1 else 0) + DashesIn(format[1..])
  }

  lemma {:induction false} DashesSuffix(s: string, i: nat, j: nat)
    requires i <= j <= |s|
    ensures Dashes(s[j..]) <= Dashes(s[i..])
    decreases j - i
  {
    if i < j {
      assert s[i..][1..] == s[i + 1..];
      DashesSuffix(s, i + 1, j);
    }
  }

  /** A text with fewer dashes than the format has is refused. */
  lemma {:induction false} ScanNeedsDashes(s: string, pos: nat, format: seq<Directive>)
    requires pos <= |s| && Scan(s, pos, format).Some?
    ensures Dashes(s[pos..]) >= DashesIn(format)
    decreases |format|
  {
    if format != [] {
      match format[0]
      case Dash =>
        assert s[pos..][1..] == s[pos + 1..];
        ScanNeedsDashes(s, pos + 1, format[1..]);
      case Hex(w) =>
        var next := ScanHex(s, pos, w).value.1;
        ScanNeedsDashes(s, next, format[1..]);
        DashesSuffix(s, pos, next);
    }
  }

  /** Printing what was read off a shaped text gives it back in lower case. */
  lemma {:induction false} RenderReadOff(s: string, pos: nat, format: seq<Directive>)
    requires pos <= |s| && Shaped(s, pos, format)
    ensures Fit(format, ReadOff(s, pos, format))
    ensures Render(format, ReadOff(s, pos, format)) == Lower(s[pos..])
    decreases |format|
  {
    if format != [] {
      match format[0]
      case Dash =>
        RenderReadOff(s, pos + 1, format[1..]);
        assert s[pos..] == [s[pos]] + s[pos + 1..];
      case Hex(w) =>
        var digits := s[pos..pos + w];
        HexValueBound(digits);
        PrintHexValue(digits);
        RenderReadOff(s, pos + w, format[1..]);
        assert s[pos..] == digits + s[pos + w..];
        LowerConcat(digits, s[pos + w..]);
    }
  }

  // ---------------------------------------------------------------- GUIDs

  datatype RawGuid = RawGuid(data1: nat, data2: nat, data3: nat, data4: seq<nat>)

  predicate InRange(g: RawGuid) {
    && g.data1 < 0x1_0000_0000 && g.data2 < 0x1_0000 && g.data3 < 0x1_0000
    && |g.data4| == 8 && forall i :: 0 <= i < 8 ==> g.data4[i] < 0x100
  }

  type Guid = g: RawGuid | InRange(g) witness RawGuid(0, 0, 0, [0, 0, 0, 0, 0, 0, 0, 0])

  const BALANCED: Guid := RawGuid(0x381b4222, 0xf694, 0x41f0, [0x96, 0x85, 0xff, 0x5b, 0xb2, 0x60, 0xdf, 0x2e])
  const HIGH_PERFORMANCE: Guid := RawGuid(0x8c5e7fda, 0xe8bf, 0x4a96, [0x9a, 0x85, 0xa6, 0xe2, 0x3a, 0x8c, 0x63, 0x5c])
  const POWER_SAVER: Guid := RawGuid(0xa1841308, 0x3541, 0x4fab, [0xbc, 0x81, 0xf7, 0x15, 0x56, 0xf2, 0x0b, 0x4a])

  function Values(g: Guid): seq<nat> { [g.data1, g.data2, g.data3] + g.data4 }

  /** The casts that store the eleven scanned numbers. */
  function Stored(values: seq<nat>): (g: Guid)
    requires |values| == 11
  {
    RawGuid(values[0] % 0x1_0000_0000, values[1] % 0x1_0000, values[2] % 0x1_0000,
            seq(8, i requires 0 <= i < 8 => values[3 + i] % 0x100))
  }

  function GuidToString(g: Guid): string { Render(GUID_FORMAT, Values(g)) }

  /** The text up to its first NUL, which is all that `c_str()` shows to sscanf. */
  function CText(text: string): string { text[..FindChar(text, 0 as char, 0)] }

  function Scanned(text: string): Option<Guid> {
    match Scan(CText(text), 0, GUID_FORMAT)
    case None => None
    case Some(values) => ElevenFields(); Some(Stored(values))
  }

  method ParseGuid(text: string) returns (ok: bool, out: Guid)
    ensures ok <==> Scanned(text).Some?
    ensures ok ==> out == Scanned(text).value
  {
    out := RawGuid(0, 0, 0, [0, 0, 0, 0, 0, 0, 0, 0]);
    var scanned := Scan(CText(text), 0, GUID_FORMAT);
    if scanned.None? {
      return false, out;
    }
    ElevenFields();
    var d := scanned.value;
    var data4: seq<nat> := [];
    for i := 0 to 8
      invariant |data4| == i
      invariant forall k :: 0 <= k < i ==> data4[k] == d[3 + k] % 0x100
    {
      data4 := data4 + [d[3 + i] % 0x100];
    }
    out := RawGuid(d[0] % 0x1_0000_0000, d[1] % 0x1_0000, d[2] % 0x1_0000, data4);
    assert out == Stored(d);
    ok := true;
  }

  function AliasToGuid(alias: string): Option<Guid> {
    if alias == "balanced" then Some(BALANCED)
    else if alias == "high" then Some(HIGH_PERFORMANCE)
    else if alias == "saver" then Some(POWER_SAVER)
    else None
  }

  function GuidToAlias(g: Guid): string {
    if g == BALANCED then "balanced"
    else if g == HIGH_PERFORMANCE then "high"
    else if g == POWER_SAVER then "saver"
    else GuidToString(g)
  }

  /** What `Apply` understands: an alias first, then a raw GUID. */
  function Resolve(text: string): Option<Guid> {
    if AliasToGuid(text).Some? then AliasToGuid(text) else Scanned(text)
  }

  // ---------------------------------------------------------------- round trips

  predicate DashAt(i: nat) { i in {8, 13, 18, 23} }

  /** The text form of section 4 of RFC 9562, in either case. */
  predicate Canonical(text: string) {
    && |text| == 36
    && forall i :: 0 <= i < 36 ==> if DashAt(i) then text[i] == '-' else IsHex(text[i])
  }

  /** The k-th directive, where its text starts, and how many numbers come before it. */
  function Part(k: nat): Directive {
    if k in {1, 3, 5, 8} then Dash else if k == 0 then Hex(8) else if k in {2, 4} then Hex(4) else Hex(2)
  }

  function Start(k: nat): nat {
    if k <= 1 then 8 * k
    else if k <= 5 then (if k == 2 then 9 else if k == 3 then 13 else if k == 4 then 14 else 18)
    else if k <= 8 then 2 * k + 7
    else 2 * k + 6
  }

  function Before(k: nat): nat {
    if k <= 1 then k
    else if k <= 5 then (if k == 2 then 1 else if k <= 4 then 2 else 3)
    else if k <= 8 then k - 3
    else k - 4
  }

  lemma FormatParts()
    ensures |GUID_FORMAT| == 15 && forall k :: 0 <= k < 15 ==> GUID_FORMAT[k] == Part(k)
  {
  }

  lemma PartStep(k: nat)
    requires k < 15
    ensures var size := if Part(k).Dash? then 1 else Part(k).width;
            && size >= 1 && Start(k) + size == Start(k + 1) <= 36
            && (Part(k).Dash? <==> DashAt(Start(k)))
            && forall i :: Start(k) < i < Start(k + 1) ==> !DashAt(i)
    ensures Before(k + 1) == Before(k) + (if Part(k).Dash? then 0 else 1)
    ensures Start(15) == 36 && Before(15) == 11 && Start(0) == 0 && Before(0) == 0
  {
  }

  /** The grouping 8-4-4-4-12 is exactly what the format string describes. */
  lemma {:induction false} CanonicalIsShaped(text: string, k: nat)
    requires Canonical(text) && k <= 15
    ensures Start(k) <= 36 && Shaped(text, Start(k), GUID_FORMAT[k..])
    decreases 15 - k
  {
    FormatParts();
    if k < 15 {
      CanonicalIsShaped(text, k + 1);
      PartStep(k);
      ShapedNext(text, k);
    } else {
      PartStep(0);
    }
  }

  lemma ShapedNext(text: string, k: nat)
    requires Canonical(text) && k < 15 && GUID_FORMAT[k] == Part(k) && Start(k + 1) <= 36
    requires var size := if Part(k).Dash? then 1 else Part(k).width;
             && size >= 1 && Start(k) + size == Start(k + 1)
             && (Part(k).Dash? <==> DashAt(Start(k)))
             && forall i :: Start(k) < i < Start(k + 1) ==> !DashAt(i)
    requires Shaped(text, Start(k + 1), GUID_FORMAT[k + 1..])
    ensures Shaped(text, Start(k), GUID_FORMAT[k..])
  {
    assert GUID_FORMAT[k..][1..] == GUID_FORMAT[k + 1..];
  }

  lemma {:induction false} ShapedChars(s: string, pos: nat, format: seq<Directive>, i: nat)
    requires pos <= i < |s| && Shaped(s, pos, format)
    ensures s[i] == '-' || IsHex(s[i])
    decreases |format|
  {
    if format[0].Dash? {
      if i > pos { ShapedChars(s, pos + 1, format[1..], i); }
    } else if i >= pos + format[0].width {
      ShapedChars(s, pos + format[0].width, format[1..], i);
    } else {
      assert s[i] == s[pos..pos + format[0].width][i - pos];
    }
  }

  /** A shaped text has no NUL, so scanning sees all of it. */
  lemma ScannedShaped(text: string)
    requires Shaped(text, 0, GUID_FORMAT)
    ensures Scan(CText(text), 0, GUID_FORMAT) == Some(ReadOff(text, 0, GUID_FORMAT))
  {
    var nul := FindChar(text, 0 as char, 0);
    if nul < |text| { ShapedChars(text, 0, GUID_FORMAT, nul); }
    assert CText(text) == text;
    ScanShaped(text, 0, GUID_FORMAT);
  }

  lemma {:induction false} FitFrom(g: Guid, k: nat)
    requires k <= 15
    ensures Before(k) <= 11 && Fit(GUID_FORMAT[k..], Values(g)[Before(k)..])
    decreases 15 - k
  {
    FormatParts();
    PartStep(if k < 15 then k else 0);
    if k < 15 {
      FitFrom(g, k + 1);
      Powers();
      assert GUID_FORMAT[k..][1..] == GUID_FORMAT[k + 1..];
      if !Part(k).Dash? { assert Values(g)[Before(k)..][1..] == Values(g)[Before(k + 1)..]; }
    }
  }

  lemma FitValues(g: Guid)
    ensures Fit(GUID_FORMAT, Values(g)) && Stored(Values(g)) == g
  {
    FitFrom(g, 0);
    assert GUID_FORMAT[0..] == GUID_FORMAT && Values(g)[0..] == Values(g);
    assert Stored(Values(g)).data4 == g.data4;
  }

  lemma PrintedShape(g: Guid)
    ensures Shaped(GuidToString(g), 0, GUID_FORMAT) && ReadOff(GuidToString(g), 0, GUID_FORMAT) == Values(g)
  {
    FitValues(g);
    assert GuidToString(g)[0..] == GuidToString(g);
    RenderedShape(GuidToString(g), 0, GUID_FORMAT, Values(g));
  }

  /** Printed GUIDs parse back to themselves, and none looks like an alias. */
  lemma PrintParse(g: Guid)
    ensures Scanned(GuidToString(g)) == Some(g) && AliasToGuid(GuidToString(g)) == None
  {
    var text := GuidToString(g);
    FitValues(g);
    PrintedShape(g);
    ScannedShaped(text);
    FormatParts();
    assert AllHex(text[0..8]) && |text| >= 8;
    assert IsHex(text[0..8][2]) && text[0..8][2] == text[2];
  }

  /** The name given to a scheme always resolves to that scheme. */
  lemma AliasRoundTrip(g: Guid)
    ensures Resolve(GuidToAlias(g)) == Some(g)
  {
    PrintParse(g);
  }

  /** And every alias names the scheme it stands for: no two aliases share one. */
  lemma SchemeRoundTrip(alias: string)
    ensures AliasToGuid(alias).Some? ==> GuidToAlias(AliasToGuid(alias).value) == alias
  {
  }

  predicate HexAt(t: string, at: nat, n: nat) { at + n <= |t| && forall i :: at <= i < at + n ==> IsHex(t[i]) }

  lemma HexSnoc(s: string, c: char)
    requires AllHex(s) && IsHex(c)
    ensures AllHex(s + [c]) && HexValue(s + [c]) == HexValue(s) * 16 + DigitValue(c)
  {
    assert (s + [c])[..|s|] == s;
  }

  lemma NumberOf2(t: string, at: nat)
    requires HexAt(t, at, 2)
    ensures AllHex(t[at..at + 2]) && HexValue(t[at..at + 2]) == DigitValue(t[at]) * 16 + DigitValue(t[at + 1])
  {
    HexSnoc("", t[at]);
    HexSnoc([t[at]], t[at + 1]);
    assert "" + [t[at]] == [t[at]] && t[at..at + 2] == [t[at]] + [t[at + 1]];
  }

  lemma Shifted(a: nat, p: nat, b: nat, d: nat)
    ensures (a * p + b) * 16 + d == a * (16 * p) + (b * 16 + d)
  {
  }

  lemma {:induction false} HexSplit(a: string, b: string)
    requires AllHex(a) && AllHex(b)
    ensures AllHex(a + b) && HexValue(a + b) == HexValue(a) * Pow16(|b|) + HexValue(b)
    decreases |b|
  {
    if b == [] {
      assert a + b == a;
    } else {
      var n := |b| - 1;
      HexSplit(a, b[..n]);
      HexSnoc(a + b[..n], b[n]);
      assert a + b == (a + b[..n]) + [b[n]];
      Shifted(HexValue(a), Pow16(n), HexValue(b[..n]), DigitValue(b[n]));
    }
  }

  lemma NumberOf4(t: string, at: nat)
    requires HexAt(t, at, 4)
    ensures AllHex(t[at..at + 4])
    ensures HexValue(t[at..at + 4]) == HexValue(t[at..at + 2]) * 0x100 + HexValue(t[at + 2..at + 4])
  {
    Powers();
    HexSplit(t[at..at + 2], t[at + 2..at + 4]);
    assert t[at..at + 4] == t[at..at + 2] + t[at + 2..at + 4];
  }

  lemma NumberOf8(t: string, at: nat)
    requires HexAt(t, at, 8)
    ensures AllHex(t[at..at + 8])
    ensures HexValue(t[at..at + 8]) == HexValue(t[at..at + 4]) * 0x1_0000 + HexValue(t[at + 4..at + 8])
  {
    Powers();
    HexSplit(t[at..at + 4], t[at + 4..at + 8]);
    assert t[at..at + 8] == t[at..at + 4] + t[at + 4..at + 8];
  }

  /** The byte two hex digits write. */
  function Byte(t: string, at: nat): nat {
    if at + 1 < |t| && IsHex(t[at]) && IsHex(t[at + 1]) then DigitValue(t[at]) * 16 + DigitValue(t[at + 1]) else 0
  }

  /** The sixteen bytes of a canonical text, most significant first within each field: section 4 of
      RFC 9562. */
  predicate Spells(t: string, g: Guid) { SpellsFirst(t, g) && SpellsMiddle(t, g) && SpellsTail(t, g) }

  predicate SpellsFirst(t: string, g: Guid) {
    g.data1 == ((Byte(t, 0) * 0x100 + Byte(t, 2)) * 0x100 + Byte(t, 4)) * 0x100 + Byte(t, 6)
  }

  predicate SpellsMiddle(t: string, g: Guid) {
    && g.data2 == Byte(t, 9) * 0x100 + Byte(t, 11)
    && g.data3 == Byte(t, 14) * 0x100 + Byte(t, 16)
  }

  predicate SpellsTail(t: string, g: Guid) {
    g.data4 == [Byte(t, 19), Byte(t, 21), Byte(t, 24), Byte(t, 26), Byte(t, 28), Byte(t, 30), Byte(t, 32), Byte(t, 34)]
  }

  /** The number directive k reads off a canonical text. */
  lemma SpelledNumber(t: string, g: Guid, k: nat)
    requires Canonical(t) && Spells(t, g) && k < 15 && Part(k).Hex?
    ensures Start(k) <= Start(k + 1) <= 36 && AllHex(t[Start(k)..Start(k + 1)])
    ensures Before(k) < 11 && HexValue(t[Start(k)..Start(k + 1)]) == Values(g)[Before(k)]
  {
    if k == 0 {
      SpelledFirst(t, g);
    } else if k == 2 || k == 4 {
      SpelledPair(t, Start(k));
    } else {
      SpelledByte(t, g, k);
    }
  }

  lemma SpelledPair(t: string, at: nat)
    requires HexAt(t, at, 4)
    ensures AllHex(t[at..at + 4]) && HexValue(t[at..at + 4]) == Byte(t, at) * 0x100 + Byte(t, at + 2)
  {
    NumberOf4(t, at);
    NumberOf2(t, at);
    NumberOf2(t, at + 2);
  }

  lemma SpelledFirst(t: string, g: Guid)
    requires Canonical(t) && Spells(t, g)
    ensures AllHex(t[0..8]) && HexValue(t[0..8]) == g.data1
  {
    NumberOf8(t, 0);
    SpelledPair(t, 0);
    SpelledPair(t, 4);
  }

  lemma SpelledByte(t: string, g: Guid, k: nat)
    requires Canonical(t) && Spells(t, g) && 6 <= k < 15 && k != 8
    ensures Start(k) + 2 == Start(k + 1) <= 36 && AllHex(t[Start(k)..Start(k + 1)])
    ensures Before(k) < 11 && HexValue(t[Start(k)..Start(k + 1)]) == Values(g)[Before(k)]
  {
    var at := Start(k);
    assert !DashAt(at) && !DashAt(at + 1) && at + 2 == Start(k + 1) <= 36;
    ByteAt(t, at);
    TailByte(t, g, k);
  }

  lemma ByteAt(t: string, at: nat)
    requires HexAt(t, at, 2)
    ensures AllHex(t[at..at + 2]) && HexValue(t[at..at + 2]) == Byte(t, at)
  {
    NumberOf2(t, at);
  }

  lemma TailByte(t: string, g: Guid, k: nat)
    requires SpellsTail(t, g) && 6 <= k < 15 && k != 8
    ensures Before(k) < 11 && Values(g)[Before(k)] == Byte(t, Start(k))
  {
    assert Values(g)[Before(k)] == g.data4[Before(k) - 3];
  }

  lemma {:induction false} SpelledReadOff(t: string, g: Guid, k: nat)
    requires Canonical(t) && Spells(t, g) && k <= 15
    ensures Start(k) <= 36 && Before(k) <= 11 && Shaped(t, Start(k), GUID_FORMAT[k..])
    ensures ReadOff(t, Start(k), GUID_FORMAT[k..]) == Values(g)[Before(k)..]
    decreases 15 - k
  {
    CanonicalIsShaped(t, k);
    PartStep(if k < 15 then k else 0);
    if k < 15 {
      SpelledReadOff(t, g, k + 1);
      FormatParts();
      if Part(k).Hex? { SpelledNumber(t, g, k); }
      assert GUID_FORMAT[k..][0] == Part(k) && GUID_FORMAT[k..][1..] == GUID_FORMAT[k + 1..];
      ReadOffNext(t, GUID_FORMAT[k..], Start(k), Start(k + 1), Values(g), Before(k));
    }
  }

  lemma ReadOffNext(t: string, format: seq<Directive>, pos: nat, next: nat, values: seq<nat>, before: nat)
    requires format != [] && pos <= |t| && Shaped(t, pos, format)
    requires next == pos + (if format[0].Dash? then 1 else format[0].width) <= |t| && Shaped(t, next, format[1..])
    requires before + (if format[0].Dash? then 0 else 1) <= |values|
    requires ReadOff(t, next, format[1..]) == values[before + (if format[0].Dash? then 0 else 1)..]
    requires format[0].Hex? ==> AllHex(t[pos..next]) && HexValue(t[pos..next]) == values[before]
    ensures ReadOff(t, pos, format) == values[before..]
  {
    if format[0].Hex? {
      ReadOffHex(t, pos, format);
      assert values[before..] == [values[before]] + values[before + 1..];
    } else {
      ReadOffDash(t, pos, format);
    }
  }

  lemma ReadOffDash(t: string, pos: nat, format: seq<Directive>)
    requires pos < |t| && format != [] && format[0].Dash? && Shaped(t, pos, format)
    ensures ReadOff(t, pos, format) == ReadOff(t, pos + 1, format[1..])
  {
  }

  lemma ReadOffHex(t: string, pos: nat, format: seq<Directive>)
    requires pos <= |t| && format != [] && format[0].Hex? && Shaped(t, pos, format)
    ensures var next := pos + format[0].width;
            next <= |t| && AllHex(t[pos..next])
            && ReadOff(t, pos, format) == [HexValue(t[pos..next])] + ReadOff(t, next, format[1..])
  {
  }

  /** A canonical text is read byte by byte as the standard says. */
  lemma ScannedSpells(t: string, g: Guid)
    requires Canonical(t)
    ensures Scanned(t) == Some(g) <==> Spells(t, g)
  {
    if Spells(t, g) {
      SpelledReadOff(t, g, 0);
      assert GUID_FORMAT[0..] == GUID_FORMAT && Values(g)[0..] == Values(g);
      ScannedShaped(t);
      FitValues(g);
    }
    if Scanned(t) == Some(g) {
      var h := Spelled(t);
      SpelledReadOff(t, h, 0);
      assert GUID_FORMAT[0..] == GUID_FORMAT && Values(h)[0..] == Values(h);
      ScannedShaped(t);
      FitValues(h);
    }
  }

  function Spelled(t: string): (g: Guid)
    ensures Spells(t, g)
  {
    RawGuid(((Byte(t, 0) * 0x100 + Byte(t, 2)) * 0x100 + Byte(t, 4)) * 0x100 + Byte(t, 6),
            Byte(t, 9) * 0x100 + Byte(t, 11), Byte(t, 14) * 0x100 + Byte(t, 16),
            [Byte(t, 19), Byte(t, 21), Byte(t, 24), Byte(t, 26), Byte(t, 28), Byte(t, 30), Byte(t, 32), Byte(t, 34)])
  }

  /** A canonical text may be followed by anything. */
  lemma TrailingIgnored(text: string, rest: string)
    requires Canonical(text)
    ensures Scanned(text + rest) == Scanned(text) && Scanned(text).Some?
  {
    CanonicalIsShaped(text, 0);
    assert GUID_FORMAT[0..] == GUID_FORMAT;
    ScannedShaped(text);
    assert Scanned(text).Some?;
    var nul := FindChar(rest, 0 as char, 0);
    var all := text + rest;
    forall i | 0 <= i < |text| + nul ensures all[i] != 0 as char { if i >= |text| { assert all[i] == rest[i - |text|]; } }
    assert nul < |rest| ==> all[|text| + nul] == rest[nul];
    var end := FindChar(all, 0 as char, 0);
    assert end == |text| + nul;
    assert CText(all) == text + rest[..nul];
    assert CText(text) == text;
    ScanIgnoresRest(text, 0, GUID_FORMAT, rest[..nul]);
  }

  /** The published texts of the three schemes. */
  const BALANCED_TEXT := "381b4222-f694-41f0-9685-ff5bb260df2e"
  const HIGH_PERFORMANCE_TEXT := "8c5e7fda-e8bf-4a96-9a85-a6e23a8c635c"
  const POWER_SAVER_TEXT := "a1841308-3541-4fab-bc81-f71556f20b4a"

  predicate LowerCanonical(text: string) {
    && |text| == 36
    && forall i :: 0 <= i < 36 ==> if DashAt(i) then text[i] == '-' else '0' <= text[i] <= '9' || 'a' <= text[i] <= 'f'
  }

  lemma LowerStays(text: string)
    requires LowerCanonical(text)
    ensures Canonical(text) && Lower(text) == text
  {
  }

  lemma BalancedSpelled()
    ensures LowerCanonical(BALANCED_TEXT) && Spells(BALANCED_TEXT, BALANCED)
  {
    BalancedCanonical();
    BalancedFirst();
    BalancedMiddle();
    BalancedTail();
  }

  lemma BalancedCanonical()
    ensures LowerCanonical(BALANCED_TEXT)
  {
  }

  lemma BalancedFirst()
    ensures SpellsFirst(BALANCED_TEXT, BALANCED)
  {
  }

  lemma BalancedMiddle()
    ensures SpellsMiddle(BALANCED_TEXT, BALANCED)
  {
  }

  lemma BalancedTail()
    ensures SpellsTail(BALANCED_TEXT, BALANCED)
  {
  }

  lemma HighPerformanceSpelled()
    ensures LowerCanonical(HIGH_PERFORMANCE_TEXT) && Spells(HIGH_PERFORMANCE_TEXT, HIGH_PERFORMANCE)
  {
    HighPerformanceCanonical();
    HighPerformanceFirst();
    HighPerformanceMiddle();
    HighPerformanceTail();
  }

  lemma HighPerformanceCanonical()
    ensures LowerCanonical(HIGH_PERFORMANCE_TEXT)
  {
  }

  lemma HighPerformanceFirst()
    ensures SpellsFirst(HIGH_PERFORMANCE_TEXT, HIGH_PERFORMANCE)
  {
  }

  lemma HighPerformanceMiddle()
    ensures SpellsMiddle(HIGH_PERFORMANCE_TEXT, HIGH_PERFORMANCE)
  {
  }

  lemma HighPerformanceTail()
    ensures SpellsTail(HIGH_PERFORMANCE_TEXT, HIGH_PERFORMANCE)
  {
  }

  lemma PowerSaverSpelled()
    ensures LowerCanonical(POWER_SAVER_TEXT) && Spells(POWER_SAVER_TEXT, POWER_SAVER)
  {
    PowerSaverCanonical();
    PowerSaverFirst();
    PowerSaverMiddle();
    PowerSaverTail();
  }

  lemma PowerSaverCanonical()
    ensures LowerCanonical(POWER_SAVER_TEXT)
  {
  }

  lemma PowerSaverFirst()
    ensures SpellsFirst(POWER_SAVER_TEXT, POWER_SAVER)
  {
  }

  lemma PowerSaverMiddle()
    ensures SpellsMiddle(POWER_SAVER_TEXT, POWER_SAVER)
  {
  }

  lemma PowerSaverTail()
    ensures SpellsTail(POWER_SAVER_TEXT, POWER_SAVER)
  {
  }

  lemma CanonicalIsNoAlias(text: string)
    requires Canonical(text)
    ensures AliasToGuid(text) == None && Resolve(text) == Scanned(text)
  {
    assert |"balanced"| == 8 && |"high"| == 4 && |"saver"| == 5;
  }

  /** Each alias means the scheme with its published text. */
  lemma AliasIsPublished()
    ensures Resolve("balanced") == Resolve(BALANCED_TEXT) == Some(BALANCED)
    ensures Resolve("high") == Resolve(HIGH_PERFORMANCE_TEXT) == Some(HIGH_PERFORMANCE)
    ensures Resolve("saver") == Resolve(POWER_SAVER_TEXT) == Some(POWER_SAVER)
  {
    PublishedResolves(BALANCED_TEXT, BALANCED) by { BalancedSpelled(); }
    PublishedResolves(HIGH_PERFORMANCE_TEXT, HIGH_PERFORMANCE) by { HighPerformanceSpelled(); }
    PublishedResolves(POWER_SAVER_TEXT, POWER_SAVER) by { PowerSaverSpelled(); }
  }

  lemma PublishedResolves(text: string, g: Guid)
    requires LowerCanonical(text) && Spells(text, g)
    ensures Resolve(text) == Some(g)
  {
    LowerStays(text);
    CanonicalIsNoAlias(text);
    ScannedSpells(text, g);
  }

  /** Every canonical text parses, and printing the result gives the text in lower case. */
  lemma ParsePrint(text: string)
    requires Canonical(text)
    ensures Scanned(text).Some? && GuidToString(Scanned(text).value) == Lower(text)
  {
    CanonicalIsShaped(text, 0);
    assert GUID_FORMAT[0..] == GUID_FORMAT;
    ScannedShaped(text);
    RenderReadOff(text, 0, GUID_FORMAT);
    assert text[0..] == text;
    FitStored(ReadOff(text, 0, GUID_FORMAT));
  }

  lemma {:induction false} FitUpTo(values: seq<nat>, k: nat)
    requires Fit(GUID_FORMAT, values) && k <= 15
    ensures Before(k) <= |values| && Fit(GUID_FORMAT[k..], values[Before(k)..])
    ensures k > 0 && Part(k - 1).Hex? ==> Before(k) >= 1 && values[Before(k) - 1] < Pow16(Part(k - 1).width)
  {
    FormatParts();
    if k > 0 {
      FitUpTo(values, k - 1);
      PartStep(k - 1);
      assert GUID_FORMAT[k - 1..][1..] == GUID_FORMAT[k..];
      if Part(k - 1).Hex? { assert values[Before(k - 1)..][1..] == values[Before(k)..]; }
    } else {
      assert GUID_FORMAT[0..] == GUID_FORMAT && values[0..] == values;
    }
  }

  /** The number read by directive k - 1. */
  lemma FieldBound(values: seq<nat>, k: nat)
    requires Fit(GUID_FORMAT, values) && 1 <= k <= 15 && Part(k - 1).Hex?
    ensures 1 <= Before(k) <= |values| && values[Before(k) - 1] < Pow16(Part(k - 1).width)
    ensures k == 15 ==> |values| == 11
  {
    FormatParts();
    FitUpTo(values, k);
  }

  lemma FieldBounds(values: seq<nat>)
    requires Fit(GUID_FORMAT, values)
    ensures |values| == 11
    ensures values[0] < 0x1_0000_0000 && values[1] < 0x1_0000 && values[2] < 0x1_0000
    ensures forall i :: 3 <= i < 11 ==> values[i] < 0x100
  {
    Powers();
    FieldBound(values, 15);
    FieldBound(values, 1);
    FieldBound(values, 3);
    FieldBound(values, 5);
    forall i | 3 <= i < 11 ensures values[i] < 0x100 {
      FieldBound(values, if i <= 4 then i + 4 else i + 5);
    }
  }

  lemma StoredInRange(values: seq<nat>)
    requires |values| == 11
    requires values[0] < 0x1_0000_0000 && values[1] < 0x1_0000 && values[2] < 0x1_0000
    requires forall i :: 3 <= i < 11 ==> values[i] < 0x100
    ensures Values(Stored(values)) == values
  {
    var g, back := Stored(values), Values(Stored(values));
    assert back[0] == values[0] && back[1] == values[1] && back[2] == values[2];
    forall i | 3 <= i < 11 ensures back[i] == values[i] {
      assert back[i] == g.data4[i - 3] == values[3 + (i - 3)] % 0x100;
    }
  }

  /** Numbers that fit the format survive the casts. */
  lemma FitStored(values: seq<nat>)
    requires Fit(GUID_FORMAT, values)
    ensures |values| == 11 && Values(Stored(values)) == values
  {
    FieldBounds(values);
    StoredInRange(values);
  }

  // ---------------------------------------------------------------- the executor

  /** What the power API shows: the active scheme if it can be read, the schemes that can be set, and
      the code reported when one cannot. */
  datatype Power = Power(active: Option<Guid>, settable: set<Guid>, failure: string)

  datatype Machine<R> = Machine(power: Power, rest: R)

  function CurrentValue<R>(m: Machine<R>): string {
    match m.power.active
    case None => ""
    case Some(g) => GuidToAlias(g)
  }

  function Apply<R>(m: Machine<R>, desired: string): Effect<Machine<R>> {
    match Resolve(desired)
    case None => Effect(m, false, "unknown power plan: " + desired)
    case Some(g) =>
      if g !in m.power.settable then Effect(m, false, "PowerSetActiveScheme failed rc=" + m.power.failure)
      else Effect(m.(power := m.power.(active := Some(g))), true, "power plan -> " + desired)
  }

  function PowerPlanExecutor<R>(): Executor<Machine<R>> {
    Executor("power.plan", (m: Machine<R>) => true, (m: Machine<R>) => CurrentValue(m),
             (m: Machine<R>, v: string) => Apply(m, v))
  }

  /** The text a scheme goes by, from the text it was set with: an alias is its own, the published text
      of an alias goes by the alias, any other canonical text by its lower-case form. */
  predicate GoesBy(v: string, name: string) {
    && (v in {"balanced", "high", "saver"} ==> name == v)
    && (Canonical(v) ==>
          name == if Lower(v) == BALANCED_TEXT then "balanced"
                  else if Lower(v) == HIGH_PERFORMANCE_TEXT then "high"
                  else if Lower(v) == POWER_SAVER_TEXT then "saver"
                  else Lower(v))
  }

  lemma PublishedPrints()
    ensures GuidToString(BALANCED) == BALANCED_TEXT
    ensures GuidToString(HIGH_PERFORMANCE) == HIGH_PERFORMANCE_TEXT
    ensures GuidToString(POWER_SAVER) == POWER_SAVER_TEXT
  {
    PublishedPrint(BALANCED_TEXT, BALANCED) by { BalancedSpelled(); }
    PublishedPrint(HIGH_PERFORMANCE_TEXT, HIGH_PERFORMANCE) by { HighPerformanceSpelled(); }
    PublishedPrint(POWER_SAVER_TEXT, POWER_SAVER) by { PowerSaverSpelled(); }
  }

  lemma PublishedPrint(text: string, g: Guid)
    requires LowerCanonical(text) && Spells(text, g)
    ensures GuidToString(g) == text
  {
    LowerStays(text);
    ScannedSpells(text, g);
    ParsePrint(text);
  }

  /** A canonical text means scheme h exactly when, in lower case, it is what h prints as. */
  lemma MeansIff(v: string, g: Guid, h: Guid)
    requires Canonical(v) && Scanned(v) == Some(g)
    ensures GuidToString(g) == Lower(v) && (g == h <==> Lower(v) == GuidToString(h))
  {
    ParsePrint(v);
    PrintParse(g);
    PrintParse(h);
  }

  lemma CanonicalGoesBy(v: string, g: Guid)
    requires Canonical(v) && Scanned(v) == Some(g)
    ensures GoesBy(v, GuidToAlias(g))
  {
    assert v !in {"balanced", "high", "saver"} by { CanonicalIsNoAlias(v); }
    PublishedPrints();
    MeansIff(v, g, BALANCED);
    MeansIff(v, g, HIGH_PERFORMANCE);
    MeansIff(v, g, POWER_SAVER);
  }

  /** Applying succeeds for exactly the schemes the system would set, and afterwards the executor shows
      the scheme asked for under its own name; a refusal names its reason. */
  lemma CurrentAfterApply<R>(m: Machine<R>, v: string)
    ensures Apply(m, v).ok ==> GoesBy(v, CurrentValue(Apply(m, v).world))
    ensures Apply(m, v).message == if Apply(m, v).ok then "power plan -> " + v
                                   else if Resolve(v) == None then "unknown power plan: " + v
                                   else "PowerSetActiveScheme failed rc=" + m.power.failure
    ensures Canonical(v) ==> (Apply(m, v).ok <==> Spelled(v) in m.power.settable)
    ensures v == "balanced" ==> (Apply(m, v).ok <==> BALANCED in m.power.settable)
    ensures v == "high" ==> (Apply(m, v).ok <==> HIGH_PERFORMANCE in m.power.settable)
    ensures v == "saver" ==> (Apply(m, v).ok <==> POWER_SAVER in m.power.settable)
  {
    SchemeRoundTrip(v);
    if Canonical(v) {
      CanonicalIsNoAlias(v);
      ScannedSpells(v, Spelled(v));
      CanonicalGoesBy(v, Spelled(v));
    }
  }

  lemma NothingScans()
    ensures Resolve("") == None
  {
    FormatParts();
    assert CText("") == "";
    assert ScanHex("", 0, 8) == None;
  }

  /** The active scheme can be read, and can be set again. */
  predicate Restorable<R>(m: Machine<R>) {
    m.power.active.Some? && m.power.active.value in m.power.settable
  }

  /** A successful application can be undone exactly when the scheme active before it could be read and
      is one the system would set again. */
  lemma UndoIffRestorable<R>(m: Machine<R>, desired: string)
    requires Apply(m, desired).ok
    ensures Apply(Apply(m, desired).world, CurrentValue(m)).world == m <==> Restorable(m)
  {
    match m.power.active
    case None => NothingScans();
    case Some(g) => AliasRoundTrip(g);
  }

  /** So the power plan executor obeys the laws that rollback needs, whatever else the machine holds. */
  lemma PowerPlanLawful<R(!new)>(good: Machine<R> -> bool)
    requires forall m :: good(m) == Restorable(m)
    ensures Undoes(PowerPlanExecutor<R>(), good) && FailsCleanly(PowerPlanExecutor<R>(), good)
  {
    var e := PowerPlanExecutor<R>();
    forall m: Machine<R>, v: string ensures UndoesAt(e, good, m, v) {
      if good(m) && e.apply(m, v).ok { UndoIffRestorable(m, v); }
    }
  }

  /** Put together: a failing profile switch on a machine whose scheme is restorable leaves the active
      power plan, and everything else, as it was. */
  lemma FailedSwitchKeepsPlan<R(!new)>(others: seq<Executor<Machine<R>>>, good: Machine<R> -> bool, bus: bool,
                                       m: Manager<Machine<R>>, call: Call)
    requires forall x :: good(x) == Restorable(x)
    requires Lawful(others, good) && Restorable(m.world)
    requires ReadProfile(m.files, call.id).Parsed? && Ordered(ReadProfile(m.files, call.id).profile.settings)
    requires !Switch([PowerPlanExecutor<R>()] + others, bus, m, call).1.Ok()
    ensures Switch([PowerPlanExecutor<R>()] + others, bus, m, call).0.world == m.world
  {
    PowerPlanLawful(good);
    var executors := [PowerPlanExecutor<R>()] + others;
    assert forall i :: 0 < i < |executors| ==> executors[i] == others[i - 1];
    FailedSwitchIsUndone(executors, bus, m, call, good);
  }

  /** A profile that only names a plan is applied exactly when that plan can be set. */
  lemma PlanSwitches<R>(bus: bool, m: Manager<Machine<R>>, call: Call, v: string)
    requires ReadProfile(m.files, call.id).Parsed?
    requires ReadProfile(m.files, call.id).profile.settings == [Entry("power.plan", v)]
    ensures var (m', outcome) := Switch([PowerPlanExecutor<R>()], bus, m, call);
            && (outcome.Ok() <==> Apply(m.world, v).ok)
            && (outcome.Ok() ==> m'.world == Apply(m.world, v).world)
  {
    var executors, settings := [PowerPlanExecutor<R>()], [Entry("power.plan", v)];
    assert Find(executors, "power.plan") == Some(0);
    assert After(executors, settings, m.world, 0) == m.world;
    assert Refused(executors, settings, m.world, 0).None? <==> Apply(m.world, v).ok;
    if Apply(m.world, v).ok {
      assert After(executors, settings, m.world, 1) == Apply(m.world, v).world;
      AcceptedFrom(executors, settings, m.world, 1);
    } else {
      AcceptedFrom(executors, settings, m.world, 0);
    }
  }

  /** The one facet of the power plan executor: the active scheme. */
  function PlanOf<R>(f: nat, m: Machine<R>): Option<Guid> { if f == 0 then m.power.active else None }

  lemma PlanFacets<R(!new)>(good: Machine<R> -> bool, view: (nat, Machine<R>) -> Option<Guid>, denote: (nat, string) -> Option<Guid>)
    requires forall m :: good(m) == Restorable(m)
    requires (forall f, m :: view(f, m) == PlanOf(f, m)) && forall e, v :: denote(e, v) == Resolve(v)
    ensures Facets([PowerPlanExecutor<R>()], good, view, denote)
  {
    var e := PowerPlanExecutor<R>();
    forall m: Machine<R>, v: string, f: nat ensures FacetAt(e, 0, good, view, denote, m, v, f) {}
  }

  /** With the power plan as the only executor, after any switches on a machine whose scheme can be
      restored the active plan is what the latest successful profile naming one means by it, and the one
      active before if there is none. */
  lemma PlanFollowsProfiles<R(!new)>(good: Machine<R> -> bool, bus: bool, m: Manager<Machine<R>>, calls: seq<Call>)
    requires forall x :: good(x) == Restorable(x)
    requires Restorable(m.world) && OrderedProfiles(m.files) && AllNameable(m.files, calls)
    ensures SwitchAll([PowerPlanExecutor<R>()], bus, m, calls).world.power.active
            == match Latest([PowerPlanExecutor<R>()], bus, m, calls, "power.plan")
               case Some(v) => Resolve(v)
               case None => m.world.power.active
  {
    var view := (f: nat, m: Machine<R>) => PlanOf(f, m);
    var denote := (e: nat, v: string) => Resolve(v);
    PowerPlanLawful(good);
    PlanFacets(good, view, denote);
    MachineFollowsProfiles([PowerPlanExecutor<R>()], bus, m, calls, good, view, denote, 0);
  }
}
