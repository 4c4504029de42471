/**
  The string and number helpers of EVEMon.Common.ExtensionMethods that the ESI layer and
  the models use: pluralisation, the "N<d>" format string, ordinal substring search, the
  StringReader-driven conversion of line breaks to HTML, the invariant-culture integer
  parsers, underscore replacement and the null guard.
*/
module ExtensionMethods {
  import opened Common

  // ---------------------------------------------------------------------------------
  // ThrowIfNull

  /**
    ThrowIfNull: the exception raised, if any. An ArgumentNullException is raised exactly
    when the object is null, with the given message or the default one.
  */
  function ThrowIfNull<T>(obj: Option<T>, paramName: string, message: Option<string>): (thrown: Option<Exn>)
    ensures thrown.Some? <==> obj.None?
    ensures thrown.Some? ==> thrown.value.ArgumentNull? && thrown.value.param == paramName
    ensures thrown.Some? && message.None? ==> thrown.value.message == "Value cannot be null."
    ensures thrown.Some? && message.Some? ==> thrown.value.message == message.value
  {
    if obj.None? then Some(ArgumentNull(paramName, message.GetOr(NULL_MESSAGE))) else None
  }

  // ---------------------------------------------------------------------------------
  // Numbers

  /** Pluralisation suffix: "s" for a value above one, the empty string otherwise. */
  function S(value: int32): (r: string)
    ensures r == "s" <==> value > 1
    ensures r == "" <==> value <= 1
  {
    if value > 1 then "s" else ""
  }

  /**
    The numeric format string for a number of decimals: "N" followed by the invariant
    decimal digits of the count; a negative count is out of range.
  */
  function GetNumericFormatString(decimals: int32): (r: Outcome<string>)
    ensures r.Throw? <==> decimals < 0
    ensures r.Throw? ==> r.error == ArgumentOutOfRange("decimals")
    ensures r.Ok? ==> |r.value| >= 2 && r.value[0] == 'N'
    ensures r.Ok? ==> AllDigits(r.value[1..]) && DigitsValue(r.value[1..]) == decimals
    ensures r.Ok? ==> (r.value[1] == '0' ==> decimals == 0)
  {
    if decimals < 0 then Throw(ArgumentOutOfRange("decimals"))
    else
      DecimalRoundTrip(decimals);
      var s := "N" + NatToDecimal(decimals);
      assert s[1..] == NatToDecimal(decimals);
      Ok(s)
  }

  // ---------------------------------------------------------------------------------
  // Ordinal substring search (String.IndexOf with Ordinal / OrdinalIgnoreCase)

  /**
    The per-character case mapping OrdinalIgnoreCase compares under: the invariant
    culture's simple upper-casing, which comes from the Unicode tables of the runtime and
    is therefore a parameter `upper`.
  */
  type CaseMap = char -> char

  predicate SameChar(a: char, b: char, ignoreCase: bool, upper: CaseMap) {
    if ignoreCase then upper(a) == upper(b) else a == b
  }

  /** t occurs in s at position i. */
  predicate MatchAt(s: string, t: string, i: nat, ignoreCase: bool, upper: CaseMap) {
    i + |t| <= |s| && forall k :: 0 <= k < |t| ==> SameChar(s[i + k], t[k], ignoreCase, upper)
  }

  /** String.IndexOf(t, comparison) searching from position `from`: the first match, or -1. */
  function IndexOfFrom(s: string, t: string, ignoreCase: bool, upper: CaseMap, from: nat): (r: int)
    requires from <= |s| + 1
    ensures r == -1 || (from <= r && MatchAt(s, t, r, ignoreCase, upper))
    ensures r >= 0 ==> forall j :: from <= j < r ==> !MatchAt(s, t, j, ignoreCase, upper)
    ensures r == -1 ==> forall j :: from <= j ==> !MatchAt(s, t, j, ignoreCase, upper)
    decreases |s| + 1 - from
  {
    if from + |t| > |s| then -1
    else if MatchAt(s, t, from, ignoreCase, upper) then from
    else IndexOfFrom(s, t, ignoreCase, upper, from + 1)
  }

  /** Ordinal matching is exact slice equality. */
  lemma MatchAtOrdinal(s: string, t: string, i: nat, upper: CaseMap)
    requires i + |t| <= |s|
    ensures MatchAt(s, t, i, false, upper) <==> s[i..i + |t|] == t
  {
    if MatchAt(s, t, i, false, upper) {
      assert forall k :: 0 <= k < |t| ==> s[i..i + |t|][k] == t[k];
    }
  }

  /**
    Contains: a null source raises for "source"; otherwise IndexOf raises for a null
    text (its parameter "value") and the result is whether the text occurs.
  */
  function Contains(source: Option<string>, text: Option<string>, ignoreCase: bool, upper: CaseMap): (r: Outcome<bool>)
    ensures source.None? ==> r == Throw(ArgumentNull("source", NULL_MESSAGE))
    ensures source.Some? && text.None? ==> r == Throw(ArgumentNull("value", NULL_MESSAGE))
    ensures source.Some? && text.Some? ==>
      r.Ok? && (r.value <==> exists i: nat :: MatchAt(source.value, text.value, i, ignoreCase, upper))
  {
    match ThrowIfNull(source, "source", None)
    case Some(e) => Throw(e)
    case None =>
      if text.None? then Throw(ArgumentNull("value", NULL_MESSAGE))
      else
        var i := IndexOfFrom(source.value, text.value, ignoreCase, upper, 0);
        Ok(i >= 0)
  }

  /** The empty text is found in every string, and a string is found in itself. */
  lemma ContainsEmptyAndSelf(s: string, ignoreCase: bool, upper: CaseMap)
    ensures Contains(Some(s), Some(""), ignoreCase, upper) == Ok(true)
    ensures Contains(Some(s), Some(s), ignoreCase, upper) == Ok(true)
  {
    assert MatchAt(s, "", 0, ignoreCase, upper);
    assert MatchAt(s, s, 0, ignoreCase, upper);
  }

  /** An ordinal match is also a case-insensitive match, whatever the case mapping. */
  lemma OrdinalImpliesIgnoreCase(s: string, t: string, upper: CaseMap)
    requires Contains(Some(s), Some(t), false, upper) == Ok(true)
    ensures Contains(Some(s), Some(t), true, upper) == Ok(true)
  {
    var i: nat :| MatchAt(s, t, i, false, upper);
    assert MatchAt(s, t, i, true, upper);
  }

  /** Every character of s under the case mapping. */
  function MapCase(s: string, upper: CaseMap): (r: string)
    ensures |r| == |s| && forall k :: 0 <= k < |s| ==> r[k] == upper(s[k])
  {
    seq(|s|, k requires 0 <= k < |s| => upper(s[k]))
  }

  /** A case-insensitive match is an ordinal match of the two case-mapped strings. */
  lemma MatchAtIgnoreCase(s: string, t: string, i: nat, upper: CaseMap)
    ensures MatchAt(s, t, i, true, upper) <==> MatchAt(MapCase(s, upper), MapCase(t, upper), i, false, upper)
  {
  }

  /** Ignoring case is searching ordinally in the case-mapped strings. */
  lemma IgnoreCaseIsOrdinalOfMapped(s: string, t: string, upper: CaseMap)
    ensures Contains(Some(s), Some(t), true, upper)
         == Contains(Some(MapCase(s, upper)), Some(MapCase(t, upper)), false, upper)
  {
    forall i: nat
      ensures MatchAt(s, t, i, true, upper) <==> MatchAt(MapCase(s, upper), MapCase(t, upper), i, false, upper)
    {
      MatchAtIgnoreCase(s, t, i, upper);
    }
  }

  // ---------------------------------------------------------------------------------
  // Line breaks (StringReader.ReadLine and NewLinesToLineBreaks)

  predicate IsBreak(c: char) {
    c == '\r' || c == '\n'
  }

  /** The position of the first '\r' or '\n' in s, or |s| if there is none. */
  function BreakIndex(s: string): (i: nat)
    ensures i <= |s|
    ensures forall k :: 0 <= k < i ==> !IsBreak(s[k])
    ensures i < |s| ==> IsBreak(s[i])
  {
    if s == [] || IsBreak(s[0]) then 0 else 1 + BreakIndex(s[1..])
  }

  /**
    StringReader.ReadLine on the unread text s: null at the end of the text; otherwise the
    characters up to the first "\r\n", "\r" or "\n", and the text after that line break.
  */
  function ReadLine(s: string): (r: Option<(string, string)>)
    ensures r.None? <==> s == []
    ensures r.Some? ==> |r.value.1| < |s|
    ensures r.Some? ==> forall c :: c in r.value.0 ==> !IsBreak(c)
  {
    if s == [] then None
    else
      var i := BreakIndex(s);
      if i == |s| then Some((s, ""))
      else if s[i] == '\r' && i + 1 < |s| && s[i + 1] == '\n' then Some((s[..i], s[i + 2..]))
      else Some((s[..i], s[i + 1..]))
  }

  /** The lines ReadLine yields, one after another, until it returns null. */
  function Lines(s: string): seq<string>
    decreases |s|
  {
    match ReadLine(s)
    case None => []
    case Some((line, rest)) => [line] + Lines(rest)
  }

  /** One ReadLine step of Lines. */
  lemma LinesStep(s: string)
    ensures ReadLine(s).None? ==> Lines(s) == []
    ensures ReadLine(s).Some? ==> Lines(s) == [ReadLine(s).value.0] + Lines(ReadLine(s).value.1)
  {
  }

  /** Joining one more element appends the separator and the element. */
  lemma JoinSnoc(xs: seq<string>, x: string, sep: string)
    ensures Join(xs + [x], sep) == if xs == [] then x else Join(xs, sep) + sep + x
  {
    assert (xs + [x])[..|xs|] == xs;
  }

  /** One pass of the NewLinesToLineBreaks loop keeps its invariants: the line read joins the lines done. */
  lemma LineStep(text: string, done: seq<string>, reader: string, sb: string, newLine: string)
    requires ReadLine(reader).Some?
    requires Lines(text) == done + Lines(reader)
    requires sb == Join(done, "<br/>" + newLine)
    ensures Lines(text) == (done + [ReadLine(reader).value.0]) + Lines(ReadLine(reader).value.1)
    ensures (if done != [] then sb + "<br/>" + newLine else sb) + ReadLine(reader).value.0
            == Join(done + [ReadLine(reader).value.0], "<br/>" + newLine)
  {
    var line, rest := ReadLine(reader).value.0, ReadLine(reader).value.1;
    LinesStep(reader);
    assert done + Lines(reader) == (done + [line]) + Lines(rest);
    var sep := "<br/>" + newLine;
    JoinSnoc(done, line, sep);
    if done != [] {
      assert sb + "<br/>" + newLine == sb + sep;
    }
  }

  /**
    NewLinesToLineBreaks. Null or whitespace-only text is returned as it is; otherwise the
    lines of the text are appended one by one, every line after the first preceded by
    "<br/>" and the platform's newline (Environment.NewLine, a parameter here).
  */
  method NewLinesToLineBreaks(text: Option<string>, newLine: string) returns (r: Option<string>)
    ensures IsNullOrWhiteSpace(text) ==> r == text
    ensures !IsNullOrWhiteSpace(text) ==> r == Some(Join(Lines(text.value), "<br/>" + newLine))
  {
    if IsNullOrWhiteSpace(text) {
      return text;
    }
    var sb := "";
    var reader := text.value;
    var append := false;
    ghost var done: seq<string> := [];
    var next := ReadLine(reader);
    while next.Some?
      invariant next == ReadLine(reader)
      invariant Lines(text.value) == done + Lines(reader)
      invariant append <==> done != []
      invariant sb == Join(done, "<br/>" + newLine)
      decreases |reader|
    {
      LineStep(text.value, done, reader, sb, newLine);
      var line := next.value.0;
      if append {
        sb := sb + "<br/>" + newLine;
      }
      sb := sb + line;
      append := true;
      done := done + [line];
      reader := next.value.1;
      next := ReadLine(reader);
    }
    LinesStep(reader);
    assert done + [] == done;
    return Some(sb);
  }

  /** Adding "\n" to the first break-free stretch leaves the break position where it was, or puts it at the end. */
  lemma BreakIndexAppendNewline(s: string)
    ensures BreakIndex(s + "\n") == BreakIndex(s)
  {
    var t := s + "\n";
    var i, j := BreakIndex(s), BreakIndex(t);
    assert forall k :: 0 <= k < |s| ==> t[k] == s[k];
    if i < |s| {
      assert t[i] == s[i];
    } else {
      assert t[|s|] == '\n';
    }
  }

  /**
    A final line break adds no further line: unless the text is empty or already ends in
    "\n", appending "\n" yields the same lines, so no trailing "<br/>" appears.
  */
  lemma {:induction false} FinalBreakAddsNoLine(s: string)
    requires s != [] && s[|s| - 1] != '\n'
    ensures Lines(s + "\n") == Lines(s)
    decreases |s|
  {
    var t := s + "\n";
    BreakIndexAppendNewline(s);
    var i := BreakIndex(s);
    if i < |s| {
      assert t[i] == s[i];
      if s[i] == '\r' && i + 1 < |s| && s[i + 1] == '\n' {
        assert t[..i] == s[..i] && t[i + 2..] == s[i + 2..] + "\n";
        FinalBreakAddsNoLine(s[i + 2..]);
      } else if s[i] == '\r' && i + 1 == |s| {
        assert t[..i] == s[..i] && t[i + 2..] == [];
      } else {
        assert t[i + 1] == if i + 1 < |s| then s[i + 1] else '\n';
        assert t[..i] == s[..i] && t[i + 1..] == s[i + 1..] + "\n";
        FinalBreakAddsNoLine(s[i + 1..]);
      }
    } else {
      assert t[..i] == s;
      assert t[i + 1..] == [];
    }
  }

  /** Text without line breaks is one line, so the conversion returns it unchanged. */
  lemma NoBreaksUnchanged(s: string, newLine: string)
    requires s != [] && forall k :: 0 <= k < |s| ==> !IsBreak(s[k])
    ensures Lines(s) == [s]
    ensures Join(Lines(s), "<br/>" + newLine) == s
  {
    assert ReadLine(s) == Some((s, ""));
  }

  /** The first break of a + x is the first character of x when a has none. */
  lemma BreakIndexAt(a: string, x: string)
    requires forall k :: 0 <= k < |a| ==> !IsBreak(a[k])
    requires x != [] && IsBreak(x[0])
    ensures BreakIndex(a + x) == |a|
  {
    var s := a + x;
    assert forall k :: 0 <= k < |a| ==> s[k] == a[k];
    assert s[|a|] == x[0];
  }

  /**
    ReadLine splits at "\n", "\r" and "\r\n" alike: a break-free line followed by any one
    of them and then more text gives that line, then the lines of the rest.
  */
  lemma LineThenRest(a: string, br: string, rest: string)
    requires br == "\n" || br == "\r" || br == "\r\n"
    requires br == "\r" ==> rest == [] || rest[0] != '\n'
    requires forall k :: 0 <= k < |a| ==> !IsBreak(a[k])
    ensures Lines(a + br + rest) == [a] + Lines(rest)
  {
    var s := a + br + rest;
    BreakIndexAt(a, br + rest);
    assert s == a + (br + rest);
    assert s[..|a|] == a;
    assert s[|a| + |br|..] == rest;
    assert ReadLine(s) == Some((a, rest));
    LinesStep(s);
  }

  // ---------------------------------------------------------------------------------
  // Integer parsing (NumberStyles.Integer, invariant culture)

  /** The white space NumberStyles.AllowLeadingWhite/AllowTrailingWhite accept: U+0009-U+000D and U+0020. */
  predicate IsNumberWhite(c: char) {
    '\U{9}' <= c <= '\U{D}' || c == ' '
  }

  predicate AllNumberWhite(s: string) {
    forall k :: 0 <= k < |s| ==> IsNumberWhite(s[k])
  }

  /** s without its leading number white space. */
  function SkipWhite(s: string): (r: string)
    ensures |r| <= |s|
  {
    if s != [] && IsNumberWhite(s[0]) then SkipWhite(s[1..]) else s
  }

  /** SkipWhite drops exactly the leading number white space: a suffix that starts with anything else. */
  lemma {:induction false} SkipWhiteSuffix(s: string)
    ensures var r := SkipWhite(s); r == s[|s| - |r|..] && AllNumberWhite(s[..|s| - |r|])
    ensures var r := SkipWhite(s); r != [] ==> !IsNumberWhite(r[0])
  {
    if s != [] && IsNumberWhite(s[0]) {
      SkipWhiteSuffix(s[1..]);
      var r := SkipWhite(s);
      assert s[1..][..|s| - 1 - |r|] == s[1..|s| - |r|];
    }
  }

  /** The length of the run of decimal digits s starts with. */
  function DigitRun(s: string): (k: nat)
    ensures k <= |s|
  {
    if s != [] && IsDigit(s[0]) then 1 + DigitRun(s[1..]) else 0
  }

  /** DigitRun is the longest all-digit prefix. */
  lemma {:induction false} DigitRunMaximal(s: string)
    ensures AllDigits(s[..DigitRun(s)])
    ensures DigitRun(s) < |s| ==> !IsDigit(s[DigitRun(s)])
  {
    if s != [] && IsDigit(s[0]) {
      DigitRunMaximal(s[1..]);
      var k := DigitRun(s);
      assert s[..k] == [s[0]] + s[1..][..k - 1];
    }
  }

  /** What may follow the digits: trailing white space, then nothing but '\0' characters. */
  predicate TrailerOk(s: string) {
    var t := SkipWhite(s);
    forall k :: 0 <= k < |t| ==> t[k] == '\0'
  }

  /** The digits at the start of u, then the trailer; the sign has been read already. */
  function ParseDigits(u: string, negative: bool, lo: int, hi: int): (r: Option<int>)
    ensures r.Some? ==> lo <= r.value <= hi
  {
    var k := DigitRun(u);
    if k == 0 || !TrailerOk(u[k..]) then None
    else
      var magnitude := DigitsValue(u[..k]);
      var v: int := if negative then -(magnitude as int) else magnitude;
      if lo <= v <= hi then Some(v) else None
  }

  /**
    Parsing under NumberStyles.Integer: optional leading white space, an optional '+' or
    '-', one or more decimal digits, optional trailing white space (and trailing '\0's);
    the value must lie in lo..hi, the range of the target type.
  */
  function ParseInteger(s: string, lo: int, hi: int): (r: Option<int>)
    ensures r.Some? ==> lo <= r.value <= hi
  {
    var t := SkipWhite(s);
    if t != [] && t[0] == '-' then ParseDigits(t[1..], true, lo, hi)
    else if t != [] && t[0] == '+' then ParseDigits(t[1..], false, lo, hi)
    else ParseDigits(t, false, lo, hi)
  }

  lemma {:induction false} SkipWhitePrefix(w: string, x: string)
    requires AllNumberWhite(w)
    requires x != [] ==> !IsNumberWhite(x[0])
    ensures SkipWhite(w + x) == x
    decreases |w|
  {
    if w != [] {
      assert (w + x)[1..] == w[1..] + x;
      SkipWhitePrefix(w[1..], x);
    }
  }

  lemma {:induction false} DigitRunPrefix(d: string, x: string)
    requires AllDigits(d)
    requires x != [] ==> !IsDigit(x[0])
    ensures DigitRun(d + x) == |d|
    decreases |d|
  {
    if d != [] {
      assert (d + x)[1..] == d[1..] + x;
      DigitRunPrefix(d[1..], x);
    } else if x != [] {
      assert (d + x)[0] == x[0];
    }
  }

  /**
    Round trip: the invariant rendering of n, with any surrounding number white space,
    parses back to n when n is in range and is rejected as an overflow otherwise.
  */
  lemma ParseRendered(n: int, lead: string, trail: string, lo: int, hi: int)
    requires AllNumberWhite(lead) && AllNumberWhite(trail)
    ensures ParseInteger(lead + IntToDecimal(n) + trail, lo, hi) == if lo <= n <= hi then Some(n) else None
  {
    var s := lead + IntToDecimal(n) + trail;
    var body := IntToDecimal(n) + trail;
    assert s == lead + body;
    SkipWhitePrefix(lead, body);
    assert SkipWhite(s) == body;
    ParseSignedDigits(n, trail, lo, hi);
  }

  /** Digits then number white space: the digit run is d, and what follows it is an acceptable trailer. */
  lemma DigitsThenTrailer(d: string, trail: string)
    requires AllDigits(d) && AllNumberWhite(trail)
    ensures DigitRun(d + trail) == |d|
    ensures (d + trail)[..|d|] == d && TrailerOk((d + trail)[|d|..])
  {
    if trail != [] {
      assert IsNumberWhite(trail[0]);
    }
    DigitRunPrefix(d, trail);
    assert (d + trail)[|d|..] == trail;
    SkipWhitePrefix(trail, "");
    assert trail + "" == trail;
  }

  /** ParseDigits once the digit run d and its trailer are known. */
  lemma ParseDigitsOf(u: string, d: string, negative: bool, lo: int, hi: int)
    requires d != [] && DigitRun(u) == |d| && u[..|d|] == d && TrailerOk(u[|d|..])
    ensures var v: int := if negative then -(DigitsValue(d) as int) else DigitsValue(d);
      ParseDigits(u, negative, lo, hi) == if lo <= v <= hi then Some(v) else None
  {
    var k := DigitRun(u);
    assert k != 0 && u[..k] == d && TrailerOk(u[k..]);
  }

  /** The digits d followed by trailing white space parse to their value, when it is in range. */
  lemma ParseDigitsThenWhite(d: string, negative: bool, trail: string, lo: int, hi: int)
    requires d != [] && AllDigits(d) && AllNumberWhite(trail)
    ensures var v: int := if negative then -(DigitsValue(d) as int) else DigitsValue(d);
      ParseDigits(d + trail, negative, lo, hi) == if lo <= v <= hi then Some(v) else None
  {
    DigitsThenTrailer(d, trail);
    ParseDigitsOf(d + trail, d, negative, lo, hi);
  }

  lemma ParseAfterSign(u: string, lo: int, hi: int)
    requires u != [] && IsDigit(u[0])
    ensures SkipWhite("-" + u) == "-" + u
    ensures ParseInteger("-" + u, lo, hi) == ParseDigits(u, true, lo, hi)
  {
    var s := "-" + u;
    assert s[0] == '-' && s[1..] == u;
    assert !IsNumberWhite(s[0]);
    assert SkipWhite(s) == s;
  }

  lemma ParseWithoutSign(u: string, lo: int, hi: int)
    requires u != [] && IsDigit(u[0])
    ensures SkipWhite(u) == u
    ensures ParseInteger(u, lo, hi) == ParseDigits(u, false, lo, hi)
  {
    assert !IsNumberWhite(u[0]);
    assert SkipWhite(u) == u;
    assert u[0] != '-' && u[0] != '+';
  }

  /** The digits of m followed by trailing white space parse to m, when it is in range. */
  lemma ParseNatRendering(m: nat, trail: string, lo: int, hi: int)
    requires AllNumberWhite(trail)
    ensures SkipWhite(NatToDecimal(m) + trail) == NatToDecimal(m) + trail
    ensures ParseInteger(NatToDecimal(m) + trail, lo, hi) == if lo <= m <= hi then Some(m) else None
  {
    var digits := NatToDecimal(m);
    DecimalRoundTrip(m);
    ParseDigitsThenWhite(digits, false, trail, lo, hi);
    assert (digits + trail)[0] == digits[0];
    ParseWithoutSign(digits + trail, lo, hi);
  }

  /** "-" and the digits of m, then trailing white space, parse to -m, when it is in range. */
  lemma ParseNegRendering(m: nat, trail: string, lo: int, hi: int)
    requires AllNumberWhite(trail)
    ensures SkipWhite("-" + (NatToDecimal(m) + trail)) == "-" + (NatToDecimal(m) + trail)
    ensures ParseInteger("-" + (NatToDecimal(m) + trail), lo, hi) == if lo <= -(m as int) <= hi then Some(-(m as int)) else None
  {
    var digits := NatToDecimal(m);
    DecimalRoundTrip(m);
    ParseDigitsThenWhite(digits, true, trail, lo, hi);
    assert (digits + trail)[0] == digits[0];
    ParseAfterSign(digits + trail, lo, hi);
  }

  /** The rendering of n followed by trailing white space: leading white space is absent and it parses to n when n is in range. */
  lemma ParseSignedDigits(n: int, trail: string, lo: int, hi: int)
    requires AllNumberWhite(trail)
    ensures SkipWhite(IntToDecimal(n) + trail) == IntToDecimal(n) + trail
    ensures ParseInteger(IntToDecimal(n) + trail, lo, hi) == if lo <= n <= hi then Some(n) else None
  {
    if n < 0 {
      var m: nat := -n;
      assert IntToDecimal(n) == "-" + NatToDecimal(m);
      assert IntToDecimal(n) + trail == "-" + (NatToDecimal(m) + trail);
      ParseNegRendering(m, trail, lo, hi);
    } else {
      ParseNatRendering(n, trail, lo, hi);
    }
  }

  /** Empty or white-space-only text never parses. */
  lemma ParseBlank(s: string, lo: int, hi: int)
    requires AllNumberWhite(s)
    ensures ParseInteger(s, lo, hi) == None
  {
    SkipWhitePrefix(s, "");
    assert s + "" == s;
  }

  /** int.TryParseInvariant: (success, value); a null string raises for "value". */
  function TryParseInt(value: Option<string>): (r: Outcome<(bool, int32)>)
    ensures value.None? <==> r.Throw?
    ensures r.Throw? ==> r.error == ArgumentNull("value", NULL_MESSAGE)
    ensures r.Ok? ==> (r.value.0 <==> ParseInteger(value.value, INT32_MIN, INT32_MAX).Some?)
    ensures r.Ok? && r.value.0 ==> Some(r.value.1 as int) == ParseInteger(value.value, INT32_MIN, INT32_MAX)
    ensures r.Ok? && !r.value.0 ==> r.value.1 == 0
  {
    match ThrowIfNull(value, "value", None)
    case Some(e) => Throw(e)
    case None =>
      match ParseInteger(value.value, INT32_MIN, INT32_MAX)
      case Some(n) => Ok((true, n))
      case None => Ok((false, 0))
  }

  /** long.TryParseInvariant: (success, value); a null string raises for "value". */
  function TryParseLong(value: Option<string>): (r: Outcome<(bool, int64)>)
    ensures value.None? <==> r.Throw?
    ensures r.Throw? ==> r.error == ArgumentNull("value", NULL_MESSAGE)
    ensures r.Ok? ==> (r.value.0 <==> ParseInteger(value.value, INT64_MIN, INT64_MAX).Some?)
    ensures r.Ok? && r.value.0 ==> Some(r.value.1 as int) == ParseInteger(value.value, INT64_MIN, INT64_MAX)
    ensures r.Ok? && !r.value.0 ==> r.value.1 == 0
  {
    match ThrowIfNull(value, "value", None)
    case Some(e) => Throw(e)
    case None =>
      match ParseInteger(value.value, INT64_MIN, INT64_MAX)
      case Some(n) => Ok((true, n))
      case None => Ok((false, 0))
  }

  /** The empty string is not an int, and every 32-bit value round-trips through its rendering. */
  lemma TryParseIntExamples(n: int32)
    ensures TryParseInt(Some("")) == Ok((false, 0))
    ensures TryParseInt(Some(IntToDecimal(n))) == Ok((true, n))
    ensures TryParseInt(Some(" " + IntToDecimal(n) + "\n")) == Ok((true, n))
  {
    ParseBlank("", INT32_MIN, INT32_MAX);
    ParseRendered(n, "", "", INT32_MIN, INT32_MAX);
    assert "" + IntToDecimal(n) + "" == IntToDecimal(n);
    ParseRendered(n, " ", "\n", INT32_MIN, INT32_MAX);
  }

  /** 2^31 fits a long but overflows an int. */
  lemma TryParseOverflow()
    ensures TryParseInt(Some(IntToDecimal(INT32_MAX + 1))) == Ok((false, 0))
    ensures TryParseLong(Some(IntToDecimal(INT32_MAX + 1))) == Ok((true, INT32_MAX + 1))
  {
    ParseRendered(INT32_MAX + 1, "", "", INT32_MIN, INT32_MAX);
    ParseRendered(INT32_MAX + 1, "", "", INT64_MIN, INT64_MAX);
    assert "" + IntToDecimal(INT32_MAX + 1) + "" == IntToDecimal(INT32_MAX + 1);
  }

  // ---------------------------------------------------------------------------------
  // Underscores

  /** UnderscoresToDashes: every '_' becomes '-', nothing else changes; null raises for "text". */
  function UnderscoresToDashes(text: Option<string>): (r: Outcome<string>)
    ensures text.None? <==> r.Throw?
    ensures r.Throw? ==> r.error == ArgumentNull("text", NULL_MESSAGE)
    ensures r.Ok? ==> |r.value| == |text.value| && '_' !in r.value
    ensures r.Ok? ==> forall i :: 0 <= i < |r.value| ==>
      r.value[i] == (if text.value[i] == '_' then '-' else text.value[i])
  {
    match ThrowIfNull(text, "text", None)
    case Some(e) => Throw(e)
    case None =>
      ReplaceCharSpec(text.value, '_', '-');
      Ok(ReplaceChar(text.value, '_', '-'))
  }

  /** UnderscoresToSpaces: every '_' becomes ' ', nothing else changes; null raises for "text". */
  function UnderscoresToSpaces(text: Option<string>): (r: Outcome<string>)
    ensures text.None? <==> r.Throw?
    ensures r.Throw? ==> r.error == ArgumentNull("text", NULL_MESSAGE)
    ensures r.Ok? ==> |r.value| == |text.value| && '_' !in r.value
    ensures r.Ok? ==> forall i :: 0 <= i < |r.value| ==>
      r.value[i] == (if text.value[i] == '_' then ' ' else text.value[i])
  {
    match ThrowIfNull(text, "text", None)
    case Some(e) => Throw(e)
    case None =>
      ReplaceCharSpec(text.value, '_', ' ');
      Ok(ReplaceChar(text.value, '_', ' '))
  }
}
