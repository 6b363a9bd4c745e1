/** The entry heading line `City, ST` or `City, ST (X)`, matched against
    the whole stripped line: a capital and at least one more letter,
    whitespace, period or apostrophe; a comma; whitespace; two capitals;
    optionally whitespace and one capital in parentheses. */
module Heading {
  import opened Wrappers
  import opened Text

  /** What a heading yields: the stripped city, the state code and the
      optional hookup-code letter. */
  datatype Location = Location(city: string, state: string, hookupCode: Option<char>)

  /** The pieces a heading line is made of, in order. */
  datatype Parts = Parts(cityRaw: string, gap: string, state: string, codeGap: string, code: Option<char>)

  predicate IsCityChar(c: char) {
    IsLetter(c) || IsSpace(c) || c == '.' || c == '\''
  }

  predicate AllSpace(s: string) {
    forall k :: 0 <= k < |s| ==> IsSpace(s[k])
  }

  /** A capital followed by one or more city characters. */
  predicate IsCityText(s: string) {
    |s| >= 2 && IsUpper(s[0]) && forall k :: 1 <= k < |s| ==> IsCityChar(s[k])
  }

  /** Two capitals. */
  predicate IsStateCode(s: string) {
    |s| == 2 && IsUpper(s[0]) && IsUpper(s[1])
  }

  /** The shape the heading pattern accepts, piece by piece. */
  predicate WellFormed(p: Parts) {
    && IsCityText(p.cityRaw)
    && |p.gap| >= 1 && AllSpace(p.gap)
    && IsStateCode(p.state)
    && (p.code.None? ==> p.codeGap == [])
    && (p.code.Some? ==> |p.codeGap| >= 1 && AllSpace(p.codeGap) && IsUpper(p.code.value))
  }

  /** The optional ` (X)` tail of a heading. */
  function CodeSuffix(p: Parts): string {
    match p.code
    case None => ""
    case Some(c) => p.codeGap + ['(', c, ')']
  }

  /** The line the pieces spell. */
  function Render(p: Parts): string {
    p.cityRaw + "," + p.gap + p.state + CodeSuffix(p)
  }

  /** The first index j >= i whose character cannot be part of a city name. */
  function SkipCity(t: string, i: nat): (j: nat)
    requires i <= |t|
    ensures i <= j <= |t|
    decreases |t| - i
  {
    if i < |t| && IsCityChar(t[i]) then SkipCity(t, i + 1) else i
  }

  /** Everything SkipCity passes over is a city character, and it stops at
      the end or at one that is not. */
  lemma {:induction false} SkipCityFacts(t: string, i: nat)
    requires i <= |t|
    ensures forall k :: i <= k < SkipCity(t, i) ==> IsCityChar(t[k])
    ensures SkipCity(t, i) == |t| || !IsCityChar(t[SkipCity(t, i)])
    decreases |t| - i
  {
    if i < |t| && IsCityChar(t[i]) {
      SkipCityFacts(t, i + 1);
    }
  }

  /** The part of a heading after the state code: nothing, or ` (X)`. */
  function ParseCode(u: string): Option<(string, Option<char>)> {
    if u == [] then Some(([], None))
    else
      var m := SkipSpace(u, 0);
      if m == 0 || m + 3 != |u| || u[m] != '(' || !IsUpper(u[m + 1]) || u[m + 2] != ')' then None
      else Some((u[..m], Some(u[m + 1])))
  }

  /** A recognised tail is empty, or whitespace followed by one capital in
      parentheses, and it spells the text it came from. */
  lemma {:induction false} ParseCodeSound(u: string)
    ensures var r := ParseCode(u);
      && (r.Some? && r.value.1.None? ==> u == [] && r.value.0 == [])
      && (r.Some? && r.value.1.Some? ==>
            |r.value.0| >= 1 && AllSpace(r.value.0) && IsUpper(r.value.1.value)
            && u == r.value.0 + ['(', r.value.1.value, ')'])
  {
    if u != [] && ParseCode(u).Some? {
      var m := SkipSpace(u, 0);
      assert u == u[..m] + ['(', u[m + 1], ')'];
    }
  }

  /** Splits a stripped line into heading pieces, or None when it is not a
      heading. The city pattern cannot match a comma, so the city always ends
      at the first character that is not a city character. */
  function ParseParts(t: string): Option<Parts> {
    if |t| == 0 || !IsUpper(t[0]) then None
    else
      var k := SkipCity(t, 1);
      if k < 2 || k == |t| || t[k] != ',' then None
      else
        var j := SkipSpace(t, k + 1);
        if j == k + 1 || j + 2 > |t| || !IsUpper(t[j]) || !IsUpper(t[j + 1]) then None
        else
          match ParseCode(t[j + 2..])
          case None => None
          case Some((codeGap, code)) =>
            Some(Parts(t[..k], t[k + 1..j], t[j..j + 2], codeGap, code))
  }

  /** Whatever is recognised as a heading has the heading's shape and spells
      the line it came from. */
  lemma {:induction false} ParsePartsSound(t: string)
    ensures ParseParts(t).Some? ==> WellFormed(ParseParts(t).value) && Render(ParseParts(t).value) == t
  {
    if ParseParts(t).Some? {
      var k := SkipCity(t, 1);
      SkipCityFacts(t, 1);
      var j := SkipSpace(t, k + 1);
      var c := ParseCode(t[j + 2..]).value;
      PiecesSound(t, k, j, c.0, c.1);
    }
  }

  /** The pieces cut out of a line at the city end k and the state start j. */
  lemma {:induction false} PiecesSound(t: string, k: nat, j: nat, codeGap: string, code: Option<char>)
    requires 2 <= k < |t| && IsUpper(t[0]) && t[k] == ','
    requires forall i :: 1 <= i < k ==> IsCityChar(t[i])
    requires k + 1 < j && j + 2 <= |t| && IsUpper(t[j]) && IsUpper(t[j + 1])
    requires forall i :: k + 1 <= i < j ==> IsSpace(t[i])
    requires ParseCode(t[j + 2..]) == Some((codeGap, code))
    ensures WellFormed(Parts(t[..k], t[k + 1..j], t[j..j + 2], codeGap, code))
    ensures Render(Parts(t[..k], t[k + 1..j], t[j..j + 2], codeGap, code)) == t
  {
    ParseCodeSound(t[j + 2..]);
    var p := Parts(t[..k], t[k + 1..j], t[j..j + 2], codeGap, code);
    CityPrefix(t, k);
    assert AllSpace(p.gap);
    assert IsStateCode(p.state);
    assert CodeSuffix(p) == t[j + 2..];
    SplitFour(t, k, j);
  }

  lemma {:induction false} CityPrefix(t: string, k: nat)
    requires 2 <= k <= |t| && IsUpper(t[0])
    requires forall i :: 1 <= i < k ==> IsCityChar(t[i])
    ensures IsCityText(t[..k])
  {
  }

  lemma {:induction false} SplitFour(t: string, k: nat, j: nat)
    requires k < |t| && t[k] == ',' && k + 1 <= j && j + 2 <= |t|
    ensures t == t[..k] + "," + t[k + 1..j] + t[j..j + 2] + t[j + 2..]
  {
  }

  lemma {:induction false} SkipCityAt(s: string, i: nat, j: nat)
    requires i <= j <= |s|
    requires forall k :: i <= k < j ==> IsCityChar(s[k])
    requires j == |s| || !IsCityChar(s[j])
    ensures SkipCity(s, i) == j
  {
    SkipCityFacts(s, i);
  }

  lemma {:induction false} ParseCodeComplete(p: Parts)
    requires WellFormed(p)
    ensures ParseCode(CodeSuffix(p)) == Some((p.codeGap, p.code))
  {
    var u := CodeSuffix(p);
    match p.code {
      case None =>
      case Some(c) =>
        var m := |p.codeGap|;
        assert u[..m] == p.codeGap;
        assert u[m] == '(';
        SkipSpaceAt(u, 0, m);
    }
  }

  /** Every well-formed heading is recognised, and its pieces recovered. */
  lemma {:induction false} ParsePartsComplete(p: Parts)
    requires WellFormed(p)
    ensures ParseParts(Render(p)) == Some(p)
  {
    var t := Render(p);
    var k := |p.cityRaw|;
    var j := k + 1 + |p.gap|;
    RenderLayout(p);
    ParseCodeComplete(p);
    ParsePartsAt(t, k, j, p);
  }

  /** Where the pieces of a well-formed heading lie in the line it spells. */
  lemma {:induction false} RenderLayout(p: Parts)
    requires WellFormed(p)
    ensures var t := Render(p); var k := |p.cityRaw|; var j := k + 1 + |p.gap|;
      && 2 <= k < |t| && IsUpper(t[0]) && t[k] == ','
      && SkipCity(t, 1) == k
      && k + 1 < j && j + 2 <= |t| && SkipSpace(t, k + 1) == j
      && IsUpper(t[j]) && IsUpper(t[j + 1])
      && t[..k] == p.cityRaw && t[k + 1..j] == p.gap && t[j..j + 2] == p.state
      && t[j + 2..] == CodeSuffix(p)
  {
    var t := Render(p);
    var k := |p.cityRaw|;
    var j := k + 1 + |p.gap|;
    var head := p.cityRaw + "," + p.gap + p.state;
    assert t == head + CodeSuffix(p);
    assert |head| == j + 2;
    assert t[..k] == p.cityRaw;
    assert t[k] == ',';
    assert forall i :: 1 <= i < k ==> t[i] == p.cityRaw[i];
    SkipCityAt(t, 1, k);
    assert t[k + 1..j] == p.gap;
    assert t[j..j + 2] == p.state;
    SkipSpaceAt(t, k + 1, j);
    assert t[j + 2..] == CodeSuffix(p);
  }

  /** The pieces a line parses to, from where its city ends (k) and its
      state starts (j). */
  lemma {:induction false} ParsePartsAt(t: string, k: nat, j: nat, p: Parts)
    requires 2 <= k < |t| && IsUpper(t[0]) && t[k] == ','
    requires SkipCity(t, 1) == k
    requires k + 1 < j && j + 2 <= |t| && SkipSpace(t, k + 1) == j
    requires IsUpper(t[j]) && IsUpper(t[j + 1])
    requires t[..k] == p.cityRaw && t[k + 1..j] == p.gap && t[j..j + 2] == p.state
    requires ParseCode(t[j + 2..]) == Some((p.codeGap, p.code))
    ensures ParseParts(t) == Some(p)
  {
    ParsePartsCut(t, k, j, p.codeGap, p.code);
  }

  lemma {:induction false} ParsePartsCut(t: string, k: nat, j: nat, codeGap: string, code: Option<char>)
    requires 2 <= k < |t| && IsUpper(t[0]) && t[k] == ','
    requires SkipCity(t, 1) == k
    requires k + 1 < j && j + 2 <= |t| && SkipSpace(t, k + 1) == j
    requires IsUpper(t[j]) && IsUpper(t[j + 1])
    requires ParseCode(t[j + 2..]) == Some((codeGap, code))
    ensures ParseParts(t) == Some(Parts(t[..k], t[k + 1..j], t[j..j + 2], codeGap, code))
  {
  }

  /** `re.match(heading, line.strip())`, turned into city, state and code. */
  function ParseHeading(line: string): Option<Location> {
    match ParseParts(Trim(line))
    case None => None
    case Some(p) => Some(Location(Trim(p.cityRaw), p.state, p.code))
  }

  /** A parsed heading has a two-letter upper-case state, a stripped city
      that starts with a capital, and an upper-case hookup code if any. */
  lemma {:induction false} ParseHeadingShape(line: string)
    ensures var r := ParseHeading(line);
      && (r.Some? ==> IsStateCode(r.value.state))
      && (r.Some? ==> IsTrimmed(r.value.city) && r.value.city != [] && IsUpper(r.value.city[0]))
      && (r.Some? && r.value.hookupCode.Some? ==> IsUpper(r.value.hookupCode.value))
  {
    ParsePartsSound(Trim(line));
    if ParseHeading(line).Some? {
      var p := ParseParts(Trim(line)).value;
      assert SkipSpace(p.cityRaw, 0) == 0;
      assert TrimStart(p.cityRaw) == p.cityRaw;
      TrimEndFacts(p.cityRaw);
      assert TrimEnd(p.cityRaw) != [];
      assert TrimEnd(p.cityRaw)[0] == p.cityRaw[0];
    }
  }

  /** The line, stripped, matches the heading pattern. */
  predicate IsHeadingLine(line: string) {
    ParseParts(Trim(line)).Some?
  }

  /** A heading line, with any surrounding whitespace, parses to its own
      stripped city, its state and its code. */
  lemma {:induction false} HeadingRoundTrip(p: Parts, before: string, after: string)
    requires WellFormed(p)
    requires forall k :: 0 <= k < |before| ==> IsSpace(before[k])
    requires forall k :: 0 <= k < |after| ==> IsSpace(after[k])
    ensures ParseHeading(before + Render(p) + after) == Some(Location(Trim(p.cityRaw), p.state, p.code))
  {
    var t := Render(p);
    assert !IsSpace(t[0]) && !IsSpace(t[|t| - 1]);
    TrimPadding(before, t, after);
    ParsePartsComplete(p);
  }

  /** Stripping a line removes exactly the whitespace around its text. */
  lemma {:induction false} TrimPadding(before: string, t: string, after: string)
    requires t != [] && !IsSpace(t[0]) && !IsSpace(t[|t| - 1])
    requires forall k :: 0 <= k < |before| ==> IsSpace(before[k])
    requires forall k :: 0 <= k < |after| ==> IsSpace(after[k])
    ensures Trim(before + t + after) == t
  {
    var line := before + (t + after);
    assert line == before + t + after;
    assert line[|before|] == t[0];
    assert forall k :: 0 <= k < |before| ==> line[k] == before[k];
    SkipSpaceAt(line, 0, |before|);
    DropPrefix(before, t + after);
    TrimEndPadding(t, after);
  }

  lemma {:induction false} DropPrefix(a: string, b: string)
    ensures (a + b)[|a|..] == b
  {
  }

  lemma {:induction false} TrimEndPadding(t: string, after: string)
    requires t != [] && !IsSpace(t[|t| - 1])
    requires forall k :: 0 <= k < |after| ==> IsSpace(after[k])
    ensures TrimEnd(t + after) == t
    decreases |after|
  {
    if after != [] {
      var a' := after[..|after| - 1];
      assert (t + after)[..|t + after| - 1] == t + a';
      TrimEndPadding(t, a');
    } else {
      assert t + after == t;
    }
  }
}
