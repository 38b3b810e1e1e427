/**
 * The last-resort stage of the pipeline, `extractServersPermissive`: every
 * `"a.b.c.d:port": {` in the text is taken as the start of a server entry;
 * the balanced object after it is parsed as a syntax check, and the
 * record kept for the key is assembled from eight field probes. Keys are
 * searched for again just after each `{`, so entries nested inside other
 * entries are found too, and a later entry for a key replaces an earlier one.
 */
module PermissiveExtraction {
  import opened Wrappers
  import opened Json
  import opened Text
  import opened BraceScanner

  // ---------------------------------------------------------------------
  // The key pattern `"([0-9]+\.[0-9]+\.[0-9]+\.[0-9]+:[0-9]+)":\s*\{`
  // ---------------------------------------------------------------------

  /** The separators after the five digit groups of a key: three dots, a colon, and the key's closing quote. */
  const KeySeps: string := "...:\""

  /**
   * `g[0] seps[0] g[1] seps[1] ...`: each group followed by its separator.
   * For a key `a.b.c.d:port`, `Spell([a, b, c, d, port], KeySeps)` is the
   * key followed by its closing quote.
   */
  function Spell(g: seq<string>, seps: string): string
    requires |g| == |seps|
  {
    if |g| == 0 then [] else g[0] + [seps[0]] + Spell(g[1..], seps[1..])
  }

  /** Five non-empty runs of decimal digits: the groups of `a.b.c.d:port`. */
  predicate IpPortGroups(g: seq<string>) {
    |g| == 5 && forall k :: 0 <= k < 5 ==> |g[k]| > 0 && AllDigits(g[k])
  }

  /**
   * The text the pattern matches at `p`: a quote, the groups `g` spelled
   * with their separators (the key and its closing quote), `:`, white
   * space, and the `{` at `braceAt` that ends the match.
   */
  predicate SignatureText(text: string, p: nat, g: seq<string>, braceAt: nat)
    requires |g| == |KeySeps|
  {
    PatternText(text, p, g, KeySeps, braceAt)
  }

  /** `SignatureText` for any separators `seps`. */
  predicate PatternText(text: string, p: nat, g: seq<string>, seps: string, braceAt: nat)
    requires |g| == |seps|
  {
    var sp := Spell(g, seps);
    && p + |sp| + 2 <= braceAt < |text|
    && text[p] == '"' && text[p + 1..p + 1 + |sp|] == sp && text[p + 1 + |sp|] == ':'
    && (forall j :: p + 2 + |sp| <= j < braceAt ==> IsWhitespace(text[j]))
    && text[braceAt] == '{'
  }

  /** A match of the key pattern: the captured key, its digit groups, the `{` that ends it. */
  datatype KeyMatch = KeyMatch(key: string, groups: seq<string>, braceAt: nat)

  /** `[0-9]+` followed by each separator of `seps` in turn, from `i`: the digit groups. */
  function DigitGroups(s: string, i: nat, seps: string): (r: Option<seq<string>>)
    requires i <= |s|
    decreases |seps|
    ensures r.Some? ==> |r.value| == |seps|
  {
    if |seps| == 0 then Some([])
    else
      var e := RunEnd(s, i, IsDigit);
      if i < e < |s| && s[e] == seps[0] then
        match DigitGroups(s, e + 1, seps[1..])
        case None => None
        case Some(rest) => Some([s[i..e]] + rest)
      else None
  }

  /** The pattern tried at `p` alone (its `+` and `*` never need to give characters back). */
  function KeySignatureAt(text: string, p: nat): (r: Option<KeyMatch>)
    ensures r.Some? ==> p + 1 < |text| && text[p] == '"'
    ensures r.Some? ==> p < r.value.braceAt < |text| && text[r.value.braceAt] == '{'
  {
    PatternAt(text, p, KeySeps)
  }

  /**
   * A quote, digit groups each followed by its separator in `seps`, `:`,
   * white space and `{`, tried at `p`; with `KeySeps` it is the key pattern.
   */
  function PatternAt(text: string, p: nat, seps: string): (r: Option<KeyMatch>)
  {
    if p < |text| && text[p] == '"' then
      match DigitGroups(text, p + 1, seps)
      case None => None
      case Some(g) =>
        var e := p + 1 + |Spell(g, seps)|;
        if p + 2 <= e < |text| && text[e] == ':' then
          var w := RunEnd(text, e + 1, IsWhitespace);
          if w < |text| && text[w] == '{' then Some(KeyMatch(text[p + 1..e - 1], g, w)) else None
        else None
    else None
  }

  /** The groups found are non-empty runs of digits. */
  lemma {:induction false} DigitGroupsDigits(s: string, i: nat, seps: string)
    requires i <= |s| && DigitGroups(s, i, seps).Some?
    decreases |seps|
    ensures var g := DigitGroups(s, i, seps).value;
      forall k :: 0 <= k < |g| ==> |g[k]| > 0 && AllDigits(g[k])
  {
    if |seps| > 0 {
      var e := RunEnd(s, i, IsDigit);
      var g := DigitGroups(s, i, seps).value;
      DigitGroupsDigits(s, e + 1, seps[1..]);
      var rest := DigitGroups(s, e + 1, seps[1..]).value;
      assert g == [s[i..e]] + rest;
      RunEndClass(s, i, IsDigit);
      assert AllDigits(s[i..e]) by {
        forall k | 0 <= k < e - i ensures IsDigit(s[i..e][k]) {
          assert s[i..e][k] == s[i + k];
        }
      }
      forall k | 0 <= k < |g| ensures |g[k]| > 0 && AllDigits(g[k]) {
        if k > 0 {
          assert g[k] == rest[k - 1];
        }
      }
    }
  }

  /** The text spells the groups found with their separators. */
  lemma {:induction false} DigitGroupsSpelt(s: string, i: nat, seps: string)
    requires i <= |s| && DigitGroups(s, i, seps).Some?
    decreases |seps|
    ensures var sp := Spell(DigitGroups(s, i, seps).value, seps);
      i + |sp| <= |s| && s[i..i + |sp|] == sp
  {
    if |seps| > 0 {
      var e := RunEnd(s, i, IsDigit);
      DigitGroupsSpelt(s, e + 1, seps[1..]);
      var g := DigitGroups(s, i, seps).value;
      var rest := DigitGroups(s, e + 1, seps[1..]).value;
      assert g == [s[i..e]] + rest;
      var tail := Spell(rest, seps[1..]);
      assert Spell(g, seps) == s[i..e] + [seps[0]] + tail by {
        assert g[1..] == rest;
      }
      assert s[i..e + 1 + |tail|] == s[i..e] + [s[e]] + s[e + 1..e + 1 + |tail|];
    }
  }

  /** Where the text holds `a`, `c` and `b` from `i`, each is at its place. */
  lemma SliceParts(s: string, i: nat, a: string, c: char, b: string)
    requires i + |a| + 1 + |b| <= |s| && s[i..i + |a| + 1 + |b|] == a + [c] + b
    ensures s[i..i + |a|] == a && s[i + |a|] == c && s[i + |a| + 1..i + |a| + 1 + |b|] == b
  {
    var t := s[i..i + |a| + 1 + |b|];
    assert s[i..i + |a|] == t[..|a|];
    assert s[i + |a|] == t[|a|];
    assert s[i + |a| + 1..i + |a| + 1 + |b|] == t[|a| + 1..];
  }

  /** A run of digits held by the text from `i` and followed by a non-digit is the greedy `[0-9]+` there. */
  lemma DigitRunAt(s: string, i: nat, x: string)
    requires AllDigits(x) && i + |x| < |s| && s[i..i + |x|] == x && !IsDigit(s[i + |x|])
    ensures RunEnd(s, i, IsDigit) == i + |x|
  {
    forall j | i <= j < i + |x| ensures IsDigit(s[j]) {
      assert s[j] == x[j - i];
    }
    RunEndIs(s, i, i + |x|, IsDigit);
  }

  /** Each group is a non-empty run of digits and each separator a non-digit. */
  predicate Delimited(g: seq<string>, seps: string)
    decreases |seps|
  {
    |g| == |seps| && (|g| == 0 || (|g[0]| > 0 && AllDigits(g[0]) && !IsDigit(seps[0]) && Delimited(g[1..], seps[1..])))
  }

  /** A digit run ended by the first separator, followed by the groups of the rest, gives the groups. */
  lemma DigitGroupsStep(s: string, i: nat, seps: string, x: string, rest: seq<string>)
    requires |seps| > 0 && 0 < |x| && i + |x| < |s| && s[i..i + |x|] == x && s[i + |x|] == seps[0]
    requires RunEnd(s, i, IsDigit) == i + |x|
    requires DigitGroups(s, i + |x| + 1, seps[1..]) == Some(rest)
    ensures DigitGroups(s, i, seps) == Some([x] + rest)
  {
  }

  /** Wherever the text spells delimited digit groups, they are found. */
  lemma {:induction false} DigitGroupsComplete(s: string, i: nat, seps: string, g: seq<string>)
    requires Delimited(g, seps)
    requires i + |Spell(g, seps)| <= |s| && s[i..i + |Spell(g, seps)|] == Spell(g, seps)
    decreases |seps|
    ensures DigitGroups(s, i, seps) == Some(g)
  {
    if |seps| > 0 {
      var rest := Spell(g[1..], seps[1..]);
      assert Spell(g, seps) == g[0] + [seps[0]] + rest;
      SliceParts(s, i, g[0], seps[0], rest);
      DigitRunAt(s, i, g[0]);
      DigitGroupsComplete(s, i + |g[0]| + 1, seps[1..], g[1..]);
      DigitGroupsStep(s, i, seps, g[0], g[1..]);
      assert [g[0]] + g[1..] == g;
    }
  }

  /** Five non-empty digit groups with the key's separators are delimited. */
  lemma IpPortDelimited(g: seq<string>)
    requires IpPortGroups(g)
    ensures Delimited(g, KeySeps)
  {
    var sp := KeySeps;
    assert Delimited(g[5..], sp[5..]);
    assert Delimited(g[4..], sp[4..]);
    assert Delimited(g[3..], sp[3..]);
    assert Delimited(g[2..], sp[2..]);
    assert Delimited(g[1..], sp[1..]);
  }

  /** A spelling ends with the last separator. */
  lemma {:induction false} SpellLast(g: seq<string>, seps: string)
    requires |g| == |seps| > 0
    ensures |Spell(g, seps)| > 0 && Spell(g, seps)[|Spell(g, seps)| - 1] == seps[|seps| - 1]
  {
    if |g| > 1 {
      SpellLast(g[1..], seps[1..]);
    }
  }

  /** Every character of a spelling but the last is a group character or one of the inner separators. */
  lemma {:induction false} SpellChars(g: seq<string>, seps: string, P: char -> bool)
    requires |g| == |seps| > 0
    requires forall k, i :: 0 <= k < |g| && 0 <= i < |g[k]| ==> P(g[k][i])
    requires forall k :: 0 <= k < |seps| - 1 ==> P(seps[k])
    ensures forall i :: 0 <= i < |Spell(g, seps)| - 1 ==> P(Spell(g, seps)[i])
  {
    var sp := Spell(g, seps);
    var rest := Spell(g[1..], seps[1..]);
    assert sp == g[0] + [seps[0]] + rest;
    if |g| > 1 {
      SpellChars(g[1..], seps[1..], P);
      forall i | 0 <= i < |sp| - 1 ensures P(sp[i]) {
        if i < |g[0]| {
          assert sp[i] == g[0][i];
        } else if i > |g[0]| {
          assert sp[i] == rest[i - |g[0]| - 1];
          assert g[1..][0] == g[1];
        }
      }
    } else {
      forall i | 0 <= i < |sp| - 1 ensures P(sp[i]) {
        assert sp[i] == g[0][i];
      }
    }
  }

  /** What a match of `PatternAt` consists of, part by part. */
  lemma PatternParts(text: string, p: nat, seps: string)
    requires PatternAt(text, p, seps).Some?
    ensures var m := PatternAt(text, p, seps).value;
      && p < |text| && text[p] == '"' && DigitGroups(text, p + 1, seps) == Some(m.groups)
      && var e := p + 1 + |Spell(m.groups, seps)|;
      && p + 2 <= e < |text| && text[e] == ':'
      && RunEnd(text, e + 1, IsWhitespace) == m.braceAt && m.braceAt < |text| && text[m.braceAt] == '{'
      && m.key == text[p + 1..e - 1]
  {
  }

  /** A match of `PatternAt` is delimited digit groups spelled in the text, with the key before the last separator. */
  lemma PatternSound(text: string, p: nat, seps: string)
    requires PatternAt(text, p, seps).Some? && |seps| > 0
    ensures var m := PatternAt(text, p, seps).value;
      && |m.groups| == |seps| && (forall k :: 0 <= k < |m.groups| ==> |m.groups[k]| > 0 && AllDigits(m.groups[k]))
      && PatternText(text, p, m.groups, seps, m.braceAt)
      && m.key + [seps[|seps| - 1]] == Spell(m.groups, seps)
  {
    var m := PatternAt(text, p, seps).value;
    var g := m.groups;
    PatternParts(text, p, seps);
    DigitGroupsDigits(text, p + 1, seps);
    DigitGroupsSpelt(text, p + 1, seps);
    SpellLast(g, seps);
    var sp := Spell(g, seps);
    assert text[p + 1..p + 1 + |sp|] == m.key + [text[p + |sp|]];
    assert text[p + |sp|] == sp[|sp| - 1];
    RunEndClass(text, p + |sp| + 2, IsWhitespace);
  }

  /**
   * A match is a quote, an `a.b.c.d:port` key with its closing quote, `:`,
   * white space and `{`; the captured key is the spelling without its
   * closing quote.
   */
  lemma KeySignatureSound(text: string, p: nat)
    requires KeySignatureAt(text, p).Some?
    ensures var m := KeySignatureAt(text, p).value;
      && IpPortGroups(m.groups) && SignatureText(text, p, m.groups, m.braceAt)
      && m.key + "\"" == Spell(m.groups, KeySeps)
  {
    PatternSound(text, p, KeySeps);
  }

  /** The pattern matches at `p` once each of its parts is found where the previous one ends. */
  lemma PatternFrom(text: string, p: nat, seps: string, g: seq<string>, e: nat, w: nat)
    requires p < |text| && text[p] == '"' && DigitGroups(text, p + 1, seps) == Some(g)
    requires e == p + 1 + |Spell(g, seps)| && p + 2 <= e < |text| && text[e] == ':'
    requires RunEnd(text, e + 1, IsWhitespace) == w && w < |text| && text[w] == '{'
    ensures PatternAt(text, p, seps) == Some(KeyMatch(text[p + 1..e - 1], g, w))
  {
    match DigitGroups(text, p + 1, seps)
    case Some(g') =>
      assert g' == g;
  }

  /** Every quote, spelled `a.b.c.d:port` key, closing quote, `:`, white space and `{` is a match. */
  lemma KeySignatureComplete(text: string, p: nat, g: seq<string>, braceAt: nat)
    requires IpPortGroups(g) && SignatureText(text, p, g, braceAt)
    ensures KeySignatureAt(text, p) == Some(KeyMatch(text[p + 1..p + |Spell(g, KeySeps)|], g, braceAt))
  {
    var e := p + 1 + |Spell(g, KeySeps)|;
    SpellLast(g, KeySeps);
    IpPortDelimited(g);
    DigitGroupsComplete(text, p + 1, KeySeps, g);
    RunEndIs(text, e + 1, braceAt, IsWhitespace);
    PatternFrom(text, p, KeySeps, g, e, braceAt);
  }

  /** Neither a quote nor a brace. */
  predicate Plain(c: char) {
    c != '"' && c != '{'
  }

  /**
   * Between the quote that starts a match and its `{`, only the closing
   * quote of the key is a quote, and it is followed by `:`; no `{` comes
   * before the one that ends the match.
   */
  lemma SignatureInterior(text: string, p: nat, j: nat)
    requires KeySignatureAt(text, p).Some?
    requires p < j < KeySignatureAt(text, p).value.braceAt
    ensures text[j] != '{'
    ensures text[j] == '"' ==> j + 1 < |text| && text[j + 1] == ':'
  {
    var m := KeySignatureAt(text, p).value;
    KeySignatureSound(text, p);
    SignatureTextInterior(text, p, m.groups, m.braceAt, j);
  }

  lemma SignatureTextInterior(text: string, p: nat, g: seq<string>, braceAt: nat, j: nat)
    requires IpPortGroups(g) && SignatureText(text, p, g, braceAt) && p < j < braceAt
    ensures text[j] != '{'
    ensures text[j] == '"' ==> j + 1 < |text| && text[j + 1] == ':'
  {
    var sp := Spell(g, KeySeps);
    if j < p + |sp| {
      forall k, i | 0 <= k < |g| && 0 <= i < |g[k]| ensures Plain(g[k][i]) {
        assert IsDigit(g[k][i]);
      }
      SpellChars(g, KeySeps, Plain);
      assert text[j] == sp[j - p - 1];
    } else if j == p + |sp| {
      SpellLast(g, KeySeps);
      assert text[j] == sp[|sp| - 1];
    } else if j > p + |sp| + 1 {
      assert IsWhitespace(text[j]);
    }
  }

  /**
   * Matches never overlap: no match starts after the quote of another and
   * at or before its `{`. So the search that resumes just after each `{`
   * visits every match in the text.
   */
  lemma SignaturesApart(text: string, p: nat, q: nat)
    requires KeySignatureAt(text, p).Some?
    requires p < q <= KeySignatureAt(text, p).value.braceAt
    ensures KeySignatureAt(text, q).None?
  {
    if q < KeySignatureAt(text, p).value.braceAt {
      SignatureInterior(text, p, q);
    }
  }

  /**
   * `text.indexOf("{", startPos)` finds the `{` the pattern ended with, so
   * the `braceStart === -1` branch never runs.
   */
  lemma BraceFound(text: string, p: nat)
    requires KeySignatureAt(text, p).Some?
    ensures IndexOf(text, '{', p) == Some(KeySignatureAt(text, p).value.braceAt)
  {
    var b := KeySignatureAt(text, p).value.braceAt;
    forall j | p <= j < b ensures text[j] != '{' {
      if p < j {
        SignatureInterior(text, p, j);
      }
    }
    IndexOfIs(text, '{', p, b);
  }

  // ---------------------------------------------------------------------
  // The field probes `"name":\s*"([^"]*)"`, `"name":\s*(\d+)`,
  // `"name":\s*(true|false)`
  // ---------------------------------------------------------------------

  /** `"name":\s*` at `i`: the index just past the white space. */
  function LabelAt(s: string, name: string, i: nat): (r: Option<nat>)
    ensures r.Some? ==> i + |name| + 3 <= r.value <= |s|
  {
    var n := i + |name| + 3;
    if n <= |s| && s[i..n] == "\"" + name + "\":" then Some(RunEnd(s, n, IsWhitespace)) else None
  }

  /** `[^"]` */
  predicate NotQuote(c: char) {
    c != '"'
  }

  predicate NoQuotes(v: string) {
    forall k :: 0 <= k < |v| ==> NotQuote(v[k])
  }

  /** `s` holds `"name":`, `gap` white-space characters and then `value`, at `i`. */
  predicate Labelled(s: string, i: nat, name: string, gap: nat, value: string) {
    var j := i + |name| + 3 + gap;
    && j + |value| <= |s|
    && s[i..i + |name| + 3] == "\"" + name + "\":"
    && (forall k :: i + |name| + 3 <= k < j ==> IsWhitespace(s[k]))
    && s[j..j + |value|] == value
  }

  /** No digit at `k`: a run of digits ending there is maximal. */
  predicate DigitsEnd(s: string, k: nat) {
    k >= |s| || !IsDigit(s[k])
  }

  /** `s` holds `"name":`, white space and the maximal run of digits `ds`, at `i`. */
  predicate NumberText(s: string, i: nat, name: string, gap: nat, ds: string) {
    Labelled(s, i, name, gap, ds) && |ds| > 0 && AllDigits(ds) && DigitsEnd(s, i + |name| + 3 + gap + |ds|)
  }

  /** `"name":\s*"([^"]*)"` tried at `i`: the captured text. */
  function StringAt(s: string, name: string, i: nat): Option<string> {
    match LabelAt(s, name, i)
    case None => None
    case Some(j) =>
      if j < |s| && s[j] == '"' then
        var e := RunEnd(s, j + 1, NotQuote);
        if e < |s| then Some(s[j + 1..e]) else None
      else None
  }

  /** `"name":\s*(\d+)` tried at `i`: parseInt of the captured digits. */
  function IntAt(s: string, name: string, i: nat): Option<nat> {
    match LabelAt(s, name, i)
    case None => None
    case Some(j) =>
      var e := RunEnd(s, j, IsDigit);
      if j < e then
        assert AllDigits(s[j..e]) by {
          RunEndClass(s, j, IsDigit);
          forall k | 0 <= k < e - j ensures IsDigit(s[j..e][k]) {
            assert s[j..e][k] == s[j + k];
          }
        }
        Some(DecimalValue(s[j..e]))
      else None
  }

  /** The word `(true|false)` captures for a flag. */
  function Word(b: bool): string {
    if b then "true" else "false"
  }

  /** `"name":\s*(true|false)` tried at `i`: whether the capture is `true`. */
  function BoolAt(s: string, name: string, i: nat): Option<bool> {
    match LabelAt(s, name, i)
    case None => None
    case Some(j) =>
      if j + 4 <= |s| && s[j..j + 4] == "true" then Some(true)
      else if j + 5 <= |s| && s[j..j + 5] == "false" then Some(false)
      else None
  }

  /** The label of a probe is found exactly where the text spells it followed by white space. */
  lemma LabelAtIs(s: string, name: string, i: nat, gap: nat, value: string)
    requires Labelled(s, i, name, gap, value) && |value| > 0 && !IsWhitespace(value[0])
    ensures LabelAt(s, name, i) == Some(i + |name| + 3 + gap)
  {
    var j := i + |name| + 3 + gap;
    assert s[j] == s[j..j + |value|][0];
    RunEndIs(s, i + |name| + 3, j, IsWhitespace);
  }

  /** The label found at `i` is labelled text with the white space it skipped. */
  lemma LabelAtSound(s: string, name: string, i: nat)
    requires LabelAt(s, name, i).Some?
    ensures Labelled(s, i, name, LabelAt(s, name, i).value - i - |name| - 3, [])
  {
    RunEndClass(s, i + |name| + 3, IsWhitespace);
  }

  /**
   * The string probe captures `v` at `i` exactly when the text holds
   * `"name":`, white space and `v` between quotes, with no quote inside `v`.
   */
  lemma StringAtMeans(s: string, name: string, i: nat, v: string)
    ensures StringAt(s, name, i) == Some(v) ==> NoQuotes(v) && exists gap: nat :: Labelled(s, i, name, gap, "\"" + v + "\"")
    ensures forall gap: nat :: NoQuotes(v) && Labelled(s, i, name, gap, "\"" + v + "\"") ==> StringAt(s, name, i) == Some(v)
  {
    if StringAt(s, name, i) == Some(v) {
      StringAtSound(s, name, i);
    }
    forall gap: nat | NoQuotes(v) && Labelled(s, i, name, gap, "\"" + v + "\"")
      ensures StringAt(s, name, i) == Some(v)
    {
      StringAtComplete(s, name, i, gap, v);
    }
  }

  lemma StringAtSound(s: string, name: string, i: nat)
    requires StringAt(s, name, i).Some?
    ensures var v := StringAt(s, name, i).value;
      NoQuotes(v) && Labelled(s, i, name, LabelAt(s, name, i).value - i - |name| - 3, "\"" + v + "\"")
  {
    var v := StringAt(s, name, i).value;
    var j := LabelAt(s, name, i).value;
    var e := RunEnd(s, j + 1, NotQuote);
    LabelAtSound(s, name, i);
    RunEndClass(s, j + 1, NotQuote);
    assert v == s[j + 1..e];
    forall k | 0 <= k < |v| ensures NotQuote(v[k]) {
      assert v[k] == s[j + 1 + k];
    }
    assert s[j..j + |v| + 2] == [s[j]] + s[j + 1..e] + [s[e]];
  }

  lemma StringAtComplete(s: string, name: string, i: nat, gap: nat, v: string)
    requires NoQuotes(v) && Labelled(s, i, name, gap, "\"" + v + "\"")
    ensures StringAt(s, name, i) == Some(v)
  {
    var j := i + |name| + 3 + gap;
    var w := "\"" + v + "\"";
    LabelAtIs(s, name, i, gap, w);
    assert s[j..j + |v| + 2] == w;
    assert s[j] == w[0] == '"';
    assert s[j + 1 + |v|] == w[|v| + 1] == '"';
    forall k | 0 <= k < |v| ensures s[j + 1 + k] == v[k] {
      assert s[j + 1 + k] == w[k + 1];
    }
    assert s[j + 1..j + 1 + |v|] == v;
    forall k | j + 1 <= k < j + 1 + |v| ensures NotQuote(s[k]) {
      assert s[k] == v[k - j - 1];
    }
    RunEndIs(s, j + 1, j + 1 + |v|, NotQuote);
  }

  /**
   * The number probe yields `n` at `i` exactly when the text holds
   * `"name":`, white space and a maximal run of digits whose value is `n`.
   */
  lemma IntAtMeans(s: string, name: string, i: nat, n: nat)
    ensures IntAt(s, name, i) == Some(n) ==> exists gap: nat, ds: string :: NumberText(s, i, name, gap, ds) && n == DecimalValue(ds)
    ensures forall gap: nat, ds: string :: NumberText(s, i, name, gap, ds) && n == DecimalValue(ds) ==> IntAt(s, name, i) == Some(n)
  {
    if IntAt(s, name, i) == Some(n) {
      var j := LabelAt(s, name, i).value;
      var e := RunEnd(s, j, IsDigit);
      LabelAtSound(s, name, i);
      RunEndClass(s, j, IsDigit);
      assert AllDigits(s[j..e]) by {
        forall k | 0 <= k < e - j ensures IsDigit(s[j..e][k]) {
          assert s[j..e][k] == s[j + k];
        }
      }
      assert NumberText(s, i, name, j - i - |name| - 3, s[j..e]);
    }
    forall gap: nat, ds: string | NumberText(s, i, name, gap, ds) && n == DecimalValue(ds)
      ensures IntAt(s, name, i) == Some(n)
    {
      var j := i + |name| + 3 + gap;
      assert IsDigit(ds[0]);
      LabelAtIs(s, name, i, gap, ds);
      forall k | j <= k < j + |ds| ensures IsDigit(s[k]) {
        assert s[k] == s[j..j + |ds|][k - j];
      }
      RunEndIs(s, j, j + |ds|, IsDigit);
    }
  }

  /**
   * The flag probe yields `b` at `i` exactly when the text holds `"name":`,
   * white space and the word `true` or `false` that `b` names.
   */
  lemma BoolAtMeans(s: string, name: string, i: nat, b: bool)
    ensures BoolAt(s, name, i) == Some(b) ==> exists gap: nat :: Labelled(s, i, name, gap, Word(b))
    ensures forall gap: nat :: Labelled(s, i, name, gap, Word(b)) ==> BoolAt(s, name, i) == Some(b)
  {
    if BoolAt(s, name, i) == Some(b) {
      var j := LabelAt(s, name, i).value;
      LabelAtSound(s, name, i);
      assert Labelled(s, i, name, j - i - |name| - 3, Word(b));
    }
    forall gap: nat | Labelled(s, i, name, gap, Word(b))
      ensures BoolAt(s, name, i) == Some(b)
    {
      var word := Word(b);
      var j := i + |name| + 3 + gap;
      LabelAtIs(s, name, i, gap, word);
      if !b {
        assert s[j] == s[j..j + 5][0];
      }
    }
  }

  /** `s.match(...)` for a string probe: the capture of the leftmost match. */
  function StringField(s: string, name: string): Option<string> {
    match Leftmost(|s|, 0, (i: nat) => StringAt(s, name, i))
    case None => None
    case Some(f) => Some(f.value)
  }

  /** `s.match(...)` for a number probe, read with parseInt. */
  function IntField(s: string, name: string): Option<nat> {
    match Leftmost(|s|, 0, (i: nat) => IntAt(s, name, i))
    case None => None
    case Some(f) => Some(f.value)
  }

  /** `s.match(...)` for the flag probe, compared with `"true"`. */
  function BoolField(s: string, name: string): Option<bool> {
    match Leftmost(|s|, 0, (i: nat) => BoolAt(s, name, i))
    case None => None
    case Some(f) => Some(f.value)
  }

  // ---------------------------------------------------------------------
  // The record a server entry yields
  // ---------------------------------------------------------------------

  /** The `serverObj` of route.ts: which of the eight fields the probes found. */
  datatype ServerRecord = ServerRecord(
    modname: Option<string>,
    hostname: Option<string>,
    players: Option<nat>,
    maxPlayers: Option<nat>,
    queryPort: Option<nat>,
    version: Option<string>,
    passw: Option<bool>,
    lastUpdate: Option<nat>)

  /** The empty object `{}` the fields are added to. */
  const NoFields := ServerRecord(None, None, None, None, None, None, None, None)

  /** The fields the probes find in the text between an entry's braces. */
  function Fields(data: string): ServerRecord {
    ServerRecord(
      StringField(data, "modname"),
      StringField(data, "hostname"),
      IntField(data, "players"),
      IntField(data, "max_players"),
      IntField(data, "query_port"),
      StringField(data, "version"),
      BoolField(data, "passw"),
      IntField(data, "last_update"))
  }

  function StringJson(v: Option<string>): Option<Json> {
    if v.Some? then Some(JString(v.value)) else None
  }

  function NumberJson(v: Option<nat>): Option<Json> {
    if v.Some? then Some(JNumber(v.value as real)) else None
  }

  function BoolJson(v: Option<bool>): Option<Json> {
    if v.Some? then Some(JBool(v.value)) else None
  }

  /** The record's properties, by name, in the order route.ts assigns them. */
  function Entries(rec: ServerRecord): seq<(string, Option<Json>)> {
    [ ("modname", StringJson(rec.modname)),
      ("hostname", StringJson(rec.hostname)),
      ("players", NumberJson(rec.players)),
      ("max_players", NumberJson(rec.maxPlayers)),
      ("query_port", NumberJson(rec.queryPort)),
      ("version", StringJson(rec.version)),
      ("passw", BoolJson(rec.passw)),
      ("last_update", NumberJson(rec.lastUpdate)) ]
  }

  /** An object holding the present entries. */
  function Build(es: seq<(string, Option<Json>)>): map<string, Json> {
    if |es| == 0 then map[]
    else if es[0].1.Some? then Build(es[1..])[es[0].0 := es[0].1.value]
    else Build(es[1..])
  }

  /** How many entries are present. */
  function Present(es: seq<(string, Option<Json>)>): nat {
    if |es| == 0 then 0
    else (if es[0].1.Some? then 1 else 0) + Present(es[1..])
  }

  predicate DistinctNames(es: seq<(string, Option<Json>)>) {
    forall i, j :: 0 <= i < j < |es| ==> es[i].0 != es[j].0
  }

  /** `Object.keys(serverObj).length`: one key per field found. */
  function FieldCount(rec: ServerRecord): nat {
    Present(Entries(rec))
  }

  /** `serverObj` as a JSON object. */
  function RecordJson(rec: ServerRecord): (v: Json)
    ensures v.JObject?
  {
    JObject(Build(Entries(rec)))
  }

  /** With distinct names, the object has one property per present entry. */
  lemma {:induction false} BuildKeys(es: seq<(string, Option<Json>)>)
    requires DistinctNames(es)
    ensures |Build(es).Keys| == Present(es)
    ensures forall i :: 0 <= i < |es| ==> (es[i].0 in Build(es) <==> es[i].1.Some?)
    ensures forall i :: 0 <= i < |es| && es[i].1.Some? ==> Build(es)[es[i].0] == es[i].1.value
    ensures forall k :: k in Build(es) ==> exists i :: 0 <= i < |es| && es[i].0 == k
  {
    if |es| > 0 {
      var rest := es[1..];
      assert DistinctNames(rest) by {
        forall i, j | 0 <= i < j < |rest| ensures rest[i].0 != rest[j].0 {
          assert rest[i] == es[i + 1] && rest[j] == es[j + 1];
        }
      }
      BuildKeys(rest);
      assert es[0].0 !in Build(rest) by {
        forall i | 0 <= i < |rest| ensures rest[i].0 != es[0].0 {
          assert rest[i] == es[i + 1];
        }
      }
      forall i | 0 <= i < |es| ensures (es[i].0 in Build(es) <==> es[i].1.Some?) {
        if i > 0 {
          assert es[i] == rest[i - 1];
        }
      }
      forall i | 0 <= i < |es| && es[i].1.Some? ensures Build(es)[es[i].0] == es[i].1.value {
        if i > 0 {
          assert es[i] == rest[i - 1];
        }
      }
      forall k | k in Build(es) ensures exists i :: 0 <= i < |es| && es[i].0 == k {
        if k != es[0].0 {
          var i :| 0 <= i < |rest| && rest[i].0 == k;
          assert es[i + 1].0 == k;
        }
      }
    }
  }

  /**
   * The record as an object: exactly the fields the probes found, each
   * with its value, and `FieldCount` is its number of keys.
   */
  lemma RecordObject(rec: ServerRecord)
    ensures |RecordJson(rec).fields.Keys| == FieldCount(rec)
    ensures forall i :: 0 <= i < 8 ==> (Entries(rec)[i].0 in RecordJson(rec).fields <==> Entries(rec)[i].1.Some?)
    ensures forall i :: 0 <= i < 8 && Entries(rec)[i].1.Some? ==> RecordJson(rec).fields[Entries(rec)[i].0] == Entries(rec)[i].1.value
    ensures forall k :: k in RecordJson(rec).fields ==> exists i :: 0 <= i < 8 && Entries(rec)[i].0 == k
  {
    var es := Entries(rec);
    assert DistinctNames(es);
    BuildKeys(es);
  }

  // ---------------------------------------------------------------------
  // One key match, and the fold over all of them
  // ---------------------------------------------------------------------

  /**
   * What the loop stores for the entry whose `{` is at `b`: None when the
   * scanner does not close it, JSON.parse rejects the text between the
   * braces, or fewer than three fields are found in it.
   */
  function EntryAt(parse: Parser, text: string, b: nat): Option<ServerRecord>
    requires b < |text| && text[b] == '{'
  {
    match Close(text, b)
    case None => None
    case Some(braceEnd) =>
      var data := text[b + 1..braceEnd];
      if parse("{" + data + "}").None? then None
      else if FieldCount(Fields(data)) >= 3 then Some(Fields(data))
      else None
  }

  /** What the loop stores for the key match starting at `p`: the entry at the next `{`. */
  function ServerAt(parse: Parser, text: string, p: nat): Option<ServerRecord> {
    match IndexOf(text, '{', p)
    case None => None
    case Some(braceStart) => EntryAt(parse, text, braceStart)
  }

  /** The entry read for a key match is the one opened by the match's own `{`. */
  lemma ServerAtMeans(parse: Parser, text: string, p: nat)
    requires KeySignatureAt(text, p).Some?
    ensures ServerAt(parse, text, p) == EntryAt(parse, text, KeySignatureAt(text, p).value.braceAt)
  {
    BraceFound(text, p);
  }

  /** Every key match ends at a `{` after its start and inside the text. */
  ghost predicate Progress(n: nat, sig: nat -> Option<KeyMatch>) {
    forall p: nat :: p < n && sig(p).Some? ==> p < sig(p).value.braceAt < n
  }

  /** No key match starts after another's start and at or before its `{`. */
  ghost predicate Apart(n: nat, sig: nat -> Option<KeyMatch>) {
    forall p: nat, q: nat :: p < q < n && sig(p).Some? && q <= sig(p).value.braceAt ==> sig(q).None?
  }

  /** The match at `p` has key `k` and yields a record. */
  predicate Hit<R>(sig: nat -> Option<KeyMatch>, rec: nat -> Option<R>, p: nat, k: string) {
    sig(p).Some? && sig(p).value.key == k && rec(p).Some?
  }

  /** `servers[key] = record` when there is a record. */
  function Store<R>(acc: map<string, R>, key: string, r: Option<R>): map<string, R> {
    if r.Some? then acc[key := r.value] else acc
  }

  /**
   * The `exec` loop over key matches `sig` from `from`, with `rec(p)` the
   * record for the match at `p`: each match is stored into `acc`, and the
   * search resumes just past the match's `{`.
   */
  function Harvest<R>(n: nat, sig: nat -> Option<KeyMatch>, rec: nat -> Option<R>, from: nat, acc: map<string, R>): map<string, R>
    requires Progress(n, sig)
    decreases n - from
  {
    match Leftmost(n, from, sig)
    case None => acc
    case Some(f) =>
      LeftmostFirst(n, from, sig);
      Harvest(n, sig, rec, f.value.braceAt + 1, Store(acc, f.value.key, rec(f.at)))
  }

  /** A search that finds nothing ends the loop. */
  lemma HarvestDone<R>(n: nat, sig: nat -> Option<KeyMatch>, rec: nat -> Option<R>, from: nat, acc: map<string, R>)
    requires Progress(n, sig) && Leftmost(n, from, sig).None?
    ensures Harvest(n, sig, rec, from, acc) == acc
  {
  }

  /** A match found stores its record and moves the search strictly forward. */
  lemma HarvestNext<R>(n: nat, sig: nat -> Option<KeyMatch>, rec: nat -> Option<R>, from: nat, acc: map<string, R>)
    requires Progress(n, sig) && Leftmost(n, from, sig).Some?
    ensures var f := Leftmost(n, from, sig).value;
      && from < f.value.braceAt + 1 <= n
      && Harvest(n, sig, rec, from, acc) == Harvest(n, sig, rec, f.value.braceAt + 1, Store(acc, f.value.key, rec(f.at)))
  {
    LeftmostFirst(n, from, sig);
  }

  /** A property of every record read and of every stored value holds for every value of the result. */
  lemma {:induction false} HarvestAll<R>(n: nat, sig: nat -> Option<KeyMatch>, rec: nat -> Option<R>, from: nat, acc: map<string, R>, ok: R -> bool)
    requires Progress(n, sig)
    requires forall p: nat :: rec(p).Some? ==> ok(rec(p).value)
    requires forall k :: k in acc ==> ok(acc[k])
    decreases n - from
    ensures forall k :: k in Harvest(n, sig, rec, from, acc) ==> ok(Harvest(n, sig, rec, from, acc)[k])
  {
    LeftmostFirst(n, from, sig);
    match Leftmost(n, from, sig)
    case None =>
    case Some(f) =>
      HarvestAll(n, sig, rec, f.value.braceAt + 1, Store(acc, f.value.key, rec(f.at)), ok);
  }

  /** A key is in the result iff it was there already or some match from `from` on yields a record for it. */
  lemma {:induction false} HarvestHas<R>(n: nat, sig: nat -> Option<KeyMatch>, rec: nat -> Option<R>, from: nat, acc: map<string, R>, k: string)
    requires Progress(n, sig) && Apart(n, sig)
    decreases n - from
    ensures k in Harvest(n, sig, rec, from, acc) <==> k in acc || exists p: nat :: from <= p < n && Hit(sig, rec, p, k)
  {
    LeftmostFirst(n, from, sig);
    match Leftmost(n, from, sig)
    case None =>
      assert forall p: nat :: from <= p < n ==> !Hit(sig, rec, p, k);
    case Some(f) =>
      var a, b := f.at, f.value.braceAt;
      var acc' := Store(acc, f.value.key, rec(a));
      HarvestHas(n, sig, rec, b + 1, acc', k);
      assert k in acc' <==> k in acc || Hit(sig, rec, a, k);
      if p: nat :| from <= p < n && Hit(sig, rec, p, k) {
        assert p == a || b + 1 <= p;
      }
  }

  /** Nothing overwrites a stored key that no later match yields. */
  lemma {:induction false} HarvestKeeps<R>(n: nat, sig: nat -> Option<KeyMatch>, rec: nat -> Option<R>, from: nat, acc: map<string, R>, k: string)
    requires Progress(n, sig)
    requires k in acc && forall q: nat :: from <= q < n ==> !Hit(sig, rec, q, k)
    decreases n - from
    ensures k in Harvest(n, sig, rec, from, acc) && Harvest(n, sig, rec, from, acc)[k] == acc[k]
  {
    LeftmostFirst(n, from, sig);
    match Leftmost(n, from, sig)
    case None =>
    case Some(f) =>
      assert !Hit(sig, rec, f.at, k);
      HarvestKeeps(n, sig, rec, f.value.braceAt + 1, Store(acc, f.value.key, rec(f.at)), k);
  }

  /** The record kept for a key is the one of the last match that yields it. */
  lemma {:induction false} HarvestLast<R>(n: nat, sig: nat -> Option<KeyMatch>, rec: nat -> Option<R>, from: nat, acc: map<string, R>, k: string, p: nat)
    requires Progress(n, sig) && Apart(n, sig)
    requires from <= p < n && Hit(sig, rec, p, k)
    requires forall q: nat :: p < q < n ==> !Hit(sig, rec, q, k)
    decreases n - from
    ensures k in Harvest(n, sig, rec, from, acc) && Harvest(n, sig, rec, from, acc)[k] == rec(p).value
  {
    LeftmostFirst(n, from, sig);
    match Leftmost(n, from, sig)
    case None =>
    case Some(f) =>
      var a, b := f.at, f.value.braceAt;
      var acc' := Store(acc, f.value.key, rec(a));
      if p == a {
        HarvestKeeps(n, sig, rec, b + 1, acc', k);
      } else {
        assert b + 1 <= p;
        HarvestLast(n, sig, rec, b + 1, acc', k, p);
      }
  }

  // ---------------------------------------------------------------------
  // The extraction over a text
  // ---------------------------------------------------------------------

  /** The key pattern tried at every position of `text`. */
  function Signatures(text: string): nat -> Option<KeyMatch> {
    (p: nat) => KeySignatureAt(text, p)
  }

  /** `ipPortPattern.exec(text)` with the pattern's `lastIndex` at `lastIndex`. */
  function NextKeyMatch(text: string, lastIndex: nat): Option<Found<KeyMatch>> {
    Leftmost(|text|, lastIndex, Signatures(text))
  }

  /** The record stored for the match at each position. */
  function Servers(parse: Parser, text: string): nat -> Option<ServerRecord> {
    (p: nat) => ServerAt(parse, text, p)
  }

  lemma SignaturesProgress(text: string)
    ensures Progress(|text|, Signatures(text))
  {
  }

  lemma SignaturesDisjoint(text: string)
    ensures Apart(|text|, Signatures(text))
  {
    forall p: nat, q: nat | p < q < |text| && KeySignatureAt(text, p).Some? && q <= KeySignatureAt(text, p).value.braceAt
      ensures KeySignatureAt(text, q).None?
    {
      SignaturesApart(text, p, q);
    }
  }

  /** The `servers` object once the loop has run over the whole text. */
  function PermissiveServers(parse: Parser, text: string): map<string, ServerRecord> {
    SignaturesProgress(text);
    Harvest(|text|, Signatures(text), Servers(parse, text), 0, map[])
  }

  /** The entry at `p` is a key match for `key` that yields a record. */
  predicate StoredAt(parse: Parser, text: string, p: nat, key: string) {
    KeySignatureAt(text, p).Some? && KeySignatureAt(text, p).value.key == key && ServerAt(parse, text, p).Some?
  }

  /**
   * A key is in the extracted servers iff some match of the key pattern
   * for it yields a record, and its record is the one from the last such
   * match in the text.
   */
  lemma PermissiveExact(parse: Parser, text: string, key: string)
    ensures key in PermissiveServers(parse, text) <==> exists p: nat :: p < |text| && StoredAt(parse, text, p, key)
    ensures forall p: nat ::
      (p < |text| && StoredAt(parse, text, p, key) && forall q: nat :: p < q < |text| ==> !StoredAt(parse, text, q, key)) ==>
        key in PermissiveServers(parse, text) && PermissiveServers(parse, text)[key] == ServerAt(parse, text, p).value
  {
    var sig, rec := Signatures(text), Servers(parse, text);
    SignaturesProgress(text);
    SignaturesDisjoint(text);
    assert forall p: nat :: Hit(sig, rec, p, key) == StoredAt(parse, text, p, key);
    HarvestHas(|text|, sig, rec, 0, map[], key);
    forall p: nat | p < |text| && StoredAt(parse, text, p, key)
      && (forall q: nat :: p < q < |text| ==> !StoredAt(parse, text, q, key))
      ensures key in PermissiveServers(parse, text) && PermissiveServers(parse, text)[key] == ServerAt(parse, text, p).value
    {
      HarvestLast(|text|, sig, rec, 0, map[], key, p);
    }
  }

  /** Every key of the extracted servers has the `a.b.c.d:port` shape. */
  lemma PermissiveKeys(parse: Parser, text: string, key: string)
    requires key in PermissiveServers(parse, text)
    ensures exists g :: IpPortGroups(g) && key + "\"" == Spell(g, KeySeps)
  {
    PermissiveExact(parse, text, key);
    var p: nat :| p < |text| && StoredAt(parse, text, p, key);
    KeySignatureSound(text, p);
  }

  /** Every extracted server has at least three of the eight fields. */
  lemma PermissiveFields(parse: Parser, text: string, key: string)
    requires key in PermissiveServers(parse, text)
    ensures FieldCount(PermissiveServers(parse, text)[key]) >= 3
  {
    var sig, rec := Signatures(text), Servers(parse, text);
    SignaturesProgress(text);
    forall p: nat | rec(p).Some?
      ensures FieldCount(rec(p).value) >= 3
    {
    }
    HarvestAll(|text|, sig, rec, 0, map[], r => FieldCount(r) >= 3);
  }

  /** The `servers` object as JSON. */
  function ServersJson(servers: map<string, ServerRecord>): map<string, Json> {
    map k | k in servers :: RecordJson(servers[k])
  }

  /** What `extractServersPermissive(text)` returns. */
  function PermissiveJson(parse: Parser, text: string): Json {
    JObject(map["list servers" := JObject(ServersJson(PermissiveServers(parse, text)))])
  }

  /**
   * The loop of route.ts seen only through what it uses: the search and
   * the record read for a match agree with `KeySignatureAt` and `ServerAt`,
   * and the fold they drive is the extraction.
   */
  lemma HarvestView(parse: Parser, text: string) returns (sig: nat -> Option<KeyMatch>, rec: nat -> Option<ServerRecord>)
    ensures Progress(|text|, sig)
    ensures forall p: nat {:trigger KeySignatureAt(text, p)} :: sig(p) == KeySignatureAt(text, p)
    ensures forall p: nat {:trigger ServerAt(parse, text, p)} :: rec(p) == ServerAt(parse, text, p)
    ensures Harvest(|text|, sig, rec, 0, map[]) == PermissiveServers(parse, text)
  {
    SignaturesProgress(text);
    sig, rec := Signatures(text), Servers(parse, text);
  }

  /**
   * `extractServersPermissive` of route.ts: the `exec` loop over the key
   * pattern, each iteration's work done by `ReadServer`.
   */
  method ExtractServersPermissive(parse: Parser, text: string) returns (result: Json)
    ensures result == PermissiveJson(parse, text)
  {
    var servers: map<string, ServerRecord> := map[];
    ghost var sig, rec := HarvestView(parse, text);
    var lastIndex: nat := 0;
    while true
      invariant lastIndex <= |text|
      invariant Harvest(|text|, sig, rec, lastIndex, servers) == PermissiveServers(parse, text)
      decreases |text| - lastIndex
    {
      var found := Exec(text, lastIndex, sig);
      if found.None? {
        HarvestDone(|text|, sig, rec, lastIndex, servers);
        break;
      }
      var serverKey := found.value.value.key;
      var startPos := found.value.at;
      HarvestNext(|text|, sig, rec, lastIndex, servers);
      lastIndex := found.value.value.braceAt + 1;
      var serverObj := ReadServer(parse, text, startPos, rec);
      if serverObj.Some? {
        servers := servers[serverKey := serverObj.value];
      }
    }
    result := JObject(map["list servers" := JObject(ServersJson(servers))]);
  }

  /** `ipPortPattern.exec(text)`: the leftmost match from `lastIndex` on. */
  method Exec(text: string, lastIndex: nat, ghost sig: nat -> Option<KeyMatch>) returns (found: Option<Found<KeyMatch>>)
    requires forall p: nat {:trigger KeySignatureAt(text, p)} :: sig(p) == KeySignatureAt(text, p)
    ensures found == Leftmost(|text|, lastIndex, sig)
  {
    found := NextKeyMatch(text, lastIndex);
    LeftmostAgree(|text|, lastIndex, Signatures(text), sig);
  }

  /**
   * One iteration's work for the key match at `startPos`: find its `{`,
   * scan to the matching `}`, check the inside with JSON.parse, and read
   * the fields. `rec` is `ServerAt` seen from the loop.
   */
  method ReadServer(parse: Parser, text: string, startPos: nat, ghost rec: nat -> Option<ServerRecord>)
    returns (serverObj: Option<ServerRecord>)
    requires forall p: nat {:trigger ServerAt(parse, text, p)} :: rec(p) == ServerAt(parse, text, p)
    ensures serverObj == rec(startPos)
  {
    serverObj := None;
    var braceStart := IndexOf(text, '{', startPos);
    if braceStart.Some? {
      serverObj := ReadEntry(parse, text, braceStart.value);
    }
    assert serverObj == ServerAt(parse, text, startPos);
  }

  /** A balanced entry that parses is stored when, and only when, at least three fields are found in it. */
  lemma EntryStored(parse: Parser, text: string, b: nat, e: nat, obj: ServerRecord)
    requires b < |text| && text[b] == '{' && Close(text, b) == Some(e)
    requires parse("{" + text[b + 1..e] + "}").Some? && obj == Fields(text[b + 1..e])
    ensures EntryAt(parse, text, b) == if FieldCount(obj) >= 3 then Some(obj) else None
  {
  }

  /** The entry opened by the `{` at `braceStart`: balanced, parsed, and at least three fields found. */
  method ReadEntry(parse: Parser, text: string, braceStart: nat) returns (serverObj: Option<ServerRecord>)
    requires braceStart < |text| && text[braceStart] == '{'
    ensures serverObj == EntryAt(parse, text, braceStart)
  {
    serverObj := None;
    var braceCount, braceEnd := MatchBrace(text, braceStart);
    if braceCount == 0 {
      var serverDataStr := text[braceStart + 1..braceEnd];
      if parse("{" + serverDataStr + "}").Some? {
        var obj := ReadFields(serverDataStr);
        if FieldCount(obj) >= 3 {
          serverObj := Some(obj);
        }
        EntryStored(parse, text, braceStart, braceEnd, obj);
      }
    }
  }

  /** The eight probes of route.ts, each adding its field when it matches. */
  method ReadFields(serverDataStr: string) returns (obj: ServerRecord)
    ensures obj == Fields(serverDataStr)
  {
    obj := NoFields;
    var modnameMatch := StringField(serverDataStr, "modname");
    if modnameMatch.Some? {
      obj := obj.(modname := modnameMatch);
    }
    var hostnameMatch := StringField(serverDataStr, "hostname");
    if hostnameMatch.Some? {
      obj := obj.(hostname := hostnameMatch);
    }
    var playersMatch := IntField(serverDataStr, "players");
    if playersMatch.Some? {
      obj := obj.(players := playersMatch);
    }
    var maxPlayersMatch := IntField(serverDataStr, "max_players");
    if maxPlayersMatch.Some? {
      obj := obj.(maxPlayers := maxPlayersMatch);
    }
    var portMatch := IntField(serverDataStr, "query_port");
    if portMatch.Some? {
      obj := obj.(queryPort := portMatch);
    }
    var versionMatch := StringField(serverDataStr, "version");
    if versionMatch.Some? {
      obj := obj.(version := versionMatch);
    }
    var passwMatch := BoolField(serverDataStr, "passw");
    if passwMatch.Some? {
      obj := obj.(passw := passwMatch);
    }
    var lastUpdateMatch := IntField(serverDataStr, "last_update");
    if lastUpdateMatch.Some? {
      obj := obj.(lastUpdate := lastUpdateMatch);
    }
  }
}
