/**
 * The string primitives the pipeline leans on: String.prototype.indexOf,
 * Array.prototype.join, the character classes of the regular expressions
 * it uses, parseInt on a digit run, and leftmost-match search (what a
 * regular expression without the sticky flag does).
 */
module Text {
  import opened Wrappers

  /** `s.indexOf(c, from)`: the first index at or after `from` holding `c`. */
  function IndexOf(s: seq<char>, c: char, from: nat): (r: Option<nat>)
    decreases |s| - from
    ensures r.Some? ==> from <= r.value < |s| && s[r.value] == c
  {
    if from >= |s| then None
    else if s[from] == c then Some(from)
    else IndexOf(s, c, from + 1)
  }

  /** The index found is the first one; None means there is none. */
  lemma {:induction false} IndexOfFirst(s: seq<char>, c: char, from: nat)
    decreases |s| - from
    ensures IndexOf(s, c, from).Some? ==> forall j :: from <= j < IndexOf(s, c, from).value ==> s[j] != c
    ensures IndexOf(s, c, from).None? ==> forall j :: from <= j < |s| ==> s[j] != c
  {
    if from < |s| && s[from] != c {
      IndexOfFirst(s, c, from + 1);
    }
  }

  /** The first occurrence is determined by the characters alone. */
  lemma IndexOfIs(s: seq<char>, c: char, from: nat, k: nat)
    requires from <= k < |s| && s[k] == c
    requires forall j :: from <= j < k ==> s[j] != c
    ensures IndexOf(s, c, from) == Some(k)
  {
    IndexOfFirst(s, c, from);
  }

  /** `xs.join(sep)`. */
  function Join(sep: seq<char>, xs: seq<seq<char>>): seq<char>
  {
    if |xs| == 0 then []
    else if |xs| == 1 then xs[0]
    else xs[0] + sep + Join(sep, xs[1..])
  }

  /** Every character of a join comes from an element or from the separator. */
  lemma {:induction false} JoinChars(sep: seq<char>, xs: seq<seq<char>>, P: char -> bool)
    requires forall i :: 0 <= i < |sep| ==> P(sep[i])
    requires forall k, i :: 0 <= k < |xs| && 0 <= i < |xs[k]| ==> P(xs[k][i])
    ensures forall i :: 0 <= i < |Join(sep, xs)| ==> P(Join(sep, xs)[i])
  {
    if |xs| > 1 {
      JoinChars(sep, xs[1..], P);
      var rest := Join(sep, xs[1..]);
      assert Join(sep, xs) == xs[0] + sep + rest;
      forall i | 0 <= i < |Join(sep, xs)|
        ensures P(Join(sep, xs)[i])
      {
        if i < |xs[0]| {
          assert Join(sep, xs)[i] == xs[0][i];
        } else if i < |xs[0]| + |sep| {
          assert Join(sep, xs)[i] == sep[i - |xs[0]|];
        } else {
          assert Join(sep, xs)[i] == rest[i - |xs[0]| - |sep|];
        }
      }
    } else if |xs| == 1 {
      assert Join(sep, xs) == xs[0];
    }
  }

  /** `\d` */
  predicate IsDigit(c: char) {
    '0' <= c <= '9'
  }

  /** The characters `.` refuses to match without the `s` flag. */
  predicate IsLineTerminator(c: char) {
    c == '\n' || c == '\r' || c == '\U{2028}' || c == '\U{2029}'
  }

  /** `\s`: white space and line terminators as ECMAScript defines them. */
  predicate IsWhitespace(c: char) {
    || c == '\t' || c == '\n' || c == '\U{000B}' || c == '\U{000C}' || c == '\r'
    || c == ' ' || c == '\U{00A0}' || c == '\U{1680}'
    || ('\U{2000}' <= c <= '\U{200A}')
    || c == '\U{2028}' || c == '\U{2029}' || c == '\U{202F}' || c == '\U{205F}'
    || c == '\U{3000}' || c == '\U{FEFF}'
  }

  predicate AllDigits(s: seq<char>) {
    forall i :: 0 <= i < |s| ==> IsDigit(s[i])
  }

  /**
   * Where a greedy `[class]*` starting at `i` stops: the end of the longest
   * run of characters in the class.
   */
  function RunEnd(s: seq<char>, i: nat, inClass: char -> bool): (r: nat)
    requires i <= |s|
    decreases |s| - i
    ensures i <= r <= |s|
    ensures r == |s| || !inClass(s[r])
  {
    if i < |s| && inClass(s[i]) then RunEnd(s, i + 1, inClass) else i
  }

  /** Every character the run passes over is in the class. */
  lemma {:induction false} RunEndClass(s: seq<char>, i: nat, inClass: char -> bool)
    requires i <= |s|
    decreases |s| - i
    ensures forall j :: i <= j < RunEnd(s, i, inClass) ==> inClass(s[j])
  {
    if i < |s| && inClass(s[i]) {
      RunEndClass(s, i + 1, inClass);
    }
  }

  /** A greedy run ends exactly where the class first fails. */
  lemma {:induction false} RunEndIs(s: seq<char>, i: nat, k: nat, inClass: char -> bool)
    requires i <= k <= |s|
    requires forall j :: i <= j < k ==> inClass(s[j])
    requires k == |s| || !inClass(s[k])
    decreases k - i
    ensures RunEnd(s, i, inClass) == k
  {
    if i < k {
      RunEndIs(s, i + 1, k, inClass);
    }
  }

  /** `parseInt` of a run of decimal digits. */
  function DecimalValue(ds: seq<char>): nat
    requires AllDigits(ds)
  {
    if ds == [] then 0
    else DecimalValue(ds[..|ds| - 1]) * 10 + (ds[|ds| - 1] as int - '0' as int)
  }

  /** The decimal rendering of a number, without leading zeros. */
  function DecimalString(n: nat): (ds: seq<char>)
    ensures AllDigits(ds) && |ds| > 0
  {
    if n < 10 then [('0' as int + n) as char]
    else DecimalString(n / 10) + [('0' as int + n % 10) as char]
  }

  /** parseInt reads back every decimal rendering. */
  lemma {:induction false} DecimalRoundTrip(n: nat)
    ensures DecimalValue(DecimalString(n)) == n
  {
    var ds := DecimalString(n);
    if n >= 10 {
      DecimalRoundTrip(n / 10);
      assert ds[..|ds| - 1] == DecimalString(n / 10);
    }
  }

  /** A match reported by a leftmost search. */
  datatype Found<T> = Found(at: nat, value: T)

  /**
   * Leftmost search: the first position in [from, n) at which `at` matches.
   * This is what `RegExp.prototype.exec` and `String.prototype.match` do
   * for a pattern that cannot match the empty string.
   */
  function Leftmost<T>(n: nat, from: nat, at: nat -> Option<T>): (r: Option<Found<T>>)
    decreases n - from
    ensures r.Some? ==> from <= r.value.at < n
  {
    if from >= n then None
    else match at(from)
      case Some(v) => Some(Found(from, v))
      case None => Leftmost(n, from + 1, at)
  }

  /** Searches over functions that agree on [from, n) give the same answer. */
  lemma {:induction false} LeftmostAgree<T>(n: nat, from: nat, at: nat -> Option<T>, at': nat -> Option<T>)
    requires forall q: nat :: from <= q < n ==> at(q) == at'(q)
    decreases n - from
    ensures Leftmost(n, from, at) == Leftmost(n, from, at')
  {
    if from < n {
      LeftmostAgree(n, from + 1, at, at');
    }
  }

  /**
   * The search reports a match at the position it names, and there is no
   * match before it; None means there is no match in [from, n).
   */
  lemma {:induction false} LeftmostFirst<T>(n: nat, from: nat, at: nat -> Option<T>)
    decreases n - from
    ensures Leftmost(n, from, at).Some? ==> at(Leftmost(n, from, at).value.at) == Some(Leftmost(n, from, at).value.value)
    ensures Leftmost(n, from, at).Some? ==> forall q :: from <= q < Leftmost(n, from, at).value.at ==> at(q).None?
    ensures Leftmost(n, from, at).None? ==> forall q :: from <= q < n ==> at(q).None?
  {
    if from < n && at(from).None? {
      LeftmostFirst(n, from + 1, at);
    }
  }
}
