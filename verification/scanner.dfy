/**
 * The brace/string/escape scanner that both walkers run from an opening `{`
 * (route.ts writes it out three times). `Run` is the scanner's state after
 * a prefix of the text; `Close` is the index at which the out-of-string
 * depth first returns to 0; `MatchBrace` is the loop itself.
 */
module BraceScanner {
  import opened Wrappers

  datatype ScanState = ScanState(depth: int, inString: bool, escapeNext: bool)

  const Initial := ScanState(0, false, false)

  /** One iteration of the scanning loop on character `c`. */
  function Step(st: ScanState, c: char): ScanState {
    if st.escapeNext then st.(escapeNext := false)
    else if c == '\\' then st.(escapeNext := true)
    else if c == '"' then st.(inString := !st.inString)
    else if st.inString then st
    else if c == '{' then st.(depth := st.depth + 1)
    else if c == '}' then st.(depth := st.depth - 1)
    else st
  }

  /** The scanner's state after the characters s[start..i]. */
  function Run(s: seq<char>, start: nat, i: nat): ScanState
    requires start <= i <= |s|
    decreases i
  {
    if i == start then Initial else Step(Run(s, start, i - 1), s[i - 1])
  }

  /**
   * A step moves the depth by at most one; it lowers it only on a `}` and
   * raises it only on a `{`, each outside a string and not escaped.
   */
  lemma StepDepth(st: ScanState, c: char)
    ensures st.depth - 1 <= Step(st, c).depth <= st.depth + 1
    ensures Step(st, c).depth < st.depth ==> c == '}' && !st.inString && !st.escapeNext
    ensures Step(st, c).depth > st.depth ==> c == '{' && !st.inString && !st.escapeNext
  {
  }

  /**
   * The first j in [from, |s|) such that the depth is 0 once s[j] has been
   * scanned.
   */
  function FirstClose(s: seq<char>, start: nat, from: nat): (r: Option<nat>)
    requires start <= from <= |s|
    decreases |s| - from
    ensures r.Some? ==> from <= r.value < |s| && Run(s, start, r.value + 1).depth == 0
  {
    if from == |s| then None
    else if Run(s, start, from + 1).depth == 0 then Some(from)
    else FirstClose(s, start, from + 1)
  }

  /** No depth before the one FirstClose finds is 0. */
  lemma {:induction false} FirstCloseFirst(s: seq<char>, start: nat, from: nat)
    requires start <= from <= |s|
    decreases |s| - from
    ensures FirstClose(s, start, from).Some? ==>
      forall i :: from < i <= FirstClose(s, start, from).value ==> Run(s, start, i).depth != 0
    ensures FirstClose(s, start, from).None? ==> forall i :: from < i <= |s| ==> Run(s, start, i).depth != 0
  {
    if from < |s| && Run(s, start, from + 1).depth != 0 {
      FirstCloseFirst(s, start, from + 1);
    }
  }

  /** Until the depth first returns to 0 it stays positive. */
  lemma {:induction false} DepthPositive(s: seq<char>, start: nat, k: nat)
    requires start < |s| && s[start] == '{'
    requires start < k <= |s|
    requires forall i :: start < i <= k ==> Run(s, start, i).depth != 0
    ensures Run(s, start, k).depth > 0
  {
    if k > start + 1 {
      DepthPositive(s, start, k - 1);
      StepDepth(Run(s, start, k - 1), s[k - 1]);
    }
  }

  /**
   * The scanner's verdict from the `{` at `start`: the index of the `}`
   * that brings the depth back to 0, or None when the text ends first.
   */
  function Close(s: seq<char>, start: nat): (r: Option<nat>)
    requires start < |s| && s[start] == '{'
    ensures r.Some? ==> start < r.value < |s| && s[r.value] == '}'
  {
    var r := FirstClose(s, start, start);
    if r.Some? then
      var e := r.value;
      assert e != start by { assert Run(s, start, start + 1).depth == 1; }
      FirstCloseFirst(s, start, start);
      DepthPositive(s, start, e);
      StepDepth(Run(s, start, e), s[e]);
      r
    else
      r
  }

  /**
   * The depth stays positive from the `{` up to its close; when there is
   * no close it stays positive to the end (the candidate is unbalanced).
   */
  lemma CloseDepths(s: seq<char>, start: nat)
    requires start < |s| && s[start] == '{'
    ensures Close(s, start).Some? ==> Run(s, start, Close(s, start).value + 1).depth == 0
    ensures Close(s, start).Some? ==> forall i :: start < i <= Close(s, start).value ==> Run(s, start, i).depth > 0
    ensures Close(s, start).None? ==> forall i :: start < i <= |s| ==> Run(s, start, i).depth > 0
  {
    FirstCloseFirst(s, start, start);
    var e := if Close(s, start).Some? then Close(s, start).value else |s|;
    forall i | start < i <= e ensures Run(s, start, i).depth > 0 {
      DepthPositive(s, start, i);
    }
  }

  /** Close is determined by the depths: the first zero is the close. */
  lemma CloseIs(s: seq<char>, start: nat, k: nat)
    requires start < |s| && s[start] == '{'
    requires start <= k < |s| && Run(s, start, k + 1).depth == 0
    requires forall i :: start < i <= k ==> Run(s, start, i).depth != 0
    ensures Close(s, start) == Some(k)
  {
    FirstCloseFirst(s, start, start);
    CloseDepths(s, start);
  }

  /** One more character scanned from the start: the next state. */
  lemma RunStep(s: seq<char>, i: nat, next: ScanState)
    requires i < |s| && Step(Run(s, 0, i), s[i]) == next
    ensures Run(s, 0, i + 1) == next
  {
  }

  /** A `}` inside a string value does not close the entry: `{"a": "x}y", "b": 1}` closes at its last character. */
  lemma CloseSkipsQuotedBrace(s: string)
    requires |s| == 20
    requires s[0] == '{' && s[1] == '"' && s[2] == 'a' && s[3] == '"' && s[4] == ':'
    requires s[5] == ' ' && s[6] == '"' && s[7] == 'x' && s[8] == '}' && s[9] == 'y'
    requires s[10] == '"' && s[11] == ',' && s[12] == ' ' && s[13] == '"' && s[14] == 'b'
    requires s[15] == '"' && s[16] == ':' && s[17] == ' ' && s[18] == '1' && s[19] == '}'
    ensures Close(s, 0) == Some(19)
  {
    RunStep(s, 0, ScanState(1, false, false));
    RunStep(s, 1, ScanState(1, true, false));
    RunStep(s, 2, ScanState(1, true, false));
    RunStep(s, 3, ScanState(1, false, false));
    RunStep(s, 4, ScanState(1, false, false));
    RunStep(s, 5, ScanState(1, false, false));
    RunStep(s, 6, ScanState(1, true, false));
    RunStep(s, 7, ScanState(1, true, false));
    RunStep(s, 8, ScanState(1, true, false));
    RunStep(s, 9, ScanState(1, true, false));
    RunStep(s, 10, ScanState(1, false, false));
    RunStep(s, 11, ScanState(1, false, false));
    RunStep(s, 12, ScanState(1, false, false));
    RunStep(s, 13, ScanState(1, true, false));
    RunStep(s, 14, ScanState(1, true, false));
    RunStep(s, 15, ScanState(1, false, false));
    RunStep(s, 16, ScanState(1, false, false));
    RunStep(s, 17, ScanState(1, false, false));
    RunStep(s, 18, ScanState(1, false, false));
    RunStep(s, 19, ScanState(0, false, false));
    CloseIs(s, 0, 19);
  }

  /**
   * The scanning loop of route.ts. On a balanced candidate the returned
   * count is 0 and `braceEnd` is the closing index; otherwise the count is
   * the positive depth left at the end of the text and `braceEnd` keeps
   * its initial value.
   */
  method MatchBrace(s: seq<char>, braceStart: nat) returns (braceCount: int, braceEnd: nat)
    requires braceStart < |s| && s[braceStart] == '{'
    ensures braceCount == 0 <==> Close(s, braceStart).Some?
    ensures braceCount == 0 ==> braceEnd == Close(s, braceStart).value
    ensures braceCount != 0 ==> braceCount == Run(s, braceStart, |s|).depth > 0 && braceEnd == braceStart
  {
    braceCount, braceEnd := 0, braceStart;
    var inString, escapeNext := false, false;
    var i := braceStart;
    while i < |s|
      invariant braceStart <= i <= |s| && braceEnd == braceStart
      invariant ScanState(braceCount, inString, escapeNext) == Run(s, braceStart, i)
      invariant i > braceStart ==> braceCount > 0
      invariant FirstClose(s, braceStart, braceStart) == FirstClose(s, braceStart, i)
    {
      var c := s[i];
      if escapeNext {
        escapeNext := false;
      } else if c == '\\' {
        escapeNext := true;
      } else if c == '"' {
        inString := !inString;
      } else if !inString {
        if c == '{' {
          braceCount := braceCount + 1;
        } else if c == '}' {
          braceCount := braceCount - 1;
          if braceCount == 0 {
            braceEnd := i;
            break;
          }
        }
      }
      i := i + 1;
    }
  }
}
