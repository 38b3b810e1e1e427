/**
 * Entry repair (`fixMalformedJsonEntries`): match the fixed wrapper
 * `{"list servers":{` ... `}}`, cut the body into `"key" ... {...}`
 * candidates with the brace scanner, keep a candidate only if it parses in
 * isolation to an object whose value under the raw key is a truthy object,
 * and re-join the kept candidates with `,` inside the original wrapper.
 */
module EntryRepair {
  import opened Wrappers
  import opened Json
  import opened Text
  import opened BraceScanner

  const Prefix: string := "{\"list servers\":{"
  const Suffix: string := "}}"

  predicate NoLineTerminators(s: string) {
    forall i :: 0 <= i < |s| ==> !IsLineTerminator(s[i])
  }

  /**
   * `text.match(/^(\{"list servers":\{)(.*)(\}\})$/)`, giving the middle
   * group: the content between the 17-character prefix and the final `}}`.
   */
  function MatchWrapper(text: string): (r: Option<string>)
    ensures r.Some? ==> text == Prefix + r.value + Suffix && NoLineTerminators(r.value)
  {
    if |text| >= 19 && text[..17] == Prefix && text[|text| - 2..] == Suffix
       && NoLineTerminators(text[17..|text| - 2])
    then Some(text[17..|text| - 2])
    else None
  }

  /** The wrapper regex matches exactly the wrapped line-terminator-free texts. */
  lemma WrapperRoundTrip(content: string)
    ensures MatchWrapper(Prefix + content + Suffix)
            == if NoLineTerminators(content) then Some(content) else None
  {
    var text := Prefix + content + Suffix;
    assert text[..17] == Prefix;
    assert text[|text| - 2..] == Suffix;
    assert text[17..|text| - 2] == content;
  }

  /** One `"key" ... {...}` span the walk cut out of the content. */
  datatype Candidate = Candidate(keyStart: nat, keyEnd: nat, braceStart: nat, braceEnd: nat)

  predicate InBounds(content: string, c: Candidate) {
    c.keyStart < c.keyEnd <= c.braceEnd < |content|
  }

  /**
   * What the walk guarantees about a candidate: the key is the text between
   * two consecutive quotes, the value's `{` is the first one after the key,
   * and the scanner closes that `{` at `braceEnd`.
   */
  predicate WellFormed(content: string, c: Candidate) {
    && c.keyStart < c.keyEnd < c.braceStart < c.braceEnd < |content|
    && content[c.keyStart] == '"' && content[c.keyEnd] == '"'
    && (forall j :: c.keyStart < j < c.keyEnd ==> content[j] != '"')
    && content[c.braceStart] == '{'
    && (forall j :: c.keyEnd <= j < c.braceStart ==> content[j] != '{')
    && Close(content, c.braceStart) == Some(c.braceEnd)
  }

  /** `content.substring(keyStart, braceEnd + 1)` */
  function EntryText(content: string, c: Candidate): string
    requires InBounds(content, c)
  {
    content[c.keyStart..c.braceEnd + 1]
  }

  /** `content.substring(keyStart + 1, keyEnd)`: the raw key, escapes and all. */
  function KeyText(content: string, c: Candidate): string
    requires InBounds(content, c)
  {
    content[c.keyStart + 1..c.keyEnd]
  }

  /** What one iteration of the walk from a position finds. */
  datatype Visit =
    | Stop                      // no quote, no closing quote or no `{`: `break`
    | Balanced(c: Candidate)    // a candidate the scanner closes
    | Unbalanced(keyEnd: nat)   // the scanner reached the end: skip the key

  /**
   * One iteration from `pos`: the next quote opens the key, the quote after
   * it closes the key, the first `{` from there opens the value, and the
   * scanner looks for its `}`.
   */
  function VisitAt(content: string, pos: nat): (v: Visit)
    requires pos < |content|
    ensures v.Balanced? ==> pos <= v.c.keyStart && v.c.keyEnd < v.c.braceStart && InBounds(content, v.c)
    ensures v.Unbalanced? ==> pos < v.keyEnd < |content|
  {
    match IndexOf(content, '"', pos)
    case None => Stop
    case Some(keyStart) =>
      match IndexOf(content, '"', keyStart + 1)
      case None => Stop
      case Some(keyEnd) =>
        match IndexOf(content, '{', keyEnd)
        case None => Stop
        case Some(braceStart) =>
          match Close(content, braceStart)
          case Some(braceEnd) => Balanced(Candidate(keyStart, keyEnd, braceStart, braceEnd))
          case None => Unbalanced(keyEnd)
  }

  /** A balanced visit finds a well-formed candidate. */
  lemma VisitWellFormed(content: string, pos: nat)
    requires pos < |content| && VisitAt(content, pos).Balanced?
    ensures WellFormed(content, VisitAt(content, pos).c)
  {
    var c := VisitAt(content, pos).c;
    IndexOfFirst(content, '"', c.keyStart + 1);
    IndexOfFirst(content, '{', c.keyEnd);
  }

  /** The iteration from every position of `content`. */
  function Steps(content: string): nat -> Visit {
    (p: nat) => if p < |content| then VisitAt(content, p) else Stop
  }

  /** Every iteration moves forward and stays inside `content`. */
  ghost predicate Advances(content: string, visit: nat -> Visit) {
    forall p: nat | p < |content| ::
      && (visit(p).Balanced? ==> p <= visit(p).c.keyStart && InBounds(content, visit(p).c))
      && (visit(p).Unbalanced? ==> p < visit(p).keyEnd < |content|)
  }

  lemma StepsAdvance(content: string)
    ensures Advances(content, Steps(content))
  {
  }

  /**
   * The balanced candidates a walk driven by `visit` passes from `pos`. The
   * path never depends on whether a candidate is accepted: after a balanced
   * candidate the walk resumes after its `}`, after an unbalanced one after
   * its key.
   */
  function Walk(content: string, visit: nat -> Visit, pos: nat): (cs: seq<Candidate>)
    requires pos <= |content| && Advances(content, visit)
    decreases |content| - pos
    ensures forall k :: 0 <= k < |cs| ==> InBounds(content, cs[k]) && pos <= cs[k].keyStart
  {
    if pos == |content| then []
    else match visit(pos)
      case Stop => []
      case Balanced(c) => [c] + Walk(content, visit, c.braceEnd + 1)
      case Unbalanced(keyEnd) => Walk(content, visit, keyEnd + 1)
  }

  /** Whatever holds of every balanced visit holds of every candidate. */
  lemma {:induction false} WalkFinds(content: string, visit: nat -> Visit, pos: nat, P: Candidate -> bool)
    requires pos <= |content| && Advances(content, visit)
    requires forall p: nat | pos <= p < |content| :: visit(p).Balanced? ==> P(visit(p).c)
    decreases |content| - pos
    ensures forall k :: 0 <= k < |Walk(content, visit, pos)| ==> P(Walk(content, visit, pos)[k])
  {
    if pos < |content| {
      match visit(pos)
      case Stop =>
      case Balanced(c) =>
        WalkFinds(content, visit, c.braceEnd + 1, P);
        var rest := Walk(content, visit, c.braceEnd + 1);
        assert Walk(content, visit, pos) == [c] + rest;
      case Unbalanced(keyEnd) =>
        WalkFinds(content, visit, keyEnd + 1, P);
    }
  }

  /** Candidates in strictly increasing position, none overlapping the next. */
  predicate Ordered(cs: seq<Candidate>) {
    forall k, l :: 0 <= k < l < |cs| ==> cs[k].braceEnd < cs[l].keyStart
  }

  lemma OrderedCons(cs: seq<Candidate>, c: Candidate, rest: seq<Candidate>)
    requires cs == [c] + rest
    requires Ordered(rest)
    requires forall k :: 0 <= k < |rest| ==> c.braceEnd < rest[k].keyStart
    ensures Ordered(cs)
  {
    forall k, l | 0 <= k < l < |cs| ensures cs[k].braceEnd < cs[l].keyStart {
      assert cs[l] == rest[l - 1];
      if k > 0 { assert cs[k] == rest[k - 1]; }
    }
  }

  /** The walk passes candidates in increasing position without overlap. */
  lemma {:induction false} WalkOrdered(content: string, visit: nat -> Visit, pos: nat)
    requires pos <= |content| && Advances(content, visit)
    decreases |content| - pos
    ensures Ordered(Walk(content, visit, pos))
  {
    if pos < |content| {
      match visit(pos)
      case Stop =>
      case Balanced(c) =>
        WalkOrdered(content, visit, c.braceEnd + 1);
        OrderedCons(Walk(content, visit, pos), c, Walk(content, visit, c.braceEnd + 1));
      case Unbalanced(keyEnd) =>
        WalkOrdered(content, visit, keyEnd + 1);
    }
  }

  /** The candidates of the repair walk over `content`. */
  function Candidates(content: string): (cs: seq<Candidate>)
    ensures forall k :: 0 <= k < |cs| ==> InBounds(content, cs[k])
  {
    StepsAdvance(content);
    Walk(content, Steps(content), 0)
  }

  /** Each candidate is well formed, and they come in order without overlap. */
  lemma CandidatesWellFormed(content: string)
    ensures forall k :: 0 <= k < |Candidates(content)| ==> WellFormed(content, Candidates(content)[k])
    ensures Ordered(Candidates(content))
  {
    StepsAdvance(content);
    forall p: nat | p < |content| && Steps(content)(p).Balanced?
      ensures WellFormed(content, Steps(content)(p).c)
    {
      VisitWellFormed(content, p);
    }
    WalkFinds(content, Steps(content), 0, c => WellFormed(content, c));
    WalkOrdered(content, Steps(content), 0);
  }

  /**
   * The acceptance test of one candidate: `{entry}` parses, and the value
   * under the raw key is a truthy object (an object or an array).
   */
  predicate Accept(parse: Parser, entry: string, key: string) {
    match parse("{" + entry + "}")
    case None => false
    case Some(testObj) =>
      !testObj.JNull? && Property(testObj, key).Some? && IsTruthyObject(Property(testObj, key).value)
  }
  /** The candidates kept: those that pass the acceptance test, in their order. */
  function Accepted(parse: Parser, content: string, cs: seq<Candidate>): (r: seq<Candidate>)
    requires forall k :: 0 <= k < |cs| ==> InBounds(content, cs[k])
    ensures forall k :: 0 <= k < |r| ==> InBounds(content, r[k])
  {
    if cs == [] then []
    else
      var rest := Accepted(parse, content, cs[1..]);
      if Accept(parse, EntryText(content, cs[0]), KeyText(content, cs[0])) then [cs[0]] + rest else rest
  }

  /** Only candidates that pass the acceptance test are kept. */
  lemma {:induction false} AcceptedSound(parse: Parser, content: string, cs: seq<Candidate>, k: nat)
    requires forall j :: 0 <= j < |cs| ==> InBounds(content, cs[j])
    requires k < |Accepted(parse, content, cs)|
    ensures Accepted(parse, content, cs)[k] in cs
    ensures var c := Accepted(parse, content, cs)[k]; Accept(parse, EntryText(content, c), KeyText(content, c))
  {
    var rest := Accepted(parse, content, cs[1..]);
    if Accept(parse, EntryText(content, cs[0]), KeyText(content, cs[0])) {
      if k > 0 {
        AcceptedSound(parse, content, cs[1..], k - 1);
      }
    } else {
      AcceptedSound(parse, content, cs[1..], k);
    }
  }

  /** No accepted candidate is dropped. */
  lemma {:induction false} AcceptedComplete(parse: Parser, content: string, cs: seq<Candidate>, k: nat)
    requires forall j :: 0 <= j < |cs| ==> InBounds(content, cs[j])
    requires k < |cs| && Accept(parse, EntryText(content, cs[k]), KeyText(content, cs[k]))
    ensures cs[k] in Accepted(parse, content, cs)
  {
    if k > 0 {
      AcceptedComplete(parse, content, cs[1..], k - 1);
    }
  }

  /** A bound on where the candidates start holds of the kept ones. */
  lemma {:induction false} AcceptedAfter(parse: Parser, content: string, cs: seq<Candidate>, bound: int)
    requires forall j :: 0 <= j < |cs| ==> InBounds(content, cs[j]) && bound < cs[j].keyStart
    ensures forall k :: 0 <= k < |Accepted(parse, content, cs)| ==> bound < Accepted(parse, content, cs)[k].keyStart
  {
    if cs != [] {
      AcceptedAfter(parse, content, cs[1..], bound);
    }
  }

  /** Filtering keeps the candidates in order. */
  lemma {:induction false} AcceptedOrdered(parse: Parser, content: string, cs: seq<Candidate>)
    requires forall j :: 0 <= j < |cs| ==> InBounds(content, cs[j])
    requires Ordered(cs)
    ensures Ordered(Accepted(parse, content, cs))
  {
    if cs != [] {
      var rest := Accepted(parse, content, cs[1..]);
      AcceptedOrdered(parse, content, cs[1..]);
      if Accept(parse, EntryText(content, cs[0]), KeyText(content, cs[0])) {
        AcceptedAfter(parse, content, cs[1..], cs[0].braceEnd);
        OrderedCons(Accepted(parse, content, cs), cs[0], rest);
      }
    }
  }

  /** The entry texts of some candidates. */
  function Texts(content: string, cs: seq<Candidate>): (r: seq<string>)
    requires forall k :: 0 <= k < |cs| ==> InBounds(content, cs[k])
    ensures |r| == |cs|
  {
    if cs == [] then [] else [EntryText(content, cs[0])] + Texts(content, cs[1..])
  }

  /** The `k`-th text is the `k`-th candidate's entry. */
  lemma {:induction false} TextsAt(content: string, cs: seq<Candidate>, k: nat)
    requires forall j :: 0 <= j < |cs| ==> InBounds(content, cs[j])
    requires k < |cs|
    ensures Texts(content, cs)[k] == EntryText(content, cs[k])
  {
    if k > 0 {
      TextsAt(content, cs[1..], k - 1);
    }
  }


  /** The entries the walk driven by `visit` keeps from `pos` on. */
  function Kept(parse: Parser, content: string, visit: nat -> Visit, pos: nat): seq<string>
    requires pos <= |content| && Advances(content, visit)
  {
    Texts(content, Accepted(parse, content, Walk(content, visit, pos)))
  }

  /** The `validEntries` array at the end of the walk over `content`. */
  function KeptEntries(parse: Parser, content: string): seq<string> {
    StepsAdvance(content);
    Kept(parse, content, Steps(content), 0)
  }

  /**
   * What the walk driven by `visit` appends from `pos` on, when it appends
   * `keep(c)` for each balanced candidate `c`.
   */
  function Gather(content: string, visit: nat -> Visit, keep: Candidate -> seq<string>, pos: nat): seq<string>
    requires pos <= |content| && Advances(content, visit)
    decreases |content| - pos
  {
    if pos == |content| then []
    else match visit(pos)
      case Stop => []
      case Balanced(c) => keep(c) + Gather(content, visit, keep, c.braceEnd + 1)
      case Unbalanced(keyEnd) => Gather(content, visit, keep, keyEnd + 1)
  }

  /** An iteration that stops appends nothing more. */
  lemma GatherStop(content: string, visit: nat -> Visit, keep: Candidate -> seq<string>, pos: nat, done: seq<string>)
    requires pos <= |content| && Advances(content, visit)
    requires pos == |content| || visit(pos) == Stop
    ensures done + Gather(content, visit, keep, pos) == done
  {
  }

  /** An unbalanced key appends nothing: the walk resumes after it. */
  lemma GatherUnbalanced(content: string, visit: nat -> Visit, keep: Candidate -> seq<string>, pos: nat, keyEnd: nat, done: seq<string>)
    requires pos < |content| && Advances(content, visit) && visit(pos) == Unbalanced(keyEnd)
    ensures done + Gather(content, visit, keep, pos) == done + Gather(content, visit, keep, keyEnd + 1)
  {
  }

  /** A balanced candidate appends `keep(c)`, and the walk resumes after its `}`. */
  lemma GatherBalanced(content: string, visit: nat -> Visit, keep: Candidate -> seq<string>, pos: nat, c: Candidate, done: seq<string>)
    requires pos < |content| && Advances(content, visit) && visit(pos) == Balanced(c)
    ensures done + Gather(content, visit, keep, pos) == (done + keep(c)) + Gather(content, visit, keep, c.braceEnd + 1)
  {
    var next := Gather(content, visit, keep, c.braceEnd + 1);
    assert Gather(content, visit, keep, pos) == keep(c) + next;
  }

  /** What the loop appends for a candidate: its text when it passes the acceptance test. */
  function Keep(parse: Parser, content: string): Candidate -> seq<string> {
    (c: Candidate) =>
      if InBounds(content, c) && Accept(parse, EntryText(content, c), KeyText(content, c)) then [EntryText(content, c)]
      else []
  }

  /** The concatenation of `keep(c)` over the candidates `cs`, in order. */
  function Concat(keep: Candidate -> seq<string>, cs: seq<Candidate>): seq<string> {
    if cs == [] then [] else keep(cs[0]) + Concat(keep, cs[1..])
  }

  /** What the walk appends is `keep` concatenated over the candidates it visits. */
  lemma {:induction false} GatherWalk(content: string, visit: nat -> Visit, keep: Candidate -> seq<string>, pos: nat)
    requires pos <= |content| && Advances(content, visit)
    decreases |content| - pos
    ensures Gather(content, visit, keep, pos) == Concat(keep, Walk(content, visit, pos))
  {
    if pos == |content| || visit(pos).Stop? {
    } else if visit(pos).Unbalanced? {
      GatherWalk(content, visit, keep, visit(pos).keyEnd + 1);
    } else {
      var c := visit(pos).c;
      GatherWalk(content, visit, keep, c.braceEnd + 1);
      var rest := Walk(content, visit, c.braceEnd + 1);
      assert Walk(content, visit, pos) == [c] + rest;
      assert ([c] + rest)[1..] == rest;
    }
  }

  /** Appending each accepted candidate's text gives the texts of the accepted candidates. */
  lemma {:induction false} ConcatKeep(parse: Parser, content: string, cs: seq<Candidate>)
    requires forall k :: 0 <= k < |cs| ==> InBounds(content, cs[k])
    ensures Concat(Keep(parse, content), cs) == Texts(content, Accepted(parse, content, cs))
  {
    if cs != [] {
      ConcatKeep(parse, content, cs[1..]);
      var acc := Accepted(parse, content, cs[1..]);
      if Accept(parse, EntryText(content, cs[0]), KeyText(content, cs[0])) {
        assert Accepted(parse, content, cs) == [cs[0]] + acc;
        assert ([cs[0]] + acc)[1..] == acc;
      } else {
        assert Accepted(parse, content, cs) == acc;
      }
    }
  }

  /** Appending the accepted texts along the walk gives the texts of the accepted candidates. */
  lemma GatherKept(parse: Parser, content: string, visit: nat -> Visit, pos: nat)
    requires pos <= |content| && Advances(content, visit)
    ensures Gather(content, visit, Keep(parse, content), pos) == Kept(parse, content, visit, pos)
  {
    GatherWalk(content, visit, Keep(parse, content), pos);
    ConcatKeep(parse, content, Walk(content, visit, pos));
  }

  /**
   * The iteration over `content` seen only through what the loop below
   * uses: it moves forward, it is what `VisitAt` computes, it appends what
   * the acceptance test lets through, and what it appends in all is the
   * entries of the repair.
   */
  lemma LoopView(parse: Parser, content: string) returns (visit: nat -> Visit, keep: Candidate -> seq<string>)
    ensures Advances(content, visit)
    ensures forall p: nat {:trigger VisitAt(content, p)} :: p < |content| ==> visit(p) == VisitAt(content, p)
    ensures forall c {:trigger keep(c)} :: InBounds(content, c) ==>
      keep(c) == if Accept(parse, EntryText(content, c), KeyText(content, c)) then [EntryText(content, c)] else []
    ensures Gather(content, visit, keep, 0) == KeptEntries(parse, content)
  {
    StepsAdvance(content);
    visit := Steps(content);
    keep := Keep(parse, content);
    GatherKept(parse, content, visit, 0);
  }

  /** What `fixMalformedJsonEntries(text)` returns. */
  function RepairedText(parse: Parser, text: string): string {
    match MatchWrapper(text)
    case None => text
    case Some(content) => Prefix + Join(",", KeptEntries(parse, content)) + Suffix
  }

  /** Candidate texts joined by commas can be wrapped and matched again. */
  lemma {:induction false} JoinedTextsRewrap(content: string, cs: seq<Candidate>)
    requires NoLineTerminators(content)
    requires forall k :: 0 <= k < |cs| ==> InBounds(content, cs[k])
    ensures MatchWrapper(Prefix + Join(",", Texts(content, cs)) + Suffix) == Some(Join(",", Texts(content, cs)))
  {
    var entries := Texts(content, cs);
    forall k, i | 0 <= k < |entries| && 0 <= i < |entries[k]|
      ensures !IsLineTerminator(entries[k][i])
    {
      TextsAt(content, cs, k);
      assert entries[k][i] == content[cs[k].keyStart + i];
    }
    JoinChars(",", entries, c => !IsLineTerminator(c));
    WrapperRoundTrip(Join(",", entries));
  }

  /**
   * The kept entries are the texts of the accepted candidates in order, and
   * the repaired text passes the wrapper match again, with those entries
   * joined by commas as its content. Text the wrapper does not match is
   * returned unchanged.
   */
  lemma RepairOutput(parse: Parser, text: string)
    ensures MatchWrapper(text).None? ==> RepairedText(parse, text) == text
    ensures MatchWrapper(text).Some? ==>
      var content := MatchWrapper(text).value;
      && KeptEntries(parse, content) == Texts(content, Accepted(parse, content, Candidates(content)))
      && Ordered(Accepted(parse, content, Candidates(content)))
      && MatchWrapper(RepairedText(parse, text)) == Some(Join(",", KeptEntries(parse, content)))
  {
    if MatchWrapper(text).Some? {
      var content := MatchWrapper(text).value;
      CandidatesWellFormed(content);
      AcceptedOrdered(parse, content, Candidates(content));
      JoinedTextsRewrap(content, Accepted(parse, content, Candidates(content)));
    }
  }

  /**
   * The repair walk of route.ts. Each iteration either stops (no further
   * quote, no closing quote, no `{`) or moves `currentPos` strictly forward:
   * past the `}` of a balanced candidate, past the key of an unbalanced one.
   */
  method FixMalformedJsonEntries(parse: Parser, text: string) returns (fixedJson: string)
    ensures fixedJson == RepairedText(parse, text)
  {
    var mainMatch := MatchWrapper(text);
    if mainMatch.None? {
      return text;
    }
    var content := mainMatch.value;
    ghost var visit, keep := LoopView(parse, content);
    ghost var goal := Gather(content, visit, keep, 0);
    var validEntries: seq<string> := [];
    var currentPos: nat := 0;
    while currentPos < |content|
      invariant currentPos <= |content|
      invariant validEntries + Gather(content, visit, keep, currentPos) == goal
      decreases |content| - currentPos
    {
      var v := NextVisit(content, currentPos, visit);
      match v
      case Stop =>
        GatherStop(content, visit, keep, currentPos, validEntries);
        break;
      case Balanced(c) =>
        var serverEntry := content[c.keyStart..c.braceEnd + 1];
        var serverKey := content[c.keyStart + 1..c.keyEnd];
        GatherBalanced(content, visit, keep, currentPos, c, validEntries);
        assert keep(c) == if Accept(parse, serverEntry, serverKey) then [serverEntry] else [];
        if Accept(parse, serverEntry, serverKey) {
          validEntries := validEntries + [serverEntry];
        } else {
          assert validEntries + keep(c) == validEntries;
        }
        currentPos := c.braceEnd + 1;
      case Unbalanced(keyEnd) =>
        GatherUnbalanced(content, visit, keep, currentPos, keyEnd, validEntries);
        currentPos := keyEnd + 1;
    }
    GatherStop(content, visit, keep, currentPos, validEntries);
    fixedJson := Prefix + Join(",", validEntries) + Suffix;
  }

  /**
   * One iteration's searches: the key's two quotes, the value's `{`, and
   * the scanner run from it.
   */
  method NextVisit(content: string, currentPos: nat, ghost visit: nat -> Visit) returns (v: Visit)
    requires currentPos < |content|
    requires forall p: nat {:trigger VisitAt(content, p)} :: p < |content| ==> visit(p) == VisitAt(content, p)
    ensures v == visit(currentPos)
  {
    assert visit(currentPos) == VisitAt(content, currentPos);
    var keyStart := IndexOf(content, '"', currentPos);
    if keyStart.None? {
      return Stop;
    }
    var keyEnd := IndexOf(content, '"', keyStart.value + 1);
    if keyEnd.None? {
      return Stop;
    }
    var braceStart := IndexOf(content, '{', keyEnd.value);
    if braceStart.None? {
      return Stop;
    }
    var braceCount, braceEnd := MatchBrace(content, braceStart.value);
    if braceCount == 0 {
      v := Balanced(Candidate(keyStart.value, keyEnd.value, braceStart.value, braceEnd));
    } else {
      v := Unbalanced(keyEnd.value);
    }
  }
}
