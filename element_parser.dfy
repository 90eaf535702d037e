/** The streaming element parser: finds every complete top-level `{...}`
    object in the text a language model has produced so far, decodes each one
    and keeps those with an `id`, and reports how far the text has been
    consumed so that the next call starts after the last complete object.
    Also the default field sets for new elements and the "unclosed brace" test. */
module ElementParser {
  import opened Wrappers
  import opened Json
  import opened Collections

  // ---------------------------------------------------------------------
  // The brace scanner
  // ---------------------------------------------------------------------

  /** What the scanner remembers between characters: the brace depth, whether
      it is inside a string literal, and whether the previous character was a
      backslash inside a string. */
  datatype ScanState = ScanState(depth: int, inString: bool, escape: bool)

  /** The state the scanner starts in at each opening brace. */
  const Fresh := ScanState(0, false, false)

  /** Reading c in state s hits the `}` that brings the depth back to 0. */
  predicate Closes(s: ScanState, c: char) {
    !s.escape && !s.inString && c == '}' && s.depth == 1
  }

  /** One character of the scanner: an escaped character is skipped; a
      backslash in a string starts an escape; a quote toggles the string flag;
      inside a string nothing else counts; outside, braces move the depth. */
  function Step(s: ScanState, c: char): (r: ScanState)
    ensures s.depth >= 1 && !Closes(s, c) ==> r.depth >= 1
    ensures s.inString && !s.escape && c != '"' && c != '\\' ==> r == s
  {
    if s.escape then s.(escape := false)
    else if c == '\\' && s.inString then s.(escape := true)
    else if c == '"' then s.(inString := !s.inString)
    else if s.inString then s
    else if c == '{' then s.(depth := s.depth + 1)
    else if c == '}' then s.(depth := s.depth - 1)
    else s
  }

  /** The state after reading all of w, starting in s. */
  function Fold(s: ScanState, w: string): ScanState
    decreases |w|
  {
    if w == [] then s else Fold(Step(s, w[0]), w[1..])
  }

  lemma {:induction false} FoldAppend(s: ScanState, a: string, b: string)
    ensures Fold(s, a + b) == Fold(Fold(s, a), b)
    decreases |a|
  {
    if a == [] {
      assert a + b == b;
    } else {
      assert (a + b)[0] == a[0] && (a + b)[1..] == a[1..] + b;
      FoldAppend(Step(s, a[0]), a[1..], b);
    }
  }

  lemma FoldSnoc(s: ScanState, w: string, c: char)
    ensures Fold(s, w + [c]) == Step(Fold(s, w), c)
  {
    FoldAppend(s, w, [c]);
    assert Fold(Fold(s, w), [c]) == Fold(Step(Fold(s, w), c), []);
  }

  /** The inner `for` loop of the extractor, resumed at index j in state s:
      the index just past the closing brace, or None when the text ends first. */
  function FindClose(text: string, j: nat, s: ScanState): (r: Option<nat>)
    ensures r.Some? ==> j < r.value <= |text| && text[r.value - 1] == '}'
    decreases |text| - j
  {
    if j >= |text| then None
    else if Closes(s, text[j]) then Some(j + 1)
    else FindClose(text, j + 1, Step(s, text[j]))
  }

  /** `text.indexOf(c, from)` */
  function IndexOf(text: string, c: char, from: nat): (r: Option<nat>)
    ensures r.Some? ==> from <= r.value < |text| && text[r.value] == c
    decreases |text| - from
  {
    if from >= |text| then None
    else if text[from] == c then Some(from)
    else IndexOf(text, c, from + 1)
  }

  /** `indexOf` finds the first occurrence at or after `from`, and None means
      there is none. */
  lemma {:induction false} IndexOfFirst(text: string, c: char, from: nat)
    ensures IndexOf(text, c, from).Some? ==>
              forall k :: from <= k < IndexOf(text, c, from).value ==> text[k] != c
    ensures IndexOf(text, c, from).None? ==> forall k :: from <= k < |text| ==> text[k] != c
    decreases |text| - from
  {
    if from < |text| && text[from] != c {
      IndexOfFirst(text, c, from + 1);
    }
  }

  /** One extracted object: where it starts, its text, and the index just past it. */
  datatype Candidate = Candidate(start: nat, json: string, endIndex: nat)

  /** One candidate is a `{...}` slice of the text at or after `from`. */
  predicate SpanIn(text: string, from: nat, c: Candidate) {
    && from <= c.start < c.endIndex <= |text|
    && text[c.start] == '{' && text[c.endIndex - 1] == '}'
    && c.json == text[c.start..c.endIndex]
  }

  /** Every candidate is a `{...}` slice of the text at or after `from`, and the
      candidates come in increasing, non-overlapping order. */
  predicate SpansIn(text: string, from: nat, cs: seq<Candidate>) {
    && (forall k :: 0 <= k < |cs| ==> SpanIn(text, from, cs[k]))
    && (forall k :: 0 <= k < |cs| - 1 ==> cs[k].endIndex <= cs[k + 1].start)
  }

  /** One round of `extractJsonObjects` with its cursor at i: the next `{`
      and the object it opens, if that object closes within the text. */
  function NextObject(text: string, i: nat): (r: Option<Candidate>)
    ensures r.Some? ==> i <= r.value.start < r.value.endIndex <= |text|
  {
    if i >= |text| then None
    else match IndexOf(text, '{', i)
      case None => None
      case Some(st) =>
        match FindClose(text, st, Fresh)
        case None => None
        case Some(e) => Some(Candidate(st, text[st..e], e))
  }

  /** What `extractJsonObjects` returns when its cursor stands at i: find the
      next `{`, scan to its matching `}`, record the object, resume right
      after it; stop at the end of the text, when no `{` is left, or at the
      first object that does not close. */
  function Extract(text: string, i: nat): seq<Candidate>
    decreases |text| - i
  {
    match NextObject(text, i)
    case None => []
    case Some(c) => [c] + Extract(text, c.endIndex)
  }

  /** The object found is a `{...}` slice of the text at or after i. */
  lemma NextObjectSpan(text: string, i: nat)
    requires NextObject(text, i).Some?
    ensures SpanIn(text, i, NextObject(text, i).value)
  {
  }

  /** The inner loop of the extractor: scans from the `{` at startIndex with
      the three scanner variables and gives the index just past its matching
      `}`, or -1 when the text ends first. */
  method FindObjectEnd(text: string, startIndex: nat) returns (endIndex: int)
    requires startIndex < |text| && text[startIndex] == '{'
    ensures endIndex == -1 || startIndex < endIndex <= |text|
    ensures FindClose(text, startIndex, Fresh) == if endIndex == -1 then None else Some(endIndex)
  {
    var depth, inString, escape := 0, false, false;
    endIndex := -1;
    var j := startIndex;
    while j < |text|
      invariant startIndex <= j <= |text|
      invariant j == startIndex ==> depth == 0 && !inString && !escape
      invariant j > startIndex ==> depth >= 1
      invariant FindClose(text, startIndex, Fresh) == FindClose(text, j, ScanState(depth, inString, escape))
      decreases |text| - j
    {
      ghost var before := ScanState(depth, inString, escape);
      var c := text[j];
      if escape {
        escape := false;
      } else if c == '\\' && inString {
        escape := true;
      } else if c == '"' {
        inString := !inString;
      } else if inString {
      } else if c == '{' {
        depth := depth + 1;
      } else if c == '}' {
        depth := depth - 1;
        if depth == 0 {
          endIndex := j + 1;
          assert Closes(before, c);
          return;
        }
      }
      assert !Closes(before, c) && ScanState(depth, inString, escape) == Step(before, c);
      j := j + 1;
    }
  }

  /** The imperative extractor: an outer loop over objects, each closed by
      the inner scan. */
  method ExtractJsonObjects(text: string) returns (results: seq<Candidate>)
    ensures results == Extract(text, 0)
  {
    results := [];
    var i := 0;
    while i < |text|
      invariant 0 <= i <= |text|
      invariant results + Extract(text, i) == Extract(text, 0)
      decreases |text| - i
    {
      var found := IndexOf(text, '{', i);
      if found.None? {
        assert NextObject(text, i).None?;
        break;
      }
      var startIndex := found.value;
      var endIndex := FindObjectEnd(text, startIndex);
      if endIndex == -1 {
        assert NextObject(text, i).None?;
        break;
      }
      var c := Candidate(startIndex, text[startIndex..endIndex], endIndex);
      assert NextObject(text, i) == Some(c);
      results := results + [c];
      i := endIndex;
    }
  }

  // ---------------------------------------------------------------------
  // What the scanner guarantees
  // ---------------------------------------------------------------------

  /** Every extracted object is a `{...}` slice of the text, and the objects
      come back in increasing, non-overlapping order. */
  lemma {:induction false} ExtractSpans(text: string, i: nat)
    ensures SpansIn(text, i, Extract(text, i))
    decreases |text| - i
  {
    var r := Extract(text, i);
    if r != [] {
      var e := r[0].endIndex;
      var rest := Extract(text, e);
      assert r == [r[0]] + rest;
      NextObjectSpan(text, i);
      ExtractSpans(text, e);
      forall k | 1 <= k < |r|
        ensures SpanIn(text, i, r[k])
      {
        assert r[k] == rest[k - 1] && SpanIn(text, e, rest[k - 1]);
      }
      if |rest| > 0 {
        assert SpanIn(text, e, rest[0]);
      }
      forall k | 1 <= k < |r| - 1
        ensures r[k].endIndex <= r[k + 1].start
      {
        assert r[k] == rest[k - 1] && r[k + 1] == rest[k];
      }
    }
  }

  lemma ExtractSpan(text: string, i: nat, k: nat)
    requires k < |Extract(text, i)|
    ensures SpanIn(text, i, Extract(text, i)[k])
  {
    ExtractSpans(text, i);
  }

  /** The scanner state after the characters text[st..k] of an object. */
  function StateAt(text: string, st: nat, k: nat): ScanState
    requires st <= k <= |text|
  {
    Fold(Fresh, text[st..k])
  }

  lemma StateAtNext(text: string, st: nat, k: nat)
    requires st <= k < |text|
    ensures StateAt(text, st, k + 1) == Step(StateAt(text, st, k), text[k])
  {
    assert text[st..k + 1] == text[st..k] + [text[k]];
    FoldSnoc(Fresh, text[st..k], text[k]);
  }

  /** No character of the object from st up to (not including) j closes it. */
  predicate OpenUpTo(text: string, st: nat, j: nat)
    requires st <= j <= |text|
  {
    forall k :: st <= k < j ==> !Closes(StateAt(text, st, k), text[k])
  }

  /** Scanning forward from j, given that no character before j closed the object. */
  lemma {:induction false} ScanFrom(text: string, st: nat, j: nat)
    requires st <= j <= |text|
    requires OpenUpTo(text, st, j)
    ensures FindClose(text, j, StateAt(text, st, j)).Some? ==>
              var e := FindClose(text, j, StateAt(text, st, j)).value;
              OpenUpTo(text, st, e - 1) && Closes(StateAt(text, st, e - 1), text[e - 1])
    ensures FindClose(text, j, StateAt(text, st, j)).None? ==> OpenUpTo(text, st, |text|)
    decreases |text| - j
  {
    var s := StateAt(text, st, j);
    if j == |text| {
      assert FindClose(text, j, s).None?;
    } else if Closes(s, text[j]) {
      assert FindClose(text, j, s) == Some(j + 1);
    } else {
      StateAtNext(text, st, j);
      OpenUpToNext(text, st, j);
      assert FindClose(text, j, s) == FindClose(text, j + 1, StateAt(text, st, j + 1));
      ScanFrom(text, st, j + 1);
    }
  }

  lemma OpenUpToNext(text: string, st: nat, j: nat)
    requires st <= j < |text|
    requires OpenUpTo(text, st, j) && !Closes(StateAt(text, st, j), text[j])
    ensures OpenUpTo(text, st, j + 1)
  {
  }

  /** Inside an object that has not closed yet, the depth is at least 1. */
  lemma {:induction false} DepthPositive(text: string, st: nat, k: nat)
    requires st < k <= |text| && text[st] == '{'
    requires OpenUpTo(text, st, k)
    ensures StateAt(text, st, k).depth >= 1
  {
    StateAtNext(text, st, k - 1);
    if k - 1 == st {
      assert StateAt(text, st, st) == Fresh;
    } else {
      DepthPositive(text, st, k - 1);
    }
  }

  lemma DepthInside(text: string, st: nat, j: nat)
    requires st < j <= |text| && text[st] == '{'
    requires OpenUpTo(text, st, j)
    ensures forall k :: st < k <= j ==> StateAt(text, st, k).depth >= 1
  {
    forall k | st < k <= j
      ensures StateAt(text, st, k).depth >= 1
    {
      assert OpenUpTo(text, st, k);
      DepthPositive(text, st, k);
    }
  }

  /** An object found at an opening brace is balanced: the depth is at least 1
      at every point strictly inside it and returns to 0 exactly at its end. */
  lemma ObjectBalanced(text: string, st: nat, e: nat)
    requires st < |text| && text[st] == '{'
    requires FindClose(text, st, Fresh) == Some(e)
    ensures StateAt(text, st, e).depth == 0
    ensures forall k :: st < k < e ==> StateAt(text, st, k).depth >= 1
  {
    assert StateAt(text, st, st) == Fresh;
    ScanFrom(text, st, st);
    assert OpenUpTo(text, st, e - 1) && Closes(StateAt(text, st, e - 1), text[e - 1]);
    StateAtNext(text, st, e - 1);
    if st < e - 1 {
      DepthInside(text, st, e - 1);
    }
  }

  /** When no end is found, the depth stays at least 1 up to the end of the
      text: a trailing unbalanced object is never taken as closed. */
  lemma ObjectUnclosed(text: string, st: nat)
    requires st < |text| && text[st] == '{'
    requires FindClose(text, st, Fresh).None?
    ensures forall k :: st < k <= |text| ==> StateAt(text, st, k).depth >= 1
  {
    assert StateAt(text, st, st) == Fresh;
    ScanFrom(text, st, st);
    DepthInside(text, st, |text|);
  }

  /** The body of a JSON string literal as the scanner sees it: characters
      other than `"` and `\`, and backslash pairs `\x` (so `\"` is one of them). */
  predicate StringBody(w: string)
    decreases |w|
  {
    || w == []
    || (w[0] == '\\' && |w| >= 2 && StringBody(w[2..]))
    || (w[0] != '\\' && w[0] != '"' && StringBody(w[1..]))
  }

  /** A string literal leaves the scanner exactly as it found it: braces in it
      do not move the depth and an escaped quote does not end it. */
  lemma {:induction false} StringLiteralInert(s: ScanState, w: string)
    requires !s.inString && !s.escape && StringBody(w)
    ensures Fold(s, ['"'] + w + ['"']) == s
  {
    var inside := s.(inString := true);
    assert Step(s, '"') == inside;
    BodyInert(inside, w);
    FoldAppend(s, ['"'] + w, ['"']);
    FoldAppend(s, ['"'], w);
    assert Fold(s, ['"']) == Fold(inside, []);
    assert Fold(inside, ['"']) == Fold(s, []);
  }

  lemma {:induction false} BodyInert(s: ScanState, w: string)
    requires s.inString && !s.escape && StringBody(w)
    ensures Fold(s, w) == s
    decreases |w|
  {
    if w != [] {
      if w[0] == '\\' {
        assert Fold(s, w) == Fold(Step(s.(escape := true), w[1]), w[2..]) by {
          assert w[1..][0] == w[1] && w[1..][1..] == w[2..];
        }
        BodyInert(s, w[2..]);
      } else {
        BodyInert(s, w[1..]);
      }
    }
  }

  // ---------------------------------------------------------------------
  // Extraction over growing text
  // ---------------------------------------------------------------------

  lemma {:induction false} IndexOfExtend(text: string, more: string, c: char, from: nat)
    requires IndexOf(text, c, from).Some?
    ensures IndexOf(text + more, c, from) == IndexOf(text, c, from)
    decreases |text| - from
  {
    if text[from] != c {
      IndexOfExtend(text, more, c, from + 1);
    }
  }

  lemma {:induction false} FindCloseExtend(text: string, more: string, j: nat, s: ScanState)
    requires FindClose(text, j, s).Some?
    ensures FindClose(text + more, j, s) == FindClose(text, j, s)
    decreases |text| - j
  {
    if !Closes(s, text[j]) {
      FindCloseExtend(text, more, j + 1, Step(s, text[j]));
    }
  }

  /** Appending text can only add objects after the ones already found; it
      never changes or removes them. */
  lemma {:induction false} ExtractExtend(text: string, more: string, i: nat)
    ensures Extract(text, i) <= Extract(text + more, i)
    decreases |text| - i
  {
    if NextObject(text, i).Some? {
      var c := NextObject(text, i).value;
      IndexOfExtend(text, more, '{', i);
      FindCloseExtend(text, more, c.start, Fresh);
      assert (text + more)[c.start..c.endIndex] == text[c.start..c.endIndex];
      assert NextObject(text + more, i) == Some(c);
      ExtractExtend(text, more, c.endIndex);
    }
  }

  function ShiftOpt(o: Option<nat>, d: nat): Option<nat> {
    if o.Some? then Some(o.value + d) else None
  }

  lemma {:induction false} IndexOfSuffix(text: string, d: nat, c: char, i: nat)
    requires d <= |text|
    ensures IndexOf(text, c, d + i) == ShiftOpt(IndexOf(text[d..], c, i), d)
    decreases |text| - d - i
  {
    if d + i < |text| && text[d + i] != c {
      IndexOfSuffix(text, d, c, i + 1);
    }
  }

  lemma {:induction false} FindCloseSuffix(text: string, d: nat, j: nat, s: ScanState)
    requires d <= |text|
    ensures FindClose(text, d + j, s) == ShiftOpt(FindClose(text[d..], j, s), d)
    decreases |text| - d - j
  {
    if d + j < |text| && !Closes(s, text[d + j]) {
      FindCloseSuffix(text, d, j + 1, Step(s, text[d + j]));
    }
  }

  /** One candidate moved `d` characters to the right. */
  function Shift(c: Candidate, d: nat): Candidate {
    Candidate(c.start + d, c.json, c.endIndex + d)
  }

  /** The candidates moved `d` characters to the right. */
  function ShiftBy(cs: seq<Candidate>, d: nat): (r: seq<Candidate>)
    ensures |r| == |cs|
  {
    if cs == [] then [] else [Shift(cs[0], d)] + ShiftBy(cs[1..], d)
  }

  lemma ShiftByCons(c: Candidate, rest: seq<Candidate>, d: nat)
    ensures ShiftBy([c] + rest, d) == [Shift(c, d)] + ShiftBy(rest, d)
  {
    assert ([c] + rest)[1..] == rest;
  }

  lemma {:induction false} ShiftByAt(cs: seq<Candidate>, d: nat, k: nat)
    requires k < |cs|
    ensures ShiftBy(cs, d)[k] == Shift(cs[k], d)
  {
    if k > 0 {
      ShiftByAt(cs[1..], d, k - 1);
    }
  }

  /** Scanning a suffix that starts at d finds the same objects as scanning
      the whole text from d, at offsets d smaller. */
  lemma {:induction false} ExtractSuffix(text: string, d: nat, i: nat)
    requires d <= |text|
    ensures Extract(text, d + i) == ShiftBy(Extract(text[d..], i), d)
    decreases |text| - d - i
  {
    var suffix := text[d..];
    NextObjectSuffix(text, d, i);
    match NextObject(suffix, i)
    case None =>
      assert Extract(suffix, i) == [];
      assert Extract(text, d + i) == [];
    case Some(c) =>
      var rest := Extract(suffix, c.endIndex);
      assert Extract(suffix, i) == [c] + rest;
      assert Extract(text, d + i) == [Shift(c, d)] + Extract(text, d + c.endIndex);
      ExtractSuffix(text, d, c.endIndex);
      ShiftByCons(c, rest, d);
  }

  lemma NextObjectSuffix(text: string, d: nat, i: nat)
    requires d <= |text|
    ensures NextObject(text, d + i) ==
              match NextObject(text[d..], i)
              case None => None
              case Some(c) => Some(Shift(c, d))
  {
    var suffix := text[d..];
    IndexOfSuffix(text, d, '{', i);
    if d + i < |text| && IndexOf(suffix, '{', i).Some? {
      var st := IndexOf(suffix, '{', i).value;
      FindCloseSuffix(text, d, st, Fresh);
      if FindClose(suffix, st, Fresh).Some? {
        var e := FindClose(suffix, st, Fresh).value;
        assert suffix[st..e] == text[d + st..d + e];
      }
    }
  }

  /** After the n-th object, extraction goes on with exactly the objects
      that follow it. */
  lemma {:induction false} ExtractDrop(text: string, i: nat, n: nat)
    requires 0 < n <= |Extract(text, i)|
    ensures Extract(text, Extract(text, i)[n - 1].endIndex) == Extract(text, i)[n..]
    decreases n
  {
    var r := Extract(text, i);
    var e := r[0].endIndex;
    var rest := Extract(text, e);
    assert r == [r[0]] + rest;
    DropHead([r[0]], rest);
    if n > 1 {
      ExtractDrop(text, e, n - 1);
      assert rest[n - 2] == r[n - 1] && rest[n - 1..] == r[n..];
    }
  }

  /** Objects end strictly later the later they come. */
  lemma {:induction false} EndsIncrease(text: string, i: nat, a: nat, b: nat)
    requires a <= b < |Extract(text, i)|
    ensures Extract(text, i)[a].endIndex <= Extract(text, i)[b].endIndex
    decreases b - a
  {
    if a < b {
      ExtractSpans(text, i);
      var r := Extract(text, i);
      assert SpanIn(text, i, r[a + 1]);
      EndsIncrease(text, i, a + 1, b);
    }
  }

  // ---------------------------------------------------------------------
  // parseExcalidrawElements
  // ---------------------------------------------------------------------

  /** `text.slice(from)`; a start past the end gives the empty string. */
  function Slice(text: string, from: nat): (r: string)
    ensures from <= |text| ==> r == text[from..]
    ensures from > |text| ==> r == []
  {
    if from <= |text| then text[from..] else []
  }

  /** A decoded value the parser keeps: one with a truthy `id`. */
  predicate HasId(v: Json) {
    TruthyProp(v, "id")
  }

  /** The texts of the candidates. */
  function Jsons(cs: seq<Candidate>): seq<string>
  {
    seq(|cs|, k requires 0 <= k < |cs| => cs[k].json)
  }

  /** The decoded objects that have an `id`, in text order; a text that does
      not decode, or decodes without an id, is dropped. */
  function Kept(jsons: seq<string>, decode: string -> Option<Json>): seq<Json>
  {
    if jsons == [] then []
    else
      var last := decode(jsons[|jsons| - 1]);
      Kept(jsons[..|jsons| - 1], decode) + (if last.Some? && HasId(last.value) then [last.value] else [])
  }

  /** Every kept object has an id, and no more objects are kept than there
      were texts. */
  lemma {:induction false} KeptHaveIds(jsons: seq<string>, decode: string -> Option<Json>)
    ensures |Kept(jsons, decode)| <= |jsons|
    ensures forall k :: 0 <= k < |Kept(jsons, decode)| ==> HasId(Kept(jsons, decode)[k])
    decreases |jsons|
  {
    if jsons != [] {
      KeptHaveIds(jsons[..|jsons| - 1], decode);
    }
  }

  lemma {:induction false} KeptAppend(a: seq<string>, b: seq<string>, decode: string -> Option<Json>)
    ensures Kept(a + b, decode) == Kept(a, decode) + Kept(b, decode)
    decreases |b|
  {
    if b == [] {
      assert a + b == a;
    } else {
      assert (a + b)[..|a + b| - 1] == a + b[..|b| - 1];
      assert (a + b)[|a + b| - 1] == b[|b| - 1];
      KeptAppend(a, b[..|b| - 1], decode);
    }
  }

  /** The end of the last candidate (the source's `lastIndex`), or 0. */
  function LastEnd(cs: seq<Candidate>): nat {
    if cs == [] then 0 else cs[|cs| - 1].endIndex
  }

  datatype ParseResult = ParseResult(elements: seq<Json>, remainingBuffer: string)

  /** The objects of the unconsumed text, from `processedLength` on. */
  function Pending(text: string, processedLength: nat): seq<Candidate> {
    Extract(Slice(text, processedLength), 0)
  }

  /** The source's `newProcessedLength`: past the last complete object,
      whether or not it decoded. */
  function NewProcessedLength(text: string, processedLength: nat): nat {
    processedLength + LastEnd(Pending(text, processedLength))
  }

  /** What `parseExcalidrawElements(text, processedLength)` returns. */
  function Parse(text: string, processedLength: nat, decode: string -> Option<Json>): ParseResult {
    ParseResult(Kept(Jsons(Pending(text, processedLength)), decode),
                Slice(text, NewProcessedLength(text, processedLength)))
  }

  /** One more object: it is kept when it decodes to a value with an id,
      and the cursor moves past it. */
  lemma KeptSnoc(cs: seq<Candidate>, k: nat, decode: string -> Option<Json>)
    requires k < |cs|
    ensures var last := decode(cs[k].json);
            Kept(Jsons(cs[..k + 1]), decode) ==
            Kept(Jsons(cs[..k]), decode) + (if last.Some? && HasId(last.value) then [last.value] else [])
    ensures LastEnd(cs[..k + 1]) == cs[k].endIndex
  {
    var js := Jsons(cs[..k + 1]);
    assert js[..|js| - 1] == Jsons(cs[..k]);
  }

  method ParseExcalidrawElements(text: string, processedLength: nat, decode: string -> Option<Json>)
    returns (r: ParseResult)
    ensures r == Parse(text, processedLength, decode)
  {
    var elements: seq<Json> := [];
    var newText := Slice(text, processedLength);
    var jsonObjects := ExtractJsonObjects(newText);
    var lastIndex := 0;
    for k := 0 to |jsonObjects|
      invariant elements == Kept(Jsons(jsonObjects[..k]), decode)
      invariant lastIndex == LastEnd(jsonObjects[..k])
    {
      KeptSnoc(jsonObjects, k, decode);
      var element := decode(jsonObjects[k].json);
      if element.Some? && HasId(element.value) {
        elements := elements + [element.value];
      }
      lastIndex := jsonObjects[k].endIndex;
    }
    assert jsonObjects[..|jsonObjects|] == jsonObjects;
    r := ParseResult(elements, Slice(text, processedLength + lastIndex));
  }

  /** The cursor never moves back and never passes the end of the text, and
      the remaining buffer is exactly the text after it. */
  lemma ParseCursor(text: string, processedLength: nat, decode: string -> Option<Json>)
    requires processedLength <= |text|
    ensures processedLength <= NewProcessedLength(text, processedLength) <= |text|
    ensures Parse(text, processedLength, decode).remainingBuffer == text[NewProcessedLength(text, processedLength)..]
    ensures |text| - |Parse(text, processedLength, decode).remainingBuffer| == NewProcessedLength(text, processedLength)
  {
    var cs := Pending(text, processedLength);
    if cs != [] {
      ExtractSpan(text[processedLength..], 0, |cs| - 1);
    }
  }

  /** The cursor after the first n objects of the whole text (0 when n is 0). */
  function CursorAfter(text: string, n: nat): nat
    requires n <= |Extract(text, 0)|
  {
    LastEnd(Extract(text, 0)[..n])
  }

  /** From a cursor after the n-th object, the pending objects are exactly the
      later objects of the whole text, moved by the cursor. */
  lemma PendingAtBoundary(text: string, n: nat)
    requires n <= |Extract(text, 0)|
    ensures CursorAfter(text, n) <= |text|
    ensures ShiftBy(Pending(text, CursorAfter(text, n)), CursorAfter(text, n)) == Extract(text, 0)[n..]
  {
    var p := CursorAfter(text, n);
    ExtractAfterCursor(text, n);
    ExtractSuffix(text, p, 0);
    assert Pending(text, p) == Extract(text[p..], 0);
  }

  /** Extraction resumed at the cursor after the n-th object finds exactly
      the objects after it. */
  lemma ExtractAfterCursor(text: string, n: nat)
    requires n <= |Extract(text, 0)|
    ensures CursorAfter(text, n) <= |text|
    ensures Extract(text, CursorAfter(text, n)) == Extract(text, 0)[n..]
  {
    var all := Extract(text, 0);
    if n > 0 {
      assert CursorAfter(text, n) == all[n - 1].endIndex;
      ExtractSpan(text, 0, n - 1);
      ExtractDrop(text, 0, n);
    } else {
      assert all[n..] == all;
    }
  }

  lemma ShiftByKeepsJsons(cs: seq<Candidate>, d: nat)
    ensures Jsons(ShiftBy(cs, d)) == Jsons(cs)
    ensures cs != [] ==> LastEnd(ShiftBy(cs, d)) == LastEnd(cs) + d
  {
    forall k | 0 <= k < |cs|
      ensures ShiftBy(cs, d)[k].json == cs[k].json
    {
      ShiftByAt(cs, d, k);
    }
    if cs != [] {
      ShiftByAt(cs, d, |cs| - 1);
    }
  }

  /** Parsing from a cursor that stands after the n-th object of the whole
      text yields exactly the objects after it, and the cursor moves to the end
      of the last object of the whole text. */
  lemma ParseFromBoundary(text: string, n: nat, decode: string -> Option<Json>)
    requires n <= |Extract(text, 0)|
    ensures CursorAfter(text, n) <= |text|
    ensures Parse(text, CursorAfter(text, n), decode).elements == Kept(Jsons(Extract(text, 0)[n..]), decode)
    ensures |text| - |Parse(text, CursorAfter(text, n), decode).remainingBuffer| == LastEnd(Extract(text, 0))
  {
    var all := Extract(text, 0);
    var p := CursorAfter(text, n);
    PendingAtBoundary(text, n);
    var pending := Pending(text, p);
    ShiftByKeepsJsons(pending, p);
    ParseCursor(text, p, decode);
    if pending == [] {
      assert all[..n] == all;
    } else {
      assert all[|all| - 1] == all[n..][|pending| - 1];
    }
  }

  lemma JsonsSplit(cs: seq<Candidate>, n: nat)
    requires n <= |cs|
    ensures Jsons(cs[..n]) + Jsons(cs[n..]) == Jsons(cs)
  {
  }

  /** Parsing from the cursor after the first n objects delivers the objects
      with an id among the later ones, so that together with those of the
      first n they are the objects with an id of the whole text; the cursor
      then moves, forward and within the text, to after the last object. */
  lemma {:induction false} ParseAtCursor(text: string, n: nat, decode: string -> Option<Json>)
    requires n <= |Extract(text, 0)|
    ensures CursorAfter(text, n) <= CursorAfter(text, |Extract(text, 0)|) <= |text|
    ensures Parse(text, CursorAfter(text, n), decode).elements == Kept(Jsons(Extract(text, 0)[n..]), decode)
    ensures |text| - |Parse(text, CursorAfter(text, n), decode).remainingBuffer| == CursorAfter(text, |Extract(text, 0)|)
    ensures Kept(Jsons(Extract(text, 0)[..n]), decode) + Parse(text, CursorAfter(text, n), decode).elements ==
            Kept(Jsons(Extract(text, 0)), decode)
  {
    var all := Extract(text, 0);
    ParseFromBoundary(text, n, decode);
    PendingAtBoundary(text, |all|);
    assert all[..|all|] == all;
    if 0 < n < |all| {
      EndsIncrease(text, 0, n - 1, |all| - 1);
    }
    JsonsSplit(all, n);
    KeptAppend(Jsons(all[..n]), Jsons(all[n..]), decode);
  }

  /** Text that arrives later leaves the first n objects, and the cursor
      after them, as they were. */
  lemma GrowText(text: string, more: string, n: nat)
    requires n <= |Extract(text, 0)|
    ensures n <= |Extract(text + more, 0)|
    ensures Extract(text + more, 0)[..n] == Extract(text, 0)[..n]
    ensures CursorAfter(text + more, n) == CursorAfter(text, n)
  {
    ExtractExtend(text, more, 0);
  }

  // ---------------------------------------------------------------------
  // Default fields
  // ---------------------------------------------------------------------

  /** The fields `getDefaultElementProps` always gives the same value. */
  const FixedDefaults: map<string, Json> := map[
    "angle" := JNum(0.0),
    "strokeColor" := JStr("#1e1e1e"),
    "backgroundColor" := JStr("transparent"),
    "fillStyle" := JStr("solid"),
    "strokeWidth" := JNum(2.0),
    "roughness" := JNum(1.0),
    "opacity" := JNum(100.0),
    "version" := JNum(1.0),
    "isDeleted" := JBool(false),
    "groupIds" := JArr([]),
    "boundElements" := JNull,
    "link" := JNull,
    "locked" := JBool(false)
  ]

  /** The fields drawn from the random source and the clock. */
  const VaryingDefaults: set<string> := {"seed", "versionNonce", "updated"}

  /** The drawn fields are not among the fixed ones. */
  lemma VaryingNotFixed()
    ensures forall key :: key in VaryingDefaults ==> key !in FixedDefaults
  {
  }

  /** `Math.floor(draw * scale)` for a draw of `Math.random()`. */
  function RandomBelow(draw: real, scale: nat): (r: int)
    requires 0.0 <= draw < 1.0 && 0 < scale
    ensures 0 <= r < scale
  {
    var s := scale as real;
    assert s - draw * s == (1.0 - draw) * s;
    assert (1.0 - draw) * s > 0.0;
    (draw * s).Floor
  }

  /** `getDefaultElementProps()`, given its two `Math.random()` draws and
      `Date.now()`. */
  function DefaultElementProps(seedDraw: real, nonceDraw: real, now: int): (r: map<string, Json>)
    requires 0.0 <= seedDraw < 1.0 && 0.0 <= nonceDraw < 1.0
    ensures r.Keys == FixedDefaults.Keys + VaryingDefaults
    ensures forall key :: key in FixedDefaults ==> r[key] == FixedDefaults[key]
    ensures "seed" in r && r["seed"].JNum? && 0.0 <= r["seed"].n < 100000.0
    ensures "versionNonce" in r && r["versionNonce"].JNum? && 0.0 <= r["versionNonce"].n < 1000000000.0
    ensures "updated" in r && r["updated"] == JNum(now as real)
  {
    VaryingNotFixed();
    FixedDefaults + map[
      "seed" := JNum(RandomBelow(seedDraw, 100000) as real),
      "versionNonce" := JNum(RandomBelow(nonceDraw, 1000000000) as real),
      "updated" := JNum(now as real)
    ]
  }

  /** Two calls differ at most in the seed, the version nonce and the timestamp. */
  lemma DefaultsDifferOnlyInDraws(s1: real, n1: real, t1: int, s2: real, n2: real, t2: int)
    requires 0.0 <= s1 < 1.0 && 0.0 <= n1 < 1.0
    requires 0.0 <= s2 < 1.0 && 0.0 <= n2 < 1.0
    ensures DefaultElementProps(s1, n1, t1).Keys == DefaultElementProps(s2, n2, t2).Keys
    ensures forall key :: key in DefaultElementProps(s1, n1, t1) && key !in VaryingDefaults ==>
              DefaultElementProps(s1, n1, t1)[key] == DefaultElementProps(s2, n2, t2)[key]
  {
  }

  /** `x || fallback` on a property read. */
  function OrElse(v: Option<Json>, fallback: Json): (r: Json)
    ensures v.Some? && Truthy(v.value) ==> r == v.value
    ensures !(v.Some? && Truthy(v.value)) ==> r == fallback
  {
    if v.Some? && Truthy(v.value) then v.value else fallback
  }

  const TextKeys: set<string> :=
    {"fontSize", "fontFamily", "textAlign", "verticalAlign", "baseline", "containerId", "originalText", "lineHeight"}
  const PathKeys: set<string> :=
    {"points", "lastCommittedPoint", "startBinding", "endBinding", "startArrowhead", "endArrowhead"}

  /** `getTypeSpecificProps(type, element)` */
  function TypeSpecificProps(kind: string, element: Json): (r: map<string, Json>)
    ensures kind == "text" ==> r.Keys == TextKeys
    ensures (kind == "arrow" || kind == "line") ==> r.Keys == PathKeys
    ensures kind != "text" && kind != "arrow" && kind != "line" ==>
              r == map["roundness" := JObj(map["type" := JNum(3.0)])]
  {
    if kind == "text" then
      map[
        "fontSize" := JNum(20.0),
        "fontFamily" := JNum(1.0),
        "textAlign" := JStr("center"),
        "verticalAlign" := JStr("middle"),
        "baseline" := JNum(18.0),
        "containerId" := JNull,
        "originalText" := OrElse(Prop(element, "text"), JStr("")),
        "lineHeight" := JNum(1.25)
      ]
    else if kind == "arrow" || kind == "line" then
      var width := OrElse(Prop(element, "width"), JNum(100.0));
      var height := OrElse(Prop(element, "height"), JNum(0.0));
      map[
        "points" := OrElse(Prop(element, "points"), JArr([JArr([JNum(0.0), JNum(0.0)]), JArr([width, height])])),
        "lastCommittedPoint" := JNull,
        "startBinding" := JNull,
        "endBinding" := JNull,
        "startArrowhead" := JNull,
        "endArrowhead" := if kind == "arrow" then JStr("arrow") else JNull
      ]
    else
      map["roundness" := JObj(map["type" := JNum(3.0)])]
  }

  /** Text elements: `originalText` is the element's own text when it has a
      non-empty one, and the empty string otherwise; the font, alignment,
      baseline, container and line height take fixed values. */
  lemma TextDefaults(element: Json, text: string)
    ensures Prop(element, "text") == Some(JStr(text)) ==>
              TypeSpecificProps("text", element)["originalText"] == JStr(text)
    ensures Prop(element, "text").None? ==>
              TypeSpecificProps("text", element)["originalText"] == JStr("")
    ensures var r := TypeSpecificProps("text", element);
            && r["fontSize"] == JNum(20.0) && r["fontFamily"] == JNum(1.0)
            && r["textAlign"] == JStr("center") && r["verticalAlign"] == JStr("middle")
            && r["baseline"] == JNum(18.0) && r["containerId"] == JNull && r["lineHeight"] == JNum(1.25)
  {
  }

  /** Arrows and lines: given points are kept; without points the path runs
      from (0,0) to (width || 100, height || 0); only an arrow gets an end
      arrowhead. */
  lemma PathDefaults(kind: string, element: Json)
    requires kind == "arrow" || kind == "line"
    ensures var r := TypeSpecificProps(kind, element);
            && (TruthyProp(element, "points") ==> r["points"] == Prop(element, "points").value)
            && (!TruthyProp(element, "points") ==>
                  r["points"] == JArr([JArr([JNum(0.0), JNum(0.0)]),
                                       JArr([OrElse(Prop(element, "width"), JNum(100.0)),
                                             OrElse(Prop(element, "height"), JNum(0.0))])]))
            && (Prop(element, "points").None? && Prop(element, "width").None? && Prop(element, "height").None? ==>
                  r["points"] == JArr([JArr([JNum(0.0), JNum(0.0)]), JArr([JNum(100.0), JNum(0.0)])]))
            && (r["endArrowhead"] == JStr("arrow") <==> kind == "arrow")
            && r["startArrowhead"] == JNull
            && r["lastCommittedPoint"] == JNull && r["startBinding"] == JNull && r["endBinding"] == JNull
  {
  }

  // ---------------------------------------------------------------------
  // hasIncompleteBlock
  // ---------------------------------------------------------------------

  /** `text.lastIndexOf(c)`, -1 when absent. */
  function LastIndexOf(text: string, c: char): (r: int)
    ensures -1 <= r < |text|
    ensures r >= 0 ==> text[r] == c
    ensures forall k :: r < k < |text| ==> text[k] != c
    decreases |text|
  {
    if text == [] then -1
    else if text[|text| - 1] == c then |text| - 1
    else LastIndexOf(text[..|text| - 1], c)
  }

  /** `hasIncompleteBlock(text)`: the last `{` comes after the last `}`, that
      is, some `{` has no `}` anywhere after it. */
  function HasIncompleteBlock(text: string): (r: bool)
    ensures r <==> exists i :: 0 <= i < |text| && text[i] == '{' &&
                              forall k :: i < k < |text| ==> text[k] != '}'
  {
    var open := LastIndexOf(text, '{');
    var close := LastIndexOf(text, '}');
    assert open > close ==> forall k :: open < k < |text| ==> text[k] != '}';
    open > close
  }
}
