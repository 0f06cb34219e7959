/**
 The recursive separator-aware chunker: a stateful splitter that drops white-space pieces,
 a recursion over three levels of separators, and a greedy merge with overlap tails.
 */
module Chunker {
  import opened Text

  const PARAGRAPH: seq<string> := ["\n\n", "\n"]
  const SENTENCE: seq<string> := ["。", "！", "？", "!", "?", "…", "；", ";"]
  const CLAUSE: seq<string> := ["，", ",", "、", "：", ":"]
  const LEVELS: seq<seq<string>> := [PARAGRAPH, SENTENCE, CLAUSE]

  /******* Splitting by one level of separators *******/

  ghost predicate Separators(seps: seq<string>) {
    forall i | 0 <= i < |seps| :: seps[i] != ""
  }

  /** The length of the first separator that starts at `text[i]`, or 0 (an ordered alternation). */
  function MatchAt(text: string, i: nat, seps: seq<string>): (n: nat)
    requires i <= |text|
    ensures i + n <= |text|
    ensures n > 0 ==> text[i..i + n] in seps
    ensures n == 0 && Separators(seps) ==> forall k | 0 <= k < |seps| :: !(seps[k] <= text[i..])
  {
    if seps == [] then 0
    else if seps[0] != "" && seps[0] <= text[i..] then
      assert text[i..i + |seps[0]|] == seps[0];
      |seps[0]|
    else
      assert forall k | 1 <= k < |seps| :: seps[k] == seps[1..][k - 1];
      MatchAt(text, i, seps[1..])
  }

  /** The parts a capturing `re.split` yields from position `i`, where the open text part began at `start`. */
  function Parts(text: string, start: nat, i: nat, seps: seq<string>): (parts: seq<string>)
    requires start <= i <= |text|
    decreases |text| - i
  {
    if i == |text| then [text[start..]]
    else
      var n := MatchAt(text, i, seps);
      if n == 0 then Parts(text, start, i + 1, seps)
      else [text[start..i], text[i..i + n]] + Parts(text, i + n, i + n, seps)
  }

  /** The text from `start`, cut after every separator: the reference for `SplitBy`. */
  function Segments(text: string, start: nat, i: nat, seps: seq<string>): (segments: seq<string>)
    requires start <= i <= |text|
    decreases |text| - i
  {
    if i == |text| then [text[start..]]
    else
      var n := MatchAt(text, i, seps);
      if n == 0 then Segments(text, start, i + 1, seps)
      else [text[start..i + n]] + Segments(text, i + n, i + n, seps)
  }

  /** The `k`-th separator starts at the position, and none before it in the list does. */
  ghost predicate FirstAt(text: string, i: nat, seps: seq<string>, k: nat)
    requires i <= |text|
  {
    k < |seps| && seps[k] != "" && seps[k] <= text[i..] && forall j | 0 <= j < k :: seps[j] == "" || !(seps[j] <= text[i..])
  }

  ghost predicate NoneAt(text: string, i: nat, seps: seq<string>)
    requires i <= |text|
  {
    forall j | 0 <= j < |seps| :: seps[j] == "" || !(seps[j] <= text[i..])
  }

  /** A match is the first alternative of the list that starts at the position. */
  lemma {:induction false} MatchIsFirst(text: string, i: nat, seps: seq<string>)
    requires i <= |text|
    ensures MatchAt(text, i, seps) == 0 ==> NoneAt(text, i, seps)
    ensures MatchAt(text, i, seps) > 0 ==> exists k: nat :: k < |seps| && FirstAt(text, i, seps, k) && |seps[k]| == MatchAt(text, i, seps)
    decreases |seps|
  {
    if seps != [] {
      assert forall j | 1 <= j < |seps| :: seps[j] == seps[1..][j - 1];
      if seps[0] != "" && seps[0] <= text[i..] {
        assert FirstAt(text, i, seps, 0);
      } else {
        MatchIsFirst(text, i, seps[1..]);
        if MatchAt(text, i, seps) > 0 {
          var k: nat :| k < |seps[1..]| && FirstAt(text, i, seps[1..], k) && |seps[1..][k]| == MatchAt(text, i, seps[1..]);
          assert FirstAt(text, i, seps, k + 1);
        }
      }
    }
  }

  /** The first separator to be found from `start` on starts at `b`, and of those that start there it is the first in the list. */
  ghost predicate CutsAt(text: string, start: nat, b: nat, seps: seq<string>, k: nat) {
    && start <= b <= |text| && FirstAt(text, b, seps, k)
    && forall i | start <= i < b :: NoneAt(text, i, seps)
  }

  /** The text from `start`, cut right behind each separator as it is found, without mentioning how the search runs. */
  ghost predicate IsCut(text: string, start: nat, segments: seq<string>, seps: seq<string>)
    requires start <= |text|
    decreases |segments|
  {
    && segments != []
    && if |segments| == 1 then
         segments[0] == text[start..] && forall i | start <= i < |text| :: NoneAt(text, i, seps)
       else
         exists b: nat, k: nat :: CutsAt(text, start, b, seps, k) && segments[0] == text[start..b + |seps[k]|]
                        && IsCut(text, b + |seps[k]|, segments[1..], seps)
  }

  lemma {:induction false} SegmentsAreCut(text: string, start: nat, i: nat, seps: seq<string>)
    requires start <= i <= |text| && forall j | start <= j < i :: NoneAt(text, j, seps)
    ensures IsCut(text, start, Segments(text, start, i, seps), seps)
    decreases |text| - i
  {
    hide MatchAt, FirstAt, NoneAt;
    if i < |text| {
      MatchIsFirst(text, i, seps);
      var n := MatchAt(text, i, seps);
      if n == 0 {
        SegmentsAreCut(text, start, i + 1, seps);
      } else {
        var k: nat :| k < |seps| && FirstAt(text, i, seps, k) && |seps[k]| == n;
        SegmentsAreCut(text, i + n, i + n, seps);
        assert CutsAt(text, start, i, seps, k);
        CutCons(text, start, i, seps, k, Segments(text, i + n, i + n, seps));
      }
    }
  }

  lemma CutCons(text: string, start: nat, b: nat, seps: seq<string>, k: nat, rest: seq<string>)
    requires start <= |text| && CutsAt(text, start, b, seps, k) && b + |seps[k]| <= |text|
    requires IsCut(text, b + |seps[k]|, rest, seps)
    ensures IsCut(text, start, [text[start..b + |seps[k]|]] + rest, seps)
  {
    assert ([text[start..b + |seps[k]|]] + rest)[1..] == rest;
  }

  lemma FirstCut(text: string, start: nat, segments: seq<string>, seps: seq<string>) returns (b: nat, k: nat)
    requires start <= |text| && IsCut(text, start, segments, seps) && |segments| > 1
    ensures CutsAt(text, start, b, seps, k) && k < |seps| && start <= b < b + |seps[k]| <= |text| && !NoneAt(text, b, seps)
    ensures segments[0] == text[start..b + |seps[k]|] && IsCut(text, b + |seps[k]|, segments[1..], seps)
  {
    b, k :| CutsAt(text, start, b, seps, k) && segments[0] == text[start..b + |seps[k]|]
            && IsCut(text, b + |seps[k]|, segments[1..], seps);
  }

  /** There is only one such cut of a text. */
  lemma {:induction false} CutIsUnique(text: string, start: nat, a: seq<string>, b: seq<string>, seps: seq<string>)
    requires start <= |text| && IsCut(text, start, a, seps) && IsCut(text, start, b, seps)
    ensures a == b
    decreases |a|
  {
    hide CutsAt, FirstAt, NoneAt;
    if |a| > 1 {
      var i, k := FirstCut(text, start, a, seps);
      if |b| > 1 {
        var j, l := FirstCut(text, start, b, seps);
        SameFirst(text, start, i, k, j, l, seps);
        hide IsCut;
        CutIsUnique(text, i + |seps[k]|, a[1..], b[1..], seps);
        assert a == [a[0]] + a[1..] && b == [b[0]] + b[1..];
      }
    } else if |b| > 1 {
      var j, l := FirstCut(text, start, b, seps);
    }
  }

  lemma NotNone(text: string, i: nat, seps: seq<string>, k: nat)
    requires i <= |text| && FirstAt(text, i, seps, k)
    ensures i < |text| && !NoneAt(text, i, seps)
  {
  }

  lemma SameFirst(text: string, start: nat, i: nat, k: nat, j: nat, l: nat, seps: seq<string>)
    requires CutsAt(text, start, i, seps, k) && CutsAt(text, start, j, seps, l)
    ensures i == j && k == l
  {
    NotNone(text, i, seps, k);
    NotNone(text, j, seps, l);
  }

  /** With the source's paragraph level, a blank line is never cut in two: a segment ends behind both its line breaks. */
  lemma {:induction false} BlankLinesStay(text: string, start: nat, segments: seq<string>, j: nat)
    requires start <= |text| && IsCut(text, start, segments, PARAGRAPH) && j < |segments| - 1
    ensures |segments[j]| >= 1 && segments[j][|segments[j]| - 1] == '\n'
    ensures (|segments[j]| >= 2 && segments[j][|segments[j]| - 2] == '\n') || segments[j + 1] == "" || segments[j + 1][0] != '\n'
    decreases j
  {
    var b: nat, k: nat :| CutsAt(text, start, b, PARAGRAPH, k) && segments[0] == text[start..b + |PARAGRAPH[k]|]
                && IsCut(text, b + |PARAGRAPH[k]|, segments[1..], PARAGRAPH);
    if j > 0 {
      BlankLinesStay(text, b + |PARAGRAPH[k]|, segments[1..], j - 1);
    } else {
      CutPrefix(text, b + |PARAGRAPH[k]|, segments[1..], PARAGRAPH);
      ParagraphEnds(text, b, k);
    }
  }

  lemma CutPrefix(text: string, start: nat, segments: seq<string>, seps: seq<string>)
    requires start <= |text| && IsCut(text, start, segments, seps)
    ensures segments[0] <= text[start..]
  {
    if |segments| > 1 {
      var b: nat, k: nat :| CutsAt(text, start, b, seps, k) && segments[0] == text[start..b + |seps[k]|]
                  && IsCut(text, b + |seps[k]|, segments[1..], seps);
      assert text[start..b + |seps[k]|] == text[start..][..b + |seps[k]| - start];
    }
  }

  lemma ParagraphEnds(text: string, b: nat, k: nat)
    requires b <= |text| && FirstAt(text, b, PARAGRAPH, k)
    ensures b + |PARAGRAPH[k]| <= |text| && PARAGRAPH[k] <= text[b..] && PARAGRAPH[k][|PARAGRAPH[k]| - 1] == '\n'
    ensures |PARAGRAPH[k]| == 2 ==> text[b] == text[b + 1] == '\n'
    ensures |PARAGRAPH[k]| == 1 ==> b + 1 == |text| || text[b + 1] != '\n'
  {
    if k == 0 {
      assert text[b..][0] == '\n' && text[b..][1] == '\n';
    } else {
      var both, rest := PARAGRAPH[0], text[b..];
      assert !(both <= rest);
      assert |rest| < 2 || rest[0] != both[0] || rest[1] != both[1];
    }
  }

  function NonBlank(ss: seq<string>): seq<string> {
    if ss == [] then [] else (if Blank(ss[0]) then [] else [ss[0]]) + NonBlank(ss[1..])
  }

  /** What is still to come from `parts` when `current` has been collected. */
  function Glue(current: string, parts: seq<string>, seps: seq<string>): seq<string>
    decreases |parts|
  {
    if parts == [] then NonBlank([current])
    else if parts[0] in seps then NonBlank([current + parts[0]]) + Glue("", parts[1..], seps)
    else Glue(current + parts[0], parts[1..], seps)
  }

  lemma {:induction false} GlueParts(text: string, start: nat, i: nat, seps: seq<string>)
    requires start <= i <= |text| && Separators(seps)
    requires forall k | start <= k < i :: MatchAt(text, k, seps) == 0
    ensures Glue("", Parts(text, start, i, seps), seps) == NonBlank(Segments(text, start, i, seps))
    decreases |text| - i
  {
    hide MatchAt, NonBlank, Glue;
    NoMatchInside(text, start, i, seps);
    if i == |text| {
      assert text[start..i] == text[start..];
      GlueLast(text[start..], seps);
    } else {
      var n := MatchAt(text, i, seps);
      if n == 0 {
        GlueParts(text, start, i + 1, seps);
      } else {
        var body, sep := text[start..i], text[i..i + n];
        GlueParts(text, i + n, i + n, seps);
        assert body + sep == text[start..i + n];
        GlueSeparated(body, sep, Parts(text, i + n, i + n, seps), Segments(text, i + n, i + n, seps), seps);
      }
    }
  }

  /** A part without a match in it is no separator, so `fullmatch` tells the two kinds of part apart. */
  lemma NoMatchInside(text: string, start: nat, i: nat, seps: seq<string>)
    requires start <= i <= |text| && Separators(seps)
    requires forall k | start <= k < i :: MatchAt(text, k, seps) == 0
    ensures text[start..i] !in seps
  {
    if i > start {
      assert MatchAt(text, start, seps) == 0;
      forall k | 0 <= k < |seps|
        ensures seps[k] != text[start..i]
      {
        assert !(seps[k] <= text[start..]);
        assert text[start..i] == text[start..][..i - start];
      }
    }
  }

  lemma GlueLast(last: string, seps: seq<string>)
    requires last !in seps
    ensures Glue("", [last], seps) == NonBlank([last])
  {
    assert "" + last == last;
  }

  lemma GlueSeparated(body: string, sep: string, rest: seq<string>, segments: seq<string>, seps: seq<string>)
    requires body !in seps && sep in seps
    requires Glue("", rest, seps) == NonBlank(segments)
    ensures Glue("", [body, sep] + rest, seps) == NonBlank([body + sep] + segments)
  {
    hide NonBlank;
    var parts := [body, sep] + rest;
    assert parts[1..] == [sep] + rest;
    assert parts[1..][1..] == rest;
    assert "" + body == body;
    NonBlankCons(body + sep, segments);
  }

  lemma NonBlankCons(s: string, ss: seq<string>)
    ensures NonBlank([s]) == if Blank(s) then [] else [s]
    ensures NonBlank([s] + ss) == NonBlank([s]) + NonBlank(ss)
  {
    assert ([s] + ss)[1..] == ss;
    assert [s][1..] == [];
    assert NonBlank([]) == [];
  }

  /** One pass over the parts: it closes a piece behind every separator and drops blank ones. */
  method SplitBy(text: string, seps: seq<string>) returns (pieces: seq<string>)
    requires Separators(seps)
    ensures pieces == NonBlank(Segments(text, 0, 0, seps))
    ensures exists segments :: IsCut(text, 0, segments, seps) && pieces == NonBlank(segments)
  {
    SegmentsAreCut(text, 0, 0, seps);
    hide IsCut;
    var parts := Parts(text, 0, 0, seps);
    pieces := [];
    var current := "";
    for k := 0 to |parts|
      invariant pieces + Glue(current, parts[k..], seps) == Glue("", parts, seps)
    {
      assert parts[k..][1..] == parts[k + 1..];
      current := current + parts[k];
      if parts[k] in seps {
        NonBlankCons(current, []);
        if !Blank(current) {
          pieces := pieces + [current];
        }
        current := "";
      }
    }
    NonBlankCons(current, []);
    if !Blank(current) {
      pieces := pieces + [current];
    }
    GlueParts(text, 0, 0, seps);
  }

  /******* What a split keeps *******/

  /** `pieces` are substrings of `text`, in order and apart, and only white space lies between them. */
  ghost predicate Covers(pieces: seq<string>, text: string)
    decreases |pieces|
  {
    if pieces == [] then Blank(text)
    else exists gap, rest :: Opens(text, gap, pieces[0], rest) && Covers(pieces[1..], rest)
  }

  ghost predicate Opens(text: string, gap: string, piece: string, rest: string) {
    text == gap + piece + rest && Blank(gap)
  }

  lemma {:induction false} CoversConcat(a: seq<string>, s: string, b: seq<string>, t: string)
    requires Covers(a, s) && Covers(b, t)
    ensures Covers(a + b, s + t)
    decreases |a|
  {
    if a == [] {
      assert a + b == b;
      if b != [] {
        var gap, rest :| Opens(t, gap, b[0], rest) && Covers(b[1..], rest);
        assert s + (gap + b[0] + rest) == (s + gap) + b[0] + rest;
        assert Opens(s + t, s + gap, b[0], rest);
      }
    } else {
      var gap, rest :| Opens(s, gap, a[0], rest) && Covers(a[1..], rest);
      CoversConcat(a[1..], rest, b, t);
      assert (a + b)[1..] == a[1..] + b;
      assert gap + a[0] + rest + t == gap + a[0] + (rest + t);
      assert Opens(s + t, gap, (a + b)[0], rest + t);
    }
  }

  lemma CoversCons(first: string, pieces: seq<string>, rest: string)
    requires Covers(pieces, rest)
    ensures Covers([first] + pieces, first + rest)
  {
    assert ([first] + pieces)[1..] == pieces;
    assert "" + first + rest == first + rest;
    assert Opens(first + rest, "", ([first] + pieces)[0], rest);
  }

  lemma CoversSelf(text: string)
    ensures Covers([text], text)
  {
    CoversCons(text, [], "");
    assert text + "" == text && [text] + [] == [text];
  }

  /** Every piece is non-empty and no longer than `size`. */
  ghost predicate Within(pieces: seq<string>, size: nat) {
    forall i | 0 <= i < |pieces| :: 0 < |pieces[i]| <= size
  }

  lemma {:induction false} SegmentsCover(text: string, start: nat, i: nat, seps: seq<string>)
    requires start <= i <= |text|
    ensures Covers(NonBlank(Segments(text, start, i, seps)), text[start..])
    ensures forall p | p in NonBlank(Segments(text, start, i, seps)) :: !Blank(p)
    decreases |text| - i
  {
    hide Covers, NonBlank, MatchAt;
    if i == |text| {
      SingleCovers(text[start..]);
    } else {
      var n := MatchAt(text, i, seps);
      if n == 0 {
        SegmentsCover(text, start, i + 1, seps);
      } else {
        var rest := Segments(text, i + n, i + n, seps);
        SegmentsCover(text, i + n, i + n, seps);
        assert text[start..i + n] + text[i + n..] == text[start..];
        ConsCovers(text[start..i + n], rest, text[i + n..]);
      }
    }
  }

  lemma ConsCovers(first: string, rest: seq<string>, tail: string)
    requires Covers(NonBlank(rest), tail)
    requires forall p | p in NonBlank(rest) :: !Blank(p)
    ensures Covers(NonBlank([first] + rest), first + tail)
    ensures forall p | p in NonBlank([first] + rest) :: !Blank(p)
  {
    SingleCovers(first);
    NonBlankCons(first, rest);
    CoversConcat(NonBlank([first]), first, NonBlank(rest), tail);
  }

  lemma SingleCovers(s: string)
    ensures Covers(NonBlank([s]), s)
    ensures forall p | p in NonBlank([s]) :: p == s && !Blank(p)
  {
    NonBlankCons(s, []);
    if !Blank(s) {
      CoversSelf(s);
    }
  }

  /** No character that is not white space is lost, added or reordered. */
  lemma {:induction false} CoversKeepsInk(pieces: seq<string>, text: string)
    requires Covers(pieces, text)
    ensures Ink(Flatten(pieces)) == Ink(text)
    ensures |Flatten(pieces)| <= |text|
    decreases |pieces|
  {
    if pieces == [] {
      InkBlank(text);
    } else {
      var gap, rest :| Opens(text, gap, pieces[0], rest) && Covers(pieces[1..], rest);
      CoversKeepsInk(pieces[1..], rest);
      hide Covers;
      InkAfterGap(gap, pieces[0], rest);
      InkConcat(pieces[0], Flatten(pieces[1..]));
    }
  }

  lemma InkAfterGap(gap: string, p: string, rest: string)
    requires Blank(gap)
    ensures Ink(gap + p + rest) == Ink(p) + Ink(rest)
  {
    InkBlank(gap);
    InkConcat(gap, p);
    InkConcat(gap + p, rest);
  }

  lemma {:induction false} ElementOfFlatten(pieces: seq<string>, k: nat)
    requires k < |pieces|
    ensures |pieces[k]| <= |Flatten(pieces)|
    ensures forall j | 0 <= j < |pieces| && j != k :: |pieces[k]| + |pieces[j]| <= |Flatten(pieces)|
  {
    if k > 0 {
      ElementOfFlatten(pieces[1..], k - 1);
      forall j | 0 <= j < |pieces| && j != k
        ensures |pieces[k]| + |pieces[j]| <= |Flatten(pieces)|
      {
        if j > 0 { assert pieces[1..][j - 1] == pieces[j]; }
      }
    } else {
      forall j | 1 <= j < |pieces|
        ensures |pieces[k]| + |pieces[j]| <= |Flatten(pieces)|
      {
        ElementOfFlatten(pieces[1..], j - 1);
      }
    }
  }

  /** The termination measure: of two or more non-empty pieces each is strictly shorter than the text. */
  lemma SplitShrinks(pieces: seq<string>, text: string)
    requires Covers(pieces, text) && |pieces| > 1
    requires forall p | p in pieces :: p != ""
    ensures forall p | p in pieces :: |p| < |text|
  {
    CoversKeepsInk(pieces, text);
    forall p | p in pieces
      ensures |p| < |text|
    {
      var k :| 0 <= k < |pieces| && pieces[k] == p;
      ElementOfFlatten(pieces, k);
      var j := if k == 0 then 1 else 0;
      assert pieces[j] in pieces;
    }
  }

  /******* The recursion over the levels *******/

  ghost predicate Levels(levels: seq<seq<string>>) {
    forall i | 0 <= i < |levels| :: Separators(levels[i])
  }

  lemma SourceLevels()
    ensures Levels(LEVELS)
  {
    assert Separators(PARAGRAPH) && Separators(SENTENCE) && Separators(CLAUSE);
  }

  /** The pieces of the first level that splits the text, or none. */
  function FirstSplit(text: string, levels: seq<seq<string>>): (pieces: seq<string>)
    ensures |pieces| > 1 ==> Covers(pieces, text) && forall p | p in pieces :: !Blank(p) && |p| < |text|
    decreases |levels|
  {
    if levels == [] then []
    else
      var pieces := NonBlank(Segments(text, 0, 0, levels[0]));
      SegmentsCover(text, 0, 0, levels[0]);
      assert text[0..] == text;
      if |pieces| > 1 then SplitShrinks(pieces, text); pieces
      else FirstSplit(text, levels[1..])
  }

  function HardCut(text: string, size: nat): (pieces: seq<string>)
    requires size > 0
    decreases |text|
  {
    if text == "" then []
    else if |text| <= size then [text]
    else [text[..size]] + HardCut(text[size..], size)
  }

  function Pieces(text: string, size: nat, levels: seq<seq<string>>): (pieces: seq<string>)
    requires size > 0
    decreases 2 * |text| + 1, 0
  {
    if |text| <= size then [text]
    else
      var split := FirstSplit(text, levels);
      if |split| > 1 then PiecesOfAll(split, size, levels, |text|) else HardCut(text, size)
  }

  function PiecesOfAll(texts: seq<string>, size: nat, levels: seq<seq<string>>, bound: nat): (pieces: seq<string>)
    requires size > 0
    requires forall t | t in texts :: |t| < bound
    decreases 2 * bound, |texts|
  {
    if texts == [] then []
    else Pieces(texts[0], size, levels) + PiecesOfAll(texts[1..], size, levels, bound)
  }

  lemma OneMorePiece(texts: seq<string>, k: nat, size: nat, levels: seq<seq<string>>, bound: nat)
    requires size > 0 && k < |texts|
    requires forall t | t in texts :: |t| < bound
    ensures PiecesOfAll(texts[k..], size, levels, bound)
         == Pieces(texts[k], size, levels) + PiecesOfAll(texts[k + 1..], size, levels, bound)
  {
    assert texts[k..][1..] == texts[k + 1..];
  }

  lemma OneMoreCut(text: string, start: nat, size: nat)
    requires 0 < size && start < |text|
    ensures start + size <= |text| ==>
              HardCut(text[start..], size) == [text[start..start + size]] + HardCut(text[start + size..], size)
    ensures start + size > |text| ==> HardCut(text[start..], size) == [text[start..]]
  {
    if start + size < |text| {
      assert text[start..][..size] == text[start..start + size];
      assert text[start..][size..] == text[start + size..];
    } else if start + size == |text| {
      assert text[start..] == text[start..start + size];
      assert HardCut(text[start + size..], size) == [];
    }
  }

  lemma NextLevel(text: string, levels: seq<seq<string>>, k: nat)
    requires k < |levels|
    ensures var pieces := NonBlank(Segments(text, 0, 0, levels[k]));
            FirstSplit(text, levels[k..]) == if |pieces| > 1 then pieces else FirstSplit(text, levels[k + 1..])
  {
    hide Segments, NonBlank;
    assert levels[k..][1..] == levels[k + 1..];
  }

  /** Tries the levels in order; the first that splits a long text is applied to each of its pieces. */
  method SplitPieces(text: string, size: nat, levels: seq<seq<string>>) returns (result: seq<string>)
    requires size > 0 && Levels(levels)
    ensures result == Pieces(text, size, levels)
    decreases |text|, 1
  {
    hide FirstSplit, Segments, MatchAt, NonBlank, HardCut, Covers, PiecesOfAll;
    if |text| <= size {
      return [text];
    }
    assert levels[0..] == levels;
    for k := 0 to |levels|
      invariant FirstSplit(text, levels) == FirstSplit(text, levels[k..])
    {
      NextLevel(text, levels, k);
      var pieces := SplitBy(text, levels[k]);
      if |pieces| > 1 {
        result := SplitEach(pieces, size, levels, |text|);
        return;
      }
    }
    assert levels[|levels|..] == [];
    NoLevels(text);
    result := CutEvery(text, size);
  }

  lemma NoLevels(text: string)
    ensures FirstSplit(text, []) == []
  {
  }

  /** The loop over the pieces of one split. */
  method SplitEach(pieces: seq<string>, size: nat, levels: seq<seq<string>>, bound: nat) returns (result: seq<string>)
    requires size > 0 && Levels(levels)
    requires forall p | p in pieces :: |p| < bound
    ensures result == PiecesOfAll(pieces, size, levels, bound)
    decreases bound, 0
  {
    hide Pieces, FirstSplit;
    result := [];
    for k := 0 to |pieces|
      invariant result + PiecesOfAll(pieces[k..], size, levels, bound) == PiecesOfAll(pieces, size, levels, bound)
    {
      OneMorePiece(pieces, k, size, levels, bound);
      var more := SplitPieces(pieces[k], size, levels);
      result := result + more;
    }
  }

  /** What happens to a text that no level splits: it is cut every `size` characters. */
  method CutEvery(text: string, size: nat) returns (result: seq<string>)
    requires size > 0
    ensures result == HardCut(text, size)
  {
    result := [];
    var start := 0;
    while start < |text|
      invariant start <= |text| ==> result + HardCut(text[start..], size) == HardCut(text, size)
      invariant start > |text| ==> result == HardCut(text, size)
    {
      OneMoreCut(text, start, size);
      var end := if start + size <= |text| then start + size else |text|;
      assert start + size > |text| ==> text[start..end] == text[start..];
      result := result + [text[start..end]];
      start := start + size;
    }
  }

  /******* When a text is cut hard *******/

  /** The positions right behind the separators found from `i` on. */
  function Cuts(text: string, i: nat, seps: seq<string>): (cuts: seq<nat>)
    requires i <= |text|
    ensures forall k | 0 <= k < |cuts| :: i <= cuts[k] <= |text|
    decreases |text| - i
  {
    if i == |text| then []
    else
      var n := MatchAt(text, i, seps);
      if n == 0 then Cuts(text, i + 1, seps) else [i + n] + Cuts(text, i + n, seps)
  }

  /** There are characters other than white space on both sides of position `c`. */
  ghost predicate Straddled(text: string, start: nat, c: nat)
    requires start <= c <= |text|
  {
    !Blank(text[start..c]) && !Blank(text[c..])
  }

  ghost predicate AnyStraddled(text: string, start: nat, cuts: seq<nat>) {
    exists k :: 0 <= k < |cuts| && start <= cuts[k] <= |text| && Straddled(text, start, cuts[k])
  }

  lemma {:induction false} SplitsExactly(text: string, start: nat, i: nat, seps: seq<string>)
    requires start <= i <= |text|
    ensures |NonBlank(Segments(text, start, i, seps))| > 1 <==> AnyStraddled(text, start, Cuts(text, i, seps))
    ensures NonBlank(Segments(text, start, i, seps)) == [] <==> Blank(text[start..])
    decreases |text| - i
  {
    hide MatchAt, AnyStraddled, NonBlank, Straddled, Blank;
    if i == |text| {
      NonBlankCons(text[start..], []);
      NoneStraddled(text, start);
    } else {
      var n := MatchAt(text, i, seps);
      if n == 0 {
        SplitsExactly(text, start, i + 1, seps);
      } else {
        SplitsExactly(text, i + n, i + n, seps);
        NonBlankCons(text[start..i + n], Segments(text, i + n, i + n, seps));
        StraddledCons(text, start, i + n, Cuts(text, i + n, seps));
        StraddledHere(text, start, i + n);
      }
    }
  }

  lemma NoneStraddled(text: string, start: nat)
    ensures !AnyStraddled(text, start, [])
  {
  }

  lemma BlankAcross(text: string, a: nat, b: nat, c: nat)
    requires a <= b <= c <= |text|
    ensures Blank(text[a..c]) <==> Blank(text[a..b]) && Blank(text[b..c])
    ensures text[b..|text|] == text[b..] && text[a..|text|] == text[a..]
  {
    var left, right, all := text[a..b], text[b..c], text[a..c];
    assert forall i | 0 <= i < |left| :: left[i] == all[i];
    assert forall i | 0 <= i < |right| :: right[i] == all[|left| + i];
    assert forall i | |left| <= i < |all| :: all[i] == right[i - |left|];
  }

  lemma StraddledHere(text: string, start: nat, c: nat)
    requires start <= c <= |text|
    ensures Straddled(text, start, c) <==> !Blank(text[start..c]) && !Blank(text[c..])
    ensures Blank(text[start..]) <==> Blank(text[start..c]) && Blank(text[c..])
  {
    BlankAcross(text, start, c, |text|);
  }

  lemma StraddledLater(text: string, start: nat, c: nat, later: nat)
    requires start <= c <= later <= |text|
    ensures Straddled(text, c, later) ==> Straddled(text, start, later)
    ensures Straddled(text, start, later) ==> Straddled(text, start, c) || Straddled(text, c, later)
  {
    BlankAcross(text, start, c, later);
    BlankAcross(text, c, later, |text|);
  }

  lemma StraddledCons(text: string, start: nat, c: nat, rest: seq<nat>)
    requires start <= c <= |text| && forall k | 0 <= k < |rest| :: c <= rest[k] <= |text|
    ensures AnyStraddled(text, start, [c] + rest) <==> Straddled(text, start, c) || AnyStraddled(text, c, rest)
  {
    hide Straddled;
    var cuts := [c] + rest;
    forall k | 0 <= k < |rest|
      ensures Straddled(text, c, rest[k]) ==> Straddled(text, start, rest[k])
      ensures Straddled(text, start, rest[k]) ==> Straddled(text, start, c) || Straddled(text, c, rest[k])
    {
      StraddledLater(text, start, c, rest[k]);
    }
    assert cuts[0] == c && forall k | 0 <= k < |rest| :: cuts[k + 1] == rest[k];
  }

  /**
   Exactly when a long text is cut hard: at every level no separator has characters other
   than white space on both sides. So a text may hold separators and still be cut hard.
   */
  lemma {:induction false} HardCutExactly(text: string, levels: seq<seq<string>>)
    ensures |FirstSplit(text, levels)| <= 1
       <==> forall k | 0 <= k < |levels| :: !AnyStraddled(text, 0, Cuts(text, 0, levels[k]))
    decreases |levels|
  {
    hide Segments, NonBlank, Covers, AnyStraddled, Cuts;
    if levels != [] {
      SplitsExactly(text, 0, 0, levels[0]);
      HardCutExactly(text, levels[1..]);
      assert forall k | 1 <= k < |levels| :: levels[k] == levels[1..][k - 1];
    }
  }

  lemma LevelsFollow(levels: seq<seq<string>>, text: string)
    requires |levels| == 3
    ensures var lines, sentences, clauses := NonBlank(Segments(text, 0, 0, levels[0])), NonBlank(Segments(text, 0, 0, levels[1])),
                                             NonBlank(Segments(text, 0, 0, levels[2]));
            FirstSplit(text, levels) == if |lines| > 1 then lines
                                        else if |sentences| > 1 then sentences
                                        else if |clauses| > 1 then clauses
                                        else []
  {
    hide FirstSplit, Segments, NonBlank;
    assert levels[0..] == levels;
    NextLevel(text, levels, 0);
    NextLevel(text, levels, 1);
    NextLevel(text, levels, 2);
    assert levels[3..] == [];
    NoLevels(text);
  }

  /** The order of the levels of the source: line breaks, then the ends of sentences, then those of clauses. */
  lemma LevelsInOrder(text: string)
    ensures var lines := NonBlank(Segments(text, 0, 0, ["\n\n", "\n"]));
            var sentences := NonBlank(Segments(text, 0, 0, ["。", "！", "？", "!", "?", "…", "；", ";"]));
            var clauses := NonBlank(Segments(text, 0, 0, ["，", ",", "、", "：", ":"]));
            FirstSplit(text, LEVELS) == if |lines| > 1 then lines
                                        else if |sentences| > 1 then sentences
                                        else if |clauses| > 1 then clauses
                                        else []
  {
    hide FirstSplit, Segments, NonBlank;
    LevelsFollow(LEVELS, text);
  }

  lemma {:induction false} HardCutAt(text: string, size: nat, k: nat, at: nat)
    requires size > 0 && k < |HardCut(text, size)| && at == k * size
    ensures at < |text| && HardCut(text, size)[k] == text[at..if at + size < |text| then at + size else |text|]
    decreases |text|
  {
    if |text| > size && k > 0 {
      var rest := text[size..];
      assert at - size == (k - 1) * size >= 0;
      HardCutAt(rest, size, k - 1, at - size);
    }
  }

  /** A hard cut is regular: every piece but the last has exactly the size. */
  lemma HardCutIsRegular(text: string, size: nat, k: nat)
    requires size > 0 && k < |HardCut(text, size)|
    ensures k * size < |text| && HardCut(text, size)[k] == text[k * size..if (k + 1) * size < |text| then (k + 1) * size else |text|]
  {
    HardCutAt(text, size, k, k * size);
    assert (k + 1) * size == k * size + size;
  }

  predicate StartsSeparator(c: char, seps: seq<string>) {
    exists k :: 0 <= k < |seps| && seps[k] != "" && seps[k][0] == c
  }

  /** No separator starts at any of the characters. */
  predicate Clean(s: string, seps: seq<string>) {
    forall i | 0 <= i < |s| :: !StartsSeparator(s[i], seps)
  }

  lemma {:induction false} NoMatchAtClean(text: string, i: nat, seps: seq<string>)
    requires i < |text| && !StartsSeparator(text[i], seps)
    ensures MatchAt(text, i, seps) == 0
    decreases |seps|
  {
    if seps != [] {
      assert forall k | 0 <= k < |seps[1..]| :: seps[1..][k] == seps[k + 1];
      assert !StartsSeparator(text[i], seps[1..]);
      NoMatchAtClean(text, i, seps[1..]);
      assert seps[0] != "" ==> seps[0][0] != text[i..][0];
    }
  }

  lemma {:induction false} CutsOnlyAtEnd(text: string, i: nat, seps: seq<string>)
    requires i <= |text| && forall j | i <= j < |text| - 1 :: !StartsSeparator(text[j], seps)
    ensures forall k | 0 <= k < |Cuts(text, i, seps)| :: Cuts(text, i, seps)[k] == |text|
    decreases |text| - i
  {
    hide MatchAt, StartsSeparator;
    if i < |text| {
      if i < |text| - 1 {
        NoMatchAtClean(text, i, seps);
        CutsOnlyAtEnd(text, i + 1, seps);
      } else if MatchAt(text, i, seps) == 0 {
        CutsOnlyAtEnd(text, i + 1, seps);
      } else {
        assert Cuts(text, |text|, seps) == [];
      }
    }
  }

  /**
   With the levels of the source: a sentence that is too long and has no separator but the one
   at its end is cut hard, although that separator is there.
   */
  lemma LongSentenceIsCut(text: string, size: nat)
    requires 0 < size < |text|
    requires forall k | 0 <= k < |LEVELS| :: Clean(text[..|text| - 1], LEVELS[k])
    ensures Pieces(text, size, LEVELS) == HardCut(text, size)
  {
    forall k | 0 <= k < |LEVELS|
      ensures !AnyStraddled(text, 0, Cuts(text, 0, LEVELS[k]))
    {
      assert forall j | 0 <= j < |text| - 1 :: text[..|text| - 1][j] == text[j];
      CutsOnlyAtEnd(text, 0, LEVELS[k]);
      assert Blank(text[|text|..]);
    }
    HardCutExactly(text, LEVELS);
    hide FirstSplit;
  }

  /** So even a sentence of two letters is cut when only two characters fit. */
  lemma SentenceCutInHalf(text: string)
    requires text == "ab!"
    ensures Pieces(text, 2, LEVELS) == ["ab", "!"]
  {
    assert text[..2] == "ab" && text[2..] == "!";
    assert HardCut(text[2..], 2) == ["!"];
    LongSentenceIsCut(text, 2);
  }

  lemma {:induction false} HardCutCovers(text: string, size: nat)
    requires size > 0
    ensures Covers(HardCut(text, size), text)
    ensures Within(HardCut(text, size), size)
    decreases |text|
  {
    if text == "" {
    } else if |text| <= size {
      CoversSelf(text);
    } else {
      hide Covers;
      var first, rest := text[..size], text[size..];
      HardCutCovers(rest, size);
      CoversCons(first, HardCut(rest, size), rest);
      assert first + rest == text;
    }
  }

  /**
   Main result on splitting: every piece is non-empty and fits, and together the pieces are
   the text in order, up to white space. It holds for every choice of separator levels.
   */
  lemma {:induction false} PiecesCover(text: string, size: nat, levels: seq<seq<string>>)
    requires size > 0
    ensures Covers(Pieces(text, size, levels), text)
    ensures Ink(Flatten(Pieces(text, size, levels))) == Ink(text)
    ensures text != "" ==> Within(Pieces(text, size, levels), size)
    decreases 2 * |text| + 1, 0
  {
    hide FirstSplit;
    if |text| <= size {
      CoversSelf(text);
    } else {
      var split := FirstSplit(text, levels);
      if |split| > 1 {
        PiecesOfAllCover(split, text, size, levels, |text|);
      } else {
        HardCutCovers(text, size);
      }
    }
    CoversKeepsInk(Pieces(text, size, levels), text);
  }

  lemma {:induction false} PiecesOfAllCover(
    texts: seq<string>, whole: string, size: nat, levels: seq<seq<string>>, bound: nat)
    requires size > 0 && Covers(texts, whole)
    requires forall t | t in texts :: !Blank(t) && |t| < bound
    ensures Covers(PiecesOfAll(texts, size, levels, bound), whole)
    ensures Within(PiecesOfAll(texts, size, levels, bound), size)
    decreases 2 * bound, |texts|
  {
    hide Pieces, Ink, Flatten;
    if texts != [] {
      var t := texts[0];
      assert t in texts && t != "";
      var gap, rest :| Opens(whole, gap, t, rest) && Covers(texts[1..], rest);
      PiecesCover(t, size, levels);
      PiecesOfAllCover(texts[1..], rest, size, levels, bound);
      hide Covers;
      CoversAround(gap, Pieces(t, size, levels), t, PiecesOfAll(texts[1..], size, levels, bound), rest);
    }
  }

  lemma CoversAround(gap: string, a: seq<string>, s: string, b: seq<string>, t: string)
    requires Blank(gap) && Covers(a, s) && Covers(b, t)
    ensures Covers(a + b, gap + s + t)
  {
    CoversConcat([], gap, a, s);
    assert [] + a == a;
    CoversConcat(a, gap + s, b, t);
  }

  /******* Merging pieces into chunks *******/

  /** The characters after which an overlap tail may start. */
  predicate IsStop(c: char) {
    c in "。！？!?…；;\n"
  }

  /** They are the separators of sentences and the line break. */
  lemma StopsEndSentences(c: char)
    ensures IsStop(c) <==> [c] in SENTENCE || c == '\n'
  {
    if [c] in SENTENCE {
      var k :| 0 <= k < |SENTENCE| && SENTENCE[k] == [c];
      assert SENTENCE[k][0] == c;
    }
    if IsStop(c) && c != '\n' {
      var k :| 0 <= k < 8 && "。！？!?…；;"[k] == c;
      assert SENTENCE == ["。", "！", "？", "!", "?", "…", "；", ";"];
    }
  }

  /** The index of the first stop character, or the length of the text. */
  function FirstStop(s: string): (k: nat)
    ensures k <= |s|
    ensures forall i | 0 <= i < k :: !IsStop(s[i])
    ensures k < |s| ==> IsStop(s[k])
  {
    if s == "" || IsStop(s[0]) then 0 else 1 + FirstStop(s[1..])
  }

  /** The end of a chunk that the next one repeats: at most `overlap` characters, cut behind the first stop among them. */
  function OverlapTail(text: string, overlap: nat): (tail: string)
    ensures |tail| <= overlap && |tail| <= |text|
    ensures tail == text[|text| - |tail|..]
  {
    var budget := if overlap < |text| then overlap else |text|;
    var window := text[|text| - budget..];
    var k := FirstStop(window);
    if k < |window| then window[k + 1..] else window
  }

  /**
   The tail is the longest one allowed: it is the whole window, which then holds no stop,
   or it starts right behind the window's first stop.
   */
  lemma OverlapTailAligned(text: string, overlap: nat)
    ensures var n := |OverlapTail(text, overlap)|;
            var window := text[|text| - (if overlap < |text| then overlap else |text|)..];
            if exists c :: c in window && IsStop(c) then
              && n < |window| && IsStop(window[|window| - n - 1])
              && forall i | 0 <= i < |window| - n - 1 :: !IsStop(window[i])
            else
              n == |window|
  {
    var window := text[|text| - (if overlap < |text| then overlap else |text|)..];
    var k := FirstStop(window);
    if k < |window| {
      assert window[k] in window;
    }
  }

  function Assemble(current: string, pieces: seq<string>, size: nat, overlap: nat): (chunks: seq<string>)
    decreases |pieces|
  {
    if pieces == [] then
      if current == "" then [] else [current]
    else if current == "" then
      Assemble(pieces[0], pieces[1..], size, overlap)
    else if |current| + |pieces[0]| <= size then
      Assemble(current + pieces[0], pieces[1..], size, overlap)
    else
      [current] + Assemble(OverlapTail(current, overlap) + pieces[0], pieces[1..], size, overlap)
  }

  /** One pass over the pieces, which opens a new chunk with a tail of the last one when a piece does not fit. */
  method AssembleChunks(pieces: seq<string>, size: nat, overlap: nat) returns (chunks: seq<string>)
    ensures chunks == Assemble("", pieces, size, overlap)
  {
    hide OverlapTail;
    chunks := [];
    var current := "";
    for k := 0 to |pieces|
      invariant chunks + Assemble(current, pieces[k..], size, overlap) == Assemble("", pieces, size, overlap)
    {
      assert pieces[k..][1..] == pieces[k + 1..];
      if current == "" {
        current := pieces[k];
      } else if |current| + |pieces[k]| <= size {
        current := current + pieces[k];
      } else {
        chunks := chunks + [current];
        var tail := OverlapTail(current, overlap);
        assert "" + pieces[k] == pieces[k];
        current := if tail != "" then tail + pieces[k] else pieces[k];
      }
    }
    if current != "" {
      chunks := chunks + [current];
    }
  }

  /******* What the merge promises, without mentioning how it runs *******/

  /**
   `chunks` are the pieces taken group by group. A chunk is the overlap tail of the chunk
   before it followed by its group; inside a group every further piece still fits, and a
   group ends only where the next piece would overflow. `tail` opens the first chunk.
   */
  ghost predicate Greedy(
    tail: string, chunks: seq<string>, groups: seq<seq<string>>, size: nat, overlap: nat)
    decreases |groups|
  {
    && |chunks| == |groups|
    && (groups != [] ==>
          && groups[0] != []
          && chunks[0] == tail + Flatten(groups[0])
          && Fits(tail + groups[0][0], groups[0][1..], size)
          && (|groups| > 1 ==> groups[1] != [] && |chunks[0]| + |groups[1][0]| > size)
          && Greedy(OverlapTail(chunks[0], overlap), chunks[1..], groups[1..], size, overlap))
  }

  /** Each of `more` in turn fits behind `current`. */
  ghost predicate Fits(current: string, more: seq<string>, size: nat)
    decreases |more|
  {
    more == [] || (|current| + |more[0]| <= size && Fits(current + more[0], more[1..], size))
  }

  ghost function Join(groups: seq<seq<string>>): seq<string> {
    if groups == [] then [] else groups[0] + Join(groups[1..])
  }

  ghost predicate NoneEmpty(pieces: seq<string>) {
    forall i | 0 <= i < |pieces| :: pieces[i] != ""
  }

  /** From the middle of a chunk that has grown to `tail + current`. */
  lemma {:induction false} AssembleFrom(
    tail: string, current: string, pieces: seq<string>, size: nat, overlap: nat)
    returns (group: seq<string>, rest: seq<seq<string>>)
    requires tail + current != "" && NoneEmpty(pieces)
    ensures Fits(tail + current, group, size)
    ensures group + Join(rest) == pieces
    ensures var chunks := Assemble(tail + current, pieces, size, overlap);
            && |chunks| == 1 + |rest|
            && chunks[0] == tail + current + Flatten(group)
            && (rest != [] ==> rest[0] != [] && |chunks[0]| + |rest[0][0]| > size)
            && Greedy(OverlapTail(chunks[0], overlap), chunks[1..], rest, size, overlap)
    decreases |pieces|
  {
    hide OverlapTail;
    if pieces == [] {
      group, rest := [], [];
    } else {
      var p, more := pieces[0], pieces[1..];
      if |tail + current| + |p| <= size {
        var g, r := AssembleFrom(tail, current + p, more, size, overlap);
        assert tail + (current + p) == tail + current + p;
        group, rest := [p] + g, r;
        assert group[1..] == g;
        assert tail + current + p + Flatten(g) == tail + current + (p + Flatten(g));
      } else {
        var next := OverlapTail(tail + current, overlap);
        var g, r := AssembleFrom(next, p, more, size, overlap);
        group, rest := [], [[p] + g] + r;
        GreedyCons(next, p, g, Assemble(next + p, more, size, overlap), r, size, overlap);
        assert tail + current + "" == tail + current;
      }
    }
  }

  lemma GreedyCons(
    tail: string, p: string, group: seq<string>, chunks: seq<string>, rest: seq<seq<string>>, size: nat, overlap: nat)
    requires |chunks| == 1 + |rest| && chunks[0] == tail + p + Flatten(group)
    requires Fits(tail + p, group, size)
    requires rest != [] ==> rest[0] != [] && |chunks[0]| + |rest[0][0]| > size
    requires Greedy(OverlapTail(chunks[0], overlap), chunks[1..], rest, size, overlap)
    ensures Greedy(tail, chunks, [[p] + group] + rest, size, overlap)
    ensures Join([[p] + group] + rest) == [p] + group + Join(rest)
  {
    hide OverlapTail;
    var groups := [[p] + group] + rest;
    assert groups[0][1..] == group && groups[1..] == rest;
    TailFirst(tail, groups[0]);
  }

  /** Main result on merging, existence: the chunks are a greedy grouping of exactly the pieces. */
  lemma AssembleIsGreedy(pieces: seq<string>, size: nat, overlap: nat)
    requires NoneEmpty(pieces)
    ensures exists groups ::
              Join(groups) == pieces && Greedy("", Assemble("", pieces, size, overlap), groups, size, overlap)
  {
    hide OverlapTail, Fits, Flatten;
    var chunks := Assemble("", pieces, size, overlap);
    if pieces == [] {
      assert Join([]) == pieces;
    } else {
      hide Greedy;
      var p := pieces[0];
      assert "" + p == p;
      assert chunks == Assemble(p, pieces[1..], size, overlap);
      hide Assemble;
      var group, rest := AssembleFrom("", p, pieces[1..], size, overlap);
      GreedyCons("", p, group, chunks, rest, size, overlap);
      hide Join;
      assert Join([[p] + group] + rest) == pieces by { assert [p] + group + Join(rest) == [p] + (group + Join(rest)); }
    }
  }

  /** Main result on merging, uniqueness: `Greedy` leaves no choice, so it is the whole specification. */
  lemma {:induction false} GreedyIsUnique(
    tail: string, a: seq<string>, ga: seq<seq<string>>, b: seq<string>, gb: seq<seq<string>>, size: nat, overlap: nat)
    requires Greedy(tail, a, ga, size, overlap) && Greedy(tail, b, gb, size, overlap)
    requires Join(ga) == Join(gb)
    ensures a == b && ga == gb
    decreases |ga|
  {
    hide OverlapTail;
    if ga == [] {
      assert gb == [];
    } else {
      assert Join(ga)[0] == ga[0][0];
      if |ga[0]| < |gb[0]| {
        NoEarlyBreak(tail, a, ga, b, gb, size, overlap);
      } else if |gb[0]| < |ga[0]| {
        NoEarlyBreak(tail, b, gb, a, ga, size, overlap);
      }
      assert ga[0] == Join(ga)[..|ga[0]|] && gb[0] == Join(gb)[..|gb[0]|];
      assert Join(ga[1..]) == Join(ga)[|ga[0]|..] && Join(gb[1..]) == Join(gb)[|gb[0]|..];
      GreedyIsUnique(OverlapTail(a[0], overlap), a[1..], ga[1..], b[1..], gb[1..], size, overlap);
      assert a == [a[0]] + a[1..] && b == [b[0]] + b[1..];
      assert ga == [ga[0]] + ga[1..] && gb == [gb[0]] + gb[1..];
    }
  }

  /** Two greedy groupings of one list cannot end their first groups at different pieces. */
  lemma NoEarlyBreak(
    tail: string, a: seq<string>, ga: seq<seq<string>>, b: seq<string>, gb: seq<seq<string>>, size: nat, overlap: nat)
    requires Greedy(tail, a, ga, size, overlap) && Greedy(tail, b, gb, size, overlap)
    requires ga != [] && gb != [] && Join(ga) == Join(gb)
    ensures |ga[0]| >= |gb[0]|
  {
    hide OverlapTail;
    var n, pieces := |ga[0]|, Join(ga);
    assert ga[0] == pieces[..n] && gb[0] == pieces[..|gb[0]|];
    if n < |gb[0]| {
      assert pieces[n..] == Join(ga[1..]) && ga[1..][0] == ga[1];
      assert gb[0][n] == pieces[n] == ga[1][0];
      assert gb[0][..n] == ga[0];
      GroupFits(tail, b, gb, n, size, overlap);
    }
  }

  /** Inside the first group every further piece still fits. */
  lemma GroupFits(tail: string, chunks: seq<string>, groups: seq<seq<string>>, k: nat, size: nat, overlap: nat)
    requires Greedy(tail, chunks, groups, size, overlap)
    requires groups != [] && 1 <= k < |groups[0]|
    ensures |tail + Flatten(groups[0][..k])| + |groups[0][k]| <= size
  {
    hide OverlapTail;
    var group := groups[0];
    FitsAt(tail + group[0], group[1..], k - 1, size);
    assert group[..k][1..] == group[1..][..k - 1];
    TailFirst(tail, group[..k]);
  }

  lemma {:induction false} FitsBound(current: string, more: seq<string>, size: nat)
    requires Fits(current, more, size) && more != []
    ensures |current + Flatten(more)| <= size
    decreases |more|
  {
    if more[1..] != [] {
      FitsBound(current + more[0], more[1..], size);
    }
  }

  lemma TailFirst(tail: string, group: seq<string>)
    requires group != []
    ensures tail + group[0] + Flatten(group[1..]) == tail + Flatten(group)
  {
  }

  lemma {:induction false} FitsAt(current: string, more: seq<string>, k: nat, size: nat)
    requires Fits(current, more, size) && k < |more|
    ensures |current + Flatten(more[..k])| + |more[k]| <= size
    decreases k
  {
    if k > 0 {
      FitsAt(current + more[0], more[1..], k - 1, size);
      assert more[..k][1..] == more[1..][..k - 1];
      assert current + more[0] + Flatten(more[1..][..k - 1]) == current + (more[0] + Flatten(more[1..][..k - 1]));
    }
  }

  /******* End to end *******/

  function Chunks(text: string, size: nat, overlap: nat, levels: seq<seq<string>>): seq<string>
    requires size > 0
  {
    var stripped := Strip(text);
    if stripped == "" then [] else Assemble("", Pieces(stripped, size, levels), size, overlap)
  }

  method Chunk(text: string, size: nat, overlap: nat) returns (chunks: seq<string>)
    requires overlap < size
    ensures chunks == Chunks(text, size, overlap, LEVELS)
  {
    SourceLevels();
    hide Pieces, Assemble, Strip;
    var stripped := Strip(text);
    if stripped == "" {
      return [];
    }
    var pieces := SplitPieces(stripped, size, LEVELS);
    chunks := AssembleChunks(pieces, size, overlap);
  }

  /** Each chunk is the overlap tail of the chunk before it, then a non-empty body of its own. */
  ghost predicate TailAndBody(tail: string, chunks: seq<string>, bodies: seq<string>, overlap: nat)
    decreases |chunks|
  {
    && |chunks| == |bodies|
    && (chunks != [] ==>
          && bodies[0] != ""
          && chunks[0] == tail + bodies[0]
          && TailAndBody(OverlapTail(chunks[0], overlap), chunks[1..], bodies[1..], overlap))
  }

  ghost function Bodies(groups: seq<seq<string>>): (bodies: seq<string>)
    ensures |bodies| == |groups|
  {
    if groups == [] then [] else [Flatten(groups[0])] + Bodies(groups[1..])
  }

  lemma {:induction false} GreedyBodies(
    tail: string, chunks: seq<string>, groups: seq<seq<string>>, size: nat, overlap: nat)
    requires Greedy(tail, chunks, groups, size, overlap)
    requires Within(Join(groups), size)
    ensures TailAndBody(tail, chunks, Bodies(groups), overlap)
    ensures Flatten(Bodies(groups)) == Flatten(Join(groups))
    ensures forall i | 0 <= i < |chunks| ::
              0 < |chunks[i]| <= size + (if i == 0 then |tail| else overlap)
    decreases |groups|
  {
    hide OverlapTail;
    if groups != [] {
      var first := groups[0];
      assert first[0] == Join(groups)[0];
      TailFirst(tail, first);
      if first[1..] != [] {
        FitsBound(tail + first[0], first[1..], size);
      }
      FlattenConcat(first, Join(groups[1..]));
      assert Join(groups[1..]) == Join(groups)[|first|..];
      GreedyBodies(OverlapTail(chunks[0], overlap), chunks[1..], groups[1..], size, overlap);
      assert forall i | 1 <= i < |chunks| :: chunks[i] == chunks[1..][i - 1];
    }
  }

  /**
   Main result: chunking any text loses, adds and reorders nothing but white space once the
   overlap tails are taken off, and every chunk is non-empty and within its size bound.
   */
  lemma ChunksConserve(text: string, size: nat, overlap: nat, levels: seq<seq<string>>)
    requires overlap < size
    ensures Chunks(text, size, overlap, levels) == [] <==> Blank(text)
    ensures exists bodies ::
              TailAndBody("", Chunks(text, size, overlap, levels), bodies, overlap) && Ink(Flatten(bodies)) == Ink(text)
    ensures var chunks := Chunks(text, size, overlap, levels);
            forall i | 0 <= i < |chunks| :: 0 < |chunks[i]| <= size + (if i == 0 then 0 else overlap)
  {
    var stripped, chunks := Strip(text), Chunks(text, size, overlap, levels);
    StripKeepsInk(text);
    StripCuts(text);
    if stripped == "" {
      assert TailAndBody("", chunks, [], overlap);
    } else {
      PiecesCover(stripped, size, levels);
      hide Pieces, Assemble;
      var pieces := Pieces(stripped, size, levels);
      assert NoneEmpty(pieces);
      AssembleIsGreedy(pieces, size, overlap);
      var groups :| Join(groups) == pieces && Greedy("", chunks, groups, size, overlap);
      GreedyBodies("", chunks, groups, size, overlap);
      assert pieces != [] by {
        InkBlank(stripped);
        InkBlank(text);
      }
    }
  }

  /** A text that fits and has no white space at its ends is stored as one chunk, unchanged. */
  lemma ShortTextIsOneChunk(text: string, size: nat, overlap: nat, levels: seq<seq<string>>)
    requires overlap < size && 0 < |text| <= size
    requires !IsSpace(text[0]) && !IsSpace(text[|text| - 1])
    ensures Chunks(text, size, overlap, levels) == [text]
  {
    assert Strip(text) == text;
    assert Pieces(text, size, levels) == [text];
    assert [text][1..] == [];
    calc {
      Assemble("", [text], size, overlap);
      Assemble(text, [], size, overlap);
      [text];
    }
  }
}
