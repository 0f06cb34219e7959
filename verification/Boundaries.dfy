/**
 Where the chunker cuts a text whose separators are single characters, and a memory document
 one of whose chunks is a whole document itself.
 */
module Boundaries {
  import opened Chunker
  import opened Text

  /******* Cutting behind single-character separators *******/

  ghost predicate SingleCharacters(seps: seq<string>) {
    forall k | 0 <= k < |seps| :: |seps[k]| == 1
  }

  /** A part that ends with its only separator. */
  ghost predicate CutPart(part: string, seps: seq<string>) {
    part != "" && StartsSeparator(part[|part| - 1], seps) && Clean(part[..|part| - 1], seps)
  }

  lemma {:induction false} SeparatorMatches(text: string, i: nat, seps: seq<string>)
    requires i < |text| && SingleCharacters(seps) && StartsSeparator(text[i], seps)
    ensures MatchAt(text, i, seps) == 1
    decreases |seps|
  {
    var k :| 0 <= k < |seps| && seps[k] != "" && seps[k][0] == text[i];
    if seps[0][0] == text[i] {
      assert seps[0] == [text[i]] == text[i..][..1];
    } else {
      assert seps[1..][k - 1] == seps[k];
      assert seps[0][0] != text[i..][0];
      SeparatorMatches(text, i, seps[1..]);
    }
  }

  /** Nothing is cut inside clean characters. */
  lemma {:induction false} SegmentsSkip(text: string, start: nat, i: nat, j: nat, seps: seq<string>)
    requires start <= i <= j <= |text| && Clean(text[i..j], seps)
    ensures Segments(text, start, i, seps) == Segments(text, start, j, seps)
    decreases j - i
  {
    hide MatchAt, StartsSeparator;
    if i < j {
      var here, later := text[i..j], text[i + 1..j];
      assert here[0] == text[i] && later == here[1..];
      NoMatchAtClean(text, i, seps);
      SegmentsSkip(text, start, i + 1, j, seps);
    }
  }

  /** The first part is cut off. */
  lemma SegmentsCut(pre: string, part: string, rest: string, seps: seq<string>)
    requires SingleCharacters(seps) && CutPart(part, seps)
    ensures Segments(pre + part + rest, |pre|, |pre|, seps)
         == [part] + Segments(pre + part + rest, |pre + part|, |pre + part|, seps)
  {
    var text, last := pre + part + rest, |pre| + |part| - 1;
    assert text[|pre|..last] == part[..|part| - 1] && text[last] == part[|part| - 1];
    assert text[|pre|..last + 1] == part;
    SegmentsSkip(text, |pre|, |pre|, last, seps);
    SeparatorMatches(text, last, seps);
    hide MatchAt, StartsSeparator, Clean;
  }

  /** A text of parts that each end with their only separator, and a last part without one, is cut into these parts. */
  lemma {:induction false} SegmentsAreParts(pre: string, parts: seq<string>, last: string, seps: seq<string>)
    requires SingleCharacters(seps) && Clean(last, seps)
    requires forall k | 0 <= k < |parts| :: CutPart(parts[k], seps)
    ensures Segments(pre + (Flatten(parts) + last), |pre|, |pre|, seps) == parts + [last]
    decreases |parts|
  {
    hide StartsSeparator, Clean, MatchAt, CutPart;
    var text := pre + (Flatten(parts) + last);
    if parts == [] {
      assert text[|pre|..|text|] == last == text[|pre|..];
      SegmentsSkip(text, |pre|, |pre|, |text|, seps);
    } else {
      var tail := Flatten(parts[1..]) + last;
      assert text == pre + parts[0] + tail;
      SegmentsCut(pre, parts[0], tail, seps);
      SegmentsAreParts(pre + parts[0], parts[1..], last, seps);
      assert text == (pre + parts[0]) + tail;
      hide Segments;
      assert parts + [last] == [parts[0]] + (parts[1..] + [last]);
    }
  }

  lemma {:induction false} NonBlankAll(pieces: seq<string>)
    requires forall k | 0 <= k < |pieces| :: !Blank(pieces[k])
    ensures NonBlank(pieces) == pieces
  {
    if pieces != [] {
      NonBlankAll(pieces[1..]);
    }
  }

  lemma TwoSegments(text: string)
    requires text == "a\n\nb"
    ensures NonBlank(Segments(text, 0, 0, ["\n\n", "\n"])) == ["a\n\n", "b"]
  {
    hide Segments, MatchAt, NonBlank, Blank, IsSpace;
    var seps := ["\n\n", "\n"];
    SegmentsAreCut(text, 0, 0, seps);
    FoundInTwo(text, seps);
    hide NoneAt, FirstAt;
    assert text[3..] == "b" && text[0..3] == "a\n\n";
    assert CutsAt(text, 0, 1, seps, 0);
    assert IsCut(text, 3, ["b"], seps);
    hide CutsAt, IsCut;
    CutCons(text, 0, 1, seps, 0, ["b"]);
    assert ["a\n\n"] + ["b"] == ["a\n\n", "b"];
    CutIsUnique(text, 0, ["a\n\n", "b"], Segments(text, 0, 0, seps), seps);
    NotBlank("a\n\n");
    NotBlank("b");
    NonBlankAll(["a\n\n", "b"]);
  }

  lemma FoundInTwo(text: string, seps: seq<string>)
    requires text == "a\n\nb" && seps == ["\n\n", "\n"]
    ensures NoneAt(text, 0, seps) && FirstAt(text, 1, seps, 0) && NoneAt(text, 3, seps)
  {
    assert text[0..][0] == 'a' && text[3..][0] == 'b';
    assert text[1..][..2] == "\n\n";
  }

  lemma NotBlank(s: string)
    requires s != "" && 'a' <= s[0] <= 'z'
    ensures !Blank(s)
  {
  }

  /** A text of two paragraphs that does not fit is cut behind the whole blank line. */
  lemma TwoParagraphs(text: string)
    requires text == "a\n\nb"
    ensures Chunks(text, 3, 0, LEVELS) == ["a\n\n", "b"]
  {
    StripOfStripped(text);
    hide Strip, FirstSplit, Segments, Pieces, IsSpace, NonBlank;
    TwoSegments(text);
    LevelsInOrder(text);
    ShortPiece("a\n\n", 3, LEVELS);
    ShortPiece("b", 3, LEVELS);
    TwoPieces(text);
    ChunksStripped(text, 3, 0, LEVELS);
    TwoChunks();
  }

  lemma TwoChunks()
    ensures Assemble("", ["a\n\n", "b"], 3, 0) == ["a\n\n", "b"]
  {
    hide OverlapTail;
    var both := ["a\n\n", "b"];
    assert both[1..] == ["b"] && ["b"][1..] == [];
    assert OverlapTail("a\n\n", 0) == "" && "" + "b" == "b";
    assert Assemble("b", [], 3, 0) == ["b"];
    assert Assemble("a\n\n", ["b"], 3, 0) == ["a\n\n"] + Assemble("b", [], 3, 0);
  }

  lemma TwoPieces(text: string)
    requires |text| == 4 && FirstSplit(text, LEVELS) == ["a\n\n", "b"]
    requires Pieces("a\n\n", 3, LEVELS) == ["a\n\n"] && Pieces("b", 3, LEVELS) == ["b"]
    ensures Pieces(text, 3, LEVELS) == ["a\n\n", "b"]
  {
    hide FirstSplit;
    var split := ["a\n\n", "b"];
    assert split[1..] == ["b"] && ["b"][1..] == [];
    assert PiecesOfAll([], 3, LEVELS, 4) == [];
    assert PiecesOfAll(["b"], 3, LEVELS, 4) == ["b"];
  }

  /******* Merging *******/

  /** Pieces that fit behind the current chunk are merged into it. */
  lemma {:induction false} AssembleMerges(current: string, pieces: seq<string>, rest: seq<string>, size: nat, overlap: nat)
    requires current != "" && |current + Flatten(pieces)| <= size
    ensures Assemble(current, pieces + rest, size, overlap) == Assemble(current + Flatten(pieces), rest, size, overlap)
    decreases |pieces|
  {
    hide OverlapTail;
    if pieces == [] {
      assert pieces + rest == rest && current + Flatten(pieces) == current;
    } else {
      assert (pieces + rest)[0] == pieces[0] && (pieces + rest)[1..] == pieces[1..] + rest;
      AssembleMerges(current + pieces[0], pieces[1..], rest, size, overlap);
      assert current + pieces[0] + Flatten(pieces[1..]) == current + Flatten(pieces);
    }
  }

  /** A tail without a stop is the whole window. */
  lemma TailOf(head: string, tail: string)
    requires forall i | 0 <= i < |tail| :: !IsStop(tail[i])
    ensures OverlapTail(head + tail, |tail|) == tail
  {
    assert (head + tail)[|head|..] == tail;
  }

  /** Short texts stay whole, whatever follows them. */
  lemma {:induction false} PiecesOfShort(parts: seq<string>, last: string, size: nat, levels: seq<seq<string>>, bound: nat)
    requires size > 0 && |last| < bound
    requires forall t | t in parts :: |t| <= size && |t| < bound
    ensures PiecesOfAll(parts + [last], size, levels, bound) == parts + Pieces(last, size, levels)
    decreases |parts|
  {
    hide FirstSplit, HardCut;
    var texts := parts + [last];
    if parts == [] {
      assert texts == [last] && texts[1..] == [];
      hide Pieces;
      assert PiecesOfAll(texts[1..], size, levels, bound) == [];
    } else {
      assert texts[0] == parts[0] && texts[0] in parts && texts[1..] == parts[1..] + [last];
      ShortPiece(texts[0], size, levels);
      hide Pieces;
      PiecesOfShort(parts[1..], last, size, levels, bound);
    }
  }

  lemma ShortPiece(text: string, size: nat, levels: seq<seq<string>>)
    requires 0 < size && |text| <= size
    ensures Pieces(text, size, levels) == [text]
  {
  }

  /******* A document within a document *******/

  /** Lower-case letters and the punctuation of compact JSON. */
  predicate Plain(c: char) {
    'a' <= c <= 'z' || c in "{}\":,"
  }

  predicate EndsClause(c: char) {
    c == ',' || c == ':'
  }

  ghost predicate AllPlain(s: string) {
    forall i | 0 <= i < |s| :: Plain(s[i])
  }

  ghost predicate NoClause(s: string) {
    forall i | 0 <= i < |s| :: Plain(s[i]) && !EndsClause(s[i])
  }

  /** A clause of compact JSON: it ends with its only comma or colon. */
  ghost predicate Clause(s: string) {
    s != "" && Plain(s[|s| - 1]) && EndsClause(s[|s| - 1]) && NoClause(s[..|s| - 1])
  }

  lemma PlainStarts(c: char)
    requires Plain(c)
    ensures !StartsSeparator(c, PARAGRAPH) && !StartsSeparator(c, SENTENCE) && !IsStop(c) && !IsSpace(c)
    ensures StartsSeparator(c, CLAUSE) <==> EndsClause(c)
  {
    assert CLAUSE[1] == "," && CLAUSE[4] == ":";
  }

  lemma PlainIsClean(s: string)
    requires AllPlain(s)
    ensures Clean(s, PARAGRAPH) && Clean(s, SENTENCE)
    ensures forall i | 0 <= i < |s| :: !IsStop(s[i]) && !IsSpace(s[i])
  {
    forall i | 0 <= i < |s|
      ensures !StartsSeparator(s[i], PARAGRAPH) && !StartsSeparator(s[i], SENTENCE) && !IsStop(s[i]) && !IsSpace(s[i])
    {
      PlainStarts(s[i]);
    }
  }

  lemma NoClauseIsClean(s: string)
    requires NoClause(s)
    ensures Clean(s, PARAGRAPH) && Clean(s, SENTENCE) && Clean(s, CLAUSE)
  {
    forall i | 0 <= i < |s|
      ensures !StartsSeparator(s[i], PARAGRAPH) && !StartsSeparator(s[i], SENTENCE) && !StartsSeparator(s[i], CLAUSE)
    {
      PlainStarts(s[i]);
    }
  }

  lemma ClauseIsCutPart(s: string)
    requires Clause(s)
    ensures CutPart(s, CLAUSE) && AllPlain(s) && !Blank(s)
  {
    NoClauseIsClean(s[..|s| - 1]);
    PlainStarts(s[|s| - 1]);
    assert s == s[..|s| - 1] + [s[|s| - 1]];
  }

  lemma {:induction false} FlattenPlain(parts: seq<string>)
    requires forall k | 0 <= k < |parts| :: Clause(parts[k])
    ensures AllPlain(Flatten(parts))
  {
    if parts != [] {
      ClauseIsCutPart(parts[0]);
      hide Clause;
      FlattenPlain(parts[1..]);
    }
  }

  lemma OneSegment(text: string, seps: seq<string>)
    requires Clean(text, seps)
    ensures |NonBlank(Segments(text, 0, 0, seps))| <= 1
  {
    assert text[0..|text|] == text;
    SegmentsSkip(text, 0, 0, |text|, seps);
    NonBlankCons(text[0..], []);
    hide Segments, NonBlank;
  }

  /** A plain text is first split behind its commas and colons. */
  lemma SplitsAtClauses(parts: seq<string>, last: string)
    requires parts != [] && NoClause(last) && last != ""
    requires forall k | 0 <= k < |parts| :: Clause(parts[k])
    ensures FirstSplit(Flatten(parts) + last, LEVELS) == parts + [last]
  {
    hide *;
    var text := Flatten(parts) + last;
    PlainText(parts, last);
    OneSegment(text, PARAGRAPH);
    OneSegment(text, SENTENCE);
    SegmentsAreParts("", parts, last, CLAUSE);
    assert "" + text == text;
    NonBlankAll(parts + [last]);
    assert |parts + [last]| > 1;
    ThirdLevel(text);
  }

  lemma PlainText(parts: seq<string>, last: string)
    requires NoClause(last) && last != ""
    requires forall k | 0 <= k < |parts| :: Clause(parts[k])
    ensures var text := Flatten(parts) + last;
            Clean(text, PARAGRAPH) && Clean(text, SENTENCE) && Clean(last, CLAUSE) && SingleCharacters(CLAUSE)
    ensures forall k | 0 <= k < |parts| :: CutPart(parts[k], CLAUSE)
    ensures forall k | 0 <= k < |parts + [last]| :: !Blank((parts + [last])[k])
  {
    hide Clean, Clause, CutPart, Flatten, StartsSeparator, IsStop, Plain;
    var text := Flatten(parts) + last;
    FlattenPlain(parts);
    PlainIsClean(last);
    NoClauseIsClean(last);
    PlainIsClean(text);
    assert !Blank(last) by { assert !IsSpace(last[0]); }
    forall k | 0 <= k < |parts|
      ensures CutPart(parts[k], CLAUSE) && !Blank(parts[k])
    {
      ClauseIsCutPart(parts[k]);
    }
  }

  lemma ThirdLevel(text: string)
    requires |NonBlank(Segments(text, 0, 0, PARAGRAPH))| <= 1 && |NonBlank(Segments(text, 0, 0, SENTENCE))| <= 1
    requires |NonBlank(Segments(text, 0, 0, CLAUSE))| > 1
    ensures FirstSplit(text, LEVELS) == NonBlank(Segments(text, 0, 0, CLAUSE))
  {
    assert LEVELS[0..] == LEVELS;
    NextLevel(text, LEVELS, 0);
    NextLevel(text, LEVELS, 1);
    NextLevel(text, LEVELS, 2);
    hide FirstSplit, Segments, NonBlank;
  }

  lemma CutInTwo(text: string, size: nat)
    requires 0 < size < |text| <= 2 * size
    ensures HardCut(text, size) == [text[..size], text[size..]]
  {
    assert HardCut(text[size..], size) == [text[size..]];
  }

  lemma PiecesHere(parts: seq<string>, last: string, size: nat)
    requires parts != [] && NoClause(last) && 0 < size < |last| <= 2 * size
    requires forall k | 0 <= k < |parts| :: Clause(parts[k]) && |parts[k]| <= size
    ensures Pieces(Flatten(parts) + last, size, LEVELS) == parts + [last[..size], last[size..]]
  {
    hide Clause, Flatten, FirstSplit, PiecesOfAll;
    var text := Flatten(parts) + last;
    SplitsAtClauses(parts, last);
    assert forall i | 0 <= i < |last| - 1 :: last[..|last| - 1][i] == last[i];
    NoClauseIsClean(last[..|last| - 1]);
    LongSentenceIsCut(last, size);
    CutInTwo(last, size);
    hide NoClause, HardCut;
    forall t | t in parts + [last]
      ensures |t| < |text|
    {
      PartShorter(parts, last, t);
    }
    assert forall t | t in parts :: t in parts + [last] && |t| <= size;
    assert last in parts + [last];
    PiecesOfShort(parts, last, size, LEVELS, |text|);
  }

  lemma PartShorter(parts: seq<string>, last: string, t: string)
    requires parts != [] && last != "" && t in parts + [last]
    requires forall k | 0 <= k < |parts| :: Clause(parts[k])
    ensures |t| < |Flatten(parts) + last|
  {
    hide NoClause;
    var k :| 0 <= k < |parts + [last]| && (parts + [last])[k] == t;
    ElementOfFlatten(parts, if k < |parts| then k else 0);
  }

  lemma StripPlain(head: string, last: string)
    requires head != "" && last != "" && AllPlain(head) && NoClause(last)
    ensures Strip(head + last) == head + last
  {
    PlainStarts(head[0]);
    PlainStarts(last[|last| - 1]);
    hide NoClause, AllPlain;
    var text := head + last;
    assert text[0] == head[0] && text[|text| - 1] == last[|last| - 1];
  }

  /** Merging: the parts fill the first chunk, and the piece behind them opens the second one. */
  lemma MergedHere(parts: seq<string>, a: string, b: string, size: nat, overlap: nat)
    requires parts != [] && parts[0] != "" && |Flatten(parts)| <= size == |a| && b != ""
    requires 0 < overlap <= |Flatten(parts)|
    requires forall i | 0 <= i < |Flatten(parts)| :: !IsStop(Flatten(parts)[i])
    ensures var head := Flatten(parts); var chunks := Assemble("", parts + [a, b], size, overlap);
            |chunks| > 1 && chunks[1] == head[|head| - overlap..] + a
  {
    var head, pieces := Flatten(parts), parts + [a, b];
    assert pieces[0] == parts[0] && pieces[1..] == parts[1..] + [a, b];
    AssembleMerges(parts[0], parts[1..], [a, b], size, overlap);
    assert Assemble("", pieces, size, overlap) == Assemble(head, [a, b], size, overlap);
    var front, tail := head[..|head| - overlap], head[|head| - overlap..];
    assert head == front + tail;
    TailOf(front, tail);
    hide OverlapTail, Flatten;
    LastTwo(head, tail, a, b, size, overlap);
  }

  lemma LastTwo(head: string, tail: string, a: string, b: string, size: nat, overlap: nat)
    requires OverlapTail(head, overlap) == tail && head != "" && tail != "" && |a| == size && b != ""
    ensures [head, tail + a] <= Assemble(head, [a, b], size, overlap)
  {
    hide OverlapTail;
    assert [a, b][1..] == [b];
    assert Assemble(head, [a, b], size, overlap) == [head] + Assemble(tail + a, [b], size, overlap);
    assert [b][1..] == [];
  }

  lemma PartsOf(parts: seq<string>, size: nat)
    requires parts != [] && |Flatten(parts)| <= size
    requires forall k | 0 <= k < |parts| :: Clause(parts[k])
    ensures parts[0] != "" && AllPlain(Flatten(parts)) && forall k | 0 <= k < |parts| :: |parts[k]| <= size
    ensures forall i | 0 <= i < |Flatten(parts)| :: !IsStop(Flatten(parts)[i])
  {
    FlattenPlain(parts);
    PlainIsClean(Flatten(parts));
    assert parts[0] != "" by { assert Clause(parts[0]); }
    hide *;
    forall k | 0 <= k < |parts|
      ensures |parts[k]| <= size
    {
      ElementOfFlatten(parts, k);
    }
  }

  lemma ChunksStripped(text: string, size: nat, overlap: nat, levels: seq<seq<string>>)
    requires size > 0 && Strip(text) == text != ""
    ensures Chunks(text, size, overlap, levels) == Assemble("", Pieces(text, size, levels), size, overlap)
  {
    hide Strip, Pieces, Assemble;
  }

  /**
   The second chunk of a plain text whose last clause alone is too long: the overlap tail of
   the clauses before it, and the last clause up to where it is cut hard.
   */
  lemma SecondChunk(parts: seq<string>, last: string, size: nat, overlap: nat)
    requires parts != [] && NoClause(last)
    requires forall k | 0 <= k < |parts| :: Clause(parts[k])
    requires 0 < overlap <= |Flatten(parts)| <= size < |last| <= 2 * size
    ensures var head := Flatten(parts); var chunks := Chunks(head + last, size, overlap, LEVELS);
            |chunks| > 1 && chunks[1] == head[|head| - overlap..] + last[..size]
  {
    hide *;
    var head := Flatten(parts);
    PartsOf(parts, size);
    PiecesHere(parts, last, size);
    StripPlain(head, last);
    ChunksStripped(head + last, size, overlap, LEVELS);
    MergedHere(parts, last[..size], last[size..], size, overlap);
  }

  /** A memory's document, for a key and a value without characters that JSON escapes. */
  function Document(key: string, value: string): string {
    "{\"key\":\"" + key + "\",\"value\":" + value + "}"
  }

  /** A value that holds one object of the shape of a memory's document. */
  function NestingValue(key: string, value: string): string {
    "{\"a\":" + Document(key, value) + "}"
  }

  function LongValue(z: string): string {
    "{\"z\":\"" + z + "\"}"
  }

  predicate Lower(s: string) {
    forall i | 0 <= i < |s| :: 'a' <= s[i] <= 'z'
  }

  lemma FlattenFour(a: string, b: string, c: string, d: string)
    ensures Flatten([a, b, c, d]) == a + b + c + d
  {
    assert [d][1..] == [] && Flatten([d]) == d + [] == d;
    assert [c, d][1..] == [d] && Flatten([c, d]) == c + d;
    assert [b, c, d][1..] == [c, d] && Flatten([b, c, d]) == b + (c + d);
    assert [a, b, c, d][1..] == [b, c, d] && Flatten([a, b, c, d]) == a + (b + (c + d));
    assert a + (b + (c + d)) == a + b + c + d;
  }

  lemma ClausesHere(key: string)
    requires Lower(key)
    ensures Clause("{\"key\":") && Clause("\"" + key + "\",") && Clause("\"value\":") && Clause("{\"a\":") && Clause("{\"z\":")
  {
    var s := "\"" + key + "\",";
    assert s[..|s| - 1] == "\"" + key + "\"";
    assert NoClause(s[..|s| - 1]);
    assert "{\"key\":"[..6] == "{\"key\"" && "\"value\":"[..7] == "\"value\"";
    assert "{\"a\":"[..4] == "{\"a\"" && "{\"z\":"[..4] == "{\"z\"";
  }

  function Opening(key: string, letter: char): seq<string> {
    ["{\"key\":", "\"" + key + "\",", "\"value\":", "{\"" + [letter] + "\":"]
  }

  /** The document with its values left open. */
  lemma OpeningIs(key: string, letter: char)
    ensures Flatten(Opening(key, letter)) == "{\"key\":\"" + key + "\",\"value\":{\"" + [letter] + "\":"
    ensures |Flatten(Opening(key, letter))| == |key| + 23
  {
    FlattenFour("{\"key\":", "\"" + key + "\",", "\"value\":", "{\"" + [letter] + "\":");
    assert "{\"key\":\"" == "{\"key\":" + "\"";
    assert "\",\"value\":{\"" == "\"," + "\"value\":" + "{\"";
  }

  /** The document around an open one, and where the long string is cut. */
  lemma Nesting(key: string, z: string, outer: string, inner: string, last: string)
    requires outer == "{\"key\":\"" + "real" + "\",\"value\":{\"" + ['a'] + "\":"
    requires inner == "{\"key\":\"" + key + "\",\"value\":{\"" + ['z'] + "\":"
    requires last == "\"" + z + "\"}}}}"
    ensures Document(key, LongValue(z)) == inner + ("\"" + z + "\"}}")
    ensures Document("real", NestingValue(key, LongValue(z))) == outer + inner + last
  {
    var a, b, v := "{\"key\":\"", "\",\"value\":", LongValue(z);
    assert "\",\"value\":{\"" == b + "{\"";
    assert "{\"z\":\"" == "{\"" + ['z'] + "\":" + "\"";
    assert v + "}" == "{\"" + ['z'] + "\":" + ("\"" + z + "\"}}") by {
      assert "\"}" + "}" == "\"}}";
    }
    assert Document(key, v) == a + key + b + (v + "}");
    assert inner == a + key + b + ("{\"" + ['z'] + "\":");
    assert "{\"a\":" == "{\"" + ['a'] + "\":";
    var rest := "\"" + z + "\"}}";
    assert last == rest + "}}";
    assert NestingValue(key, v) + "}" == "{\"a\":" + (inner + rest) + "}}";
    assert Document("real", NestingValue(key, v)) == a + "real" + b + (NestingValue(key, v) + "}");
    assert outer == a + "real" + b + "{\"a\":";
  }

  /**
   With the source's sizes and levels: of a document whose value holds another object of that
   shape, with a key of 77 letters and a value of 804 characters, the second chunk is exactly
   the inner object. So a chunk may read as a document although no memory has its key.
   */
  lemma NestedDocumentIsAChunk(key: string, z: string)
    requires Lower(key) && |key| == 77 && Lower(z) && |z| == 796
    ensures var chunks := Chunks(Document("real", NestingValue(key, LongValue(z))), 800, 100, LEVELS);
            |chunks| > 1 && chunks[1] == Document(key, LongValue(z))
  {
    var outer, inner := Opening("real", 'a'), Opening(key, 'z');
    var last := "\"" + z + "\"}}}}";
    OpeningIs("real", 'a');
    OpeningIs(key, 'z');
    LastPart(z);
    hide Document, Flatten;
    Nesting(key, z, Flatten(outer), Flatten(inner), last);
    FlattenConcat(outer, inner);
    OpeningClauses("real", 'a');
    OpeningClauses(key, 'z');
    hide *;
    SecondChunk(outer + inner, last, 800, 100);
  }

  lemma LastPart(z: string)
    requires Lower(z) && |z| == 796
    ensures var last := "\"" + z + "\"}}}}"; NoClause(last) && |last| == 802 && last[..800] == "\"" + z + "\"}}"
  {
  }

  lemma OpeningClauses(key: string, letter: char)
    requires Lower(key) && letter in "az"
    ensures forall k | 0 <= k < |Opening(key, letter)| :: Clause(Opening(key, letter)[k])
    ensures Opening(key, letter) != []
  {
    ClausesHere(key);
    assert ['a'] == "a" && ['z'] == "z";
    assert "{\"" + "a" + "\":" == "{\"a\":" && "{\"" + "z" + "\":" == "{\"z\":";
    hide Clause;
  }
}
