/** Searching and highlighting a query inside a text. */
module TextSearch {
  import opened Wrappers

  predicate OccursAt(text: string, query: string, i: int) {
    0 <= i <= |text| - |query| && text[i..i + |query|] == query
  }

  /** text.includes(query). */
  predicate Contains(text: string, query: string) {
    exists i :: 0 <= i <= |text| && OccursAt(text, query, i)
  }

  /** text.indexOf(query, from) for a start inside the text. */
  method IndexOf(text: string, query: string, from: nat) returns (index: Option<nat>)
    ensures index == FirstFrom(text, query, from)
  {
    var i := from;
    while i + |query| <= |text|
      invariant FirstFrom(text, query, i) == FirstFrom(text, query, from)
    {
      if text[i..i + |query|] == query {
        return Some(i);
      }
      i := i + 1;
    }
    return None;
  }

  function FirstFrom(text: string, query: string, from: nat): (index: Option<nat>)
    ensures index.Some? ==> from <= index.value <= |text| - |query|
    decreases |text| - from
  {
    if from + |query| > |text| then None
    else if text[from..from + |query|] == query then Some(from)
    else FirstFrom(text, query, from + 1)
  }

  /** The found index is an occurrence and there is none before it. */
  lemma {:induction false} FirstFromMeans(text: string, query: string, from: nat)
    ensures var index := FirstFrom(text, query, from);
            && (index.Some? ==> OccursAt(text, query, index.value))
            && (forall i :: from <= i && (index.Some? ==> i < index.value) ==> !OccursAt(text, query, i))
    decreases |text| - from
  {
    if from + |query| <= |text| && text[from..from + |query|] != query {
      FirstFromMeans(text, query, from + 1);
    }
  }

  // ---------------------------------------------------------------- highlighting

  datatype Part = Plain(text: string) | Mark(text: string)

  /** text.slice(from, to), which clamps both ends to the length of the text. */
  function Slice(text: string, from: nat, to: nat): string
    requires from <= to
  {
    text[Min(from, |text|)..Min(to, |text|)]
  }

  function Joined(parts: seq<Part>): string {
    if parts == [] then "" else parts[0].text + Joined(parts[1..])
  }

  /** The positions the highlighter marks: leftmost first, never overlapping. */
  function MarkedFrom(normalized: string, query: string, cursor: nat): seq<nat>
    requires query != ""
    decreases |normalized| - cursor
  {
    var next := FirstFrom(normalized, query, cursor);
    if next.None? then [] else [next.value] + MarkedFrom(normalized, query, next.value + |query|)
  }

  ghost predicate Covered(marks: seq<nat>, width: nat, i: int) {
    exists k :: 0 <= k < |marks| && marks[k] <= i < marks[k] + width
  }

  /** Every mark is an occurrence. */
  ghost predicate AtOccurrences(marks: seq<nat>, normalized: string, query: string) {
    forall k :: 0 <= k < |marks| ==> OccursAt(normalized, query, marks[k])
  }

  /** Marks start at the cursor or later and do not overlap. */
  ghost predicate Apart(marks: seq<nat>, width: nat, cursor: nat) {
    marks != [] ==> cursor <= marks[0] && Apart(marks[1..], width, marks[0] + width)
  }

  /** Every occurrence from the cursor on touches a mark. */
  ghost predicate Covering(marks: seq<nat>, normalized: string, query: string, cursor: nat) {
    forall i :: cursor <= i && OccursAt(normalized, query, i) ==> Covered(marks, |query|, i)
  }

  lemma {:induction false} CoveredLater(first: nat, rest: seq<nat>, width: nat, i: int)
    requires Covered(rest, width, i)
    ensures Covered([first] + rest, width, i)
  {
    var k :| 0 <= k < |rest| && rest[k] <= i < rest[k] + width;
    assert ([first] + rest)[k + 1] == rest[k];
  }

  lemma {:induction false} CoveringGrows(first: nat, rest: seq<nat>, normalized: string, query: string, cursor: nat)
    requires query != "" && FirstFrom(normalized, query, cursor) == Some(first)
    requires Covering(rest, normalized, query, first + |query|)
    ensures Covering([first] + rest, normalized, query, cursor)
  {
    FirstFromMeans(normalized, query, cursor);
    forall i | cursor <= i && OccursAt(normalized, query, i)
      ensures Covered([first] + rest, |query|, i)
    {
      if i < first + |query| {
        assert ([first] + rest)[0] == first;
      } else {
        CoveredLater(first, rest, |query|, i);
      }
    }
  }

  /** The marks are occurrences, keep clear of each other, and leave no occurrence untouched. */
  lemma {:induction false} MarksCoverOccurrences(normalized: string, query: string, cursor: nat)
    requires query != ""
    ensures AtOccurrences(MarkedFrom(normalized, query, cursor), normalized, query)
    ensures Apart(MarkedFrom(normalized, query, cursor), |query|, cursor)
    ensures Covering(MarkedFrom(normalized, query, cursor), normalized, query, cursor)
    decreases |normalized| - cursor
  {
    var next := FirstFrom(normalized, query, cursor);
    FirstFromMeans(normalized, query, cursor);
    if next.Some? {
      var rest := MarkedFrom(normalized, query, next.value + |query|);
      MarksCoverOccurrences(normalized, query, next.value + |query|);
      CoveringGrows(next.value, rest, normalized, query, cursor);
      assert ([next.value] + rest)[1..] == rest;
    }
  }

  function MarkTexts(parts: seq<Part>): seq<string> {
    if parts == [] then []
    else (if parts[0].Mark? then [parts[0].text] else []) + MarkTexts(parts[1..])
  }

  /** The stretches of the text at the given positions. */
  function Stretches(text: string, width: nat, at: seq<nat>): seq<string> {
    if at == [] then [] else [Slice(text, at[0], at[0] + width)] + Stretches(text, width, at[1..])
  }

  lemma {:induction false} ConsPart(part: Part, parts: seq<Part>)
    ensures Joined([part] + parts) == part.text + Joined(parts)
    ensures MarkTexts([part] + parts) == (if part.Mark? then [part.text] else []) + MarkTexts(parts)
  {
  }

  lemma {:induction false} NoParts()
    ensures Joined([]) == "" && MarkTexts([]) == []
  {
  }

  /** A gap, if there is one, a mark, and the rest. */
  function Cut(text: string, from: nat, start: nat, end: nat, rest: seq<Part>): seq<Part>
    requires from <= start <= end
  {
    Gap(text, from, start) + [Mark(Slice(text, start, end))] + rest
  }

  /** The parts from a cursor on, cut at the given marks. */
  function Pieces(text: string, width: nat, marks: seq<nat>, cursor: nat): seq<Part>
    requires Apart(marks, width, cursor)
    decreases |marks|
  {
    if marks == [] then (if cursor < |text| then [Plain(text[cursor..])] else [])
    else Cut(text, cursor, marks[0], marks[0] + width, Pieces(text, width, marks[1..], marks[0] + width))
  }

  function Gap(text: string, from: nat, start: nat): seq<Part>
    requires from <= start
  {
    if start > from then [Plain(Slice(text, from, start))] else []
  }

  lemma {:induction false} CutKeepsText(text: string, from: nat, start: nat, end: nat, rest: seq<Part>)
    requires from <= start <= end
    requires Joined(rest) == text[Min(end, |text|)..]
    ensures Joined(Cut(text, from, start, end, rest)) == text[Min(from, |text|)..]
  {
  }

  lemma {:induction false} CutMarks(text: string, from: nat, start: nat, end: nat, rest: seq<Part>)
    requires from <= start <= end
    ensures MarkTexts(Cut(text, from, start, end, rest)) == [Slice(text, start, end)] + MarkTexts(rest)
  {
  }

  lemma {:induction false} LastPiece(text: string, cursor: nat)
    ensures var parts := if cursor < |text| then [Plain(text[cursor..])] else [];
            Joined(parts) == text[Min(cursor, |text|)..] && MarkTexts(parts) == []
  {
  }

  /** The pieces put together are the rest of the text. */
  lemma {:induction false} PiecesKeepText(text: string, width: nat, marks: seq<nat>, cursor: nat)
    requires Apart(marks, width, cursor)
    ensures Joined(Pieces(text, width, marks, cursor)) == text[Min(cursor, |text|)..]
    decreases |marks|
  {
    if marks == [] {
      LastPiece(text, cursor);
    } else {
      var end := marks[0] + width;
      PiecesKeepText(text, width, marks[1..], end);
      CutKeepsText(text, cursor, marks[0], end, Pieces(text, width, marks[1..], end));
    }
  }

  /** The marked pieces stand at the marks. */
  lemma {:induction false} PiecesMark(text: string, width: nat, marks: seq<nat>, cursor: nat)
    requires Apart(marks, width, cursor)
    ensures MarkTexts(Pieces(text, width, marks, cursor)) == Stretches(text, width, marks)
    decreases |marks|
  {
    if marks == [] {
      LastPiece(text, cursor);
    } else {
      var end := marks[0] + width;
      PiecesMark(text, width, marks[1..], end);
      CutMarks(text, cursor, marks[0], end, Pieces(text, width, marks[1..], end));
    }
  }

  /** What one match pushes: the text since the cursor, if any, and the mark. */
  function Pushed(parts: seq<Part>, text: string, cursor: nat, start: nat, end: nat): seq<Part>
    requires cursor <= start <= end
  {
    parts + Gap(text, cursor, start) + [Mark(Slice(text, start, end))]
  }

  /** The parts in the end, from those pushed up to a cursor. */
  function Finished(parts: seq<Part>, text: string, normalized: string, query: string, cursor: nat): seq<Part>
    requires query != ""
    decreases |normalized| - cursor
  {
    var next := FirstFrom(normalized, query, cursor);
    if next.None? then parts + (if cursor < |text| then [Plain(text[cursor..])] else [])
    else
      var end := next.value + |query|;
      Finished(Pushed(parts, text, cursor, next.value, end), text, normalized, query, end)
  }

  lemma {:induction false} PiecesOf(text: string, width: nat, first: nat, rest: seq<nat>, cursor: nat)
    requires cursor <= first && Apart(rest, width, first + width)
    ensures Apart([first] + rest, width, cursor)
    ensures Pieces(text, width, [first] + rest, cursor) == Cut(text, cursor, first, first + width, Pieces(text, width, rest, first + width))
  {
    assert ([first] + rest)[1..] == rest;
  }

  lemma {:induction false} PushedCut(parts: seq<Part>, text: string, cursor: nat, start: nat, end: nat, rest: seq<Part>)
    requires cursor <= start <= end
    ensures Pushed(parts, text, cursor, start, end) + rest == parts + Cut(text, cursor, start, end, rest)
  {
  }

  /** The loop leaves the pieces cut at the marks. */
  lemma {:induction false} FinishedIsPieces(parts: seq<Part>, text: string, normalized: string, query: string, cursor: nat)
    requires query != ""
    ensures Apart(MarkedFrom(normalized, query, cursor), |query|, cursor)
    ensures Finished(parts, text, normalized, query, cursor)
            == parts + Pieces(text, |query|, MarkedFrom(normalized, query, cursor), cursor)
    decreases |normalized| - cursor
  {
    var next := FirstFrom(normalized, query, cursor);
    if next.Some? {
      var start, end := next.value, next.value + |query|;
      var rest := MarkedFrom(normalized, query, end);
      FinishedIsPieces(Pushed(parts, text, cursor, start, end), text, normalized, query, end);
      PiecesOf(text, |query|, start, rest, cursor);
      PushedCut(parts, text, cursor, start, end, Pieces(text, |query|, rest, end));
    }
  }

  method PushMatch(parts: seq<Part>, text: string, cursor: nat, start: nat, end: nat, ghost normalized: string, ghost query: string)
    returns (pushed: seq<Part>)
    requires query != "" && FirstFrom(normalized, query, cursor) == Some(start) && end == start + |query|
    ensures Finished(pushed, text, normalized, query, end) == Finished(parts, text, normalized, query, cursor)
  {
    pushed := parts;
    if start > cursor {
      pushed := pushed + [Plain(Slice(text, cursor, start))];
    }
    pushed := pushed + [Mark(Slice(text, start, end))];
    assert pushed == Pushed(parts, text, cursor, start, end);
  }

  /** The loop: parts for every match, up to the cursor behind the last one. */
  method MarkMatches(text: string, normalizedText: string, query: string) returns (parts: seq<Part>, cursor: nat)
    requires query != ""
    ensures FirstFrom(normalizedText, query, cursor).None?
    ensures Finished(parts, text, normalizedText, query, cursor) == Finished([], text, normalizedText, query, 0)
  {
    parts := [];
    cursor := 0;
    ghost var all := Finished(parts, text, normalizedText, query, cursor);
    var matchIndex := IndexOf(normalizedText, query, 0);
    while matchIndex.Some?
      invariant matchIndex == FirstFrom(normalizedText, query, cursor)
      invariant Finished(parts, text, normalizedText, query, cursor) == all
      decreases |normalizedText| - cursor
    {
      var start := matchIndex.value;
      parts := PushMatch(parts, text, cursor, start, start + |query|, normalizedText, query);
      cursor := start + |query|;
      matchIndex := IndexOf(normalizedText, query, cursor);
    }
  }

  /** Highlighting never alters the text, whatever lower-casing does to its length, and the
      marked parts are the stretches at the marked positions. */
  method HighlightText(text: string, query: string, lower: string -> string) returns (parts: seq<Part>)
    ensures Joined(parts) == text
    ensures query == "" ==> parts == [Plain(text)]
    ensures query != "" ==> MarkTexts(parts) == Stretches(text, |query|, MarkedFrom(lower(text), query, 0))
  {
    OnePart(text);
    if query == "" {
      return [Plain(text)];
    }
    var normalizedText := lower(text);
    PiecesHighlight(text, normalizedText, query);
    var cursor;
    parts, cursor := MarkMatches(text, normalizedText, query);
    if |parts| == 0 {
      LastPiece(text, cursor);
      return [Plain(text)];
    }
    if cursor < |text| {
      parts := parts + [Plain(text[cursor..])];
    } else {
      assert parts + [] == parts;
    }
  }

  lemma {:induction false} OnePart(text: string)
    ensures Joined([Plain(text)]) == text && MarkTexts([Plain(text)]) == []
  {
    NoParts();
    ConsPart(Plain(text), []);
    assert [Plain(text)] + [] == [Plain(text)];
  }

  /** What the loop leaves is the text, marked at the matches. */
  lemma {:induction false} PiecesHighlight(text: string, normalized: string, query: string)
    requires query != ""
    ensures var all := Finished([], text, normalized, query, 0);
            Joined(all) == text && MarkTexts(all) == Stretches(text, |query|, MarkedFrom(normalized, query, 0))
  {
    var marks := MarkedFrom(normalized, query, 0);
    FinishedIsPieces([], text, normalized, query, 0);
    PiecesKeepText(text, |query|, marks, 0);
    PiecesMark(text, |query|, marks, 0);
    assert [] + Pieces(text, |query|, marks, 0) == Pieces(text, |query|, marks, 0);
  }

  // ---------------------------------------------------------------- when a mark matches the query

  /** Every marked piece, in lower case, is the query. */
  ghost predicate PiecesMatch(text: string, query: string, lower: string -> string)
    requires query != ""
  {
    var pieces := Stretches(text, |query|, MarkedFrom(lower(text), query, 0));
    forall k :: 0 <= k < |pieces| ==> lower(pieces[k]) == query
  }

  ghost predicate AlwaysMatch(lower: string -> string) {
    forall text: string, query: string :: query != "" ==> PiecesMatch(text, query, lower)
  }

  ghost predicate LengthKept(lower: string -> string) {
    forall s: string :: |lower(s)| == |s|
  }

  /** Each letter is lowered on its own, to one letter. */
  ghost predicate Letterwise(lower: string -> string) {
    LengthKept(lower) && forall s: string, i: nat :: i < |s| && i < |lower(s)| ==> lower([s[i]]) == [lower(s)[i]]
  }

  lemma {:induction false} StretchAt(text: string, width: nat, at: seq<nat>, k: nat)
    ensures |Stretches(text, width, at)| == |at|
    ensures k < |at| ==> Stretches(text, width, at)[k] == Slice(text, at[k], at[k] + width)
    decreases |at|
  {
    if at != [] {
      StretchAt(text, width, at[1..], if k > 0 then k - 1 else 0);
    }
  }

  /** Every stretch of this text is lowered as in the whole. */
  ghost predicate LoweredInPlace(text: string, lower: string -> string) {
    |lower(text)| == |text| && forall i, j :: 0 <= i <= j <= |text| ==> lower(text[i..j]) == lower(text)[i..j]
  }

  /** In such a text all pieces match every query, whatever happens to the length of others. */
  lemma {:induction false} LoweredInPlaceMatches(text: string, query: string, lower: string -> string)
    requires query != "" && LoweredInPlace(text, lower)
    ensures PiecesMatch(text, query, lower)
  {
    var w, marks := |query|, MarkedFrom(lower(text), query, 0);
    MarksCoverOccurrences(lower(text), query, 0);
    StretchAt(text, w, marks, 0);
    forall k | 0 <= k < |marks|
      ensures lower(Stretches(text, w, marks)[k]) == query
    {
      StretchAt(text, w, marks, k);
      assert OccursAt(lower(text), query, marks[k]);
    }
  }

  lemma {:induction false} LetterwiseInPlace(text: string, lower: string -> string)
    requires Letterwise(lower)
    ensures LoweredInPlace(text, lower)
  {
    assert |lower(text)| == |text|;
    forall i, j | 0 <= i <= j <= |text|
      ensures lower(text[i..j]) == lower(text)[i..j]
    {
      var piece := text[i..j];
      assert |lower(piece)| == |piece|;
      forall m: nat | m < |piece|
        ensures lower(piece)[m] == lower(text)[i + m]
      {
        assert lower([piece[m]]) == [lower(piece)[m]];
        assert lower([text[i + m]]) == [lower(text)[i + m]];
      }
    }
  }

  /** A single letter occurs at every mark and is marked wherever it occurs. */
  lemma {:induction false} LetterIsMarked(text: string, lower: string -> string, i: nat)
    requires i < |lower(text)| == |text| && PiecesMatch(text, [lower(text)[i]], lower)
    ensures lower([text[i]]) == [lower(text)[i]]
  {
    var query := [lower(text)[i]];
    var marks := MarkedFrom(lower(text), query, 0);
    MarksCoverOccurrences(lower(text), query, 0);
    assert OccursAt(lower(text), query, i);
    var k :| 0 <= k < |marks| && marks[k] <= i < marks[k] + 1;
    StretchAt(text, 1, marks, k);
    assert Slice(text, i, i + 1) == [text[i]];
  }

  /** In a text that keeps its length, the pieces marked for single letters match if and only if each
      of its letters is lowered on its own. */
  lemma {:induction false} LettersMatchExactly(text: string, lower: string -> string)
    requires |lower(text)| == |text|
    ensures (forall x: char :: PiecesMatch(text, [x], lower)) <==>
              forall i :: 0 <= i < |text| ==> lower([text[i]]) == [lower(text)[i]]
  {
    if forall x: char :: PiecesMatch(text, [x], lower) {
      forall i | 0 <= i < |text|
        ensures lower([text[i]]) == [lower(text)[i]]
      {
        LetterIsMarked(text, lower, i);
      }
    }
    if forall i :: 0 <= i < |text| ==> lower([text[i]]) == [lower(text)[i]] {
      forall x: char
        ensures PiecesMatch(text, [x], lower)
      {
        LetterMatches(text, x, lower);
      }
    }
  }

  lemma {:induction false} LetterMatches(text: string, x: char, lower: string -> string)
    requires |lower(text)| == |text| && forall i :: 0 <= i < |text| ==> lower([text[i]]) == [lower(text)[i]]
    ensures PiecesMatch(text, [x], lower)
  {
    var marks := MarkedFrom(lower(text), [x], 0);
    MarksCoverOccurrences(lower(text), [x], 0);
    StretchAt(text, 1, marks, 0);
    forall k | 0 <= k < |marks|
      ensures lower(Stretches(text, 1, marks)[k]) == [x]
    {
      StretchAt(text, 1, marks, k);
      assert OccursAt(lower(text), [x], marks[k]);
      assert Slice(text, marks[k], marks[k] + 1) == [text[marks[k]]];
    }
  }

  /** Among lower-casings that keep every length, the highlighted pieces always match the query if
      and only if each letter is lowered on its own. */
  lemma {:induction false} PiecesMatchExactly(lower: string -> string)
    ensures LengthKept(lower) && AlwaysMatch(lower) <==> Letterwise(lower)
  {
    if LengthKept(lower) && AlwaysMatch(lower) {
      forall s: string, i: nat | i < |s| && i < |lower(s)|
        ensures lower([s[i]]) == [lower(s)[i]]
      {
        assert |lower(s)| == |s|;
        assert PiecesMatch(s, [lower(s)[i]], lower);
        LetterIsMarked(s, lower, i);
      }
    }
    if Letterwise(lower) {
      forall text: string, query: string | query != ""
        ensures PiecesMatch(text, query, lower)
      {
        LetterwiseInPlace(text, lower);
        LoweredInPlaceMatches(text, query, lower);
      }
    }
  }

  /** When lower-casing lengthens the text the marks shift: the dotted capital I becomes two
      characters, and the match behind it is marked past the end. */
  lemma {:induction false} LongerLowerCaseShifts(lower: string -> string)
    requires lower("\U{0130}x") == "i\U{0307}x"
    ensures Stretches("\U{0130}x", 1, MarkedFrom(lower("\U{0130}x"), "x", 0)) == [""]
  {
    var lowered := "i\U{0307}x";
    assert lowered[0..1][0] == lowered[0] && lowered[1..2][0] == lowered[1] && lowered[2..3] == "x";
    assert FirstFrom(lowered, "x", 2) == Some(2);
    assert FirstFrom(lowered, "x", 1) == Some(2);
    assert FirstFrom(lowered, "x", 3) == None;
    assert MarkedFrom(lowered, "x", 3) == [];
    assert MarkedFrom(lowered, "x", 0) == [2];
  }
}
