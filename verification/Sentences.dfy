/** Splitting prose into sentences (apple TranscriptModel.swift `Sentences.split`) and counting spoken characters. */
module Sentences {
  import opened Contract
  import opened Text

  /** Unicode letters, marks and digits, and `Character.isNumber`. */
  datatype Alphabet = Alphabet(alphanumeric: char -> bool, number: char -> bool)

  /** No alphanumeric is whitespace. */
  ghost predicate Sane(a: Alphabet) {
    forall c :: IsWhite(c) ==> !a.alphanumeric(c)
  }

  /** `CharacterSet.newlines`. */
  predicate IsNewline(c: char) {
    '\n' <= c <= '\r' || c == '\U{85}' || c == '\U{2028}' || c == '\U{2029}'
  }

  /** `CharacterSet.whitespaces`: spaces and the tab, but no line break. */
  predicate IsBlank(c: char) {
    IsWhite(c) && !IsNewline(c)
  }

  function DropBlank(s: string): (t: string)
    ensures |t| <= |s|
  {
    if s != [] && IsBlank(s[0]) then DropBlank(s[1..]) else s
  }

  function DropBlankEnd(s: string): string {
    if s != [] && IsBlank(s[|s| - 1]) then DropBlankEnd(s[..|s| - 1]) else s
  }

  /** `trimmingCharacters(in: .whitespaces)`. */
  function TrimBlank(s: string): string {
    DropBlankEnd(DropBlank(s))
  }

  function SkipWhite(s: string): (t: string)
    ensures |t| <= |s|
  {
    if s != [] && IsWhite(s[0]) then SkipWhite(s[1..]) else s
  }

  predicate Terminal(c: char) {
    c == '.' || c == '!' || c == '?'
  }

  /** A sentence ends at `i`: terminal punctuation before whitespace or the end. */
  predicate EndsAt(s: string, i: nat)
    requires i < |s|
  {
    Terminal(s[i]) && (i + 1 == |s| || IsWhite(s[i + 1]))
  }

  /** The first sentence end at or after `i`. */
  function FirstEnd(s: string, i: nat): (end: Option<nat>)
    requires i <= |s|
    ensures end.Some? ==> i <= end.value < |s| && EndsAt(s, end.value)
    decreases |s| - i
  {
    if i == |s| then None else if EndsAt(s, i) then Some(i) else FirstEnd(s, i + 1)
  }

  /** The sentences of text that has been trimmed or skipped into: up to each end, then past the whitespace. */
  function Pieces(s: string): seq<string>
    decreases |s|
  {
    if s == [] then []
    else
      match FirstEnd(s, 0)
      case None => if TrimBlank(s) == [] then [] else [TrimBlank(s)]
      case Some(end) => [TrimBlank(s[..end + 1])] + Pieces(SkipWhite(s[end + 1..]))
  }

  function Split(text: string): seq<string> {
    var trimmed := Trim(text);
    if trimmed == [] then [] else if Pieces(trimmed) == [] then [trimmed] else Pieces(trimmed)
  }

  // ----- conservation -----

  /** The visible characters, in order. */
  function NonWhite(s: string): string {
    if s == [] then [] else (if IsWhite(s[0]) then [] else [s[0]]) + NonWhite(s[1..])
  }

  function Flatten(parts: seq<string>): string {
    if parts == [] then [] else parts[0] + Flatten(parts[1..])
  }

  lemma {:induction false} NonWhiteConcat(a: string, b: string)
    ensures NonWhite(a + b) == NonWhite(a) + NonWhite(b)
  {
    if a == [] {
      assert a + b == b;
    } else {
      assert (a + b)[1..] == a[1..] + b;
      NonWhiteConcat(a[1..], b);
    }
  }

  lemma NonWhiteCut(s: string, i: nat)
    requires i <= |s|
    ensures NonWhite(s) == NonWhite(s[..i]) + NonWhite(s[i..])
  {
    hide NonWhite;
    assert s == s[..i] + s[i..];
    NonWhiteConcat(s[..i], s[i..]);
  }

  lemma {:induction false} DropBlankConserves(s: string)
    ensures NonWhite(DropBlank(s)) == NonWhite(s)
  {
    if s != [] && IsBlank(s[0]) { DropBlankConserves(s[1..]); }
  }

  lemma {:induction false} DropBlankEndConserves(s: string)
    ensures NonWhite(DropBlankEnd(s)) == NonWhite(s)
  {
    if s != [] && IsBlank(s[|s| - 1]) {
      DropBlankEndConserves(s[..|s| - 1]);
      NonWhiteCut(s, |s| - 1);
      assert NonWhite([s[|s| - 1]]) == [] by { assert [s[|s| - 1]][1..] == []; }
      assert s[|s| - 1..] == [s[|s| - 1]];
    }
  }

  lemma TrimBlankConserves(s: string)
    ensures NonWhite(TrimBlank(s)) == NonWhite(s)
  {
    DropBlankConserves(s);
    DropBlankEndConserves(DropBlank(s));
  }

  lemma {:induction false} SkipWhiteConserves(s: string)
    ensures NonWhite(SkipWhite(s)) == NonWhite(s)
    ensures SkipWhite(s) == [] || !IsWhite(SkipWhite(s)[0])
  {
    if s != [] && IsWhite(s[0]) { SkipWhiteConserves(s[1..]); }
  }

  lemma {:induction false} TrimStartConserves(s: string)
    ensures NonWhite(TrimStart(s)) == NonWhite(s)
  {
    if s != [] && IsWhite(s[0]) { TrimStartConserves(s[1..]); }
  }

  lemma {:induction false} TrimEndConserves(s: string)
    ensures NonWhite(TrimEnd(s)) == NonWhite(s)
  {
    if s != [] && IsWhite(s[|s| - 1]) {
      TrimEndConserves(s[..|s| - 1]);
      NonWhiteCut(s, |s| - 1);
      assert NonWhite([s[|s| - 1]]) == [] by { assert [s[|s| - 1]][1..] == []; }
      assert s[|s| - 1..] == [s[|s| - 1]];
    }
  }

  lemma TrimConserves(s: string)
    ensures NonWhite(Trim(s)) == NonWhite(s)
  {
    TrimStartConserves(s);
    TrimEndConserves(TrimStart(s));
  }

  /** A piece that starts or ends with a visible character keeps it. */
  lemma VisibleStays(s: string, i: nat)
    requires i < |s| && !IsWhite(s[i])
    ensures NonWhite(s) != [] && TrimBlank(s) != []
  {
    NonWhiteCut(s, i);
    assert s[i..][0] == s[i] && s[i..] != [];
    TrimBlankConserves(s);
  }

  lemma {:induction false} PiecesConserve(s: string)
    ensures NonWhite(Flatten(Pieces(s))) == NonWhite(s)
    ensures forall piece <- Pieces(s) :: piece != []
    decreases |s|
  {
    if s != [] {
      match FirstEnd(s, 0)
      case None =>
        TrimBlankConserves(s);
        assert TrimBlank(s) + [] == TrimBlank(s) && [TrimBlank(s)][1..] == [];
      case Some(end) =>
        var first, rest := TrimBlank(s[..end + 1]), SkipWhite(s[end + 1..]);
        TrimBlankConserves(s[..end + 1]);
        SkipWhiteConserves(s[end + 1..]);
        NonWhiteCut(s, end + 1);
        VisibleStays(s[..end + 1], end);
        PiecesConserve(rest);
        assert ([first] + Pieces(rest))[1..] == Pieces(rest);
        NonWhiteConcat(first, Flatten(Pieces(rest)));
    }
  }

  /** The sentences keep every visible character of the text, in order; none is empty, and there is one unless the text
      is all whitespace. */
  lemma SplitConserves(text: string)
    ensures NonWhite(Flatten(Split(text))) == NonWhite(text)
    ensures forall sentence <- Split(text) :: sentence != []
    ensures Split(text) == [] <==> NonWhite(text) == []
  {
    TrimConserves(text);
    TrimSettles(text);
    var trimmed := Trim(text);
    if trimmed != [] {
      VisibleStays(trimmed, 0);
      PiecesConserve(trimmed);
    }
  }

  // ----- spoken weight -----

  /** `speakableWeight`. */
  function Weight(a: Alphabet, s: string): nat {
    if s == [] then 0 else (if a.alphanumeric(s[0]) then 1 else 0) + Weight(a, s[1..])
  }

  lemma {:induction false} WeightConcat(a: Alphabet, s: string, t: string)
    ensures Weight(a, s + t) == Weight(a, s) + Weight(a, t)
  {
    if s == [] {
      assert s + t == t;
    } else {
      assert (s + t)[1..] == s[1..] + t;
      WeightConcat(a, s[1..], t);
    }
  }

  /** Only visible characters weigh. */
  lemma {:induction false} WeightIsVisible(a: Alphabet, s: string)
    requires Sane(a)
    ensures Weight(a, NonWhite(s)) == Weight(a, s)
  {
    if s != [] {
      WeightIsVisible(a, s[1..]);
      if IsWhite(s[0]) {
        assert NonWhite(s) == NonWhite(s[1..]);
      } else {
        assert ([s[0]] + NonWhite(s[1..]))[1..] == NonWhite(s[1..]);
      }
    }
  }

  function WeightAll(a: Alphabet, parts: seq<string>): nat {
    if parts == [] then 0 else Weight(a, parts[0]) + WeightAll(a, parts[1..])
  }

  lemma {:induction false} WeightAllMore(a: Alphabet, parts: seq<string>, last: string)
    ensures WeightAll(a, parts + [last]) == WeightAll(a, parts) + Weight(a, last)
  {
    if parts == [] {
      assert [last][1..] == [];
    } else {
      assert (parts + [last])[1..] == parts[1..] + [last];
      WeightAllMore(a, parts[1..], last);
    }
  }

  lemma {:induction false} WeightFlattens(a: Alphabet, parts: seq<string>)
    ensures WeightAll(a, parts) == Weight(a, Flatten(parts))
  {
    if parts != [] {
      WeightFlattens(a, parts[1..]);
      WeightConcat(a, parts[0], Flatten(parts[1..]));
    }
  }

  /** The sentences of a text weigh what the text weighs. */
  lemma SentencesWeighTheText(a: Alphabet, text: string)
    requires Sane(a)
    ensures WeightAll(a, Split(text)) == Weight(a, text)
  {
    WeightFlattens(a, Split(text));
    SplitConserves(text);
    WeightIsVisible(a, text);
    WeightIsVisible(a, Flatten(Split(text)));
  }

  // ----- the scanner -----

  lemma {:induction false} EndIsLater(s: string, start: nat, index: nat)
    requires start <= index <= |s| && forall k | start <= k < index :: !EndsAt(s, k)
    ensures FirstEnd(s, start) == FirstEnd(s, index)
    decreases index - start
  {
    if start < index { EndIsLater(s, start + 1, index); }
  }

  lemma {:induction false} FirstEndShifts(s: string, start: nat, i: nat)
    requires start + i <= |s|
    ensures FirstEnd(s[start..], i).Some? <==> FirstEnd(s, start + i).Some?
    ensures FirstEnd(s, start + i).Some? ==> FirstEnd(s[start..], i).value + start == FirstEnd(s, start + i).value
    decreases |s| - start - i
  {
    if start + i < |s| { FirstEndShifts(s, start, i + 1); }
  }

  /** The pieces of what is left, from an index and from behind the whitespace there. */
  function PiecesAt(s: string, i: nat): seq<string>
    requires i <= |s|
  {
    Pieces(s[i..])
  }

  function PiecesBehindBlanks(s: string, i: nat): seq<string>
    requires i <= |s|
  {
    Pieces(SkipWhite(s[i..]))
  }

  lemma SkipStep(s: string, i: nat)
    requires i < |s|
    ensures PiecesBehindBlanks(s, i) == if IsWhite(s[i]) then PiecesBehindBlanks(s, i + 1) else PiecesAt(s, i)
  {
    hide Pieces;
    assert s[i..][1..] == s[i + 1..];
  }

  lemma AllPieces(s: string)
    ensures PiecesAt(s, 0) == Pieces(s) && PiecesAt(s, |s|) == PiecesBehindBlanks(s, |s|) == []
  {
    assert s[0..] == s;
  }

  /** The sentences found so far and the pieces of what is left are the pieces of the text. */
  ghost predicate Covers(done: seq<string>, s: string, start: nat)
    requires start <= |s|
  {
    done + PiecesAt(s, start) == Pieces(s)
  }

  lemma NothingCovered(s: string)
    ensures Covers([], s, 0) && PiecesAt(s, |s|) == PiecesBehindBlanks(s, |s|) == []
  {
    hide Pieces;
    AllPieces(s);
  }

  lemma OneMoreCovered(done: seq<string>, s: string, start: nat, index: nat, next: nat)
    requires start <= index < |s| && EndsAt(s, index) && forall k | start <= k < index :: !EndsAt(s, k)
    requires Covers(done, s, start) && next <= |s| && PiecesAt(s, next) == PiecesBehindBlanks(s, index + 1)
    ensures TrimBlank(s[start..index + 1]) != [] && Covers(done + [TrimBlank(s[start..index + 1])], s, next)
  {
    hide PiecesAt, PiecesBehindBlanks, EndsAt, TrimBlank, Pieces;
    PiecesFrom(s, start, index);
    var sentence := TrimBlank(s[start..index + 1]);
    assert done + ([sentence] + PiecesAt(s, next)) == (done + [sentence]) + PiecesAt(s, next);
  }

  lemma AllCovered(done: seq<string>, s: string, start: nat)
    requires start <= |s| && Covers(done, s, start) && forall k | start <= k < |s| :: !EndsAt(s, k)
    ensures Pieces(s) == done + (if start == |s| || TrimBlank(s[start..]) == [] then [] else [TrimBlank(s[start..])])
  {
    hide EndsAt, TrimBlank, Pieces, PiecesAt, PiecesBehindBlanks;
    AllPieces(s);
    if start < |s| { NoPieceBut(s, start); }
  }

  lemma SplitUnfolds(text: string)
    ensures Trim(text) == [] ==> Split(text) == []
    ensures Trim(text) != [] ==> Split(text) == if Pieces(Trim(text)) == [] then [Trim(text)] else Pieces(Trim(text))
  {
  }

  /** `Sentences.split`: one pass with a start and an index. */
  method SplitSentences(text: string) returns (sentences: seq<string>)
    ensures sentences == Split(text)
  {
    hide *;
    SplitUnfolds(text);
    var trimmed := Trim(text);
    if trimmed == [] { return []; }
    sentences := [];
    var start, index := 0, 0;
    NothingCovered(trimmed);
    while index < |trimmed|
      invariant start <= index <= |trimmed|
      invariant forall k | start <= k < index :: !EndsAt(trimmed, k)
      invariant Covers(sentences, trimmed, start)
      decreases |trimmed| - index
    {
      if EndsAt(trimmed, index) {
        var sentence := TrimBlank(trimmed[start..index + 1]);
        var skip := index + 1;
        while skip < |trimmed| && IsWhite(trimmed[skip])
          invariant index < skip <= |trimmed|
          invariant PiecesBehindBlanks(trimmed, index + 1) == PiecesBehindBlanks(trimmed, skip)
        {
          SkipStep(trimmed, skip);
          skip := skip + 1;
        }
        if skip < |trimmed| { SkipStep(trimmed, skip); }
        OneMoreCovered(sentences, trimmed, start, index, skip);
        if sentence != "" { sentences := sentences + [sentence]; }
        start, index := skip, skip;
      } else {
        index := index + 1;
      }
    }
    AllCovered(sentences, trimmed, start);
    if start < |trimmed| {
      var tail := TrimBlank(trimmed[start..]);
      if tail != "" { sentences := sentences + [tail]; }
    }
    sentences := if sentences == [] then [trimmed] else sentences;
  }

  lemma EndItself(s: string, index: nat)
    requires index < |s| && EndsAt(s, index)
    ensures FirstEnd(s, index) == Some(index) && !IsWhite(s[index])
  {
  }

  lemma PiecesFrom(s: string, start: nat, index: nat)
    requires start <= index < |s| && EndsAt(s, index) && forall k | start <= k < index :: !EndsAt(s, k)
    ensures PiecesAt(s, start) == [TrimBlank(s[start..index + 1])] + PiecesBehindBlanks(s, index + 1)
    ensures TrimBlank(s[start..index + 1]) != []
  {
    hide EndsAt, TrimBlank, NonWhite, FirstEnd, SkipWhite;
    EndIsLater(s, start, index);
    EndItself(s, index);
    FirstEndShifts(s, start, 0);
    assert s[start..][..index - start + 1] == s[start..index + 1];
    assert s[start..][index - start + 1..] == s[index + 1..];
    VisibleStays(s[start..index + 1], index - start);
  }

  lemma NoPieceBut(s: string, start: nat)
    requires start < |s| && forall k | start <= k < |s| :: !EndsAt(s, k)
    ensures PiecesAt(s, start) == if TrimBlank(s[start..]) == [] then [] else [TrimBlank(s[start..])]
  {
    EndIsLater(s, start, |s|);
    FirstEndShifts(s, start, 0);
  }
}
