/** Segmenting a body into blocks keeps its text in order, but for marks, fences and what stands behind a number (apple
    TranscriptModel.swift `segment`). */
module Segments {
  import opened Contract
  import opened Text
  import opened Sentences
  import opened Transcript

  // ----- what a line gives up and what it says -----

  /** A fence gives up the whole line; a heading its hashes, a quote and a bullet their mark, a numbered item its marker
      and the one character after it; any other line nothing. */
  function Dropped(a: Alphabet, inCode: bool, line: string): string {
    var trimmed := TrimBlank(line);
    if StartsWith(trimmed, "```") then line
    else if inCode || trimmed == "" then ""
    else if HeadingLevel(trimmed).Some? then trimmed[..|trimmed| - |HeadingText(trimmed)|]
    else if StartsWith(trimmed, "> ") then trimmed[..2]
    else
      match OrderedMarker(a, trimmed)
      case Some(marker) => if |marker| < |trimmed| then trimmed[..|marker| + 1] else trimmed
      case None => if IsBullet(trimmed) then trimmed[..2] else ""
  }

  /** The text a line adds to the blocks. */
  function Said(a: Alphabet, inCode: bool, line: string): string {
    var trimmed := TrimBlank(line);
    if StartsWith(trimmed, "```") then ""
    else if inCode then line
    else if trimmed == "" then ""
    else if HeadingLevel(trimmed).Some? then HeadingText(trimmed)
    else if StartsWith(trimmed, "> ") then trimmed[2..]
    else
      match OrderedMarker(a, trimmed)
      case Some(marker) => OrderedText(trimmed, marker)
      case None => if IsBullet(trimmed) then trimmed[2..] else trimmed
  }

  function DroppedIn(a: Alphabet, lines: seq<string>): seq<string> {
    if lines == [] then []
    else
      var init := lines[..|lines| - 1];
      DroppedIn(a, init) + [Dropped(a, ScanOf(a, init).inCode, lines[|lines| - 1])]
  }

  function SaidIn(a: Alphabet, lines: seq<string>): seq<string> {
    if lines == [] then []
    else
      var init := lines[..|lines| - 1];
      SaidIn(a, init) + [Said(a, ScanOf(a, init).inCode, lines[|lines| - 1])]
  }

  /** What each line gives up and says, in document order. */
  function PartsIn(a: Alphabet, lines: seq<string>): seq<string> {
    if lines == [] then []
    else
      var init, last := lines[..|lines| - 1], lines[|lines| - 1];
      PartsIn(a, init) + [Dropped(a, ScanOf(a, init).inCode, last), Said(a, ScanOf(a, init).inCode, last)]
  }

  function Texts(blocks: seq<Block>): seq<string> {
    seq(|blocks|, k requires 0 <= k < |blocks| => blocks[k].text)
  }

  /** The visible characters of some parts, in order. */
  function Visible(parts: seq<string>): string {
    NonWhite(Flatten(parts))
  }

  // ----- visible text of pieces -----

  lemma {:induction false} FlattenConcat(a: seq<string>, b: seq<string>)
    ensures Flatten(a + b) == Flatten(a) + Flatten(b)
  {
    if a == [] {
      assert a + b == b;
    } else {
      assert (a + b)[1..] == a[1..] + b;
      FlattenConcat(a[1..], b);
    }
  }

  lemma VisibleConcat(a: seq<string>, b: seq<string>)
    ensures Visible(a + b) == Visible(a) + Visible(b)
  {
    hide Flatten, NonWhite;
    FlattenConcat(a, b);
    NonWhiteConcat(Flatten(a), Flatten(b));
  }

  lemma VisibleOne(part: string)
    ensures Visible([part]) == NonWhite(part) && Visible([]) == ""
  {
    assert [part][1..] == [] && part + "" == part;
    hide NonWhite;
    assert NonWhite("") == "" by { NothingVisible(); }
  }

  lemma NothingVisible()
    ensures NonWhite("") == ""
  {
  }

  lemma VisibleMore(parts: seq<string>, last: string)
    ensures Visible(parts + [last]) == Visible(parts) + NonWhite(last)
  {
    hide Visible;
    VisibleConcat(parts, [last]);
    VisibleOne(last);
  }

  lemma WhiteIsInvisible(c: char)
    requires IsWhite(c)
    ensures NonWhite([c]) == ""
  {
    assert [c][1..] == "";
  }

  lemma {:induction false} JoinKeeps(parts: seq<string>, separator: char)
    requires IsWhite(separator)
    ensures NonWhite(JoinWith(parts, separator)) == Visible(parts)
  {
    hide NonWhite, Visible;
    if parts == [] {
      VisibleOne("");
      NothingVisible();
    } else if |parts| == 1 {
      assert parts == [parts[0]];
      VisibleOne(parts[0]);
    } else {
      var init, last := parts[..|parts| - 1], parts[|parts| - 1];
      JoinKeeps(init, separator);
      assert parts == init + [last];
      VisibleMore(init, last);
      NonWhiteConcat(JoinWith(init, separator) + [separator], last);
      NonWhiteConcat(JoinWith(init, separator), [separator]);
      WhiteIsInvisible(separator);
    }
  }

  lemma EmitKeeps(a: Alphabet, blocks: seq<Block>, kind: BlockKind, text: string)
    ensures Visible(Texts(Emit(a, blocks, kind, text))) == Visible(Texts(blocks)) + NonWhite(text)
  {
    hide NonWhite, Visible, Trim;
    var after := Emit(a, blocks, kind, text);
    if after == blocks {
      TrimConserves(text);
      NothingVisible();
    } else {
      assert Texts(after) == Texts(blocks) + [text];
      VisibleMore(Texts(blocks), text);
    }
  }

  // ----- lines split into what is dropped and what is said -----

  lemma SuffixSplits(line: string, n: nat)
    requires n <= |line|
    ensures NonWhite(line) == NonWhite(line[..n]) + NonWhite(line[n..])
  {
    NonWhiteCut(line, n);
  }

  lemma DropRunSplits(line: string, p: char -> bool)
    ensures DropRun(line, p) == line[|Run(line, p)|..] && |Run(line, p)| <= |line|
  {
  }

  lemma HeadingSplits(line: string)
    ensures |HeadingText(line)| <= |line| && HeadingText(line) == line[|line| - |HeadingText(line)|..]
  {
    var rest := DropRun(line, c => c == '#');
    DropRunSplits(line, c => c == '#');
    DropRunSplits(rest, c => c == ' ');
  }

  lemma OrderedSplits(line: string, marker: string)
    requires marker <= line
    ensures var mark := if |marker| < |line| then line[..|marker| + 1] else line;
      NonWhite(line) == NonWhite(mark) + NonWhite(OrderedText(line, marker))
  {
    hide NonWhite;
    var rest := DropFirst(line, |marker| + 1);
    if |marker| < |line| { SuffixSplits(line, |marker| + 1); } else { NothingVisible(); }
    SpacesAreInvisible(rest);
  }

  lemma {:induction false} SpacesAreInvisible(line: string)
    ensures NonWhite(DropRun(line, c => c == ' ')) == NonWhite(line)
  {
    var run := Run(line, c => c == ' ');
    RunOfSpaces(line);
    NonWhiteCut(line, |run|);
    assert line[..|run|] == run;
  }

  lemma {:induction false} RunOfSpaces(line: string)
    ensures NonWhite(Run(line, c => c == ' ')) == ""
  {
    if line != [] && line[0] == ' ' {
      RunOfSpaces(line[1..]);
      assert ([' '] + Run(line[1..], c => c == ' '))[1..] == Run(line[1..], c => c == ' ');
    }
  }

  /** A line's visible text is what it gives up followed by what it says. */
  lemma LineSplits(a: Alphabet, inCode: bool, line: string)
    ensures NonWhite(line) == NonWhite(Dropped(a, inCode, line)) + NonWhite(Said(a, inCode, line))
  {
    hide NonWhite, TrimBlank, HeadingText, OrderedText, HeadingLevel, OrderedMarker;
    var trimmed := TrimBlank(line);
    TrimBlankConserves(line);
    NothingVisible();
    HeadingSplits(trimmed);
    SuffixSplits(trimmed, |trimmed| - |HeadingText(trimmed)|);
    if |trimmed| >= 2 { SuffixSplits(trimmed, 2); }
    match OrderedMarker(a, trimmed)
    case Some(marker) => OrderedSplits(trimmed, marker);
    case None =>
  }

  // ----- the scan -----

  /** Inside code nothing else is pending, outside it no code is; never a paragraph and a quote at once. */
  predicate Tidy(s: Scan) {
    (if s.inCode then s.paragraph == [] && s.quote == [] else s.code == []) && (s.paragraph == [] || s.quote == [])
  }

  /** What the scan has taken in, in order. */
  function Taken(s: Scan): string {
    Visible(Texts(s.blocks)) + Visible(s.paragraph) + Visible(s.quote) + Visible(s.code)
  }

  lemma FlushKeeps(a: Alphabet, s: Scan)
    requires s.paragraph == [] || s.quote == []
    ensures Taken(FlushParagraph(a, s)) == Taken(s) && Taken(FlushQuote(a, s)) == Taken(s)
             && Taken(Flush(a, s)) == Taken(s)
  {
    hide Visible, NonWhite, JoinWith, Emit, Texts;
    VisibleOne("");
    var t := FlushParagraph(a, s);
    JoinKeeps(s.paragraph, ' ');
    JoinKeeps(s.quote, ' ');
    EmitKeeps(a, s.blocks, Paragraph, JoinWith(s.paragraph, ' '));
    EmitKeeps(a, s.blocks, Quote, JoinWith(s.quote, ' '));
    EmitKeeps(a, t.blocks, Quote, JoinWith(s.quote, ' '));
  }

  lemma FlushShape(a: Alphabet, s: Scan)
    ensures var t := Flush(a, s); t.paragraph == [] && t.quote == [] && t.code == s.code && t.inCode == s.inCode
    ensures FlushParagraph(a, s).paragraph == []
             && FlushParagraph(a, s).(blocks := s.blocks, paragraph := s.paragraph) == s
    ensures FlushQuote(a, s).quote == [] && FlushQuote(a, s).(blocks := s.blocks, quote := s.quote) == s
  {
    hide Emit, JoinWith;
  }

  lemma FeedKeeps(a: Alphabet, s: Scan, line: string)
    requires Tidy(s)
    ensures Tidy(Feed(a, s, line)) && Taken(Feed(a, s, line)) == Taken(s) + NonWhite(Said(a, s.inCode, line))
  {
    hide Visible, NonWhite, JoinWith, Emit, Flush, FlushParagraph, FlushQuote, HeadingLevel, OrderedMarker, HeadingText,
         OrderedText, TrimBlank, Texts;
    var trimmed, t := TrimBlank(line), Flush(a, s);
    FlushKeeps(a, s);
    FlushShape(a, s);
    VisibleOne("");
    NothingVisible();
    if StartsWith(trimmed, "```") {
      JoinKeeps(s.code, '\n');
      EmitKeeps(a, s.blocks, Code, JoinWith(s.code, '\n'));
    } else if s.inCode {
      VisibleMore(s.code, line);
    } else if trimmed == "" {
    } else if HeadingLevel(trimmed).Some? {
      EmitKeeps(a, t.blocks, Heading(HeadingLevel(trimmed).value), HeadingText(trimmed));
    } else if StartsWith(trimmed, "> ") {
      VisibleMore(s.quote, trimmed[2..]);
    } else if OrderedMarker(a, trimmed).Some? {
      var marker := OrderedMarker(a, trimmed).value;
      EmitKeeps(a, t.blocks, Ordered(marker), OrderedText(trimmed, marker));
    } else if IsBullet(trimmed) {
      EmitKeeps(a, t.blocks, Bullet, trimmed[2..]);
    } else {
      VisibleMore(s.paragraph, trimmed);
    }
  }

  lemma {:induction false} ScanKeeps(a: Alphabet, lines: seq<string>)
    ensures Tidy(ScanOf(a, lines)) && Taken(ScanOf(a, lines)) == Visible(SaidIn(a, lines))
  {
    hide Feed, Said, Visible, Texts;
    if lines == [] {
      VisibleOne("");
      assert Texts([]) == [] by { NoTexts(); }
    } else {
      hide Tidy, Taken;
      var init, last := lines[..|lines| - 1], lines[|lines| - 1];
      ScanKeeps(a, init);
      FeedKeeps(a, ScanOf(a, init), last);
      VisibleMore(SaidIn(a, init), Said(a, ScanOf(a, init).inCode, last));
    }
  }

  lemma NoTexts()
    ensures Texts([]) == []
  {
  }

  /** The blocks say exactly what the lines say, in order. */
  lemma BlocksSayTheLines(a: Alphabet, body: string)
    ensures Visible(Texts(SegmentOf(a, body))) == Visible(SaidIn(a, Lines(body)))
  {
    hide Emit, JoinWith, Lines, ScanOf, SaidIn, Visible, Texts, NonWhite;
    var s := ScanOf(a, Lines(body));
    ScanKeeps(a, Lines(body));
    VisibleOne("");
    if s.inCode {
      JoinKeeps(s.code, '\n');
      EmitKeeps(a, s.blocks, Code, JoinWith(s.code, '\n'));
      assert Finish(a, s) == EmitCode(a, s);
      assert Taken(s) == Visible(Texts(s.blocks)) + Visible(s.code);
    } else {
      FlushKeeps(a, s);
      FlushShape(a, s);
      var t := Flush(a, s);
      assert Taken(t) == Visible(Texts(t.blocks));
    }
  }

  // ----- the whole body -----

  lemma {:induction false} LinesKeep(body: string)
    ensures Visible(Lines(body)) == NonWhite(body)
  {
    hide NonWhite, Visible;
    if body == [] {
      VisibleOne("");
      NothingVisible();
    } else {
      var rest, c := Lines(body[1..]), body[0];
      LinesKeep(body[1..]);
      assert body == [c] + body[1..];
      NonWhiteConcat([c], body[1..]);
      if IsNewline(c) {
        WhiteIsInvisible(c);
        VisibleConcat([""], rest);
        VisibleOne("");
        NothingVisible();
      } else {
        assert rest == [rest[0]] + rest[1..];
        VisibleConcat([rest[0]], rest[1..]);
        VisibleConcat([[c] + rest[0]], rest[1..]);
        VisibleOne(rest[0]);
        VisibleOne([c] + rest[0]);
        NonWhiteConcat([c], rest[0]);
      }
    }
  }

  lemma {:induction false} PartsKeep(a: Alphabet, lines: seq<string>)
    ensures Visible(PartsIn(a, lines)) == Visible(lines)
  {
    hide NonWhite, Visible, Dropped, Said, ScanOf;
    if lines != [] {
      var init, last := lines[..|lines| - 1], lines[|lines| - 1];
      var dropped, said := Dropped(a, ScanOf(a, init).inCode, last), Said(a, ScanOf(a, init).inCode, last);
      PartsKeep(a, init);
      LineSplits(a, ScanOf(a, init).inCode, last);
      assert lines == init + [last];
      VisibleMore(init, last);
      assert PartsIn(a, lines) == PartsIn(a, init) + [dropped] + [said];
      VisibleMore(PartsIn(a, init) + [dropped], said);
      VisibleMore(PartsIn(a, init), dropped);
    }
  }

  lemma {:induction false} PartsWeigh(a: Alphabet, lines: seq<string>)
    ensures WeightAll(a, PartsIn(a, lines)) == WeightAll(a, DroppedIn(a, lines)) + WeightAll(a, SaidIn(a, lines))
  {
    hide Dropped, Said, ScanOf, Weight;
    if lines != [] {
      var init, last := lines[..|lines| - 1], lines[|lines| - 1];
      var dropped, said := Dropped(a, ScanOf(a, init).inCode, last), Said(a, ScanOf(a, init).inCode, last);
      PartsWeigh(a, init);
      assert PartsIn(a, lines) == PartsIn(a, init) + [dropped] + [said];
      WeightAllMore(a, PartsIn(a, init) + [dropped], said);
      WeightAllMore(a, PartsIn(a, init), dropped);
      WeightAllMore(a, DroppedIn(a, init), dropped);
      WeightAllMore(a, SaidIn(a, init), said);
    }
  }

  lemma SameVisibleSameWeight(a: Alphabet, s: seq<string>, t: seq<string>)
    requires Sane(a) && Visible(s) == Visible(t)
    ensures WeightAll(a, s) == WeightAll(a, t)
  {
    WeightFlattens(a, s);
    WeightFlattens(a, t);
    WeightIsVisible(a, Flatten(s));
    WeightIsVisible(a, Flatten(t));
    hide Weight, WeightAll, Flatten, NonWhite;
  }

  /** The visible text of a body is, in document order, what each line gives up and then what it says; the blocks hold
      exactly what the lines say, in that order, so nothing else is dropped, repeated or moved. Spoken weights add
      up. */
  lemma SegmentKeepsWhatIsSpoken(a: Alphabet, body: string)
    ensures NonWhite(body) == Visible(PartsIn(a, Lines(body)))
    ensures Visible(Texts(SegmentOf(a, body))) == Visible(SaidIn(a, Lines(body)))
    ensures Sane(a) ==>
      WeightAll(a, Texts(SegmentOf(a, body))) + WeightAll(a, DroppedIn(a, Lines(body))) == Weight(a, body)
  {
    hide Visible, NonWhite, Lines, SegmentOf, PartsIn, DroppedIn, SaidIn, Texts, WeightAll, Weight;
    LinesKeep(body);
    PartsKeep(a, Lines(body));
    BlocksSayTheLines(a, body);
    if Sane(a) {
      PartsWeigh(a, Lines(body));
      SameVisibleSameWeight(a, Texts(SegmentOf(a, body)), SaidIn(a, Lines(body)));
      OneWeighs(a, body);
      SameVisibleSameWeight(a, PartsIn(a, Lines(body)), [body]);
    }
  }

  lemma OneWeighs(a: Alphabet, s: string)
    ensures WeightAll(a, [s]) == Weight(a, s) && Visible([s]) == NonWhite(s)
  {
    VisibleOne(s);
    assert [s][1..] == [];
    hide NonWhite, Weight;
  }

  // ----- silent marks -----

  /** Whitespace, the markdown marks and the full stop are not spoken. */
  ghost predicate Plain(a: Alphabet) {
    Sane(a) && forall c :: c in "#>-*+." ==> !a.alphanumeric(c)
  }

  lemma {:induction false} MarksWeighNothing(a: Alphabet, s: string)
    requires Plain(a) && forall i | 0 <= i < |s| :: s[i] in "#>-*+ "
    ensures Weight(a, s) == 0
  {
    if s != [] { MarksWeighNothing(a, s[1..]); }
  }

  lemma {:induction false} RunIsOfKind(line: string, p: char -> bool)
    ensures forall i | 0 <= i < |Run(line, p)| :: p(Run(line, p)[i])
  {
    if line != [] && p(line[0]) { RunIsOfKind(line[1..], p); }
  }

  /** The line becomes a numbered item, under this marker. */
  function NumberedUnder(a: Alphabet, inCode: bool, line: string): Option<string> {
    var trimmed := TrimBlank(line);
    if StartsWith(trimmed, "```") || inCode || HeadingLevel(trimmed).Some? || StartsWith(trimmed, "> ") then None
    else OrderedMarker(a, trimmed)
  }

  /** The character right behind the marker, which goes with it, is a letter or digit. */
  predicate TakesALetter(a: Alphabet, marker: string, trimmed: string) {
    |marker| < |trimmed| && a.alphanumeric(trimmed[|marker|])
  }

  /** Exactly how much speech a line gives up: all of it in a fence; in a numbered item its number, and one character
      more exactly when a letter or digit stands right behind the full stop; otherwise none. */
  lemma SpeechGivenUp(a: Alphabet, inCode: bool, line: string)
    requires Plain(a)
    ensures var trimmed, marker := TrimBlank(line), NumberedUnder(a, inCode, line);
      Weight(a, Dropped(a, inCode, line))
      == if StartsWith(trimmed, "```") then Weight(a, line)
         else if marker.Some? then
           Weight(a, marker.value[..|marker.value| - 1]) + (if TakesALetter(a, marker.value, trimmed) then 1 else 0)
         else 0
  {
    hide TrimBlank, OrderedMarker, Weight;
    var trimmed := TrimBlank(line);
    NothingWeighs(a);
    if !StartsWith(trimmed, "```") && !inCode && trimmed != "" {
      if HeadingLevel(trimmed).Some? {
        HeadingMarks(trimmed);
        MarksWeighNothing(a, Dropped(a, inCode, line));
      } else if StartsWith(trimmed, "> ") {
        MarksWeighNothing(a, trimmed[..2]);
      } else if OrderedMarker(a, trimmed).Some? {
        NumberWeighs(a, OrderedMarker(a, trimmed).value, trimmed);
      } else if IsBullet(trimmed) {
        MarksWeighNothing(a, trimmed[..2]);
      }
    }
    if trimmed == "" { NoMarker(a); }
  }

  lemma NothingWeighs(a: Alphabet)
    ensures Weight(a, "") == 0
  {
  }

  lemma NoMarker(a: Alphabet)
    ensures OrderedMarker(a, "").None?
  {
  }

  lemma NumberWeighs(a: Alphabet, marker: string, trimmed: string)
    requires Plain(a) && OrderedMarker(a, trimmed) == Some(marker)
    ensures marker != ""
    ensures Weight(a, if |marker| < |trimmed| then trimmed[..|marker| + 1] else trimmed)
         == Weight(a, marker[..|marker| - 1]) + (if TakesALetter(a, marker, trimmed) then 1 else 0)
  {
    var digits := marker[..|marker| - 1];
    assert marker == digits + ['.'];
    WeightConcat(a, digits, ['.']);
    WeightOfOne(a, '.');
    if |marker| < |trimmed| {
      assert trimmed[..|marker| + 1] == marker + [trimmed[|marker|]];
      WeightConcat(a, marker, [trimmed[|marker|]]);
      WeightOfOne(a, trimmed[|marker|]);
    } else {
      assert trimmed == marker;
    }
  }

  lemma WeightOfOne(a: Alphabet, c: char)
    ensures Weight(a, [c]) == if a.alphanumeric(c) then 1 else 0
  {
    assert [c][1..] == [];
  }

  /** A letter right behind the full stop is lost: of "1.foo" only "oo" is said. */
  lemma LetterBehindTheStopIsLost(a: Alphabet)
    requires a.number('1') && !a.number('.') && a.alphanumeric('f')
    ensures Dropped(a, false, "1.foo") == "1.f" && Said(a, false, "1.foo") == "oo"
    ensures NumberedUnder(a, false, "1.foo") == Some("1.") && TakesALetter(a, "1.", "1.foo")
  {
    SampleMarker(a);
    SampleIsPlain();
    hide OrderedMarker, TrimBlank, HeadingLevel;
    assert "1.foo"[2] == 'f' && "1.foo"[..3] == "1.f";
    SampleText();
  }

  lemma SampleMarker(a: Alphabet)
    requires a.number('1') && !a.number('.')
    ensures OrderedMarker(a, "1.foo") == Some("1.")
  {
    var line := "1.foo";
    assert line[0] == '1' && line[1..][0] == '.';
    assert Run(line[1..], a.number) == [];
    assert Run(line, a.number) == ['1'] + Run(line[1..], a.number) == "1";
    assert "1" + "." == "1.";
  }

  lemma SampleIsPlain()
    ensures TrimBlank("1.foo") == "1.foo" && HeadingLevel("1.foo").None?
    ensures !StartsWith("1.foo", "```") && !StartsWith("1.foo", "> ")
  {
    assert "1.foo"[0] == '1' && "1.foo"[4] == 'o' && "```"[0] == '`' && "> "[0] == '>';
  }

  lemma SampleText()
    ensures OrderedText("1.foo", "1.") == "oo"
  {
    assert DropFirst("1.foo", 3) == "oo" && "oo"[0] == 'o';
  }

  lemma HeadingMarks(line: string)
    ensures |HeadingText(line)| <= |line|
    ensures var n := |line| - |HeadingText(line)|; forall i | 0 <= i < n :: line[i] in "#>-*+ "
  {
    var hashes := Run(line, c => c == '#');
    var rest := DropRun(line, c => c == '#');
    var spaces := Run(rest, c => c == ' ');
    RunIsOfKind(line, c => c == '#');
    RunIsOfKind(rest, c => c == ' ');
    forall i | 0 <= i < |hashes| + |spaces| ensures line[i] in "#>-*+ " {
      if i < |hashes| { assert line[i] == hashes[i]; } else { assert line[i] == spaces[i - |hashes|]; }
    }
  }
}
