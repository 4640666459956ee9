/**
 The read-along document (apple TranscriptModel.swift `TranscriptDocument`): markdown lines become blocks, blocks become
 sentences, and both are laid over the timeline [0, 1] by spoken weight.
 */
module Transcript {
  import opened Contract
  import opened Text
  import opened Sentences

  datatype BlockKind = Heading(level: nat) | Paragraph | Bullet | Ordered(marker: string) | Quote | Code

  datatype Block = Block(id: nat, kind: BlockKind, text: string, weight: nat, start: real, end: real)

  datatype Unit = Unit(block: nat, sentence: nat, end: real)

  datatype Focus = Focus(block: nat, sentence: nat)

  datatype Document = Document(blocks: seq<Block>, units: seq<Unit>)

  function AtLeastOne(n: nat): nat {
    if n == 0 then 1 else n
  }

  // ----- lines -----

  /** `components(separatedBy: .newlines)`. */
  function Lines(body: string): (lines: seq<string>)
    ensures lines != []
  {
    if body == [] then [""]
    else
      var rest := Lines(body[1..]);
      if IsNewline(body[0]) then [""] + rest else [[body[0]] + rest[0]] + rest[1..]
  }

  function Run(line: string, p: char -> bool): (run: string)
    ensures run <= line
  {
    if line != [] && p(line[0]) then [line[0]] + Run(line[1..], p) else []
  }

  function DropRun(line: string, p: char -> bool): string {
    line[|Run(line, p)|..]
  }

  function DropFirst(line: string, n: nat): string {
    if n <= |line| then line[n..] else ""
  }

  function HeadingLevel(line: string): Option<nat> {
    var hashes := |Run(line, c => c == '#')|;
    if 1 <= hashes <= 6 && hashes < |line| && line[hashes] == ' ' then Some(hashes) else None
  }

  /** The digits and the full stop that follows them. */
  function OrderedMarker(a: Alphabet, line: string): (marker: Option<string>)
    ensures marker.Some? ==> marker.value <= line
  {
    var digits := Run(line, a.number);
    if digits != "" && |digits| < |line| && line[|digits|] == '.' then Some(digits + ".") else None
  }

  /** The text after the heading's hashes, and after a list marker and one more character. */
  function HeadingText(line: string): string {
    DropRun(DropRun(line, c => c == '#'), c => c == ' ')
  }

  function OrderedText(line: string, marker: string): string {
    DropRun(DropFirst(line, |marker| + 1), c => c == ' ')
  }

  predicate IsBullet(line: string) {
    StartsWith(line, "- ") || StartsWith(line, "* ") || StartsWith(line, "+ ")
  }

  // ----- segmenting -----

  function JoinWith(parts: seq<string>, separator: char): string {
    if parts == [] then ""
    else if |parts| == 1 then parts[0]
    else JoinWith(parts[..|parts| - 1], separator) + [separator] + parts[|parts| - 1]
  }

  function Emit(a: Alphabet, blocks: seq<Block>, kind: BlockKind, text: string): seq<Block> {
    if Trim(text) == "" && !kind.Code? then blocks
    else blocks + [Block(|blocks|, kind, text, AtLeastOne(Weight(a, text)), 0.0, 0.0)]
  }

  /** Where the scan of the lines stands. */
  datatype Scan = Scan(blocks: seq<Block>, paragraph: seq<string>, quote: seq<string>, code: seq<string>, inCode: bool)

  function FlushParagraph(a: Alphabet, s: Scan): Scan {
    if s.paragraph == [] then s
    else s.(blocks := Emit(a, s.blocks, Paragraph, JoinWith(s.paragraph, ' ')), paragraph := [])
  }

  function FlushQuote(a: Alphabet, s: Scan): Scan {
    if s.quote == [] then s else s.(blocks := Emit(a, s.blocks, Quote, JoinWith(s.quote, ' ')), quote := [])
  }

  function Flush(a: Alphabet, s: Scan): Scan {
    FlushQuote(a, FlushParagraph(a, s))
  }

  function EmitCode(a: Alphabet, s: Scan): Scan {
    s.(blocks := Emit(a, s.blocks, Code, JoinWith(s.code, '\n')))
  }

  function Feed(a: Alphabet, s: Scan, line: string): Scan {
    var trimmed := TrimBlank(line);
    if StartsWith(trimmed, "```") then
      if s.inCode then EmitCode(a, s).(code := [], inCode := false) else Flush(a, s).(inCode := true)
    else if s.inCode then s.(code := s.code + [line])
    else if trimmed == "" then Flush(a, s)
    else if HeadingLevel(trimmed).Some? then
      var t := Flush(a, s);
      t.(blocks := Emit(a, t.blocks, Heading(HeadingLevel(trimmed).value), HeadingText(trimmed)))
    else if StartsWith(trimmed, "> ") then
      var t := FlushParagraph(a, s);
      t.(quote := t.quote + [trimmed[2..]])
    else if OrderedMarker(a, trimmed).Some? then
      var t, marker := Flush(a, s), OrderedMarker(a, trimmed).value;
      t.(blocks := Emit(a, t.blocks, Ordered(marker), OrderedText(trimmed, marker)))
    else if IsBullet(trimmed) then
      var t := Flush(a, s);
      t.(blocks := Emit(a, t.blocks, Bullet, trimmed[2..]))
    else
      var t := FlushQuote(a, s);
      t.(paragraph := t.paragraph + [trimmed])
  }

  function ScanOf(a: Alphabet, lines: seq<string>): Scan {
    if lines == [] then Scan([], [], [], [], false)
    else Feed(a, ScanOf(a, lines[..|lines| - 1]), lines[|lines| - 1])
  }

  function Finish(a: Alphabet, s: Scan): Scan {
    Flush(a, if s.inCode then EmitCode(a, s) else s)
  }

  function SegmentOf(a: Alphabet, body: string): seq<Block> {
    Finish(a, ScanOf(a, Lines(body))).blocks
  }

  lemma ScanStarts(a: Alphabet)
    ensures ScanOf(a, []) == Scan([], [], [], [], false)
  {
  }

  lemma ScanStep(a: Alphabet, lines: seq<string>, k: nat)
    requires k < |lines|
    ensures ScanOf(a, lines[..k + 1]) == Feed(a, ScanOf(a, lines[..k]), lines[k])
  {
    hide Feed;
    assert lines[..k + 1][..k] == lines[..k];
  }

  /** `segment` with its mutable lists. */
  method Segment(a: Alphabet, body: string) returns (blocks: seq<Block>)
    ensures blocks == SegmentOf(a, body)
  {
    hide Emit, JoinWith, Run, DropRun, Weight, Trim, TrimBlank, HeadingLevel, OrderedMarker,
         HeadingText, OrderedText, ScanOf, Lines;
    var lines := Lines(body);
    var paragraph: seq<string>, quote: seq<string>, code: seq<string>, inCode := [], [], [], false;
    blocks := [];
    ScanStarts(a);
    for k := 0 to |lines|
      invariant ScanOf(a, lines[..k]) == Scan(blocks, paragraph, quote, code, inCode)
    {
      ScanStep(a, lines, k);
      var line := lines[k];
      var trimmed := TrimBlank(line);
      if StartsWith(trimmed, "```") {
        if inCode {
          blocks, code, inCode := Emit(a, blocks, Code, JoinWith(code, '\n')), [], false;
        } else {
          var s := Flush(a, Scan(blocks, paragraph, quote, code, inCode));
          blocks, paragraph, quote, inCode := s.blocks, [], [], true;
        }
        continue;
      }
      if inCode { code := code + [line]; continue; }
      if trimmed == "" {
        var s := Flush(a, Scan(blocks, paragraph, quote, code, inCode));
        blocks, paragraph, quote := s.blocks, [], [];
        continue;
      }
      var level, marker := HeadingLevel(trimmed), OrderedMarker(a, trimmed);
      if level.Some? {
        var s := Flush(a, Scan(blocks, paragraph, quote, code, inCode));
        blocks, paragraph, quote := Emit(a, s.blocks, Heading(level.value), HeadingText(trimmed)), [], [];
      } else if StartsWith(trimmed, "> ") {
        var s := FlushParagraph(a, Scan(blocks, paragraph, quote, code, inCode));
        blocks, paragraph, quote := s.blocks, [], quote + [trimmed[2..]];
      } else if marker.Some? {
        var s := Flush(a, Scan(blocks, paragraph, quote, code, inCode));
        var text := OrderedText(trimmed, marker.value);
        blocks, paragraph, quote := Emit(a, s.blocks, Ordered(marker.value), text), [], [];
      } else if IsBullet(trimmed) {
        var s := Flush(a, Scan(blocks, paragraph, quote, code, inCode));
        blocks, paragraph, quote := Emit(a, s.blocks, Bullet, trimmed[2..]), [], [];
      } else {
        var s := FlushQuote(a, Scan(blocks, paragraph, quote, code, inCode));
        blocks, quote, paragraph := s.blocks, [], paragraph + [trimmed];
      }
    }
    assert lines[..|lines|] == lines;
    if inCode { blocks := Emit(a, blocks, Code, JoinWith(code, '\n')); }
    var s := Flush(a, Scan(blocks, paragraph, quote, code, inCode));
    blocks := s.blocks;
  }

  // ----- the timeline -----

  function TotalWeight(blocks: seq<Block>): nat {
    if blocks == [] then 0 else TotalWeight(blocks[..|blocks| - 1]) + blocks[|blocks| - 1].weight
  }

  function Fraction(part: nat, total: nat): real
    requires total > 0
  {
    (part as real) / (total as real)
  }

  function TotalOf(blocks: seq<Block>): (total: nat)
    ensures total > 0
  {
    AtLeastOne(TotalWeight(blocks))
  }

  function Laid(blocks: seq<Block>, k: nat): Block
    requires k < |blocks|
  {
    blocks[k].(start := Fraction(TotalWeight(blocks[..k]), TotalOf(blocks)),
               end := if k == |blocks| - 1 then 1.0 else Fraction(TotalWeight(blocks[..k + 1]), TotalOf(blocks)))
  }

  function LaidOut(blocks: seq<Block>): seq<Block> {
    seq(|blocks|, k requires 0 <= k < |blocks| => Laid(blocks, k))
  }

  /** `sentences(in:)`: code and headings stay whole. */
  function SentencesIn(block: Block): seq<string> {
    if block.kind.Code? || block.kind.Heading? then [block.text] else Split(block.text)
  }

  /** The weight of sentences on the timeline: each at least one. */
  function Spoken(a: Alphabet, sentences: seq<string>): nat {
    if sentences == [] then 0
    else Spoken(a, sentences[..|sentences| - 1]) + AtLeastOne(Weight(a, sentences[|sentences| - 1]))
  }

  function SpokenIn(a: Alphabet, blocks: seq<Block>): nat {
    if blocks == [] then 0
    else SpokenIn(a, blocks[..|blocks| - 1]) + Spoken(a, SentencesIn(blocks[|blocks| - 1]))
  }

  /** The units of one block whose sentences start at `before`. */
  function BlockUnits(a: Alphabet, id: nat, sentences: seq<string>, before: nat, total: nat): seq<Unit>
    requires total > 0
  {
    seq(|sentences|,
        j requires 0 <= j < |sentences| => Unit(id, j, Fraction(before + Spoken(a, sentences[..j + 1]), total)))
  }

  function RawUnits(a: Alphabet, blocks: seq<Block>, total: nat): seq<Unit>
    requires total > 0
  {
    if blocks == [] then []
    else
      var init, last := blocks[..|blocks| - 1], blocks[|blocks| - 1];
      RawUnits(a, init, total) + BlockUnits(a, last.id, SentencesIn(last), SpokenIn(a, init), total)
  }

  /** The last unit ends at 1. */
  function Closed(units: seq<Unit>): seq<Unit> {
    if units == [] then [] else units[|units| - 1 := units[|units| - 1].(end := 1.0)]
  }

  function DocumentOf(a: Alphabet, body: string): Document {
    var raw := SegmentOf(a, body);
    Document(LaidOut(raw), Closed(RawUnits(a, raw, TotalOf(raw))))
  }

  /** `TranscriptDocument.init`: cursors over blocks, then over sentences. */
  method NewDocument(a: Alphabet, body: string) returns (d: Document)
    ensures d == DocumentOf(a, body)
  {
    hide SegmentOf, Split;
    var raw := Segment(a, body);
    var total := AtLeastOne(TotalWeight(raw));
    var blocks: seq<Block>, cursor := [], 0;
    for k := 0 to |raw|
      invariant cursor == TotalWeight(raw[..k])
      invariant |blocks| == k && forall i | 0 <= i < k :: blocks[i] == Laid(raw, i)
    {
      assert raw[..k + 1][..k] == raw[..k];
      var start := Fraction(cursor, total);
      cursor := cursor + raw[k].weight;
      blocks := blocks + [raw[k].(start := start, end := if k == |raw| - 1 then 1.0 else Fraction(cursor, total))];
    }
    assert blocks == LaidOut(raw);
    var units := AllUnits(a, raw, total);
    if units != [] { units := units[|units| - 1 := units[|units| - 1].(end := 1.0)]; }
    d := Document(blocks, units);
  }

  lemma RawStep(a: Alphabet, blocks: seq<Block>, k: nat, total: nat)
    requires total > 0 && k < |blocks|
    ensures RawUnits(a, blocks[..k + 1], total)
         == RawUnits(a, blocks[..k], total)
             + BlockUnits(a, blocks[k].id, SentencesIn(blocks[k]), SpokenIn(a, blocks[..k]), total)
    ensures SpokenIn(a, blocks[..k + 1]) == SpokenIn(a, blocks[..k]) + Spoken(a, SentencesIn(blocks[k]))
  {
    assert blocks[..k + 1][..k] == blocks[..k];
    hide SentencesIn, Spoken, BlockUnits;
  }

  lemma UnitStep(a: Alphabet, id: nat, sentences: seq<string>, before: nat, total: nat, j: nat)
    requires total > 0 && j < |sentences|
    ensures Spoken(a, sentences[..j + 1]) == Spoken(a, sentences[..j]) + AtLeastOne(Weight(a, sentences[j]))
    ensures |BlockUnits(a, id, sentences, before, total)| == |sentences|
    ensures BlockUnits(a, id, sentences, before, total)[j]
        == Unit(id, j, Fraction(before + Spoken(a, sentences[..j + 1]), total))
  {
    assert sentences[..j + 1][..j] == sentences[..j];
  }

  /** The nested loop over the sentences of every block. */
  method AllUnits(a: Alphabet, blocks: seq<Block>, total: nat) returns (units: seq<Unit>)
    requires total > 0
    ensures units == RawUnits(a, blocks, total)
  {
    units := [];
    var cursor := 0;
    for k := 0 to |blocks|
      invariant units == RawUnits(a, blocks[..k], total)
      invariant cursor == SpokenIn(a, blocks[..k])
    {
      RawStep(a, blocks, k, total);
      hide *;
      var more;
      more, cursor := OneBlock(a, blocks[k], cursor, total);
      units := units + more;
    }
    assert blocks[..|blocks|] == blocks;
  }

  /** The inner loop: one block's sentences, from a running cursor. */
  method OneBlock(a: Alphabet, block: Block, before: nat, total: nat) returns (units: seq<Unit>, cursor: nat)
    requires total > 0
    ensures units == BlockUnits(a, block.id, SentencesIn(block), before, total)
    ensures cursor == before + Spoken(a, SentencesIn(block))
  {
    hide Split, Weight, BlockUnits, AtLeastOne, Fraction;
    var sentences: seq<string>;
    if block.kind.Code? || block.kind.Heading? {
      sentences := [block.text];
    } else {
      sentences := SplitSentences(block.text);
    }
    units, cursor := [], before;
    ghost var all := BlockUnits(a, block.id, sentences, before, total);
    BlockUnitsLength(a, block.id, sentences, before, total);
    for j := 0 to |sentences|
      invariant cursor == before + Spoken(a, sentences[..j])
      invariant units == all[..j]
    {
      UnitStep(a, block.id, sentences, before, total, j);
      cursor := cursor + AtLeastOne(Weight(a, sentences[j]));
      units := units + [Unit(block.id, j, Fraction(cursor, total))];
    }
    assert sentences[..|sentences|] == sentences;
  }

  lemma BlockUnitsLength(a: Alphabet, id: nat, sentences: seq<string>, before: nat, total: nat)
    requires total > 0
    ensures |BlockUnits(a, id, sentences, before, total)| == |sentences|
  {
  }

  // ----- lookups -----

  /** The first index whose end is past `p`, or the last one. */
  function FirstPast(ends: seq<real>, p: real, from: nat): (i: nat)
    requires from < |ends|
    ensures from <= i < |ends| && (forall j | from <= j < i :: !(p < ends[j]))
    ensures p < ends[i] || i == |ends| - 1
    decreases |ends| - from
  {
    if p < ends[from] || from == |ends| - 1 then from else FirstPast(ends, p, from + 1)
  }

  function Clamp(p: real): real {
    if p < 0.0 then 0.0 else if p > 1.0 then 1.0 else p
  }

  function BlockEnds(blocks: seq<Block>): seq<real> {
    seq(|blocks|, k requires 0 <= k < |blocks| => blocks[k].end)
  }

  function UnitEnds(units: seq<Unit>): seq<real> {
    seq(|units|, k requires 0 <= k < |units| => units[k].end)
  }

  /** `focusedIndex(at:)`. */
  function FocusedIndex(d: Document, progress: real): Option<nat> {
    if d.blocks == [] then None
    else if Clamp(progress) >= 1.0 then Some(|d.blocks| - 1)
    else Some(FirstPast(BlockEnds(d.blocks), Clamp(progress), 0))
  }

  /** `focus(at:)`. */
  function FocusAt(d: Document, progress: real): Option<Focus> {
    if d.units == [] then None
    else
      var unit := d.units[FirstPast(UnitEnds(d.units), Clamp(progress), 0)];
      Some(Focus(unit.block, unit.sentence))
  }
}
