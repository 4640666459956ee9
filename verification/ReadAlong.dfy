/** What the read-along document promises: the timeline is partitioned, both lookups only move
    forward, and exactly when they agree. */
module ReadAlong {
  import opened Contract
  import opened Text
  import opened Sentences
  import opened Transcript

  // ----- the blocks -----

  /** Numbered from 0, weighed by their spoken characters but at least 1, and never blank unless code. */
  ghost predicate Numbered(a: Alphabet, blocks: seq<Block>) {
    forall k | 0 <= k < |blocks| ::
      blocks[k].id == k && blocks[k].weight == AtLeastOne(Weight(a, blocks[k].text))
      && (blocks[k].kind.Code? || Trim(blocks[k].text) != "")
  }

  lemma EmitNumbers(a: Alphabet, blocks: seq<Block>, kind: BlockKind, text: string)
    requires Numbered(a, blocks)
    ensures Numbered(a, Emit(a, blocks, kind, text))
  {
    hide Weight, Trim;
  }

  lemma FlushNumbers(a: Alphabet, s: Scan)
    requires Numbered(a, s.blocks)
    ensures Numbered(a, FlushParagraph(a, s).blocks) && Numbered(a, FlushQuote(a, s).blocks)
             && Numbered(a, Flush(a, s).blocks)
  {
    hide Numbered, Emit;
    EmitNumbers(a, s.blocks, Paragraph, JoinWith(s.paragraph, ' '));
    EmitNumbers(a, s.blocks, Quote, JoinWith(s.quote, ' '));
    EmitNumbers(a, FlushParagraph(a, s).blocks, Quote, JoinWith(s.quote, ' '));
  }

  lemma FeedNumbers(a: Alphabet, s: Scan, line: string)
    requires Numbered(a, s.blocks)
    ensures Numbered(a, Feed(a, s, line).blocks)
  {
    hide Numbered, Emit, Flush, FlushParagraph, FlushQuote, HeadingText, OrderedText;
    FlushNumbers(a, s);
    var trimmed, t := TrimBlank(line), Flush(a, s);
    EmitNumbers(a, s.blocks, Code, JoinWith(s.code, '\n'));
    if HeadingLevel(trimmed).Some? {
      EmitNumbers(a, t.blocks, Heading(HeadingLevel(trimmed).value), HeadingText(trimmed));
    }
    if OrderedMarker(a, trimmed).Some? {
      var marker := OrderedMarker(a, trimmed).value;
      EmitNumbers(a, t.blocks, Ordered(marker), OrderedText(trimmed, marker));
    }
    if |trimmed| >= 2 { EmitNumbers(a, t.blocks, Bullet, trimmed[2..]); }
  }

  lemma {:induction false} ScanNumbers(a: Alphabet, lines: seq<string>)
    ensures Numbered(a, ScanOf(a, lines).blocks)
  {
    if lines != [] {
      ScanNumbers(a, lines[..|lines| - 1]);
      hide Numbered, Feed;
      FeedNumbers(a, ScanOf(a, lines[..|lines| - 1]), lines[|lines| - 1]);
    }
  }

  lemma SegmentNumbers(a: Alphabet, body: string)
    ensures Numbered(a, SegmentOf(a, body))
  {
    var s := ScanOf(a, Lines(body));
    ScanNumbers(a, Lines(body));
    EmitNumbers(a, s.blocks, Code, JoinWith(s.code, '\n'));
    FlushNumbers(a, if s.inCode then EmitCode(a, s) else s);
    hide Numbered, Emit, Flush, ScanOf;
  }

  // ----- the partition -----

  lemma {:induction false} TotalGrows(blocks: seq<Block>, i: nat, j: nat)
    requires i <= j <= |blocks| && forall b <- blocks :: b.weight > 0
    ensures TotalWeight(blocks[..i]) <= TotalWeight(blocks[..j])
    ensures i < j ==> TotalWeight(blocks[..i]) < TotalWeight(blocks[..j])
    decreases j - i
  {
    if i < j {
      TotalGrows(blocks, i, j - 1);
      assert blocks[..j][..j - 1] == blocks[..j - 1] && blocks[j - 1] in blocks;
    }
  }

  lemma FractionOrder(x: nat, y: nat, total: nat)
    requires total > 0
    ensures x < y <==> Fraction(x, total) < Fraction(y, total)
    ensures x == y <==> Fraction(x, total) == Fraction(y, total)
    ensures Fraction(0, total) == 0.0 && Fraction(total, total) == 1.0
  {
    var s, u, t := x as real, y as real, total as real;
    assert s / t * t == s && u / t * t == u;
    if x < y {
      assert (u - s) / t > 0.0 && (u - s) / t == u / t - s / t;
    } else if y < x {
      assert (s - u) / t > 0.0 && (s - u) / t == s / t - u / t;
    }
  }

  lemma Weighed(a: Alphabet, blocks: seq<Block>)
    requires Numbered(a, blocks) && blocks != []
    ensures forall b <- blocks :: b.weight > 0
    ensures TotalOf(blocks) == TotalWeight(blocks) == TotalWeight(blocks[..|blocks|])
    ensures TotalWeight(blocks) > 0
  {
    forall b | b in blocks ensures b.weight > 0 {
      var k :| 0 <= k < |blocks| && blocks[k] == b;
    }
    TotalGrows(blocks, 0, |blocks|);
    assert blocks[..|blocks|] == blocks && blocks[..0] == [];
  }

  /** The blocks of any body, in order and with their own ids, split [0, 1] into consecutive nonempty intervals. */
  lemma BlocksPartitionTheTimeline(a: Alphabet, body: string)
    ensures var blocks := DocumentOf(a, body).blocks;
      blocks != [] ==>
        (&& blocks[0].start == 0.0 && blocks[|blocks| - 1].end == 1.0
         && (forall k | 0 <= k < |blocks| :: blocks[k].id == k && blocks[k].start < blocks[k].end)
         && (forall k | 0 <= k < |blocks| - 1 :: blocks[k].end == blocks[k + 1].start))
  {
    hide *;
    var raw, blocks := SegmentOf(a, body), DocumentOf(a, body).blocks;
    SegmentNumbers(a, body);
    DocumentBlocks(a, body);
    if raw != [] {
      FirstStart(raw);
      forall k | 0 <= k < |raw| ensures blocks[k].id == k && blocks[k].start < blocks[k].end {
        NumberedAt(a, raw, k);
        NonemptyInterval(a, raw, k);
      }
    }
  }

  /** The blocks of the document, block by block. */
  lemma DocumentBlocks(a: Alphabet, body: string)
    ensures var raw, blocks := SegmentOf(a, body), DocumentOf(a, body).blocks;
      && |blocks| == |raw|
      && (forall k | 0 <= k < |raw| :: blocks[k] == Laid(raw, k) && blocks[k].id == raw[k].id)
      && (raw != [] ==> blocks[|raw| - 1].end == 1.0)
      && (forall k | 0 <= k < |raw| - 1 :: blocks[k].end == blocks[k + 1].start)
  {
    hide SegmentOf, Fraction, TotalWeight, TotalOf, RawUnits;
  }

  lemma NonemptyInterval(a: Alphabet, raw: seq<Block>, k: nat)
    requires Numbered(a, raw) && k < |raw|
    ensures Laid(raw, k).start < Laid(raw, k).end
  {
    hide Fraction, TotalWeight, Numbered, TotalOf;
    Weighed(a, raw);
    TotalGrows(raw, k, k + 1);
    FractionOrder(TotalWeight(raw[..k]), TotalWeight(raw[..k + 1]), TotalOf(raw));
    FractionOrder(0, TotalOf(raw), TotalOf(raw));
    assert k == |raw| - 1 ==> raw[..k + 1] == raw;
  }

  lemma FirstStart(raw: seq<Block>)
    requires raw != []
    ensures Laid(raw, 0).start == 0.0
    ensures Fraction(TotalOf(raw), TotalOf(raw)) == 1.0
  {
    assert raw[..0] == [];
    FractionOrder(0, TotalOf(raw), TotalOf(raw));
  }

  // ----- the units -----

  lemma {:induction false} SpokenGrows(a: Alphabet, sentences: seq<string>, i: nat, j: nat)
    requires i <= j <= |sentences|
    ensures Spoken(a, sentences[..i]) <= Spoken(a, sentences[..j])
    ensures i < j ==> Spoken(a, sentences[..i]) < Spoken(a, sentences[..j])
    decreases j - i
  {
    if i < j {
      SpokenGrows(a, sentences, i, j - 1);
      assert sentences[..j][..j - 1] == sentences[..j - 1];
    }
  }

  /** Where the units of the k-th block begin. */
  function Offset(a: Alphabet, blocks: seq<Block>, total: nat, k: nat): nat
    requires total > 0 && k <= |blocks|
  {
    |RawUnits(a, blocks[..k], total)|
  }

  lemma {:induction false} OffsetsGrow(a: Alphabet, blocks: seq<Block>, total: nat, k: nat, m: nat)
    requires total > 0 && k <= m <= |blocks|
    ensures Offset(a, blocks, total, k) <= Offset(a, blocks, total, m)
    ensures RawUnits(a, blocks[..k], total) <= RawUnits(a, blocks[..m], total)
    decreases m - k
  {
    hide RawUnits, BlockUnits, SentencesIn, SpokenIn, Spoken;
    if k < m {
      OffsetsGrow(a, blocks, total, k, m - 1);
      RawStep(a, blocks, m - 1, total);
      var own := BlockUnits(a, blocks[m - 1].id, SentencesIn(blocks[m - 1]), SpokenIn(a, blocks[..m - 1]), total);
      PrefixOfMore(RawUnits(a, blocks[..k], total), RawUnits(a, blocks[..m - 1], total), own);
    }
  }

  lemma PrefixOfMore<T>(a: seq<T>, b: seq<T>, more: seq<T>)
    requires a <= b
    ensures a <= b + more
  {
  }

  /** The j-th unit of the k-th block. */
  lemma UnitAt(a: Alphabet, blocks: seq<Block>, total: nat, k: nat, j: nat)
    requires total > 0 && k < |blocks| && j < |SentencesIn(blocks[k])|
    ensures Offset(a, blocks, total, k + 1) == Offset(a, blocks, total, k) + |SentencesIn(blocks[k])|
    ensures var units, i := RawUnits(a, blocks, total), Offset(a, blocks, total, k) + j;
      i < |units| && units[i] == Unit(blocks[k].id, j,
        Fraction(SpokenIn(a, blocks[..k]) + Spoken(a, SentencesIn(blocks[k])[..j + 1]), total))
  {
    hide RawUnits, BlockUnits, Fraction, SpokenIn, Spoken, SentencesIn;
    var ss := SentencesIn(blocks[k]);
    RawStep(a, blocks, k, total);
    UnitStep(a, blocks[k].id, ss, SpokenIn(a, blocks[..k]), total, j);
    OffsetsGrow(a, blocks, total, k + 1, |blocks|);
    assert blocks[..|blocks|] == blocks;
    PrefixAt(RawUnits(a, blocks[..k], total), BlockUnits(a, blocks[k].id, ss, SpokenIn(a, blocks[..k]), total),
             RawUnits(a, blocks, total), j);
  }

  lemma PrefixAt(before: seq<Unit>, own: seq<Unit>, all: seq<Unit>, j: nat)
    requires before + own <= all && j < |own|
    ensures |before| + j < |all| && all[|before| + j] == own[j]
  {
    assert all[|before| + j] == (before + own)[|before| + j];
  }

  lemma NoOffset(a: Alphabet, blocks: seq<Block>, total: nat)
    requires total > 0
    ensures Offset(a, blocks, total, 0) == 0
  {
    assert blocks[..0] == [];
  }

  lemma OffsetStep(a: Alphabet, blocks: seq<Block>, total: nat, k: nat)
    requires total > 0 && k < |blocks|
    ensures Offset(a, blocks, total, k + 1) == Offset(a, blocks, total, k) + |SentencesIn(blocks[k])|
  {
    hide RawUnits, BlockUnits, SpokenIn, Spoken, SentencesIn;
    RawStep(a, blocks, k, total);
    BlockUnitsLength(a, blocks[k].id, SentencesIn(blocks[k]), SpokenIn(a, blocks[..k]), total);
  }

  /** Every unit is some block's. */
  lemma {:induction false} UnitOwner(a: Alphabet, blocks: seq<Block>, total: nat, n: nat, i: nat)
    returns (k: nat, j: nat)
    requires total > 0 && n <= |blocks| && i < Offset(a, blocks, total, n)
    ensures k < n && j < |SentencesIn(blocks[k])| && i == Offset(a, blocks, total, k) + j
    decreases n
  {
    hide *;
    NoOffset(a, blocks, total);
    OffsetStep(a, blocks, total, n - 1);
    if i < Offset(a, blocks, total, n - 1) {
      k, j := UnitOwner(a, blocks, total, n - 1, i);
    } else {
      k, j := n - 1, i - Offset(a, blocks, total, n - 1);
    }
  }

  // ----- moving forward -----

  lemma {:induction false} FirstPastMonotone(ends: seq<real>, p: real, q: real, from: nat)
    requires from < |ends| && p <= q
    ensures FirstPast(ends, p, from) <= FirstPast(ends, q, from)
    decreases |ends| - from
  {
    if !(p < ends[from]) && from < |ends| - 1 { FirstPastMonotone(ends, p, q, from + 1); }
  }

  predicate NoLater(f: Focus, g: Focus) {
    f.block < g.block || (f.block == g.block && f.sentence <= g.sentence)
  }

  lemma UnitCount(a: Alphabet, blocks: seq<Block>, total: nat)
    requires total > 0
    ensures Offset(a, blocks, total, |blocks|) == |RawUnits(a, blocks, total)|
  {
    assert blocks[..|blocks|] == blocks;
  }

  lemma UnitsInOrder(a: Alphabet, blocks: seq<Block>, total: nat, i: nat, i2: nat)
    requires total > 0 && Numbered(a, blocks) && i <= i2 < |RawUnits(a, blocks, total)|
    ensures var u, v := RawUnits(a, blocks, total)[i], RawUnits(a, blocks, total)[i2];
      NoLater(Focus(u.block, u.sentence), Focus(v.block, v.sentence))
  {
    hide *;
    assert blocks[..|blocks|] == blocks;
    UnitCount(a, blocks, total);
    var k, j := UnitOwner(a, blocks, total, |blocks|, i);
    var k2, j2 := UnitOwner(a, blocks, total, |blocks|, i2);
    UnitAt(a, blocks, total, k, j);
    UnitAt(a, blocks, total, k2, j2);
    NumberedAt(a, blocks, k);
    NumberedAt(a, blocks, k2);
    OwnersInOrder(a, blocks, total, k, j, k2, j2);
  }

  lemma OwnersInOrder(a: Alphabet, blocks: seq<Block>, total: nat, k: nat, j: nat, k2: nat, j2: nat)
    requires total > 0 && k < |blocks| && k2 < |blocks| && j < |SentencesIn(blocks[k])|
             && j2 < |SentencesIn(blocks[k2])|
    requires Offset(a, blocks, total, k) + j <= Offset(a, blocks, total, k2) + j2
    ensures NoLater(Focus(k, j), Focus(k2, j2))
  {
    UnitAt(a, blocks, total, k2, j2);
    if k2 < k { OffsetsGrow(a, blocks, total, k2 + 1, k); }
    hide Offset, RawUnits, SentencesIn, Fraction;
  }

  /** Both lookups only move forward as playback does, for every body. */
  lemma LookupsMoveForward(a: Alphabet, body: string, p: real, q: real)
    requires p <= q
    ensures var d := DocumentOf(a, body);
      && (d.blocks != [] ==> FocusedIndex(d, p).value <= FocusedIndex(d, q).value)
      && (d.units != [] ==> NoLater(FocusAt(d, p).value, FocusAt(d, q).value))
  {
    var d, raw := DocumentOf(a, body), SegmentOf(a, body);
    SegmentNumbers(a, body);
    hide SegmentOf, LaidOut, RawUnits;
    if d.blocks != [] { FirstPastMonotone(BlockEnds(d.blocks), Clamp(p), Clamp(q), 0); }
    if d.units != [] {
      FirstPastMonotone(UnitEnds(d.units), Clamp(p), Clamp(q), 0);
      UnitsInOrder(a, raw, TotalOf(raw), FirstPast(UnitEnds(d.units), Clamp(p), 0),
                   FirstPast(UnitEnds(d.units), Clamp(q), 0));
    }
  }

  // ----- when the lookups agree -----

  /** The block's sentences fill exactly the block's share: it is one sentence, or all of them have something to say. */
  ghost predicate Even(a: Alphabet, block: Block) {
    |SentencesIn(block)| <= 1 || forall sentence <- SentencesIn(block) :: Weight(a, sentence) > 0
  }

  lemma {:induction false} SpokenAtLeastWeight(a: Alphabet, parts: seq<string>)
    ensures Spoken(a, parts) >= WeightAll(a, parts) && Spoken(a, parts) >= |parts|
    ensures Spoken(a, parts) == WeightAll(a, parts) <==> forall part <- parts :: Weight(a, part) > 0
  {
    if parts != [] {
      var init, last := parts[..|parts| - 1], parts[|parts| - 1];
      SpokenAtLeastWeight(a, init);
      assert parts == init + [last];
      WeightAllMore(a, init, last);
      assert forall part :: part in parts <==> part in init || part == last;
    }
  }

  /** A block has a sentence, and its sentences take at least its share, exactly it when they are even. */
  lemma BlockShare(a: Alphabet, block: Block)
    requires Sane(a) && block.weight == AtLeastOne(Weight(a, block.text))
    requires block.kind.Code? || Trim(block.text) != ""
    ensures SentencesIn(block) != [] && Spoken(a, SentencesIn(block)) >= block.weight
    ensures Spoken(a, SentencesIn(block)) == block.weight <==> Even(a, block)
  {
    var ss := SentencesIn(block);
    SpokenAtLeastWeight(a, ss);
    if ss == [block.text] {
      assert ss[..0] == [];
    } else {
      SentencesWeighTheText(a, block.text);
      SplitConserves(block.text);
      TrimSettles(block.text);
      TrimConserves(block.text);
      VisibleStays(Trim(block.text), 0);
      hide Split, Weight, Trim, NonWhite;
      if |ss| == 1 {
        assert ss == [ss[0]] && ss[..0] == [] && ss[1..] == [];
        assert Spoken(a, ss) == AtLeastOne(Weight(a, ss[0])) && WeightAll(a, ss) == Weight(a, ss[0]);
      }
    }
  }

  lemma BlockShareAt(a: Alphabet, raw: seq<Block>, k: nat)
    requires Sane(a) && Numbered(a, raw) && k < |raw|
    ensures SentencesIn(raw[k]) != [] && Spoken(a, SentencesIn(raw[k])) >= raw[k].weight
    ensures Spoken(a, SentencesIn(raw[k])) == raw[k].weight <==> Even(a, raw[k])
    ensures SpokenIn(a, raw[..k + 1]) == SpokenIn(a, raw[..k]) + Spoken(a, SentencesIn(raw[k]))
    ensures TotalWeight(raw[..k + 1]) == TotalWeight(raw[..k]) + raw[k].weight
  {
    hide SentencesIn, Spoken, Even, Weight, Trim;
    BlockShare(a, raw[k]);
    assert raw[..k + 1][..k] == raw[..k];
  }

  lemma {:induction false} SharesMatch(a: Alphabet, raw: seq<Block>, n: nat)
    requires Sane(a) && Numbered(a, raw) && n <= |raw| && forall k | 0 <= k < n :: Even(a, raw[k])
    ensures SpokenIn(a, raw[..n]) == TotalWeight(raw[..n])
  {
    if n > 0 {
      SharesMatch(a, raw, n - 1);
      BlockShareAt(a, raw, n - 1);
      hide SpokenIn, TotalWeight, Even, Numbered;
    }
  }

  /** The end of the last unit of a block, and the bounds of the others. */
  lemma UnitBounds(a: Alphabet, raw: seq<Block>, total: nat, k: nat, j: nat)
    requires total > 0 && k < |raw| && j < |SentencesIn(raw[k])|
    ensures var i := Offset(a, raw, total, k) + j;
      && i < |RawUnits(a, raw, total)|
      && RawUnits(a, raw, total)[i].end <= Fraction(SpokenIn(a, raw[..k + 1]), total)
      && (j == |SentencesIn(raw[k])| - 1 ==>
          RawUnits(a, raw, total)[i].end == Fraction(SpokenIn(a, raw[..k + 1]), total))
  {
    hide *;
    var ss := SentencesIn(raw[k]);
    UnitAt(a, raw, total, k, j);
    RawStep(a, raw, k, total);
    SpokenGrows(a, ss, j + 1, |ss|);
    assert ss[..|ss|] == ss;
    FractionOrder(SpokenIn(a, raw[..k]) + Spoken(a, ss[..j + 1]), SpokenIn(a, raw[..k + 1]), total);
  }

  /** The end of the k-th block on the timeline. */
  function BlockEnd(raw: seq<Block>, k: nat): real
    requires k < |raw|
  {
    Fraction(TotalWeight(raw[..k + 1]), TotalOf(raw))
  }

  lemma EndsGrow(a: Alphabet, raw: seq<Block>, k: nat, m: nat)
    requires Numbered(a, raw) && k < m < |raw|
    ensures 0.0 < BlockEnd(raw, k) < BlockEnd(raw, m) <= 1.0
  {
    hide *;
    Weighed(a, raw);
    var total := TotalOf(raw);
    BlockEndIs(raw, k);
    BlockEndIs(raw, m);
    Less(raw, 0, k + 1, total);
    Less(raw, k + 1, m + 1, total);
    if m + 1 < |raw| { Less(raw, m + 1, |raw|, total); }
    NoWeight(raw);
    FractionOrder(total, total, total);
    assert raw[..|raw|] == raw;
  }

  lemma BlockEndIs(raw: seq<Block>, k: nat)
    requires k < |raw|
    ensures BlockEnd(raw, k) == Fraction(TotalWeight(raw[..k + 1]), TotalOf(raw))
  {
  }

  lemma NoWeight(raw: seq<Block>)
    ensures TotalWeight(raw[..0]) == 0
  {
  }

  lemma Less(raw: seq<Block>, i: nat, j: nat, total: nat)
    requires i < j <= |raw| && total > 0 && forall b <- raw :: b.weight > 0
    ensures Fraction(TotalWeight(raw[..i]), total) < Fraction(TotalWeight(raw[..j]), total)
  {
    hide Fraction, TotalWeight;
    TotalGrows(raw, i, j);
    FractionOrder(TotalWeight(raw[..i]), TotalWeight(raw[..j]), total);
  }

  /** The block lookup: the first block whose end is past the progress, or the last. */
  lemma IndexFacts(a: Alphabet, body: string, progress: real)
    requires SegmentOf(a, body) != []
    ensures var raw, d, c := SegmentOf(a, body), DocumentOf(a, body), Clamp(progress);
      d.blocks != [] && FocusedIndex(d, progress).Some? &&
      var b := FocusedIndex(d, progress).value;
      && b < |raw| && (b < |raw| - 1 ==> c < BlockEnd(raw, b))
      && forall m | 0 <= m < b :: BlockEnd(raw, m) <= c
  {
    var raw, d, c := SegmentOf(a, body), DocumentOf(a, body), Clamp(progress);
    SegmentNumbers(a, body);
    hide SegmentOf, TotalWeight, Numbered, Fraction, RawUnits, TotalOf;
    var b := FocusedIndex(d, progress).value;
    var ends := BlockEnds(d.blocks);
    forall k | 0 <= k < |raw| - 1 ensures ends[k] == BlockEnd(raw, k) {}
    forall m | 0 <= m < b ensures BlockEnd(raw, m) <= c {
      if c >= 1.0 { EndsGrow(a, raw, m, |raw| - 1); } else { assert !(c < ends[m]); }
    }
  }

  lemma {:induction false} HasUnits(a: Alphabet, raw: seq<Block>, total: nat, n: nat)
    requires Sane(a) && Numbered(a, raw) && total > 0 && n <= |raw|
    ensures Offset(a, raw, total, n) >= n
  {
    hide *;
    if n > 0 {
      HasUnits(a, raw, total, n - 1);
      BlockShareAt(a, raw, n - 1);
      UnitAt(a, raw, total, n - 1, 0);
    }
  }

  /** The unit lookup: a unit of some block, the first whose end is past the progress unless it is the last unit. */
  lemma UnitFacts(a: Alphabet, body: string, progress: real) returns (i: nat, k: nat, j: nat)
    requires Sane(a) && SegmentOf(a, body) != []
    ensures var raw, d, c := SegmentOf(a, body), DocumentOf(a, body), Clamp(progress);
      var total := TotalOf(raw);
      var units := RawUnits(a, raw, total);
      && d.units != [] && i < |units| == Offset(a, raw, total, |raw|)
      && k < |raw| && j < |SentencesIn(raw[k])| && i == Offset(a, raw, total, k) + j
      && FocusAt(d, progress) == Some(Focus(k, j))
      && (i < |units| - 1 ==> c < units[i].end)
      && (forall l | 0 <= l < i :: units[l].end <= c)
  {
    hide *;
    var raw, d, c := SegmentOf(a, body), DocumentOf(a, body), Clamp(progress);
    var total := TotalOf(raw);
    var units := RawUnits(a, raw, total);
    SegmentNumbers(a, body);
    HasUnits(a, raw, total, |raw|);
    UnitCount(a, raw, total);
    DocumentUnits(a, body);
    ClosedEnds(units);
    i := FirstPast(UnitEnds(d.units), c, 0);
    FocusIsFirstPast(d, progress);
    k, j := UnitOwner(a, raw, total, |raw|, i);
    UnitAt(a, raw, total, k, j);
    NumberedAt(a, raw, k);
    forall l | 0 <= l < i ensures units[l].end <= c { assert !(c < UnitEnds(d.units)[l]); }
  }

  lemma DocumentUnits(a: Alphabet, body: string)
    ensures DocumentOf(a, body).units == Closed(RawUnits(a, SegmentOf(a, body), TotalOf(SegmentOf(a, body))))
  {
    hide SegmentOf, RawUnits, LaidOut, Closed, TotalOf;
  }

  lemma FocusIsFirstPast(d: Document, progress: real)
    requires d.units != [] && |UnitEnds(d.units)| == |d.units|
    ensures var unit := d.units[FirstPast(UnitEnds(d.units), Clamp(progress), 0)];
      FocusAt(d, progress) == Some(Focus(unit.block, unit.sentence))
  {
    hide FirstPast, Clamp;
  }

  /** Closing moves no end but the last, and no focus. */
  lemma ClosedEnds(units: seq<Unit>)
    ensures var closed := Closed(units);
      && |closed| == |units| == |UnitEnds(closed)|
      && (forall l | 0 <= l < |units| :: closed[l].block == units[l].block && closed[l].sentence == units[l].sentence)
      && (forall l | 0 <= l < |units| - 1 :: UnitEnds(closed)[l] == units[l].end)
  {
  }

  lemma NumberedAt(a: Alphabet, raw: seq<Block>, k: nat)
    requires Numbered(a, raw) && k < |raw|
    ensures raw[k].id == k
  {
  }

  /** The last unit of a block that is not the last block. */
  lemma LastOf(a: Alphabet, raw: seq<Block>, k: nat) returns (l: nat)
    requires Sane(a) && Numbered(a, raw) && k < |raw| - 1
    ensures var total := TotalOf(raw);
      && l + 1 == Offset(a, raw, total, k + 1) < Offset(a, raw, total, |raw|)
      && Offset(a, raw, total, |raw|) == |RawUnits(a, raw, total)|
      && RawUnits(a, raw, total)[l].end == Fraction(SpokenIn(a, raw[..k + 1]), total)
  {
    hide RawUnits, SentencesIn, Fraction, Numbered, TotalOf, SpokenIn, Spoken, TotalWeight, Even;
    var total := TotalOf(raw);
    BlockShareAt(a, raw, k);
    BlockShareAt(a, raw, k + 1);
    var last := |SentencesIn(raw[k])| - 1;
    UnitAt(a, raw, total, k, last);
    UnitAt(a, raw, total, k + 1, 0);
    UnitBounds(a, raw, total, k, last);
    OffsetsGrow(a, raw, total, k + 2, |raw|);
    assert raw[..|raw|] == raw;
    l := Offset(a, raw, total, k) + last;
  }

  ghost predicate EvenBefore(a: Alphabet, raw: seq<Block>, n: nat) {
    forall k | 0 <= k < n && k < |raw| :: Even(a, raw[k])
  }

  /** When the earlier blocks are even, the unit lookup and the block lookup name the same block. */
  lemma EvenMeansSame(a: Alphabet, body: string, progress: real)
    requires Sane(a) && SegmentOf(a, body) != [] && EvenBefore(a, SegmentOf(a, body), |SegmentOf(a, body)| - 1)
    ensures var d := DocumentOf(a, body);
      d.blocks != [] && d.units != [] && FocusAt(d, progress).value.block == FocusedIndex(d, progress).value
  {
    hide *;
    var raw, d, c := SegmentOf(a, body), DocumentOf(a, body), Clamp(progress);
    var n, total := |raw|, TotalOf(raw);
    SegmentNumbers(a, body);
    IndexFacts(a, body, progress);
    var b := FocusedIndex(d, progress).value;
    var i, k, j := UnitFacts(a, body, progress);
    if k < b {
      UnitBounds(a, raw, total, k, j);
      var l := LastOf(a, raw, k);
      OffsetIsBelow(a, raw, total, k, j);
      EvenEnds(a, raw, k);
      assert false;
    } else if b < k {
      var l := LastOf(a, raw, b);
      OffsetsGrow(a, raw, total, b + 1, k);
      EvenEnds(a, raw, b);
      assert false;
    }
  }

  lemma OffsetIsBelow(a: Alphabet, raw: seq<Block>, total: nat, k: nat, j: nat)
    requires total > 0 && k < |raw| && j < |SentencesIn(raw[k])|
    ensures Offset(a, raw, total, k) + j < Offset(a, raw, total, k + 1)
  {
    UnitAt(a, raw, total, k, j);
  }

  /** Even blocks end where their last sentence does. */
  lemma EvenEnds(a: Alphabet, raw: seq<Block>, k: nat)
    requires Sane(a) && Numbered(a, raw) && k < |raw| - 1 && EvenBefore(a, raw, |raw| - 1)
    ensures Fraction(SpokenIn(a, raw[..k + 1]), TotalOf(raw)) == BlockEnd(raw, k)
  {
    SharesMatch(a, raw, k + 1);
  }

  /** The first uneven block before the last. */
  lemma {:induction false} FirstUneven(a: Alphabet, raw: seq<Block>, n: nat) returns (k: nat)
    requires n <= |raw| && !EvenBefore(a, raw, n)
    ensures k < n && !Even(a, raw[k]) && EvenBefore(a, raw, k)
  {
    hide Even;
    if EvenBefore(a, raw, n - 1) { k := n - 1; } else { k := FirstUneven(a, raw, n - 1); }
  }

  /** At the end of the first uneven block the sentence lookup still lingers in it. */
  lemma UnevenMeansDifferent(a: Alphabet, body: string) returns (progress: real)
    requires Sane(a) && SegmentOf(a, body) != [] && !EvenBefore(a, SegmentOf(a, body), |SegmentOf(a, body)| - 1)
    ensures var d := DocumentOf(a, body);
      && d.blocks != [] && d.units != [] && FocusAt(d, progress).Some? && FocusedIndex(d, progress).Some?
      && FocusAt(d, progress).value.block < FocusedIndex(d, progress).value
  {
    hide *;
    var raw, d := SegmentOf(a, body), DocumentOf(a, body);
    SegmentNumbers(a, body);
    var b := FirstUneven(a, raw, |raw| - 1);
    progress := BlockEnd(raw, b);
    InsideIsKept(a, raw, b);
    StillBefore(a, body, progress, b);
    var i, k, j := UnitFacts(a, body, progress);
    var l := LastOf(a, raw, b);
    LastLingers(a, raw, b);
    if k > b { OffsetsGrow(a, raw, TotalOf(raw), b + 1, k); }
  }

  lemma InsideIsKept(a: Alphabet, raw: seq<Block>, b: nat)
    requires Numbered(a, raw) && b < |raw| - 1
    ensures Clamp(BlockEnd(raw, b)) == BlockEnd(raw, b)
  {
    EndsGrow(a, raw, b, |raw| - 1);
    hide BlockEnd;
  }

  /** The sentences of the first uneven block run past the block's own end. */
  lemma LastLingers(a: Alphabet, raw: seq<Block>, b: nat)
    requires Sane(a) && Numbered(a, raw) && b < |raw| && !Even(a, raw[b]) && EvenBefore(a, raw, b)
    ensures BlockEnd(raw, b) < Fraction(SpokenIn(a, raw[..b + 1]), TotalOf(raw))
  {
    SharesMatch(a, raw, b);
    BlockShareAt(a, raw, b);
    hide Even, Numbered, SpokenIn, TotalWeight, Spoken, SentencesIn, Fraction, TotalOf;
    FractionOrder(TotalWeight(raw[..b + 1]), SpokenIn(a, raw[..b + 1]), TotalOf(raw));
  }

  /** At a block's own end the block lookup has moved on. */
  lemma StillBefore(a: Alphabet, body: string, progress: real, b: nat)
    requires SegmentOf(a, body) != [] && b < |SegmentOf(a, body)| - 1 && progress == BlockEnd(SegmentOf(a, body), b)
    ensures DocumentOf(a, body).blocks != [] && FocusedIndex(DocumentOf(a, body), progress).Some?
    ensures FocusedIndex(DocumentOf(a, body), progress).value > b
  {
    hide SegmentOf, BlockEnd, FocusedIndex, DocumentOf, Numbered;
    IndexFacts(a, body, progress);
    var raw, f := SegmentOf(a, body), FocusedIndex(DocumentOf(a, body), progress).value;
    SegmentNumbers(a, body);
    EndsGrow(a, raw, b, |raw| - 1);
    if f < b { EndsGrow(a, raw, f, b); }
  }

  ghost predicate Agree(d: Document, progress: real) {
    d.blocks != [] ==>
      d.units != [] && FocusAt(d, progress).value.block == FocusedIndex(d, progress).value
  }

  /** The two lookups name the same block at every progress exactly when every block but the last has a single sentence
      or says something in each of them. */
  lemma LookupsAgreeExactly(a: Alphabet, body: string)
    requires Sane(a)
    ensures (forall progress :: Agree(DocumentOf(a, body), progress))
       <==> (forall k | 0 <= k < |SegmentOf(a, body)| - 1 :: Even(a, SegmentOf(a, body)[k]))
  {
    var raw, d := SegmentOf(a, body), DocumentOf(a, body);
    assert |d.blocks| == |raw|;
    hide SegmentOf, DocumentOf, Even;
    if raw != [] {
      if EvenBefore(a, raw, |raw| - 1) {
        forall progress: real ensures Agree(d, progress) { EvenMeansSame(a, body, progress); }
      } else {
        var progress := UnevenMeansDifferent(a, body);
        assert !Agree(d, progress);
      }
    }
  }
}
