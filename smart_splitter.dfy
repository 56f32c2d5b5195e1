/**
 * The adaptive chunker (`SmartTextSplitter`): a table from question type to
 * a base chunking strategy, a feature analysis of the text, three ordered
 * rules that adjust the strategy, and the paragraph and code splitters.
 */
module SmartSplitter {
  import opened Text

  // ---------------------------------------------------------------------------
  // Strategies
  // ---------------------------------------------------------------------------

  /** The `split_by` field of a strategy. */
  datatype SplitBy = Sentence | Paragraph | Code

  /** A strategy dictionary `{chunk_size, chunk_overlap, split_by}`. Sizes are
      reals because the adjustment rules multiply them by 1.5, 1.2 and 1.3. */
  datatype Strategy = Strategy(chunkSize: real, chunkOverlap: real, splitBy: SplitBy)

  /** `question_strategies`. */
  const QuestionStrategies: map<string, Strategy> := map[
    "factual" := Strategy(300.0, 50.0, Sentence),
    "inferential" := Strategy(800.0, 200.0, Paragraph),
    "summary" := Strategy(1000.0, 100.0, Paragraph),
    "comparison" := Strategy(600.0, 150.0, Paragraph),
    "definition" := Strategy(400.0, 50.0, Sentence),
    "procedural" := Strategy(500.0, 100.0, Sentence),
    "opinion" := Strategy(700.0, 150.0, Paragraph)
  ]

  /** `question_strategies.get(question_type, question_strategies["factual"])`. */
  function BaseStrategy(questionType: string): (s: Strategy)
    ensures s.splitBy != Code
    ensures 0.0 < s.chunkOverlap < s.chunkSize <= 1000.0
    ensures questionType in QuestionStrategies ==> s == QuestionStrategies[questionType]
    ensures questionType !in QuestionStrategies ==> s == Strategy(300.0, 50.0, Sentence)
  {
    if questionType in QuestionStrategies then QuestionStrategies[questionType]
    else QuestionStrategies["factual"]
  }

  /** An unknown question type behaves exactly like "factual". */
  lemma UnknownTypeIsFactual(questionType: string)
    requires questionType !in QuestionStrategies
    ensures BaseStrategy(questionType) == BaseStrategy("factual") == Strategy(300.0, 50.0, Sentence)
  {
  }

  // ---------------------------------------------------------------------------
  // Text features
  // ---------------------------------------------------------------------------

  /** The features `adjust_strategy` and `get_split_info` read. The average
      sentence length comes from the sentence tokenizer and the number of
      technical-term matches from the regular-expression engine; both are
      supplied by the caller. */
  datatype TextFeatures = TextFeatures(
    avgSentenceLength: real,
    technicalDensity: real,
    totalTerms: nat,
    hasCode: bool,
    codeBlocksCount: nat,
    codeRatio: real)

  const ParagraphBreak: string := "\n\n"
  const Fence: string := "```"

  /** `matches / total_words if total_words > 0 else 0`, with
      `total_words = len(text.split())`. */
  function TechnicalDensity(text: string, matches: nat): (d: real)
    ensures d >= 0.0
    ensures IsBlank(text) ==> d == 0.0
    ensures !IsBlank(text) ==> d * WordCount(text) as real == matches as real
  {
    var words := WordCount(text);
    if words > 0 then matches as real / words as real else 0.0
  }

  /** The lengths `[len(p) for p in paragraphs if p.strip()]`. */
  function NonBlankLengths(paragraphs: seq<string>): (r: seq<nat>)
    ensures r == [] <==> forall i :: 0 <= i < |paragraphs| ==> IsBlank(paragraphs[i])
  {
    if paragraphs == [] then []
    else
      var rest := NonBlankLengths(paragraphs[1..]);
      assert forall i :: 1 <= i < |paragraphs| ==> paragraphs[i] == paragraphs[1..][i - 1];
      (if IsBlank(paragraphs[0]) then [] else [|paragraphs[0]|]) + rest
  }

  /** Joining blank pieces with a blank separator gives a blank string, and
      only then. */
  lemma {:induction false} JoinBlank(sep: string, parts: seq<string>)
    requires IsBlank(sep)
    ensures IsBlank(Join(sep, parts)) <==> forall i :: 0 <= i < |parts| ==> IsBlank(parts[i])
  {
    if |parts| >= 2 {
      JoinBlank(sep, parts[1..]);
      BlankConcat(parts[0], sep);
      BlankConcat(parts[0] + sep, Join(sep, parts[1..]));
      assert forall i :: 1 <= i < |parts| ==> parts[i] == parts[1..][i - 1];
    }
  }

  /** The paragraph analyser finds no length to take the `max()` of exactly
      when the whole text is blank. */
  lemma NoParagraphLengthsIffBlank(text: string)
    ensures NonBlankLengths(SplitOn(text, ParagraphBreak)) == [] <==> IsBlank(text)
  {
    assert IsBlank(ParagraphBreak) by { assert ParagraphBreak[0] == '\n' && ParagraphBreak[1] == '\n'; }
    JoinBlank(ParagraphBreak, SplitOn(text, ParagraphBreak));
  }

  // ---------------------------------------------------------------------------
  // Fenced code blocks: the pattern ```[\s\S]*?``` used by findall and split
  // ---------------------------------------------------------------------------

  /** The leftmost match of the non-greedy pattern at or after `from`, as the
      span `(start, end)`. It opens at the first fence and closes at the first
      fence that starts three or more characters later. When no closing fence
      exists, starting the match later cannot find one either, so there is no
      match. */
  function NextBlock(s: string, from: nat): (m: Option<(nat, nat)>)
    requires from <= |s|
    ensures m.Some? ==> from <= m.value.0 && m.value.0 + 6 <= m.value.1 <= |s|
    ensures m.Some? ==> OccursAt(s, Fence, m.value.0) && OccursAt(s, Fence, m.value.1 - 3)
  {
    match IndexFrom(s, Fence, from)
    case None => None
    case Some(i) =>
      match IndexFrom(s, Fence, i + 3)
      case None => None
      case Some(j) => Some((i, j + 3))
  }

  /** The match opens at the first fence and closes at the first fence that
      starts three or more characters later; with no such pair there is no
      match. */
  lemma NextBlockIsLeftmostShortest(s: string, from: nat)
    requires from <= |s|
    ensures var m := NextBlock(s, from);
      && (m.Some? ==> forall p :: from <= p < m.value.0 ==> !OccursAt(s, Fence, p))
      && (m.Some? ==> forall p :: m.value.0 + 3 <= p < m.value.1 - 3 ==> !OccursAt(s, Fence, p))
      && (m.None? ==> forall p, q :: from <= p && p + 3 <= q ==> !(OccursAt(s, Fence, p) && OccursAt(s, Fence, q)))
  {
    match IndexFrom(s, Fence, from)
    case None =>
    case Some(i) =>
      var j := IndexFrom(s, Fence, i + 3);
      if j.None? {
        forall p, q | from <= p && p + 3 <= q ensures !(OccursAt(s, Fence, p) && OccursAt(s, Fence, q)) {
          if OccursAt(s, Fence, p) {
            assert i <= p;
          }
        }
      }
  }

  function StartsWithFence(s: string): bool
  {
    |s| >= 3 && s[..3] == Fence
  }

  /** `re.findall(r'```[\s\S]*?```', s[from:])`. */
  function BlocksFrom(s: string, from: nat): (blocks: seq<string>)
    requires from <= |s|
    ensures forall k :: 0 <= k < |blocks| ==> StartsWithFence(blocks[k]) && |blocks[k]| >= 6
    decreases |s| - from
  {
    match NextBlock(s, from)
    case None => []
    case Some((i, e)) => [s[i..e]] + BlocksFrom(s, e)
  }

  function FindFencedBlocks(s: string): seq<string>
  {
    BlocksFrom(s, 0)
  }

  /** `re.split(r'(```[\s\S]*?```)', s[from:])`: the text before each block,
      the block itself, and the text after the last block. */
  function PartsFrom(s: string, from: nat): (parts: seq<string>)
    requires from <= |s|
    ensures |parts| == 2 * |BlocksFrom(s, from)| + 1
    ensures Join("", parts) == s[from..]
    decreases |s| - from
  {
    match NextBlock(s, from)
    case None => [s[from..]]
    case Some((i, e)) =>
      var rest := PartsFrom(s, e);
      JoinCut(s, from, i, e, rest);
      [s[from..i], s[i..e]] + rest
  }

  /** The text before a block, the block, then the parts of the text after
      it, concatenate back to the text. */
  lemma JoinCut(s: string, from: nat, i: nat, e: nat, rest: seq<string>)
    requires from <= i <= e <= |s|
    requires rest != [] && Join("", rest) == s[e..]
    ensures Join("", [s[from..i], s[i..e]] + rest) == s[from..]
  {
    JoinTwoMore(s[from..i], s[i..e], rest);
    assert s[from..] == s[from..i] + s[i..e] + s[e..];
  }

  /** Concatenating two more parts in front of a non-empty list. */
  lemma JoinTwoMore(a: string, b: string, rest: seq<string>)
    requires rest != []
    ensures Join("", [a, b] + rest) == a + b + Join("", rest)
  {
    JoinCons("", b, rest);
    JoinCons("", a, [b] + rest);
    assert [a] + ([b] + rest) == [a, b] + rest;
  }

  /** The blocks sit at the odd positions of the split, unchanged. */
  lemma {:induction false} PartsHoldBlocks(s: string, from: nat, k: nat)
    requires from <= |s| && k < |BlocksFrom(s, from)|
    ensures PartsFrom(s, from)[2 * k + 1] == BlocksFrom(s, from)[k]
    decreases |s| - from
  {
    var (i, e) := NextBlock(s, from).value;
    BlocksStep(s, from, i, e);
    PartsStep(s, from, i, e);
    if k > 0 {
      PartsHoldBlocks(s, e, k - 1);
      assert PartsFrom(s, from)[2 * k + 1] == PartsFrom(s, e)[2 * (k - 1) + 1];
      assert BlocksFrom(s, from)[k] == BlocksFrom(s, e)[k - 1];
    }
  }

  function SplitParts(s: string): seq<string>
  {
    PartsFrom(s, 0)
  }

  /** The split has one more text part than there are blocks, the blocks sit
      at the odd positions unchanged, and concatenating the parts gives the
      text back. */
  lemma SplitPartsShape(s: string)
    ensures |SplitParts(s)| == 2 * |FindFencedBlocks(s)| + 1
    ensures forall k :: 0 <= k < |FindFencedBlocks(s)| ==> SplitParts(s)[2 * k + 1] == FindFencedBlocks(s)[k]
    ensures Join("", SplitParts(s)) == s
  {
    forall k | 0 <= k < |FindFencedBlocks(s)| ensures SplitParts(s)[2 * k + 1] == FindFencedBlocks(s)[k] {
      PartsHoldBlocks(s, 0, k);
    }
  }

  lemma OddIndex(k: nat)
    requires k % 2 == 1
    ensures k == 2 * (k / 2) + 1
  {
  }

  /** Every part at an odd position starts with a fence. */
  lemma OddPartsOpenWithFence(s: string)
    ensures forall k :: 0 <= k < |SplitParts(s)| && k % 2 == 1 ==> StartsWithFence(SplitParts(s)[k])
  {
    forall k | 0 <= k < |SplitParts(s)| && k % 2 == 1 ensures StartsWithFence(SplitParts(s)[k]) {
      var m := k / 2;
      OddIndex(k);
      PartsHoldBlocks(s, 0, m);
    }
  }

  /** A block the non-greedy pattern can match: it opens and closes with a
      fence and holds no other fence that starts at or after its fourth
      character. */
  predicate MinimalBlock(b: string)
  {
    && |b| >= 6 && OccursAt(b, Fence, 0) && OccursAt(b, Fence, |b| - 3)
    && forall p :: 3 <= p < |b| - 3 ==> !OccursAt(b, Fence, p)
  }

  /** One step of `findall`: a match at `(i, e)` contributes its block, and
      the scan goes on from `e`. */
  lemma BlocksStep(s: string, from: nat, i: nat, e: nat)
    requires from <= |s| && NextBlock(s, from) == Some((i, e))
    ensures BlocksFrom(s, from) == [s[i..e]] + BlocksFrom(s, e)
  {
  }

  /** One step of `split`: a match at `(i, e)` contributes the text before
      it and its block, and the split goes on from `e`. */
  lemma PartsStep(s: string, from: nat, i: nat, e: nat)
    requires from <= |s| && NextBlock(s, from) == Some((i, e))
    ensures PartsFrom(s, from) == [s[from..i], s[i..e]] + PartsFrom(s, e)
  {
  }

  /** The block `NextBlock` finds is minimal. */
  lemma NextBlockIsMinimal(s: string, from: nat, i: nat, e: nat)
    requires from <= |s| && NextBlock(s, from) == Some((i, e))
    ensures MinimalBlock(s[i..e])
  {
    NextBlockIsLeftmostShortest(s, from);
    FenceInSlice(s, i, e, 0);
    FenceInSlice(s, i, e, e - i - 3);
    forall p | 3 <= p < e - i - 3 ensures !OccursAt(s[i..e], Fence, p) {
      FenceInSlice(s, i, e, p);
    }
  }

  /** A fence at offset `p` of a slice is a fence at `i + p` of the text. */
  lemma FenceInSlice(s: string, i: nat, e: nat, p: nat)
    requires i <= e <= |s| && p + 3 <= e - i
    ensures OccursAt(s[i..e], Fence, p) <==> OccursAt(s, Fence, i + p)
  {
    var w, v := s[i..e][p..p + 3], s[i + p..i + p + 3];
    assert forall q :: 0 <= q < 3 ==> w[q] == v[q];
    assert w == v;
  }

  /** Every block `findall` returns is non-greedy: it opens and closes with a
      fence and holds no other fence that starts at or after its fourth
      character. */
  lemma {:induction false} BlocksAreMinimal(s: string, from: nat, k: nat)
    requires from <= |s| && k < |BlocksFrom(s, from)|
    ensures MinimalBlock(BlocksFrom(s, from)[k])
    decreases |s| - from
  {
    var (i, e) := NextBlock(s, from).value;
    BlocksStep(s, from, i, e);
    if k == 0 {
      NextBlockIsMinimal(s, from, i, e);
      assert BlocksFrom(s, from)[0] == s[i..e];
    } else {
      BlocksAreMinimal(s, e, k - 1);
      assert BlocksFrom(s, from)[k] == BlocksFrom(s, e)[k - 1];
    }
  }

  /** The blocks together are never longer than the text. */
  lemma {:induction false} BlocksFit(s: string, from: nat)
    requires from <= |s|
    ensures SumLengths(BlocksFrom(s, from)) <= |s| - from
    decreases |s| - from
  {
    match NextBlock(s, from)
    case None =>
    case Some((i, e)) =>
      BlocksFit(s, e);
      SumLengthsConcat([s[i..e]], BlocksFrom(s, e));
      assert SumLengths([s[i..e]]) == e - i by { assert [s[i..e]][..0] == []; }
  }

  /** `a / b` for a part `a` of a positive whole `b`. */
  function Ratio(a: nat, b: nat): (r: real)
    requires 0 < b && a <= b
    ensures 0.0 <= r <= 1.0
  {
    var r := a as real / b as real;
    assert r * b as real == a as real;
    r
  }

  /** `_analyze_code_blocks`. */
  function AnalyzeCodeBlocks(text: string): (r: (bool, nat, real))
    ensures r.0 <==> FindFencedBlocks(text) != []
    ensures r.1 == |FindFencedBlocks(text)|
    ensures 0.0 <= r.2 <= 1.0
  {
    var blocks := FindFencedBlocks(text);
    BlocksFit(text, 0);
    var ratio := if |text| > 0 then Ratio(SumLengths(blocks), |text|) else 0.0;
    (|blocks| > 0, |blocks|, ratio)
  }

  /** The code ratio is the share of the text's characters that lie inside
      fenced blocks, and 0 for the empty text. */
  lemma CodeRatioValue(text: string)
    ensures |text| > 0 ==>
      AnalyzeCodeBlocks(text).2 == SumLengths(FindFencedBlocks(text)) as real / |text| as real
    ensures |text| == 0 ==> AnalyzeCodeBlocks(text).2 == 0.0
  {
  }

  /** `analyze_text`: `None` stands for the ValueError that `max()` raises on
      the empty list of non-blank paragraph lengths. The sentence tokenizer
      finds no sentence in the same texts, so its `max()` fails alike. */
  function AnalyzeText(text: string, avgSentenceLength: real, technicalMatches: nat): (r: Option<TextFeatures>)
    ensures r.None? <==> IsBlank(text)
    ensures r.Some? ==> (r.value.hasCode <==> FindFencedBlocks(text) != [])
    ensures r.Some? ==> r.value.avgSentenceLength == avgSentenceLength
    ensures r.Some? ==> 0.0 <= r.value.codeRatio <= 1.0 && r.value.technicalDensity >= 0.0
    ensures r.Some? ==>
      && r.value.technicalDensity == TechnicalDensity(text, technicalMatches)
      && (r.value.hasCode, r.value.codeBlocksCount, r.value.codeRatio) == AnalyzeCodeBlocks(text)
  {
    NoParagraphLengthsIffBlank(text);
    if NonBlankLengths(SplitOn(text, ParagraphBreak)) == [] then None
    else
      var code := AnalyzeCodeBlocks(text);
      Some(TextFeatures(avgSentenceLength, TechnicalDensity(text, technicalMatches), technicalMatches,
                        code.0, code.1, code.2))
  }

  // ---------------------------------------------------------------------------
  // adjust_strategy
  // ---------------------------------------------------------------------------

  function Min(a: real, b: real): real { if a <= b then a else b }
  function Max(a: real, b: real): real { if a >= b then a else b }

  /** `adjust_strategy`: three rules applied in order to a copy of the
      strategy, each acting on the size the previous rules left. */
  function Adjust(strategy: Strategy, features: TextFeatures): (r: Strategy)
    ensures r.splitBy == (if features.hasCode then Code else strategy.splitBy)
    ensures features.technicalDensity <= 0.1 ==> r.chunkOverlap == strategy.chunkOverlap
    ensures features.technicalDensity > 0.1 ==> r.chunkOverlap == Min(strategy.chunkOverlap * 1.5, 300.0)
    ensures features.hasCode ==> r.chunkSize >= 1000.0
  {
    var a := strategy;
    var a := if features.avgSentenceLength > 100.0
      then a.(chunkSize := Min(a.chunkSize * 1.5, 2000.0)) else a;
    var a := if features.technicalDensity > 0.1
      then a.(chunkSize := Min(a.chunkSize * 1.2, 1500.0), chunkOverlap := Min(a.chunkOverlap * 1.5, 300.0))
      else a;
    var a := if features.hasCode
      then a.(splitBy := Code, chunkSize := Max(a.chunkSize * 1.3, 1000.0)) else a;
    a
  }

  /** Short sentences, low density and no code leave a strategy as it is. */
  lemma AdjustWithoutTriggers(strategy: Strategy, features: TextFeatures)
    requires features.avgSentenceLength <= 100.0 && features.technicalDensity <= 0.1 && !features.hasCode
    ensures Adjust(strategy, features) == strategy
  {
  }

  /** The size rules compound in their fixed order. The code rule scales the
      size the first two rules left by 1.3 with a floor of 1000; the density
      rule scales the size the sentence rule left by 1.2 with a cap of 1500;
      the sentence rule scales the table size by 1.5 with a cap of 2000. */
  lemma RulesApplyInOrder(s: Strategy, f: TextFeatures)
    ensures f.hasCode ==>
      Adjust(s, f).chunkSize == Max(Adjust(s, f.(hasCode := false)).chunkSize * 1.3, 1000.0)
    ensures f.technicalDensity > 0.1 ==>
      Adjust(s, f.(hasCode := false)).chunkSize
        == Min(Adjust(s, f.(hasCode := false, technicalDensity := 0.0)).chunkSize * 1.2, 1500.0)
    ensures f.technicalDensity <= 0.1 ==>
      Adjust(s, f.(hasCode := false)).chunkSize
        == Adjust(s, f.(hasCode := false, technicalDensity := 0.0)).chunkSize
    ensures f.avgSentenceLength > 100.0 ==>
      Adjust(s, f.(hasCode := false, technicalDensity := 0.0)).chunkSize == Min(s.chunkSize * 1.5, 2000.0)
    ensures f.avgSentenceLength <= 100.0 ==>
      Adjust(s, f.(hasCode := false, technicalDensity := 0.0)).chunkSize == s.chunkSize
  {
  }

  /** Bounds of every strategy the splitter can use: the overlap stays below
      the size (`adjust_strategy` has no clamp and needs none), the caps of rules 1
      and 2 hold without code, and with code rule 3 lifts the size to at least
      1000 and at most 2600. */
  lemma AdjustedTableBounds(questionType: string, features: TextFeatures)
    ensures var b := BaseStrategy(questionType);
      var r := Adjust(b, features);
      && 0.0 < r.chunkOverlap <= 300.0
      && r.chunkOverlap < r.chunkSize
      && (!features.hasCode ==> b.chunkSize <= r.chunkSize <= 2000.0)
      && (!features.hasCode && features.technicalDensity > 0.1 ==> r.chunkSize <= 1500.0)
      && (features.hasCode ==> 1000.0 <= r.chunkSize <= 2600.0)
  {
  }

  /** The rules compound in their fixed order; the code rule is a floor, not a
      cap, so it can take a size past the 1500 cap of the density rule. */
  lemma RulesCompound()
    ensures var f := TextFeatures(120.0, 0.2, 10, true, 1, 0.5);
      && Adjust(BaseStrategy("summary"), f) == Strategy(1950.0, 150.0, Code)
      && Adjust(BaseStrategy("factual"), f) == Strategy(1000.0, 75.0, Code)
      && Adjust(BaseStrategy("summary"), f.(hasCode := false)) == Strategy(1500.0, 150.0, Paragraph)
  {
  }

  // ---------------------------------------------------------------------------
  // Paragraph mode
  // ---------------------------------------------------------------------------

  /** The paragraphs of all groups, in order. */
  function Flatten(groups: seq<seq<string>>): seq<string>
  {
    if groups == [] then [] else Flatten(groups[..|groups| - 1]) + groups[|groups| - 1]
  }

  /** The next paragraph would not have fitted beside group `g`. */
  predicate Overflows(g: seq<string>, next: seq<string>, chunkSize: real)
  {
    next != [] && (SumLengths(g) + |next[0]|) as real > chunkSize
  }

  /** The closed groups and the chunks emitted for them: each group is
      non-empty and its chunk is its `'\n\n'.join`; a group of two or more
      paragraphs has at most `chunkSize` characters of paragraph text; and a
      group was closed only because the following paragraph did not fit. */
  ghost predicate ClosedGroups(chunkSize: real, chunks: seq<string>, groups: seq<seq<string>>)
  {
    && |groups| == |chunks|
    && (forall i :: 0 <= i < |groups| ==> groups[i] != [] && chunks[i] == Join(ParagraphBreak, groups[i]))
    && (forall i :: 0 <= i < |groups| && |groups[i]| >= 2 ==> SumLengths(groups[i]) as real <= chunkSize)
    && (forall i :: 0 <= i < |groups| - 1 ==> OverflowsNext(groups, i, chunkSize))
  }

  /** Group `i` was closed because the first paragraph of group `i + 1`
      did not fit beside it. */
  predicate OverflowsNext(groups: seq<seq<string>>, i: nat, chunkSize: real)
    requires i + 1 < |groups|
  {
    Overflows(groups[i], groups[i + 1], chunkSize)
  }

  /** What paragraph mode promises: the chunks come from consecutive groups of
      whole paragraphs that together are exactly the paragraphs, in order. */
  ghost predicate ParagraphChunking(paragraphs: seq<string>, chunkSize: real,
                                    chunks: seq<string>, groups: seq<seq<string>>)
  {
    Flatten(groups) == paragraphs && ClosedGroups(chunkSize, chunks, groups)
  }

  /** Closing the pending group keeps the closed groups well formed. */
  lemma CloseGroup(chunkSize: real, chunks: seq<string>, groups: seq<seq<string>>, g: seq<string>)
    requires ClosedGroups(chunkSize, chunks, groups)
    requires g != [] && (|g| >= 2 ==> SumLengths(g) as real <= chunkSize)
    requires groups != [] ==> Overflows(groups[|groups| - 1], g, chunkSize)
    ensures ClosedGroups(chunkSize, chunks + [Join(ParagraphBreak, g)], groups + [g])
    ensures Flatten(groups + [g]) == Flatten(groups) + g
  {
    var gs := groups + [g];
    assert gs[..|groups|] == groups;
    forall i | 0 <= i < |gs| - 1 ensures OverflowsNext(gs, i, chunkSize) {
      if i + 1 < |groups| {
        assert OverflowsNext(groups, i, chunkSize);
        assert gs[i] == groups[i] && gs[i + 1] == groups[i + 1];
      } else {
        assert gs[i] == groups[|groups| - 1] && gs[i + 1] == g;
      }
    }
  }

  /** The state of the paragraph loop after the paragraphs `done`: the closed
      groups followed by the pending group `current` are `done`; the pending
      group and its length obey the same bound as a closed group, and it
      started because the paragraph did not fit beside the last closed group. */
  ghost predicate Pending(done: seq<string>, chunkSize: real, chunks: seq<string>,
                          groups: seq<seq<string>>, current: seq<string>, currentLength: nat)
  {
    && Flatten(groups) + current == done
    && ClosedGroups(chunkSize, chunks, groups)
    && currentLength == SumLengths(current)
    && (|current| >= 2 ==> currentLength as real <= chunkSize)
    && (done != [] <==> current != [])
    && (groups != [] ==> Overflows(groups[|groups| - 1], current, chunkSize))
  }

  /** A paragraph that does not fit closes the pending group (if any) and
      starts a new one. */
  lemma StartGroup(done: seq<string>, para: string, chunkSize: real, chunks: seq<string>,
                   groups: seq<seq<string>>, current: seq<string>, currentLength: nat)
    requires Pending(done, chunkSize, chunks, groups, current, currentLength)
    requires (currentLength + |para|) as real > chunkSize
    ensures current != [] ==>
      Pending(done + [para], chunkSize, chunks + [Join(ParagraphBreak, current)], groups + [current], [para], |para|)
    ensures current == [] ==> Pending(done + [para], chunkSize, chunks, groups, [para], |para|)
  {
    assert [para][..0] == [];
    if current != [] {
      CloseGroup(chunkSize, chunks, groups, current);
      assert Overflows(current, [para], chunkSize);
    }
  }

  /** A paragraph that fits joins the pending group. */
  lemma ExtendGroup(done: seq<string>, para: string, chunkSize: real, chunks: seq<string>,
                    groups: seq<seq<string>>, current: seq<string>, currentLength: nat)
    requires Pending(done, chunkSize, chunks, groups, current, currentLength)
    requires (currentLength + |para|) as real <= chunkSize
    ensures Pending(done + [para], chunkSize, chunks, groups, current + [para], currentLength + |para|)
  {
    assert (current + [para])[..|current|] == current;
    if current != [] {
      assert (current + [para])[0] == current[0];
    }
  }

  /** After the last paragraph the pending group is closed. */
  lemma FinishGroups(paragraphs: seq<string>, chunkSize: real, chunks: seq<string>,
                     groups: seq<seq<string>>, current: seq<string>, currentLength: nat)
    requires Pending(paragraphs, chunkSize, chunks, groups, current, currentLength)
    ensures current != [] ==>
      ParagraphChunking(paragraphs, chunkSize, chunks + [Join(ParagraphBreak, current)], groups + [current])
    ensures current == [] ==> ParagraphChunking(paragraphs, chunkSize, chunks, groups)
  {
    if current != [] {
      CloseGroup(chunkSize, chunks, groups, current);
    }
  }

  /** One iteration of the paragraph loop: a paragraph that does not fit
      closes the pending group (if any) and starts a new one; a paragraph
      that fits joins the pending group. */
  method AddParagraph(ghost done: seq<string>, para: string, chunkSize: real,
                      chunks: seq<string>, ghost groups: seq<seq<string>>,
                      currentChunk: seq<string>, currentLength: nat)
    returns (chunks': seq<string>, ghost groups': seq<seq<string>>,
             currentChunk': seq<string>, currentLength': nat)
    requires Pending(done, chunkSize, chunks, groups, currentChunk, currentLength)
    ensures Pending(done + [para], chunkSize, chunks', groups', currentChunk', currentLength')
    ensures |chunks| <= |chunks'|
  {
    if (currentLength + |para|) as real > chunkSize {
      StartGroup(done, para, chunkSize, chunks, groups, currentChunk, currentLength);
      if currentChunk != [] {
        chunks', groups' := chunks + [Join(ParagraphBreak, currentChunk)], groups + [currentChunk];
      } else {
        chunks', groups' := chunks, groups;
      }
      currentChunk', currentLength' := [para], |para|;
    } else {
      ExtendGroup(done, para, chunkSize, chunks, groups, currentChunk, currentLength);
      chunks', groups' := chunks, groups;
      currentChunk', currentLength' := currentChunk + [para], currentLength + |para|;
    }
  }

  /** Closing the pending group after the last paragraph. */
  method CloseLastGroup(ghost paragraphs: seq<string>, chunkSize: real,
                        chunks: seq<string>, ghost groups: seq<seq<string>>,
                        currentChunk: seq<string>, ghost currentLength: nat)
    returns (chunks': seq<string>, ghost groups': seq<seq<string>>)
    requires Pending(paragraphs, chunkSize, chunks, groups, currentChunk, currentLength)
    ensures ParagraphChunking(paragraphs, chunkSize, chunks', groups')
    ensures paragraphs != [] ==> chunks' != []
  {
    FinishGroups(paragraphs, chunkSize, chunks, groups, currentChunk, currentLength);
    if currentChunk != [] {
      chunks', groups' := chunks + [Join(ParagraphBreak, currentChunk)], groups + [currentChunk];
    } else {
      chunks', groups' := chunks, groups;
    }
  }

  /** Before the first paragraph nothing is pending. */
  lemma NothingPending(chunkSize: real)
    ensures Pending([], chunkSize, [], [], [], 0)
  {
  }

  /** The paragraph loop of `split_text`. */
  method GroupParagraphs(paragraphs: seq<string>, chunkSize: real)
    returns (chunks: seq<string>, ghost groups: seq<seq<string>>)
    ensures ParagraphChunking(paragraphs, chunkSize, chunks, groups)
    ensures paragraphs != [] ==> chunks != []
  {
    chunks, groups := [], [];
    var currentChunk: seq<string> := [];
    var currentLength: nat := 0;
    NothingPending(chunkSize);
    for k := 0 to |paragraphs|
      invariant Pending(paragraphs[..k], chunkSize, chunks, groups, currentChunk, currentLength)
    {
      assert paragraphs[..k + 1] == paragraphs[..k] + [paragraphs[k]];
      chunks, groups, currentChunk, currentLength :=
        AddParagraph(paragraphs[..k], paragraphs[k], chunkSize, chunks, groups, currentChunk, currentLength);
    }
    assert paragraphs[..|paragraphs|] == paragraphs;
    chunks, groups := CloseLastGroup(paragraphs, chunkSize, chunks, groups, currentChunk, currentLength);
  }

  /** Joining the joins of non-empty groups joins their flattening. */
  lemma {:induction false} JoinOfJoins(sep: string, groups: seq<seq<string>>, chunks: seq<string>)
    requires |groups| == |chunks|
    requires forall i :: 0 <= i < |groups| ==> groups[i] != [] && chunks[i] == Join(sep, groups[i])
    ensures Join(sep, chunks) == Join(sep, Flatten(groups))
    decreases |groups|
  {
    var n := |groups|;
    if n == 1 {
      assert Flatten(groups) == groups[0] by {
        assert groups[..0] == [];
        assert Flatten(groups) == Flatten(groups[..0]) + groups[0];
      }
    } else if n > 1 {
      var g, c := groups[..n - 1], chunks[..n - 1];
      JoinOfJoins(sep, g, c);
      assert chunks == c + [chunks[n - 1]];
      JoinAppend(sep, c, [chunks[n - 1]]);
      assert Flatten(g) != [] by { assert Flatten(g) == Flatten(g[..n - 2]) + g[n - 2]; }
      JoinAppend(sep, Flatten(g), groups[n - 1]);
    }
  }

  /** Paragraph mode on a text: `'\n\n'.join(chunks) == text`, and there is at
      least one chunk. */
  method SplitByParagraph(text: string, chunkSize: real)
    returns (chunks: seq<string>, ghost groups: seq<seq<string>>)
    ensures ParagraphChunking(SplitOn(text, ParagraphBreak), chunkSize, chunks, groups)
    ensures |chunks| >= 1
    ensures Join(ParagraphBreak, chunks) == text
  {
    var paragraphs := SplitOn(text, ParagraphBreak);
    chunks, groups := GroupParagraphs(paragraphs, chunkSize);
    JoinOfJoins(ParagraphBreak, groups, chunks);
  }

  // ---------------------------------------------------------------------------
  // Code mode
  // ---------------------------------------------------------------------------

  /** The code loop of `split_text`, over the parts of the split. Text parts
      and blocks alternate, so the pending chunk never holds more than one
      part and every part comes out as a chunk of its own, empty parts
      included. */
  method EmitCodeParts(parts: seq<string>, chunkSize: real) returns (chunks: seq<string>)
    requires forall k :: 0 <= k < |parts| && k % 2 == 1 ==> StartsWithFence(parts[k])
    ensures chunks == parts
  {
    chunks := [];
    var currentChunk: seq<string> := [];
    var currentLength: nat := 0;
    for k := 0 to |parts|
      invariant (currentChunk == [] && chunks == parts[..k])
             || (k % 2 == 1 && currentChunk == [parts[k - 1]] && chunks == parts[..k - 1])
    {
      var part := parts[k];
      assert parts[..k + 1] == parts[..k] + [part];
      if StartsWithFence(part) {
        if currentChunk != [] {
          assert parts[..k] == parts[..k - 1] + [parts[k - 1]];
          assert Join(ParagraphBreak, currentChunk) == parts[k - 1];
          chunks := chunks + [Join(ParagraphBreak, currentChunk)];
        }
        assert chunks == parts[..k];
        chunks := chunks + [part];
        currentChunk := [];
        currentLength := 0;
      } else {
        assert k % 2 == 0;
        assert currentChunk == [] && chunks == parts[..k];
        if (currentLength + |part|) as real > chunkSize {
          if currentChunk != [] {
            chunks := chunks + [Join(ParagraphBreak, currentChunk)];
          }
          currentChunk := [part];
          currentLength := |part|;
        } else {
          currentChunk := currentChunk + [part];
          currentLength := currentLength + |part|;
        }
        assert currentChunk == [parts[(k + 1) - 1]];
      }
    }
    if currentChunk != [] {
      assert parts == parts[..|parts| - 1] + [parts[|parts| - 1]];
      chunks := chunks + [Join(ParagraphBreak, currentChunk)];
    }
    assert parts[..|parts|] == parts;
  }

  /** Code mode on a text: the chunks are exactly the parts of
      `re.split(r'(```[\s\S]*?```)', text)`. */
  method SplitByCode(text: string, chunkSize: real) returns (chunks: seq<string>)
    ensures chunks == SplitParts(text)
    ensures |chunks| == 2 * |FindFencedBlocks(text)| + 1
    ensures Join("", chunks) == text
  {
    var parts := SplitParts(text);
    OddPartsOpenWithFence(text);
    chunks := EmitCodeParts(parts, chunkSize);
    SplitPartsShape(text);
  }

  // ---------------------------------------------------------------------------
  // split_text and get_split_info
  // ---------------------------------------------------------------------------

  /** The outcome of `split_text`. */
  datatype SplitOutcome =
    | AnalysisRaised                                  // ValueError out of analyze_text
    | Delegated(chunkSize: real, chunkOverlap: real)  // sentence mode: RecursiveCharacterTextSplitter
    | Chunks(chunks: seq<string>)

  /** `question_strategies` lookup, `analyze_text` and `adjust_strategy`. */
  function AdjustedStrategy(text: string, questionType: string, avgSentenceLength: real,
                            technicalMatches: nat): (r: Option<Strategy>)
    ensures r.None? <==> IsBlank(text)
  {
    match AnalyzeText(text, avgSentenceLength, technicalMatches)
    case None => None
    case Some(features) => Some(Adjust(BaseStrategy(questionType), features))
  }

  /** `split_text`. Blank text (the empty string included) raises; sentence
      mode hands the adjusted size and overlap to the recursive character
      splitter; paragraph and code mode run the loops above. Code mode is
      chosen exactly when the text holds a fenced block, and then yields
      2k+1 >= 3 chunks that concatenate to the text. */
  method SplitText(text: string, questionType: string, avgSentenceLength: real, technicalMatches: nat)
    returns (r: SplitOutcome, ghost groups: seq<seq<string>>)
    ensures r == AnalysisRaised <==> IsBlank(text)
    ensures !IsBlank(text) ==>
      var a := AdjustedStrategy(text, questionType, avgSentenceLength, technicalMatches).value;
      && (a.splitBy == Sentence ==> r == Delegated(a.chunkSize, a.chunkOverlap))
      && (a.splitBy == Paragraph ==>
            && r.Chunks? && |r.chunks| >= 1 && Join(ParagraphBreak, r.chunks) == text
            && ParagraphChunking(SplitOn(text, ParagraphBreak), a.chunkSize, r.chunks, groups))
      && (a.splitBy == Code <==> FindFencedBlocks(text) != [])
      && (a.splitBy == Code ==>
            && r == Chunks(SplitParts(text))
            && |r.chunks| == 2 * |FindFencedBlocks(text)| + 1 >= 3
            && Join("", r.chunks) == text)
  {
    groups := [];
    var strategy := BaseStrategy(questionType);
    var features := AnalyzeText(text, avgSentenceLength, technicalMatches);
    if features.None? {
      return AnalysisRaised, groups;
    }
    var adjusted := Adjust(strategy, features.value);
    match adjusted.splitBy
    case Sentence =>
      r := Delegated(adjusted.chunkSize, adjusted.chunkOverlap);
    case Paragraph =>
      var chunks;
      chunks, groups := SplitByParagraph(text, adjusted.chunkSize);
      r := Chunks(chunks);
    case Code =>
      var chunks := SplitByCode(text, adjusted.chunkSize);
      r := Chunks(chunks);
  }

  /** The strategies and features `get_split_info` reports next to the split. */
  datatype SplitInfo = SplitInfo(
    originalStrategy: Strategy,
    adjustedStrategy: Strategy,
    textFeatures: TextFeatures,
    split: SplitOutcome)

  /** `get_split_info`: it raises for blank text like `split_text`; otherwise
      it reports the table strategy, the strategy `split_text` adjusted it to,
      and the split. */
  method GetSplitInfo(text: string, questionType: string, avgSentenceLength: real, technicalMatches: nat)
    returns (r: Option<SplitInfo>)
    ensures r.None? <==> IsBlank(text)
    ensures r.Some? ==>
      && r.value.originalStrategy == BaseStrategy(questionType)
      && Some(r.value.textFeatures) == AnalyzeText(text, avgSentenceLength, technicalMatches)
      && Some(r.value.adjustedStrategy) == AdjustedStrategy(text, questionType, avgSentenceLength, technicalMatches)
      && r.value.adjustedStrategy == Adjust(r.value.originalStrategy, r.value.textFeatures)
      && (r.value.adjustedStrategy.splitBy == Sentence ==>
            r.value.split == Delegated(r.value.adjustedStrategy.chunkSize, r.value.adjustedStrategy.chunkOverlap))
      && (r.value.adjustedStrategy.splitBy != Sentence ==> r.value.split.Chunks?)
      && (r.value.adjustedStrategy.splitBy == Paragraph ==>
            |r.value.split.chunks| >= 1 && Join(ParagraphBreak, r.value.split.chunks) == text)
      && (r.value.adjustedStrategy.splitBy == Code ==> r.value.split == Chunks(SplitParts(text)))
  {
    var features := AnalyzeText(text, avgSentenceLength, technicalMatches);
    if features.None? {
      return None;
    }
    var strategy := BaseStrategy(questionType);
    var adjusted := Adjust(strategy, features.value);
    var split, _ := SplitText(text, questionType, avgSentenceLength, technicalMatches);
    r := Some(SplitInfo(strategy, adjusted, features.value, split));
  }
}
