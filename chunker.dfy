/** The chunk builder of the chunking engine: clean the text, split it into
    sentences, and pack the sentences into chunks bounded by a token budget,
    each new chunk starting with the longest run of trailing sentences of
    the previous one that fits in the overlap budget. */
module Chunker {
  import opened Text
  import opened Tokens
  import opened Cleaner
  import opened Splitter

  /** The chunking parameters of the database object. */
  datatype Config = Config(tokenizer: Tokenizer, maxTokens: nat, overlapTokens: nat)

  /** The parameters the program sets at start-up: 400 tokens per chunk and
      50 tokens of overlap. */
  function DefaultConfig(tk: Tokenizer): (c: Config)
    ensures c.maxTokens == 400 && c.overlapTokens == 50 && c.tokenizer == tk
  {
    Config(tk, 400, 50)
  }

  function Count(cfg: Config, s: string): nat {
    CountTokens(cfg.tokenizer, s)
  }

  /** The token total of a list of sentences. */
  function Sum(cfg: Config, b: seq<string>): nat
    decreases |b|
  {
    if b == [] then 0 else Sum(cfg, b[..|b| - 1]) + Count(cfg, b[|b| - 1])
  }

  /** ' '.join(b). */
  function Join(b: seq<string>): string
    decreases |b|
  {
    if b == [] then []
    else if |b| == 1 then b[0]
    else Join(b[..|b| - 1]) + " " + b[|b| - 1]
  }

  // ---------------------------------------------------------------------
  // The overlap seed
  // ---------------------------------------------------------------------

  /** Trailing sentences of b taken from the end while they fit in budget;
      the walk stops at the first sentence that does not fit. */
  function SeedWithin(cfg: Config, b: seq<string>, budget: nat): seq<string>
    decreases |b|
  {
    if b == [] then []
    else
      var last := b[|b| - 1];
      if Count(cfg, last) <= budget then SeedWithin(cfg, b[..|b| - 1], budget - Count(cfg, last)) + [last]
      else []
  }

  /** The sentences a finalised buffer passes on to the next one. */
  function Seed(cfg: Config, b: seq<string>): seq<string> {
    SeedWithin(cfg, b, cfg.overlapTokens)
  }

  // ---------------------------------------------------------------------
  // The scan
  // ---------------------------------------------------------------------

  /** A buffer of sentences: the seed carried over from the previous buffer,
      then the sentences added after it. */
  datatype Piece = Piece(seed: seq<string>, added: seq<string>) {
    function Sentences(): seq<string> { seed + added }
  }

  /** The state of the scan: the finalised buffers, the open one and its
      running token total. */
  datatype ScanState = ScanState(closed: seq<Piece>, open: Piece, tokens: nat)

  const Initial: ScanState := ScanState([], Piece([], []), 0)

  /** One sentence of the scan. A sentence over the budget on its own is
      dropped. A sentence that would overflow a non-empty buffer finalises
      it and opens a new buffer holding the seed and the sentence.
      Otherwise the sentence joins the open buffer. */
  function Step(cfg: Config, st: ScanState, s: string): ScanState {
    var t := Count(cfg, s);
    if t > cfg.maxTokens then st
    else if st.tokens + t > cfg.maxTokens && st.open.Sentences() != [] then
      var seed := Seed(cfg, st.open.Sentences());
      ScanState(st.closed + [st.open], Piece(seed, [s]), Sum(cfg, seed) + t)
    else ScanState(st.closed, Piece(st.open.seed, st.open.added + [s]), st.tokens + t)
  }

  function Scan(cfg: Config, sentences: seq<string>): ScanState
    decreases |sentences|
  {
    if sentences == [] then Initial
    else Step(cfg, Scan(cfg, sentences[..|sentences| - 1]), sentences[|sentences| - 1])
  }

  /** Every buffer the scan finalises, the last one included when it is not
      empty. */
  function Buffers(cfg: Config, sentences: seq<string>): seq<Piece> {
    var st := Scan(cfg, sentences);
    if st.open.Sentences() != [] then st.closed + [st.open] else st.closed
  }

  function JoinAll(pieces: seq<Piece>): (r: seq<string>)
    ensures |r| == |pieces|
    ensures forall k :: 0 <= k < |r| ==> r[k] == Join(pieces[k].Sentences())
    decreases |pieces|
  {
    if pieces == [] then []
    else JoinAll(pieces[..|pieces| - 1]) + [Join(pieces[|pieces| - 1].Sentences())]
  }

  /** A text that strips to nothing. */
  predicate Blank(s: string) {
    Strip(s) == []
  }

  /** [c for c in chunks if c.strip()]. */
  function NonBlank(chunks: seq<string>): seq<string>
    decreases |chunks|
  {
    if chunks == [] then []
    else
      var last := chunks[|chunks| - 1];
      NonBlank(chunks[..|chunks| - 1]) + (if !Blank(last) then [last] else [])
  }

  /** The chunks built from a list of sentences. */
  function ChunkSpec(cfg: Config, sentences: seq<string>): seq<string> {
    NonBlank(JoinAll(Buffers(cfg, sentences)))
  }

  /** The sentences that fit the budget on their own, in order. */
  function Fitting(cfg: Config, sentences: seq<string>): seq<string>
    decreases |sentences|
  {
    if sentences == [] then []
    else
      var last := sentences[|sentences| - 1];
      Fitting(cfg, sentences[..|sentences| - 1]) + (if Count(cfg, last) <= cfg.maxTokens then [last] else [])
  }

  /** The added sentences of the buffers, buffer after buffer. */
  function AddedOf(pieces: seq<Piece>): seq<string>
    decreases |pieces|
  {
    if pieces == [] then [] else AddedOf(pieces[..|pieces| - 1]) + pieces[|pieces| - 1].added
  }

  /** The text pipeline: clean, split into sentences, chunk. */
  function SmartChunkSpec(cfg: Config, text: string): seq<string> {
    ChunkSpec(cfg, SplitSpec(Clean(text)))
  }

  /** _smart_chunk_text: clean the text, split it into sentences, pack the
      sentences into buffers and keep the joined buffers that are not blank. */
  method SmartChunkText(cfg: Config, text: string) returns (validChunks: seq<string>)
    ensures validChunks == SmartChunkSpec(cfg, text)
    ensures forall k :: 0 <= k < |validChunks| ==> validChunks[k] != []
  {
    var cleaned := Clean(text);
    var sentences := SplitSentences(cleaned);
    if sentences == [] {
      return [];
    }
    var chunks := PackSentences(cfg, sentences);
    validChunks := NonBlank(chunks);
    NonBlankKept(chunks);
  }

  /** The chunk loop of _smart_chunk_text: each sentence over the budget is
      skipped; one that would overflow a non-empty buffer finalises it, and
      the next buffer starts with the overlap seed and that sentence. */
  method PackSentences(cfg: Config, sentences: seq<string>) returns (chunks: seq<string>)
    ensures chunks == JoinAll(Buffers(cfg, sentences))
  {
    chunks := [];
    var current: seq<string> := [];
    var currentTokens := 0;
    for i := 0 to |sentences|
      invariant chunks == JoinAll(Scan(cfg, sentences[..i]).closed)
      invariant current == Scan(cfg, sentences[..i]).open.Sentences()
      invariant currentTokens == Scan(cfg, sentences[..i]).tokens
    {
      ScanStep(cfg, sentences, i);
      ghost var st := Scan(cfg, sentences[..i]);
      var sentence := sentences[i];
      var sentenceTokens := Count(cfg, sentence);
      if sentenceTokens > cfg.maxTokens {
        continue;
      }
      if currentTokens + sentenceTokens > cfg.maxTokens && current != [] {
        FinalizeStep(cfg, st, sentence);
        chunks := chunks + [Join(current)];
        var overlap, overlapTokens := CarryOverlap(cfg, current);
        current := overlap + [sentence];
        currentTokens := overlapTokens + sentenceTokens;
      } else {
        AddStep(cfg, st, sentence);
        current := current + [sentence];
        currentTokens := currentTokens + sentenceTokens;
      }
    }
    assert sentences[..|sentences|] == sentences;
    if current != [] {
      JoinAllAppend(Scan(cfg, sentences).closed, Scan(cfg, sentences).open);
      chunks := chunks + [Join(current)];
    }
  }

  /** The overlap walk of _smart_chunk_text: from the end of the finalised
      buffer, insert each sentence at the front while the running total
      stays within the overlap budget, and stop at the first that does not. */
  method CarryOverlap(cfg: Config, current: seq<string>) returns (overlap: seq<string>, overlapTokens: nat)
    ensures overlap == Seed(cfg, current)
    ensures overlapTokens == Sum(cfg, overlap) <= cfg.overlapTokens
  {
    overlap := [];
    overlapTokens := 0;
    var j := |current|;
    assert current[..j] == current;
    assert Seed(cfg, current) + overlap == Seed(cfg, current);
    while j > 0
      invariant 0 <= j <= |current|
      invariant overlap == current[j..]
      invariant overlapTokens == Sum(cfg, overlap) <= cfg.overlapTokens
      invariant Seed(cfg, current) ==
        SeedWithin(cfg, current[..j], cfg.overlapTokens - overlapTokens) + overlap
    {
      var sent := current[j - 1];
      var sentTokens := Count(cfg, sent);
      SeedWithinStep(cfg, current, j, cfg.overlapTokens - overlapTokens);
      if overlapTokens + sentTokens <= cfg.overlapTokens {
        SumFront(cfg, sent, overlap);
        assert [sent] + overlap == current[j - 1..];
        overlap := [sent] + overlap;
        overlapTokens := overlapTokens + sentTokens;
        j := j - 1;
      } else {
        break;
      }
    }
  }

  /** One step of the overlap walk, at the j-th sentence of b. */
  lemma {:induction false} SeedWithinStep(cfg: Config, b: seq<string>, j: nat, budget: nat)
    requires 0 < j <= |b|
    ensures Count(cfg, b[j - 1]) <= budget ==>
      forall o :: SeedWithin(cfg, b[..j], budget) + o ==
        SeedWithin(cfg, b[..j - 1], budget - Count(cfg, b[j - 1])) + ([b[j - 1]] + o)
    ensures Count(cfg, b[j - 1]) > budget ==> SeedWithin(cfg, b[..j], budget) == []
  {
    assert b[..j][..j - 1] == b[..j - 1];
    assert b[..j][j - 1] == b[j - 1];
  }

  /** Every chunk the filter keeps has a non-space character. */
  lemma {:induction false} NonBlankKept(chunks: seq<string>)
    ensures forall k :: 0 <= k < |NonBlank(chunks)| ==> !Blank(NonBlank(chunks)[k]) && NonBlank(chunks)[k] != []
    decreases |chunks|
  {
    if chunks != [] {
      NonBlankKept(chunks[..|chunks| - 1]);
    }
  }

  /** The scan after one more sentence. */
  lemma {:induction false} ScanStep(cfg: Config, sentences: seq<string>, i: nat)
    requires i < |sentences|
    ensures Scan(cfg, sentences[..i + 1]) == Step(cfg, Scan(cfg, sentences[..i]), sentences[i])
  {
    assert sentences[..i + 1][..i] == sentences[..i];
  }

  lemma {:induction false} JoinAllAppend(ps: seq<Piece>, p: Piece)
    ensures JoinAll(ps + [p]) == JoinAll(ps) + [Join(p.Sentences())]
  {
    assert (ps + [p])[..|ps|] == ps;
  }

  /** The scan when a fitting sentence overflows a non-empty buffer. */
  lemma {:induction false} FinalizeStep(cfg: Config, st: ScanState, s: string)
    requires Count(cfg, s) <= cfg.maxTokens
    requires st.tokens + Count(cfg, s) > cfg.maxTokens && st.open.Sentences() != []
    ensures var st' := Step(cfg, st, s);
      JoinAll(st'.closed) == JoinAll(st.closed) + [Join(st.open.Sentences())] &&
      st'.open.Sentences() == Seed(cfg, st.open.Sentences()) + [s] &&
      st'.tokens == Sum(cfg, Seed(cfg, st.open.Sentences())) + Count(cfg, s)
  {
    JoinAllAppend(st.closed, st.open);
  }

  /** The scan when a fitting sentence joins the open buffer. */
  lemma {:induction false} AddStep(cfg: Config, st: ScanState, s: string)
    requires Count(cfg, s) <= cfg.maxTokens
    requires !(st.tokens + Count(cfg, s) > cfg.maxTokens && st.open.Sentences() != [])
    ensures var st' := Step(cfg, st, s);
      st'.closed == st.closed && st'.open.Sentences() == st.open.Sentences() + [s] &&
      st'.tokens == st.tokens + Count(cfg, s)
  {
  }

  // ---------------------------------------------------------------------
  // Token sums
  // ---------------------------------------------------------------------

  lemma {:induction false} SumAppend(cfg: Config, a: seq<string>, b: seq<string>)
    ensures Sum(cfg, a + b) == Sum(cfg, a) + Sum(cfg, b)
    decreases |b|
  {
    if b == [] {
      assert a + b == a;
    } else {
      assert (a + b)[..|a + b| - 1] == a + b[..|b| - 1];
      assert (a + b)[|a + b| - 1] == b[|b| - 1];
      SumAppend(cfg, a, b[..|b| - 1]);
    }
  }

  lemma {:induction false} SumFront(cfg: Config, x: string, b: seq<string>)
    ensures Sum(cfg, [x] + b) == Count(cfg, x) + Sum(cfg, b)
  {
    SumAppend(cfg, [x], b);
    assert [x][..0] == [];
  }

  // ---------------------------------------------------------------------
  // The seed
  // ---------------------------------------------------------------------

  /** The last k sentences of b. */
  function Tail(b: seq<string>, k: nat): seq<string>
    requires k <= |b|
  {
    b[|b| - k..]
  }

  /** The seed is a suffix of the buffer within the budget. */
  lemma {:induction false} SeedWithinSuffix(cfg: Config, b: seq<string>, budget: nat)
    ensures var r := SeedWithin(cfg, b, budget);
      |r| <= |b| && r == Tail(b, |r|) && Sum(cfg, r) <= budget
  {
    SeedWithinTail(cfg, b, budget);
    SeedWithinBudget(cfg, b, budget);
  }

  lemma {:induction false} SeedWithinTail(cfg: Config, b: seq<string>, budget: nat)
    ensures var r := SeedWithin(cfg, b, budget);
      |r| <= |b| && r == b[|b| - |r|..]
    decreases |b|
  {
    if b != [] {
      var last := b[|b| - 1];
      if Count(cfg, last) <= budget {
        var init := b[..|b| - 1];
        var r0 := SeedWithin(cfg, init, budget - Count(cfg, last));
        SeedWithinTail(cfg, init, budget - Count(cfg, last));
        assert init[|init| - |r0|..] + [last] == b[|b| - |r0| - 1..];
      }
    }
  }

  lemma {:induction false} SeedWithinBudget(cfg: Config, b: seq<string>, budget: nat)
    ensures Sum(cfg, SeedWithin(cfg, b, budget)) <= budget
    decreases |b|
  {
    if b != [] {
      var last := b[|b| - 1];
      if Count(cfg, last) <= budget {
        var init := b[..|b| - 1];
        var r0 := SeedWithin(cfg, init, budget - Count(cfg, last));
        SeedWithinBudget(cfg, init, budget - Count(cfg, last));
        var r := r0 + [last];
        assert r[..|r0|] == r0;
      }
    }
  }

  /** The sentence just before the seed, if any, does not fit in what the
      seed leaves of the budget. */
  lemma {:induction false} SeedWithinStops(cfg: Config, b: seq<string>, budget: nat)
    ensures var r := SeedWithin(cfg, b, budget);
      |r| < |b| ==> Count(cfg, b[|b| - |r| - 1]) + Sum(cfg, r) > budget
    decreases |b|
  {
    if b != [] {
      var last := b[|b| - 1];
      if Count(cfg, last) <= budget {
        var init := b[..|b| - 1];
        var r0 := SeedWithin(cfg, init, budget - Count(cfg, last));
        SeedWithinStops(cfg, init, budget - Count(cfg, last));
        assert SeedWithin(cfg, b, budget) == r0 + [last];
        assert (r0 + [last])[..|r0|] == r0;
        assert Sum(cfg, r0 + [last]) == Sum(cfg, r0) + Count(cfg, last);
        if |r0| < |init| {
          assert b[|b| - |r0| - 2] == init[|init| - |r0| - 1];
        }
      } else {
        assert SeedWithin(cfg, b, budget) == [];
        assert Sum(cfg, []) == 0;
      }
    }
  }

  /** The seed is the longest suffix of the buffer whose token total is
      within the overlap budget, kept in the buffer's order. */
  lemma {:induction false} SeedLongestFitting(cfg: Config, b: seq<string>)
    ensures var r := Seed(cfg, b);
      |r| <= |b| && r == Tail(b, |r|) && Sum(cfg, r) <= cfg.overlapTokens &&
      forall k :: |r| < k <= |b| ==> Sum(cfg, Tail(b, k)) > cfg.overlapTokens
  {
    var r := Seed(cfg, b);
    SeedWithinSuffix(cfg, b, cfg.overlapTokens);
    SeedWithinStops(cfg, b, cfg.overlapTokens);
    forall k | |r| < k <= |b| ensures Sum(cfg, Tail(b, k)) > cfg.overlapTokens {
      var n := |b| - |r| - 1;
      assert Tail(b, k) == b[|b| - k..n] + ([b[n]] + r);
      SumAppend(cfg, b[|b| - k..n], [b[n]] + r);
      SumFront(cfg, b[n], r);
    }
  }

  // ---------------------------------------------------------------------
  // Invariants of the scan
  // ---------------------------------------------------------------------

  /** The running total is the token sum of the open buffer. */
  lemma {:induction false} ScanTokens(cfg: Config, sentences: seq<string>)
    ensures Scan(cfg, sentences).tokens == Sum(cfg, Scan(cfg, sentences).open.Sentences())
    decreases |sentences|
  {
    if sentences != [] {
      var init, s := sentences[..|sentences| - 1], sentences[|sentences| - 1];
      var st := Scan(cfg, init);
      ScanTokens(cfg, init);
      var t := Count(cfg, s);
      if t <= cfg.maxTokens {
        if st.tokens + t > cfg.maxTokens && st.open.Sentences() != [] {
          var seed := Seed(cfg, st.open.Sentences());
          assert (seed + [s])[..|seed|] == seed;
        } else {
          assert st.open.seed + (st.open.added + [s]) == st.open.Sentences() + [s];
          assert (st.open.Sentences() + [s])[..|st.open.Sentences()|] == st.open.Sentences();
        }
      }
    }
  }

  predicate MembersFit(cfg: Config, b: seq<string>) {
    forall k :: 0 <= k < |b| ==> Count(cfg, b[k]) <= cfg.maxTokens
  }

  /** A buffer within the bounds the scan keeps: its seed within the
      overlap budget, each sentence within the chunk budget, and the whole
      within the chunk budget plus the overlap budget. */
  predicate Bounded(cfg: Config, p: Piece) {
    Sum(cfg, p.seed) <= cfg.overlapTokens && MembersFit(cfg, p.Sentences()) &&
    Sum(cfg, p.Sentences()) <= cfg.maxTokens + cfg.overlapTokens
  }

  /** A sentence that fits next to the open buffer keeps it bounded. */
  lemma {:induction false} AddBounded(cfg: Config, p: Piece, s: string)
    requires Bounded(cfg, p) && Count(cfg, s) <= cfg.maxTokens
    requires p.Sentences() == [] || Sum(cfg, p.Sentences()) + Count(cfg, s) <= cfg.maxTokens
    ensures Bounded(cfg, Piece(p.seed, p.added + [s]))
  {
    var b := p.Sentences();
    assert Piece(p.seed, p.added + [s]).Sentences() == b + [s];
    assert (b + [s])[..|b|] == b;
  }

  /** The buffer opened with the seed of a bounded buffer and one fitting
      sentence is bounded. */
  lemma {:induction false} SeedBounded(cfg: Config, b: seq<string>, s: string)
    requires MembersFit(cfg, b) && Count(cfg, s) <= cfg.maxTokens
    ensures Bounded(cfg, Piece(Seed(cfg, b), [s]))
  {
    var seed := Seed(cfg, b);
    SeedWithinSuffix(cfg, b, cfg.overlapTokens);
    assert (seed + [s])[..|seed|] == seed;
    assert forall k :: 0 <= k < |seed| ==> seed[k] == b[|b| - |seed| + k];
  }

  /** The invariant of the scan: every buffer stays within its bounds, every
      finalised buffer has a sentence of its own, and so has the open one
      unless it is empty. */
  predicate ScanInvariant(cfg: Config, st: ScanState) {
    Bounded(cfg, st.open) && (st.open.added == [] ==> st.open.seed == []) &&
    forall k :: 0 <= k < |st.closed| ==> Bounded(cfg, st.closed[k]) && st.closed[k].added != []
  }

  lemma {:induction false} StepInvariant(cfg: Config, st: ScanState, s: string)
    requires ScanInvariant(cfg, st) && st.tokens == Sum(cfg, st.open.Sentences())
    ensures ScanInvariant(cfg, Step(cfg, st, s))
  {
    var t := Count(cfg, s);
    if t <= cfg.maxTokens {
      if st.tokens + t > cfg.maxTokens && st.open.Sentences() != [] {
        SeedBounded(cfg, st.open.Sentences(), s);
        var closed := st.closed + [st.open];
        assert forall k :: 0 <= k < |st.closed| ==> closed[k] == st.closed[k];
      } else {
        AddBounded(cfg, st.open, s);
      }
    }
  }

  lemma {:induction false} ScanBounded(cfg: Config, sentences: seq<string>)
    ensures ScanInvariant(cfg, Scan(cfg, sentences))
    decreases |sentences|
  {
    if sentences != [] {
      var init := sentences[..|sentences| - 1];
      ScanBounded(cfg, init);
      ScanTokens(cfg, init);
      StepInvariant(cfg, Scan(cfg, init), sentences[|sentences| - 1]);
    }
  }

  /** The added sentences of all buffers, in order, are exactly the
      sentences that fit the budget on their own. */
  lemma {:induction false} ScanCoverage(cfg: Config, sentences: seq<string>)
    ensures var st := Scan(cfg, sentences);
      AddedOf(st.closed + [st.open]) == Fitting(cfg, sentences)
    decreases |sentences|
  {
    if sentences != [] {
      var init, s := sentences[..|sentences| - 1], sentences[|sentences| - 1];
      var st := Scan(cfg, init);
      ScanCoverage(cfg, init);
      var t := Count(cfg, s);
      if t <= cfg.maxTokens {
        var ps := st.closed + [st.open];
        if st.tokens + t > cfg.maxTokens && st.open.Sentences() != [] {
          var np := Piece(Seed(cfg, st.open.Sentences()), [s]);
          assert (ps + [np])[..|ps|] == ps;
        } else {
          var np := Piece(st.open.seed, st.open.added + [s]);
          assert (st.closed + [np])[..|st.closed|] == st.closed;
          assert ps[..|st.closed|] == st.closed;
        }
      }
    }
  }

  /** The first buffer starts without a seed; each later one starts with
      the seed of the buffer before it. */
  predicate SeedChain(cfg: Config, ps: seq<Piece>) {
    (ps != [] ==> ps[0].seed == []) &&
    forall k :: 0 < k < |ps| ==> ps[k].seed == Seed(cfg, ps[k - 1].Sentences())
  }

  lemma {:induction false} ScanSeeds(cfg: Config, sentences: seq<string>)
    ensures var st := Scan(cfg, sentences);
      SeedChain(cfg, st.closed + [st.open])
    decreases |sentences|
  {
    if sentences != [] {
      var init, s := sentences[..|sentences| - 1], sentences[|sentences| - 1];
      var st := Scan(cfg, init);
      ScanSeeds(cfg, init);
      var t := Count(cfg, s);
      if t <= cfg.maxTokens {
        var ps := st.closed + [st.open];
        if !(st.tokens + t > cfg.maxTokens && st.open.Sentences() != []) {
          var np := Piece(st.open.seed, st.open.added + [s]);
          var ps' := st.closed + [np];
          forall k | 0 < k < |ps'| ensures ps'[k].seed == Seed(cfg, ps'[k - 1].Sentences()) {
            assert ps'[k - 1] == ps[k - 1];
            if k < |st.closed| {
              assert ps'[k] == ps[k];
            } else {
              assert ps'[k] == np && ps[k] == st.open;
            }
          }
        } else {
          var np := Piece(Seed(cfg, st.open.Sentences()), [s]);
          var ps' := ps + [np];
          forall k | 0 < k < |ps'| ensures ps'[k].seed == Seed(cfg, ps'[k - 1].Sentences()) {
            if k < |ps| {
              assert ps'[k] == ps[k] && ps'[k - 1] == ps[k - 1];
            }
          }
        }
      }
    }
  }

  // ---------------------------------------------------------------------
  // The finished buffers
  // ---------------------------------------------------------------------

  /** The non-seed sentences of the buffers, buffer after buffer, are
      exactly the sentences that fit the budget on their own, in input
      order. */
  lemma {:induction false} BuffersCoverFitting(cfg: Config, sentences: seq<string>)
    ensures AddedOf(Buffers(cfg, sentences)) == Fitting(cfg, sentences)
  {
    var st := Scan(cfg, sentences);
    ScanCoverage(cfg, sentences);
    ScanBounded(cfg, sentences);
    assert (st.closed + [st.open])[..|st.closed|] == st.closed;
  }

  /** Every buffer has a sentence of its own, its seed within the overlap
      budget, every sentence within the chunk budget, and a total within
      the chunk budget plus the overlap budget. */
  lemma {:induction false} BuffersBounded(cfg: Config, sentences: seq<string>)
    ensures forall k :: 0 <= k < |Buffers(cfg, sentences)| ==>
      Bounded(cfg, Buffers(cfg, sentences)[k]) && Buffers(cfg, sentences)[k].added != []
  {
    ScanBounded(cfg, sentences);
  }

  /** A sentence over the chunk budget appears in no buffer. */
  lemma {:induction false} OversizedDropped(cfg: Config, sentences: seq<string>, x: string)
    requires Count(cfg, x) > cfg.maxTokens
    ensures forall k :: 0 <= k < |Buffers(cfg, sentences)| ==> x !in Buffers(cfg, sentences)[k].Sentences()
  {
    BuffersBounded(cfg, sentences);
  }

  /** Each buffer after the first starts with the seed of the buffer before
      it, and the first starts with no seed. */
  lemma {:induction false} BuffersSeedChain(cfg: Config, sentences: seq<string>)
    ensures SeedChain(cfg, Buffers(cfg, sentences))
  {
    var st := Scan(cfg, sentences);
    ScanSeeds(cfg, sentences);
    var ps := st.closed + [st.open];
    assert forall k :: 0 <= k < |st.closed| ==> ps[k] == st.closed[k];
  }

  /** There are no buffers exactly when no sentence fits the budget on its
      own; in particular no sentences give no chunks. */
  lemma {:induction false} NoFittingNoBuffers(cfg: Config, sentences: seq<string>)
    ensures Buffers(cfg, sentences) == [] <==> Fitting(cfg, sentences) == []
  {
    var b := Buffers(cfg, sentences);
    BuffersCoverFitting(cfg, sentences);
    BuffersBounded(cfg, sentences);
    if b != [] {
      AddedOfNonEmpty(b);
    }
  }

  lemma {:induction false} AddedOfNonEmpty(ps: seq<Piece>)
    requires ps != [] && ps[|ps| - 1].added != []
    ensures AddedOf(ps) != []
  {
  }

  /** The pipeline gives no chunks when every sentence is over the budget. */
  lemma {:induction false} OnlyOversizedNoChunks(cfg: Config, sentences: seq<string>)
    requires forall k :: 0 <= k < |sentences| ==> Count(cfg, sentences[k]) > cfg.maxTokens
    ensures ChunkSpec(cfg, sentences) == []
  {
    NothingFits(cfg, sentences);
    NoFittingNoBuffers(cfg, sentences);
  }

  lemma {:induction false} NothingFits(cfg: Config, sentences: seq<string>)
    requires forall k :: 0 <= k < |sentences| ==> Count(cfg, sentences[k]) > cfg.maxTokens
    ensures Fitting(cfg, sentences) == []
    decreases |sentences|
  {
    if sentences != [] {
      NothingFits(cfg, sentences[..|sentences| - 1]);
    }
  }

  /** The last sentence of a buffer ends its joined text. */
  lemma {:induction false} JoinEndsWithLast(b: seq<string>)
    requires b != []
    ensures |b[|b| - 1]| <= |Join(b)| && Join(b)[|Join(b)| - |b[|b| - 1]|..] == b[|b| - 1]
  {
  }

  /** Joining a buffer whose last sentence has a non-space character gives
      a text that is not blank. */
  lemma {:induction false} JoinNotBlank(b: seq<string>)
    requires b != [] && b[|b| - 1] != [] && !IsSpace(b[|b| - 1][0])
    ensures !Blank(Join(b))
  {
    var last, j := b[|b| - 1], Join(b);
    JoinEndsWithLast(b);
    assert j[|j| - |last|] == last[0];
    StripNonEmpty(j, |j| - |last|);
  }

  /** The filter keeps a list whose every text is not blank. */
  lemma {:induction false} NonBlankIdle(chunks: seq<string>)
    requires forall k :: 0 <= k < |chunks| ==> !Blank(chunks[k])
    ensures NonBlank(chunks) == chunks
    decreases |chunks|
  {
    if chunks != [] {
      var init := chunks[..|chunks| - 1];
      assert forall k :: 0 <= k < |init| ==> init[k] == chunks[k];
      NonBlankIdle(init);
      var last := chunks[|chunks| - 1];
      assert !Blank(last);
      calc {
        NonBlank(chunks);
        NonBlank(init) + [last];
        init + [last];
        { assert init + [last] == chunks; }
        chunks;
      }
    }
  }

  /** Every sentence of every buffer is one of the input sentences. */
  predicate DrawnFrom(ps: seq<Piece>, pool: seq<string>) {
    forall k, x :: 0 <= k < |ps| && x in ps[k].Sentences() ==> x in pool
  }

  lemma {:induction false} ScanDrawn(cfg: Config, sentences: seq<string>)
    ensures var st := Scan(cfg, sentences); DrawnFrom(st.closed + [st.open], sentences)
    decreases |sentences|
  {
    if sentences != [] {
      var init, s := sentences[..|sentences| - 1], sentences[|sentences| - 1];
      var st := Scan(cfg, init);
      ScanDrawn(cfg, init);
      var ps := st.closed + [st.open];
      var st' := Scan(cfg, sentences);
      var ps' := st'.closed + [st'.open];
      forall k, x | 0 <= k < |ps'| && x in ps'[k].Sentences() ensures x in sentences {
        DrawnStep(cfg, st, s, k, x);
        assert init + [s] == sentences;
        if x != s {
          assert x in init;
        }
      }
    }
  }

  /** A sentence of a buffer after one step of the scan is the new sentence
      or a sentence of a buffer before it. */
  lemma {:induction false} DrawnStep(cfg: Config, st: ScanState, s: string, k: nat, x: string)
    requires var st' := Step(cfg, st, s); k < |st'.closed| + 1 && x in (st'.closed + [st'.open])[k].Sentences()
    ensures x == s || exists j :: 0 <= j < |st.closed| + 1 && x in (st.closed + [st.open])[j].Sentences()
  {
    var ps := st.closed + [st.open];
    var t := Count(cfg, s);
    var b := st.open.Sentences();
    assert ps[|st.closed|] == st.open;
    if t <= cfg.maxTokens {
      if st.tokens + t > cfg.maxTokens && b != [] {
        var np := Piece(Seed(cfg, b), [s]);
        var ps' := ps + [np];
        if k < |ps| {
          assert ps'[k] == ps[k];
        } else if x != s {
          SeedWithinSuffix(cfg, b, cfg.overlapTokens);
          assert x in Seed(cfg, b);
          assert x in b;
        }
      } else {
        var np := Piece(st.open.seed, st.open.added + [s]);
        var ps' := st.closed + [np];
        if k < |st.closed| {
          assert ps'[k] == ps[k];
        } else {
          assert np.Sentences() == b + [s];
        }
      }
    }
  }

  /** When every sentence is well formed, every buffer joins into a text
      that is not blank, so the filter of _smart_chunk_text removes
      nothing. */
  lemma {:induction false} FilterRemovesNothing(cfg: Config, sentences: seq<string>)
    requires forall k :: 0 <= k < |sentences| ==> sentences[k] != [] && !IsSpace(sentences[k][0])
    ensures ChunkSpec(cfg, sentences) == JoinAll(Buffers(cfg, sentences))
  {
    var st := Scan(cfg, sentences);
    var ps := Buffers(cfg, sentences);
    ScanDrawn(cfg, sentences);
    BuffersBounded(cfg, sentences);
    forall k | 0 <= k < |ps| ensures !Blank(JoinAll(ps)[k]) {
      assert ps[k] == (st.closed + [st.open])[k];
      var b := ps[k].Sentences();
      var x := b[|b| - 1];
      assert x in b;
      assert x in sentences;
      var i :| 0 <= i < |sentences| && sentences[i] == x;
      JoinNotBlank(b);
    }
    NonBlankIdle(JoinAll(ps));
  }

  /** On the pipeline's own sentences the filter removes nothing, and the
      paragraph split of the splitter changes nothing either. */
  lemma {:induction false} PipelineFilterIdle(cfg: Config, text: string)
    ensures SmartChunkSpec(cfg, text) == JoinAll(Buffers(cfg, SplitSpec(Clean(text))))
    ensures SplitSpec(Clean(text)) == Keep(Sentences(ProtectAll(Clean(text), Abbreviations)))
  {
    var sentences := SplitSpec(Clean(text));
    SplitSpecWellFormed(Clean(text));
    FilterRemovesNothing(cfg, sentences);
    assert IsSpace('\n');
    ParagraphSplitDead(Clean(text));
  }

  /** A buffer can exceed the chunk budget: with a 50-token sentence
      followed by a 400-token one, the second buffer is the first sentence
      carried as the seed plus the second, 450 tokens. */
  lemma {:induction false} BufferExceedsMax()
    ensures var cfg := DefaultConfig(Loaded(TwoSizes));
      var b := Buffers(cfg, ["a", "b"]);
      |b| == 2 && b[1].Sentences() == ["a", "b"] &&
      Sum(cfg, b[1].Sentences()) == 450 > cfg.maxTokens
  {
    var cfg := DefaultConfig(Loaded(TwoSizes));
    assert Count(cfg, "a") == 50 && Count(cfg, "b") == 400;
    var s1 := Scan(cfg, ["a"]);
    assert ["a"][..0] == [];
    assert s1 == ScanState([], Piece([], ["a"]), 50);
    assert ["a", "b"][..1] == ["a"];
    assert Seed(cfg, ["a"]) == ["a"] by {
      assert ["a"][..0] == [];
    }
    assert ["a"] + ["b"] == ["a", "b"];
    assert ["a", "b"][..1] == ["a"];
  }

  /** An encoding that gives 50 tokens for "a" and 400 for anything else. */
  function TwoSizes(s: string): seq<nat> {
    if s == "a" then seq(50, _ => 0) else seq(400, _ => 0)
  }

  // ---------------------------------------------------------------------
  // Per-chunk metadata
  // ---------------------------------------------------------------------

  /** A file handed to the chunker: its name and its text. */
  datatype SourceFile = SourceFile(filename: string, content: string)

  /** The metadata stored with each chunk. */
  datatype ChunkMeta = ChunkMeta(source: string, chunkId: nat, tokenCount: nat, charLength: nat)

  /** The metadata of the chunks of one file, numbered from 0. */
  function ChunkRecords(cfg: Config, name: string, chunks: seq<string>): (r: seq<ChunkMeta>)
    ensures |r| == |chunks|
    decreases |chunks|
  {
    if chunks == [] then []
    else
      var last := chunks[|chunks| - 1];
      ChunkRecords(cfg, name, chunks[..|chunks| - 1]) +
        [ChunkMeta(name, |chunks| - 1, Count(cfg, last), |last|)]
  }

  /** The i-th record names the file, has chunk id i, and the token count
      and length of the i-th chunk. */
  lemma {:induction false} ChunkRecordsAt(cfg: Config, name: string, chunks: seq<string>, i: nat)
    requires i < |chunks|
    ensures ChunkRecords(cfg, name, chunks)[i] ==
      ChunkMeta(name, i, Count(cfg, chunks[i]), |chunks[i]|)
    decreases |chunks|
  {
    if i < |chunks| - 1 {
      ChunkRecordsAt(cfg, name, chunks[..|chunks| - 1], i);
    }
  }

  /** The documents stored for a list of files, file after file. */
  function Documents(cfg: Config, files: seq<SourceFile>): seq<string>
    decreases |files|
  {
    if files == [] then []
    else Documents(cfg, files[..|files| - 1]) + SmartChunkSpec(cfg, files[|files| - 1].content)
  }

  /** The metadata stored for a list of files, file after file. */
  function Metadatas(cfg: Config, files: seq<SourceFile>): seq<ChunkMeta>
    decreases |files|
  {
    if files == [] then []
    else
      var f := files[|files| - 1];
      Metadatas(cfg, files[..|files| - 1]) + ChunkRecords(cfg, f.filename, SmartChunkSpec(cfg, f.content))
  }

  /** The document and metadata loops of populate_vector_database: files
      without chunks are skipped, and each chunk of the others is stored
      with its metadata. */
  method BuildRecords(cfg: Config, files: seq<SourceFile>) returns (documents: seq<string>, metadatas: seq<ChunkMeta>)
    ensures documents == Documents(cfg, files)
    ensures metadatas == Metadatas(cfg, files)
  {
    documents, metadatas := [], [];
    for f := 0 to |files|
      invariant documents == Documents(cfg, files[..f])
      invariant metadatas == Metadatas(cfg, files[..f])
    {
      FilesStep(cfg, files, f);
      var chunks := SmartChunkText(cfg, files[f].content);
      if chunks == [] {
        assert documents + chunks == documents;
        continue;
      }
      documents, metadatas := AppendRecords(cfg, files[f].filename, chunks, documents, metadatas);
    }
    assert files[..|files|] == files;
  }

  /** The enumerate loop of populate_vector_database: each chunk of one
      file is stored with its metadata. */
  method AppendRecords(cfg: Config, name: string, chunks: seq<string>,
                       documents0: seq<string>, metadatas0: seq<ChunkMeta>)
    returns (documents: seq<string>, metadatas: seq<ChunkMeta>)
    ensures documents == documents0 + chunks
    ensures metadatas == metadatas0 + ChunkRecords(cfg, name, chunks)
  {
    documents, metadatas := documents0, metadatas0;
    for i := 0 to |chunks|
      invariant documents == documents0 + chunks[..i]
      invariant metadatas == metadatas0 + ChunkRecords(cfg, name, chunks[..i])
    {
      ChunkRecordsStep(cfg, name, chunks, i);
      var chunk := chunks[i];
      documents := documents + [chunk];
      metadatas := metadatas + [ChunkMeta(name, i, Count(cfg, chunk), |chunk|)];
    }
    assert chunks[..|chunks|] == chunks;
  }

  lemma {:induction false} FilesStep(cfg: Config, files: seq<SourceFile>, f: nat)
    requires f < |files|
    ensures Documents(cfg, files[..f + 1]) == Documents(cfg, files[..f]) + SmartChunkSpec(cfg, files[f].content)
    ensures Metadatas(cfg, files[..f + 1]) ==
      Metadatas(cfg, files[..f]) + ChunkRecords(cfg, files[f].filename, SmartChunkSpec(cfg, files[f].content))
  {
    assert files[..f + 1][..f] == files[..f];
  }

  lemma {:induction false} ChunkRecordsStep(cfg: Config, name: string, chunks: seq<string>, i: nat)
    requires i < |chunks|
    ensures forall d: seq<string> :: d + chunks[..i + 1] == (d + chunks[..i]) + [chunks[i]]
    ensures forall m: seq<ChunkMeta> ::
      m + ChunkRecords(cfg, name, chunks[..i + 1]) ==
        (m + ChunkRecords(cfg, name, chunks[..i])) + [ChunkMeta(name, i, Count(cfg, chunks[i]), |chunks[i]|)]
  {
    assert chunks[..i + 1][..i] == chunks[..i];
    assert chunks[..i + 1] == chunks[..i] + [chunks[i]];
  }

  /** The k-th record carries the token count and the length of the k-th
      document. */
  predicate Aligned(cfg: Config, documents: seq<string>, metadatas: seq<ChunkMeta>) {
    |metadatas| == |documents| &&
    forall k :: 0 <= k < |documents| ==>
      metadatas[k].tokenCount == Count(cfg, documents[k]) && metadatas[k].charLength == |documents[k]|
  }

  lemma {:induction false} AlignedAppend(cfg: Config, d1: seq<string>, m1: seq<ChunkMeta>, d2: seq<string>, m2: seq<ChunkMeta>)
    requires Aligned(cfg, d1, m1) && Aligned(cfg, d2, m2)
    ensures Aligned(cfg, d1 + d2, m1 + m2)
  {
    forall k | |d1| <= k < |d1| + |d2|
      ensures (m1 + m2)[k] == m2[k - |d1|] && (d1 + d2)[k] == d2[k - |d1|]
    {
    }
  }

  lemma {:induction false} ChunkRecordsAligned(cfg: Config, name: string, chunks: seq<string>)
    ensures Aligned(cfg, chunks, ChunkRecords(cfg, name, chunks))
  {
    forall k | 0 <= k < |chunks|
      ensures ChunkRecords(cfg, name, chunks)[k] == ChunkMeta(name, k, Count(cfg, chunks[k]), |chunks[k]|)
    {
      ChunkRecordsAt(cfg, name, chunks, k);
    }
  }

  /** Documents and metadata line up, one record per document. */
  lemma {:induction false} RecordsMatchDocuments(cfg: Config, files: seq<SourceFile>)
    ensures Aligned(cfg, Documents(cfg, files), Metadatas(cfg, files))
    decreases |files|
  {
    if files != [] {
      var init, f := files[..|files| - 1], files[|files| - 1];
      RecordsMatchDocuments(cfg, init);
      var chunks := SmartChunkSpec(cfg, f.content);
      ChunkRecordsAligned(cfg, f.filename, chunks);
      AlignedAppend(cfg, Documents(cfg, init), Metadatas(cfg, init), chunks, ChunkRecords(cfg, f.filename, chunks));
    }
  }
}
