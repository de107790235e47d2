/** The sentence splitter of the chunking engine: protect a fixed list of
    abbreviations, split after sentence-ending punctuation that is followed
    by whitespace and a capital letter, split again on blank lines, restore
    the protected dots and trim. Each regular expression of the program is a
    hand-written scanner over the text. */
module Splitter {
  import opened Text

  /** The abbreviations whose trailing dot must not end a sentence, in the
      order they are protected. */
  const Abbreviations: seq<string> :=
    ["Mr", "Mrs", "Ms", "Dr", "Prof", "Sr", "Jr", "Inc", "Ltd", "Corp",
     "vs", "etc", "i.e", "e.g", "a.m", "p.m", "Ph.D", "M.D",
     "Gov", "Sen", "Rep", "Pres", "VP", "CEO", "CFO"]

  /** The placeholder that stands in for a protected dot. */
  const Marker: string := "<DOT>"

  // ---------------------------------------------------------------------
  // Protection: re.sub(r'\b' + abbr + r'\.', abbr + '<DOT>', text, re.I)
  // ---------------------------------------------------------------------

  /** One pattern character against one text character: a '.' in the
      abbreviation is a regex wildcard (anything but a newline); a letter
      matches either case. */
  predicate PatternCharMatches(p: char, c: char) {
    if p == '.' then c != '\n' else LowerChar(c) == LowerChar(p)
  }

  /** The abbreviation's pattern matches t from position i on. */
  predicate PatternAt(t: string, abbr: string, i: nat)
    decreases abbr
  {
    abbr == [] ||
    (i < |t| && PatternCharMatches(abbr[0], t[i]) && PatternAt(t, abbr[1..], i + 1))
  }

  /** The protection pattern matches at i: a word boundary before i (every
      abbreviation starts with a letter, so this means i is 0 or follows a
      non-word character), the abbreviation, then a literal dot. */
  predicate AbbrAt(t: string, abbr: string, i: nat) {
    i + |abbr| < |t| && (i == 0 || !IsWordChar(t[i - 1])) &&
    PatternAt(t, abbr, i) && t[i + |abbr|] == '.'
  }

  /** re.sub from position i on: matches are replaced left to right and the
      scan resumes after each replaced match. The replacement is the
      abbreviation as listed, whatever the case of the matched text. */
  function ProtectFrom(t: string, abbr: string, i: nat): string
    requires i <= |t|
    decreases |t| - i
  {
    if i == |t| then []
    else if AbbrAt(t, abbr, i) then abbr + Marker + ProtectFrom(t, abbr, i + |abbr| + 1)
    else [t[i]] + ProtectFrom(t, abbr, i + 1)
  }

  function Protect(t: string, abbr: string): string {
    ProtectFrom(t, abbr, 0)
  }

  /** The abbreviations applied one after the other, in list order. */
  function ProtectAll(t: string, abbrs: seq<string>): string
    decreases |abbrs|
  {
    if abbrs == [] then t
    else Protect(ProtectAll(t, abbrs[..|abbrs| - 1]), abbrs[|abbrs| - 1])
  }

  // ---------------------------------------------------------------------
  // Sentence split: re.split(r'(?<=[.!?])\s+(?=[A-Z])', text)
  // ---------------------------------------------------------------------

  predicate IsTerminator(c: char) {
    c == '.' || c == '!' || c == '?'
  }

  /** The end of the whitespace run that starts at i. */
  function RunEnd(t: string, i: nat): (r: nat)
    requires i <= |t|
    ensures i <= r <= |t|
    ensures forall k :: i <= k < r ==> IsSpace(t[k])
    ensures r == |t| || !IsSpace(t[r])
    decreases |t| - i
  {
    if i == |t| || !IsSpace(t[i]) then i else RunEnd(t, i + 1)
  }

  /** The separator matches at i: a terminator before i, whitespace from i
      on, and an ASCII capital right after that whitespace. The greedy \s+
      can only succeed with the whole run, since a shorter run is followed
      by whitespace and not by a capital. */
  predicate BoundaryAt(t: string, i: nat) {
    1 <= i < |t| && IsTerminator(t[i - 1]) && IsSpace(t[i]) &&
    RunEnd(t, i) < |t| && IsUpperAscii(t[RunEnd(t, i)])
  }

  /** A piece of the text, from lo (inclusive) to hi (exclusive). */
  datatype Span = Span(lo: nat, hi: nat)

  predicate SpansIn(t: string, sp: seq<Span>) {
    forall k :: 0 <= k < |sp| ==> sp[k].lo <= sp[k].hi <= |t|
  }

  /** re.split with the sentence separator: the current piece started at
      start, the scan is at i. */
  function SentenceSpansFrom(t: string, start: nat, i: nat): (sp: seq<Span>)
    requires start <= i <= |t|
    ensures sp != [] && SpansIn(t, sp)
    decreases |t| - i
  {
    if i == |t| then [Span(start, |t|)]
    else if BoundaryAt(t, i) then [Span(start, i)] + SentenceSpansFrom(t, RunEnd(t, i), RunEnd(t, i))
    else SentenceSpansFrom(t, start, i + 1)
  }

  function SentenceSpans(t: string): (sp: seq<Span>)
    ensures sp != [] && SpansIn(t, sp)
  {
    SentenceSpansFrom(t, 0, 0)
  }

  /** The substrings of t that the spans delimit. */
  function Pieces(t: string, sp: seq<Span>): (r: seq<string>)
    requires SpansIn(t, sp)
    ensures |r| == |sp|
    ensures forall k :: 0 <= k < |sp| ==> r[k] == t[sp[k].lo..sp[k].hi]
  {
    seq(|sp|, k requires 0 <= k < |sp| => t[sp[k].lo..sp[k].hi])
  }

  function Sentences(t: string): seq<string> {
    Pieces(t, SentenceSpans(t))
  }

  // ---------------------------------------------------------------------
  // Paragraph split: re.split(r'\n\s*\n', sentence)
  // ---------------------------------------------------------------------

  /** The end of the last newline in t[lo..hi], if there is one. */
  function LastNewlineEnd(t: string, lo: nat, hi: nat): (r: Option<nat>)
    requires lo <= hi <= |t|
    ensures r.Some? ==> lo < r.value <= hi && t[r.value - 1] == '\n'
    ensures r.None? ==> forall k :: lo <= k < hi ==> t[k] != '\n'
    decreases hi
  {
    if hi == lo then None
    else if t[hi - 1] == '\n' then Some(hi)
    else LastNewlineEnd(t, lo, hi - 1)
  }

  /** Where the blank-line separator that starts at i ends, if it matches
      there: a newline, then the longest whitespace stretch that still ends
      in a newline. */
  function ParagraphMatchEnd(t: string, i: nat): (r: Option<nat>)
    requires i < |t|
    ensures r.Some? ==> t[i] == '\n' && i + 1 < r.value <= |t| && t[r.value - 1] == '\n'
  {
    if t[i] != '\n' then None else LastNewlineEnd(t, i + 1, RunEnd(t, i + 1))
  }

  function ParagraphSpansFrom(t: string, start: nat, i: nat): (sp: seq<Span>)
    requires start <= i <= |t|
    ensures sp != [] && SpansIn(t, sp)
    decreases |t| - i
  {
    if i == |t| then [Span(start, |t|)]
    else match ParagraphMatchEnd(t, i)
      case Some(e) => [Span(start, i)] + ParagraphSpansFrom(t, e, e)
      case None => ParagraphSpansFrom(t, start, i + 1)
  }

  function Paragraphs(s: string): seq<string> {
    Pieces(s, ParagraphSpansFrom(s, 0, 0))
  }

  // ---------------------------------------------------------------------
  // Assembly
  // ---------------------------------------------------------------------

  /** A kept part with its protected dots restored, trimmed. */
  function Restore(part: string): string {
    Strip(ReplaceAll(part, Marker, "."))
  }

  /** The parts that are not blank, restored, in order. */
  function Keep(parts: seq<string>): seq<string>
    decreases |parts|
  {
    if parts == [] then []
    else
      var last := parts[|parts| - 1];
      Keep(parts[..|parts| - 1]) + (if Strip(last) != [] then [Restore(last)] else [])
  }

  /** The kept parts of every sentence, sentence by sentence. */
  function Assemble(sentences: seq<string>): seq<string>
    decreases |sentences|
  {
    if sentences == [] then []
    else Assemble(sentences[..|sentences| - 1]) + Keep(Paragraphs(sentences[|sentences| - 1]))
  }

  /** What the splitter returns for text. */
  function SplitSpec(text: string): seq<string> {
    Assemble(Sentences(ProtectAll(text, Abbreviations)))
  }

  /** A piece the splitter may return: non-empty, trimmed, with no
      placeholder left in it. */
  predicate WellFormedPiece(p: string) {
    p != [] && Trimmed(p) && !Contains(p, Marker)
  }

  /** The splitter: protect every abbreviation in turn, split into
      sentences, split each sentence into paragraphs and keep the parts that
      are not blank, restored and trimmed. */
  method SplitSentences(text: string) returns (result: seq<string>)
    ensures result == SplitSpec(text)
    ensures forall k :: 0 <= k < |result| ==> WellFormedPiece(result[k])
  {
    var t := ProtectAbbreviations(text);
    var sentences := Sentences(t);
    result := [];
    for s := 0 to |sentences|
      invariant result == Assemble(sentences[..s])
    {
      var kept := KeepParts(Paragraphs(sentences[s]));
      AssembleStep(sentences, s);
      result := result + kept;
    }
    assert sentences[..|sentences|] == sentences;
    SplitSpecWellFormed(text);
  }

  /** The substitution loop: each abbreviation of the list, in order. */
  method ProtectAbbreviations(text: string) returns (t: string)
    ensures t == ProtectAll(text, Abbreviations)
  {
    t := text;
    for n := 0 to |Abbreviations|
      invariant t == ProtectAll(text, Abbreviations[..n])
    {
      ProtectAllStep(text, Abbreviations, n);
      t := Protect(t, Abbreviations[n]);
    }
    assert Abbreviations[..|Abbreviations|] == Abbreviations;
  }

  /** The inner loop over the paragraphs of one sentence. */
  method KeepParts(parts: seq<string>) returns (kept: seq<string>)
    ensures kept == Keep(parts)
  {
    kept := [];
    for p := 0 to |parts|
      invariant kept == Keep(parts[..p])
    {
      KeepStep(parts, p);
      if Strip(parts[p]) != [] {
        var restored := ReplaceAll(parts[p], Marker, ".");
        kept := kept + [Strip(restored)];
      }
    }
    assert parts[..|parts|] == parts;
  }

  lemma {:induction false} ProtectAllStep(text: string, abbrs: seq<string>, n: nat)
    requires n < |abbrs|
    ensures ProtectAll(text, abbrs[..n + 1]) == Protect(ProtectAll(text, abbrs[..n]), abbrs[n])
  {
    assert abbrs[..n + 1][..n] == abbrs[..n];
  }

  /** One more part: kept, restored and trimmed, when it is not blank. */
  lemma {:induction false} KeepStep(parts: seq<string>, p: nat)
    requires p < |parts|
    ensures Keep(parts[..p + 1]) ==
      Keep(parts[..p]) + (if Strip(parts[p]) != [] then [Strip(ReplaceAll(parts[p], Marker, "."))] else [])
  {
    assert parts[..p + 1][..p] == parts[..p];
  }

  lemma {:induction false} AssembleStep(sentences: seq<string>, s: nat)
    requires s < |sentences|
    ensures Assemble(sentences[..s + 1]) == Assemble(sentences[..s]) + Keep(Paragraphs(sentences[s]))
  {
    assert sentences[..s + 1][..s] == sentences[..s];
  }

  // ---------------------------------------------------------------------
  // Properties
  // ---------------------------------------------------------------------

  /** A part that is not blank restores to a well-formed piece. */
  lemma {:induction false} RestoreWellFormed(part: string)
    requires Strip(part) != []
    ensures WellFormedPiece(Restore(part))
  {
    RestoreNonEmpty(part);
    RestoreNoMarker(part);
    StripTrimmed(ReplaceAll(part, Marker, "."));
  }

  /** The restoration keeps a non-space character, so the trimmed result is
      not empty. */
  lemma {:induction false} RestoreNonEmpty(part: string)
    requires Strip(part) != []
    ensures Restore(part) != []
  {
    var k := LeadLen(part);
    StripShape(part);
    assert k < |part| && part[k] == Strip(part)[0];
    var j := ReplaceKeepsNonSpace(part, Marker, ".", k);
    StripNonEmpty(ReplaceAll(part, Marker, "."), j);
  }

  /** No placeholder is left after the restoration. */
  lemma {:induction false} RestoreNoMarker(part: string)
    ensures !Contains(Restore(part), Marker)
  {
    ReplaceRemovesAll(part, Marker, ".");
    StripKeepsAbsent(ReplaceAll(part, Marker, "."), Marker);
  }

  lemma {:induction false} KeepWellFormed(parts: seq<string>)
    ensures forall k :: 0 <= k < |Keep(parts)| ==> WellFormedPiece(Keep(parts)[k])
    decreases |parts|
  {
    if parts != [] {
      var last := parts[|parts| - 1];
      KeepWellFormed(parts[..|parts| - 1]);
      if Strip(last) != [] {
        RestoreWellFormed(last);
      }
    }
  }

  lemma {:induction false} AssembleWellFormed(sentences: seq<string>)
    ensures forall k :: 0 <= k < |Assemble(sentences)| ==> WellFormedPiece(Assemble(sentences)[k])
    decreases |sentences|
  {
    if sentences != [] {
      AssembleWellFormed(sentences[..|sentences| - 1]);
      KeepWellFormed(Paragraphs(sentences[|sentences| - 1]));
    }
  }

  /** Every piece the splitter returns is non-empty, equal to its own
      strip() and free of the placeholder. */
  lemma {:induction false} SplitSpecWellFormed(text: string)
    ensures forall k :: 0 <= k < |SplitSpec(text)| ==> WellFormedPiece(SplitSpec(text)[k])
  {
    AssembleWellFormed(Sentences(ProtectAll(text, Abbreviations)));
  }

  predicate NoBoundaryIn(t: string, lo: nat, hi: nat) {
    forall j :: lo <= j < hi ==> !BoundaryAt(t, j)
  }

  /** The shape of the sentence split from a scan position: the spans run
      from start to the end of the text, each ends at a separator or at the
      end, the next one starts where the separator's whitespace ends, and no
      separator lies inside a span. */
  lemma {:induction false} SentenceSpansFromShape(t: string, start: nat, i: nat)
    requires start <= i <= |t| && NoBoundaryIn(t, start, i)
    ensures SpansShape(t, start, SentenceSpansFrom(t, start, i))
    decreases |t| - i
  {
    if i < |t| {
      if BoundaryAt(t, i) {
        SentenceSpansFromBoundary(t, start, i);
      } else {
        SentenceSpansFromShape(t, start, i + 1);
      }
    }
  }

  /** Spans that run from start to the end of t, each ending at a separator
      or at the end, the next one starting where the separator's whitespace
      ends, with no separator inside a span. */
  predicate SpansShape(t: string, start: nat, sp: seq<Span>) {
    sp != [] && sp[0].lo == start && sp[|sp| - 1].hi == |t| &&
    (forall k :: 0 <= k < |sp| ==> NoBoundaryIn(t, sp[k].lo, sp[k].hi)) &&
    (forall k :: 0 <= k < |sp| - 1 ==> BoundaryAt(t, sp[k].hi) && sp[k + 1].lo == RunEnd(t, sp[k].hi))
  }

  /** The step of SentenceSpansFromShape at a separator. */
  lemma {:induction false} SentenceSpansFromBoundary(t: string, start: nat, i: nat)
    requires start <= i < |t| && NoBoundaryIn(t, start, i) && BoundaryAt(t, i)
    ensures SpansShape(t, start, SentenceSpansFrom(t, start, i))
    decreases |t| - i, 0
  {
    var e := RunEnd(t, i);
    SentenceSpansFromShape(t, e, e);
    var rest := SentenceSpansFrom(t, e, e);
    var sp := SentenceSpansFrom(t, start, i);
    assert sp == [Span(start, i)] + rest;
    forall k | 0 <= k < |sp| ensures NoBoundaryIn(t, sp[k].lo, sp[k].hi) {
      if k > 0 {
        assert sp[k] == rest[k - 1];
      }
    }
    forall k | 0 <= k < |sp| - 1 ensures BoundaryAt(t, sp[k].hi) && sp[k + 1].lo == RunEnd(t, sp[k].hi) {
      assert sp[k + 1] == rest[k];
      if k > 0 {
        assert sp[k] == rest[k - 1];
      }
    }
  }

  /** The sentence split exactly: the pieces cover the text in order, the
      text between two consecutive pieces is the whitespace of a separator
      (a terminator, whitespace, then an ASCII capital), and no such
      separator lies inside a piece. */
  lemma {:induction false} SentenceSplitExact(t: string)
    ensures var sp := SentenceSpans(t);
      sp[0].lo == 0 && sp[|sp| - 1].hi == |t| &&
      (forall k :: 0 <= k < |sp| ==> NoBoundaryIn(t, sp[k].lo, sp[k].hi)) &&
      (forall k :: 0 <= k < |sp| - 1 ==>
        BoundaryAt(t, sp[k].hi) && sp[k].hi < sp[k + 1].lo == RunEnd(t, sp[k].hi) &&
        AllSpace(t[sp[k].hi..sp[k + 1].lo]))
  {
    SentenceSpansFromShape(t, 0, 0);
  }

  /** No blank-line separator starts inside t[lo..hi]. */
  predicate NoParagraphMatchIn(t: string, lo: nat, hi: nat) {
    forall j :: lo <= j < hi && j < |t| ==> ParagraphMatchEnd(t, j).None?
  }

  /** Spans that run from start to the end of t, each ending where a
      separator starts, the next one starting where that separator ends,
      with no separator starting inside a span. */
  predicate ParagraphShape(t: string, start: nat, sp: seq<Span>) {
    sp != [] && sp[0].lo == start && sp[|sp| - 1].hi == |t| &&
    (forall k :: 0 <= k < |sp| ==> NoParagraphMatchIn(t, sp[k].lo, sp[k].hi)) &&
    (forall k :: 0 <= k < |sp| - 1 ==> sp[k].hi < |t| && ParagraphMatchEnd(t, sp[k].hi) == Some(sp[k + 1].lo))
  }

  /** The shape of the paragraph split from a scan position. */
  lemma {:induction false} ParagraphSpansFromShape(t: string, start: nat, i: nat)
    requires start <= i <= |t| && NoParagraphMatchIn(t, start, i)
    ensures ParagraphShape(t, start, ParagraphSpansFrom(t, start, i))
    decreases |t| - i
  {
    if i < |t| {
      match ParagraphMatchEnd(t, i)
      case Some(e) =>
        ParagraphSpansFromMatch(t, start, i, e);
      case None =>
        ParagraphSpansFromShape(t, start, i + 1);
    }
  }

  /** The step of ParagraphSpansFromShape at a separator ending at e. */
  lemma {:induction false} ParagraphSpansFromMatch(t: string, start: nat, i: nat, e: nat)
    requires start <= i < |t| && NoParagraphMatchIn(t, start, i) && ParagraphMatchEnd(t, i) == Some(e)
    ensures ParagraphShape(t, start, ParagraphSpansFrom(t, start, i))
    decreases |t| - i, 0
  {
    ParagraphSpansFromShape(t, e, e);
    var rest := ParagraphSpansFrom(t, e, e);
    var sp := ParagraphSpansFrom(t, start, i);
    assert sp == [Span(start, i)] + rest;
    forall k | 0 <= k < |sp| ensures NoParagraphMatchIn(t, sp[k].lo, sp[k].hi) {
      if k > 0 {
        assert sp[k] == rest[k - 1];
      }
    }
    forall k | 0 <= k < |sp| - 1 ensures sp[k].hi < |t| && ParagraphMatchEnd(t, sp[k].hi) == Some(sp[k + 1].lo) {
      assert sp[k + 1] == rest[k];
      if k > 0 {
        assert sp[k] == rest[k - 1];
      }
    }
  }

  /** t[lo..hi] is a blank-line separator: a newline, whitespace, a
      newline. */
  predicate BlankBetween(t: string, lo: nat, hi: nat) {
    lo + 1 < hi <= |t| && t[lo] == '\n' && t[hi - 1] == '\n' && AllSpace(t[lo..hi])
  }

  /** What one separator match covers. */
  lemma {:induction false} ParagraphSeparator(t: string, i: nat, e: nat)
    requires i < |t| && ParagraphMatchEnd(t, i) == Some(e)
    ensures BlankBetween(t, i, e)
  {
    var run := RunEnd(t, i + 1);
    assert LastNewlineEnd(t, i + 1, run) == Some(e);
    forall j | 0 <= j < e - i ensures IsSpace(t[i..e][j]) {
      assert t[i..e][j] == t[i + j];
      if j > 0 {
        assert i + 1 <= i + j < run;
      }
    }
  }

  /** The paragraph split exactly: the parts cover the sentence in order,
      the text between two consecutive parts is a blank-line separator, and
      no separator starts inside a part. */
  lemma {:induction false} ParagraphSplitExact(t: string)
    ensures var sp := ParagraphSpansFrom(t, 0, 0);
      ParagraphShape(t, 0, sp) &&
      forall k :: 0 <= k < |sp| - 1 ==> BlankBetween(t, sp[k].hi, sp[k + 1].lo)
  {
    ParagraphSpansFromShape(t, 0, 0);
    var sp := ParagraphSpansFrom(t, 0, 0);
    forall k | 0 <= k < |sp| - 1 ensures BlankBetween(t, sp[k].hi, sp[k + 1].lo) {
      ParagraphSeparator(t, sp[k].hi, sp[k + 1].lo);
    }
  }

  /** Text without a sentence terminator is one sentence. */
  lemma {:induction false} SentencesWithoutTerminator(t: string)
    requires forall k :: 0 <= k < |t| ==> !IsTerminator(t[k])
    ensures Sentences(t) == [t]
  {
    SentenceSpansFromShape(t, 0, 0);
    assert t[0..|t|] == t;
  }

  /** Without a newline the paragraph split finds nothing: the sentence is
      its only part. */
  lemma {:induction false} ParagraphSpansIdle(s: string, start: nat, i: nat)
    requires start <= i <= |s| && '\n' !in s
    ensures ParagraphSpansFrom(s, start, i) == [Span(start, |s|)]
    decreases |s| - i
  {
    if i < |s| {
      ParagraphSpansIdle(s, start, i + 1);
    }
  }

  lemma {:induction false} ParagraphsIdle(s: string)
    requires '\n' !in s
    ensures Paragraphs(s) == [s]
  {
    ParagraphSpansIdle(s, 0, 0);
    assert s[0..|s|] == s;
  }

  /** Protection brings in no character other than those of the text, the
      abbreviation and the placeholder. */
  lemma {:induction false} ProtectFromChars(t: string, abbr: string, i: nat)
    requires i <= |t|
    ensures forall c :: c in ProtectFrom(t, abbr, i) ==> c in t || c in abbr || c in Marker
    decreases |t| - i
  {
    if i < |t| {
      if AbbrAt(t, abbr, i) {
        ProtectFromChars(t, abbr, i + |abbr| + 1);
      } else {
        ProtectFromChars(t, abbr, i + 1);
      }
    }
  }

  lemma {:induction false} ProtectAllNoNewline(t: string, abbrs: seq<string>)
    requires '\n' !in t && forall k :: 0 <= k < |abbrs| ==> '\n' !in abbrs[k]
    ensures '\n' !in ProtectAll(t, abbrs)
    decreases |abbrs|
  {
    if abbrs != [] {
      ProtectAllNoNewline(t, abbrs[..|abbrs| - 1]);
      ProtectFromChars(ProtectAll(t, abbrs[..|abbrs| - 1]), abbrs[|abbrs| - 1], 0);
    }
  }

  /** When every sentence is its own only paragraph, assembling is keeping. */
  lemma {:induction false} AssembleWithoutParagraphs(sentences: seq<string>)
    requires forall k :: 0 <= k < |sentences| ==> Paragraphs(sentences[k]) == [sentences[k]]
    ensures Assemble(sentences) == Keep(sentences)
    decreases |sentences|
  {
    if sentences != [] {
      var init, last := sentences[..|sentences| - 1], sentences[|sentences| - 1];
      AssembleWithoutParagraphs(init);
      assert Keep([last]) == (if Strip(last) != [] then [Restore(last)] else []) by {
        assert [last][..0] == [];
      }
    }
  }

  /** No abbreviation contains a newline. */
  lemma {:induction false} AbbreviationsWithoutNewline()
    ensures forall k :: 0 <= k < |Abbreviations| ==> '\n' !in Abbreviations[k]
  {
  }

  /** Every sentence of a text without a newline is its own only paragraph. */
  lemma {:induction false} SentencesAreParagraphs(t: string)
    requires '\n' !in t
    ensures forall k :: 0 <= k < |Sentences(t)| ==> Paragraphs(Sentences(t)[k]) == [Sentences(t)[k]]
  {
    var sp := SentenceSpans(t);
    forall k | 0 <= k < |sp| ensures Paragraphs(Sentences(t)[k]) == [Sentences(t)[k]] {
      var piece := t[sp[k].lo..sp[k].hi];
      assert forall c :: c in piece ==> c in t;
      ParagraphsIdle(piece);
    }
  }

  /** The blank-line split never fires on text without a newline, which is
      all text the cleaner produces: the splitter then only keeps the
      non-blank sentences, restored and trimmed. */
  lemma {:induction false} ParagraphSplitDead(text: string)
    requires '\n' !in text
    ensures SplitSpec(text) == Keep(Sentences(ProtectAll(text, Abbreviations)))
  {
    AbbreviationsWithoutNewline();
    ProtectAllNoNewline(text, Abbreviations);
    SentencesAreParagraphs(ProtectAll(text, Abbreviations));
    AssembleWithoutParagraphs(Sentences(ProtectAll(text, Abbreviations)));
  }

  /** Protection needs a dot after the abbreviation: text without a dot is
      left alone. */
  lemma {:induction false} ProtectFromWithoutDot(t: string, abbr: string, i: nat)
    requires i <= |t| && '.' !in t
    ensures ProtectFrom(t, abbr, i) == t[i..]
    decreases |t| - i
  {
    if i < |t| {
      assert !AbbrAt(t, abbr, i) by {
        if i + |abbr| < |t| {
          assert t[i + |abbr|] in t;
        }
      }
      ProtectFromWithoutDot(t, abbr, i + 1);
      assert t[i..] == [t[i]] + t[i + 1..];
    }
  }

  lemma {:induction false} ProtectAllWithoutDot(t: string, abbrs: seq<string>)
    requires '.' !in t
    ensures ProtectAll(t, abbrs) == t
    decreases |abbrs|
  {
    if abbrs != [] {
      ProtectAllWithoutDot(t, abbrs[..|abbrs| - 1]);
      ProtectFromWithoutDot(t, abbrs[|abbrs| - 1], 0);
    }
  }

  /** Applying a list of abbreviations is applying its first one, then the
      rest. */
  lemma {:induction false} ProtectAllFirst(t: string, abbrs: seq<string>)
    requires abbrs != []
    ensures ProtectAll(t, abbrs) == ProtectAll(Protect(t, abbrs[0]), abbrs[1..])
    decreases |abbrs|
  {
    if |abbrs| > 1 {
      var init := abbrs[..|abbrs| - 1];
      ProtectAllFirst(t, init);
      assert init[1..] == abbrs[1..][..|abbrs[1..]| - 1];
    }
  }
}
