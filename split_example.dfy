/** Worked examples of the sentence splitter: a protected title comes back
    in the list's spelling, and on mixed Filipino/English text the titles
    "Dr." and "Mr." are protected, so only the three sentence ends split.
    The example texts are built from short pieces so that each step can be
    checked character by character. */
module SplitExample {
  import opened Text
  import opened Splitter

  /** What follows each title. */
  const Rest1: string := " Reyes works at sea."
  const Rest2: string := " Cruz is an OFW in Dubai."

  const Sentence1: string := "Dr" + "." + Rest1
  const Sentence2: string := "Mr" + "." + Rest2
  const Sentence3: string := "Pamilya niya ay masaya."

  /** The first two sentences with their titles protected. */
  const Piece1: string := "Dr" + Marker + Rest1
  const Piece2: string := "Mr" + Marker + Rest2

  /** The text, after "Mr" is protected, and after "Dr" is protected too. */
  const Example: string := Sentence1 + " " + Sentence2 + " " + Sentence3
  const AfterMr: string := Sentence1 + " " + Piece2 + " " + Sentence3
  const Protected: string := Piece1 + " " + Piece2 + " " + Sentence3

  /** Replacing the middle part b of a + b + c by r. */
  lemma {:induction false} Splice(t: string, a: string, b: string, c: string, r: string)
    requires t == a + b + c
    ensures t[..|a|] + r + t[|a| + |b|..] == a + r + c
  {
    assert t[..|a|] == a;
    assert t[|a| + |b|..] == c;
  }

  /** Regrouping a text of three sentences around the title of the second. */
  lemma {:induction false} Regroup(s1: string, title: string, dot: string, r2: string, s3: string)
    ensures s1 + " " + (title + dot + r2) + " " + s3 == (s1 + " ") + (title + dot) + (r2 + " " + s3)
  {
  }

  /** The substitution copies a stretch of text where the pattern never
      matches. */
  lemma {:induction false} ProtectSkip(t: string, abbr: string, i: nat, e: nat)
    requires i <= e <= |t|
    requires forall j :: i <= j < e ==> !AbbrAt(t, abbr, j)
    ensures ProtectFrom(t, abbr, i) == t[i..e] + ProtectFrom(t, abbr, e)
    decreases e - i
  {
    if i < e {
      ProtectSkip(t, abbr, i + 1, e);
      var rest := ProtectFrom(t, abbr, e);
      assert !AbbrAt(t, abbr, i);
      assert ProtectFrom(t, abbr, i) == [t[i]] + ProtectFrom(t, abbr, i + 1);
      assert t[i..e] == [t[i]] + t[i + 1..e];
      assert [t[i]] + (t[i + 1..e] + rest) == ([t[i]] + t[i + 1..e]) + rest;
    }
  }

  lemma {:induction false} ProtectNoMatch(t: string, abbr: string)
    requires forall j :: 0 <= j < |t| ==> !AbbrAt(t, abbr, j)
    ensures Protect(t, abbr) == t
  {
    ProtectSkip(t, abbr, 0, |t|);
    assert t[0..|t|] == t;
  }

  /** The pattern of abbr matches t at m and nowhere else. */
  ghost predicate OnlyMatchAt(t: string, abbr: string, m: nat) {
    AbbrAt(t, abbr, m) && forall j :: 0 <= j < |t| && j != m ==> !AbbrAt(t, abbr, j)
  }

  /** A pattern that matches exactly once is replaced there and nowhere
      else. */
  lemma {:induction false} ProtectOneMatch(t: string, abbr: string, m: nat)
    requires OnlyMatchAt(t, abbr, m)
    ensures Protect(t, abbr) == t[..m] + abbr + Marker + t[m + |abbr| + 1..]
  {
    var e := m + |abbr| + 1;
    ProtectSkip(t, abbr, 0, m);
    ProtectFromMatch(t, abbr, m);
    assert t[0..m] == t[..m];
    Regroup4(t[..m], abbr, Marker, t[e..]);
  }

  /** From the only match on, the match is replaced and the rest copied. */
  lemma {:induction false} ProtectFromMatch(t: string, abbr: string, m: nat)
    requires OnlyMatchAt(t, abbr, m)
    ensures ProtectFrom(t, abbr, m) == abbr + Marker + t[m + |abbr| + 1..]
  {
    var e := m + |abbr| + 1;
    assert ProtectFrom(t, abbr, m) == abbr + Marker + ProtectFrom(t, abbr, e);
    ProtectSkip(t, abbr, e, |t|);
    assert t[e..|t|] + [] == t[e..];
  }

  lemma {:induction false} Regroup4(a: string, b: string, c: string, d: string)
    ensures a + (b + c + d) == a + b + c + d
  {
  }

  /** A list of abbreviations none of which matches leaves the text alone. */
  lemma {:induction false} ProtectAllIdle(t: string, abbrs: seq<string>)
    requires forall k :: 0 <= k < |abbrs| ==> Protect(t, abbrs[k]) == t
    ensures ProtectAll(t, abbrs) == t
    decreases |abbrs|
  {
    if abbrs != [] {
      ProtectAllIdle(t, abbrs[..|abbrs| - 1]);
    }
  }

  /** Protecting with a list is protecting with its first n entries, then
      with the rest. */
  lemma {:induction false} ProtectAllSplit(t: string, abbrs: seq<string>, n: nat)
    requires n <= |abbrs|
    ensures ProtectAll(t, abbrs) == ProtectAll(ProtectAll(t, abbrs[..n]), abbrs[n..])
    decreases |abbrs|
  {
    if n == |abbrs| {
      assert abbrs[..n] == abbrs;
    } else {
      var init := abbrs[..|abbrs| - 1];
      ProtectAllSplit(t, init, n);
      assert init[..n] == abbrs[..n];
      assert abbrs[n..][..|abbrs[n..]| - 1] == init[n..];
    }
  }

  lemma {:induction false} AbbreviationLengths()
    ensures forall n :: 0 <= n < |Abbreviations| ==> 2 <= |Abbreviations[n]| <= 4
  {
  }

  /** Where the dots of the example text are. */
  lemma {:induction false} ExampleDots()
    ensures forall k :: 0 <= k < |Example| && Example[k] == '.' ==> k == 2 || k == 22 || k == 26 || k == 51 || k == 75
  {
  }

  lemma {:induction false} MrOnlyAt24()
    ensures OnlyMatchAt(Example, "Mr", 24)
  {
    ExampleDots();
    forall j | 0 <= j < |Example| && j != 24 ensures !AbbrAt(Example, "Mr", j) {
      if j + 2 < |Example| && Example[j + 2] == '.' {
        assert j == 0 || j == 20 || j == 49 || j == 73;
      }
    }
  }

  /** "Mr" (first in the list) matches only the title of the second
      sentence. */
  lemma {:induction false} ProtectMr()
    ensures Protect(Example, "Mr") == AfterMr
  {
    ProtectMrAt24();
    SpliceMr();
  }

  lemma {:induction false} ProtectMrAt24()
    ensures Protect(Example, "Mr") == Example[..24] + "Mr" + Marker + Example[27..]
  {
    MrOnlyAt24();
    ProtectOneMatch(Example, "Mr", 24);
  }

  lemma {:induction false} SpliceMr()
    ensures Example[..24] + "Mr" + Marker + Example[27..] == AfterMr
  {
    var a := Sentence1 + " ";
    var c := Rest2 + " " + Sentence3;
    Regroup(Sentence1, "Mr", ".", Rest2, Sentence3);
    Regroup(Sentence1, "Mr", Marker, Rest2, Sentence3);
    Splice(Example, a, "Mr" + ".", c, "Mr" + Marker);
  }

  lemma {:induction false} AfterMrDots()
    ensures forall k :: 0 <= k < |AfterMr| && AfterMr[k] == '.' ==> k == 2 || k == 22 || k == 55 || k == 79
  {
  }

  /** "Mrs" and "Ms" match nowhere. */
  lemma {:induction false} ProtectMrsMs()
    ensures Protect(AfterMr, "Mrs") == AfterMr && Protect(AfterMr, "Ms") == AfterMr
  {
    AfterMrDots();
    forall j | 0 <= j < |AfterMr| ensures !AbbrAt(AfterMr, "Mrs", j) && !AbbrAt(AfterMr, "Ms", j) {
      if j + 2 < |AfterMr| && AfterMr[j + 2] == '.' {
        assert j == 0 || j == 20 || j == 53 || j == 77;
      }
      if j + 3 < |AfterMr| && AfterMr[j + 3] == '.' {
        assert j == 19 || j == 52 || j == 76;
      }
    }
    ProtectNoMatch(AfterMr, "Mrs");
    ProtectNoMatch(AfterMr, "Ms");
  }

  lemma {:induction false} DrOnlyAt0()
    ensures OnlyMatchAt(AfterMr, "Dr", 0)
  {
    AfterMrDots();
    forall j | 0 <= j < |AfterMr| && j != 0 ensures !AbbrAt(AfterMr, "Dr", j) {
      if j + 2 < |AfterMr| && AfterMr[j + 2] == '.' {
        assert j == 20 || j == 53 || j == 77;
      }
    }
  }

  /** "Dr" matches only at the start of the text. */
  lemma {:induction false} ProtectDr()
    ensures Protect(AfterMr, "Dr") == Protected
  {
    ProtectDrAt0();
    var c := Rest1 + " " + Piece2 + " " + Sentence3;
    Front("Dr", ".", Rest1, Piece2, Sentence3);
    Front("Dr", Marker, Rest1, Piece2, Sentence3);
    assert AfterMr[3..] == c;
  }

  /** Regrouping a text of three sentences after the title of the first. */
  lemma {:induction false} Front(title: string, dot: string, r1: string, p2: string, s3: string)
    ensures title + dot + r1 + " " + p2 + " " + s3 == (title + dot) + (r1 + " " + p2 + " " + s3)
  {
  }

  lemma {:induction false} ProtectDrAt0()
    ensures Protect(AfterMr, "Dr") == AfterMr[..0] + "Dr" + Marker + AfterMr[3..]
  {
    DrOnlyAt0();
    ProtectOneMatch(AfterMr, "Dr", 0);
  }

  lemma {:induction false} ProtectedDots()
    ensures forall k :: 0 <= k < |Protected| && Protected[k] == '.' ==> k == 26 || k == 59 || k == 83
  {
    ProtectedTerminators();
  }

  /** No abbreviation after "Dr" in the list matches: every dot left ends a
      word that is preceded by a letter or, for "sea", is no abbreviation. */
  lemma {:induction false} IdleOnProtected(n: nat)
    requires 4 <= n < |Abbreviations|
    ensures Protect(Protected, Abbreviations[n]) == Protected
  {
    var a := Abbreviations[n];
    AbbreviationLengths();
    ProtectedDots();
    forall j | 0 <= j < |Protected| ensures !AbbrAt(Protected, a, j) {
      if j + |a| < |Protected| && Protected[j + |a|] == '.' {
        if j == 23 {
          SeaIsNoAbbreviation(n);
        } else {
          WordBeforeDot(j, |a|);
        }
      }
    }
    ProtectNoMatch(Protected, a);
  }

  /** Before every dot of the protected text, a title of two to four letters
      would start right after a letter, except "sea" before the first. */
  lemma {:induction false} WordBeforeDot(j: nat, len: nat)
    requires 2 <= len <= 4 && j != 23
    requires j + len == 26 || j + len == 59 || j + len == 83
    ensures 1 <= j && IsWordChar(Protected[j - 1])
  {
  }

  /** "sea" is none of the three-letter abbreviations. */
  lemma {:induction false} SeaIsNoAbbreviation(n: nat)
    requires 4 <= n < |Abbreviations|
    ensures !PatternAt(Protected, Abbreviations[n], 23)
  {
    assert Protected[23] == 's' && Protected[24] == 'e' && Protected[25] == 'a';
  }

  /** The whole protection pass over the example. */
  lemma {:induction false} ProtectInput()
    ensures ProtectAll(Example, Abbreviations) == Protected
  {
    var abbrs := Abbreviations;
    ProtectAllSplit(Example, abbrs, 4);
    var first := abbrs[..4];
    assert first == ["Mr", "Mrs", "Ms", "Dr"];
    ProtectMr();
    ProtectMrsMs();
    ProtectDr();
    assert ProtectAll(Example, ["Mr"]) == AfterMr by {
      assert ["Mr"][..0] == [];
    }
    assert ProtectAll(Example, ["Mr", "Mrs"]) == AfterMr by {
      assert ["Mr", "Mrs"][..1] == ["Mr"];
    }
    assert ProtectAll(Example, ["Mr", "Mrs", "Ms"]) == AfterMr by {
      assert ["Mr", "Mrs", "Ms"][..2] == ["Mr", "Mrs"];
    }
    assert ProtectAll(Example, first) == Protected by {
      assert first[..3] == ["Mr", "Mrs", "Ms"];
    }
    var rest := abbrs[4..];
    forall k | 0 <= k < |rest| ensures Protect(Protected, rest[k]) == Protected {
      IdleOnProtected(k + 4);
    }
    ProtectAllIdle(Protected, rest);
  }

  /** The sentence scan passes over a stretch without a separator. */
  lemma {:induction false} SpansSkip(t: string, start: nat, i: nat, e: nat)
    requires start <= i <= e <= |t|
    requires forall j :: i <= j < e ==> !BoundaryAt(t, j)
    ensures SentenceSpansFrom(t, start, i) == SentenceSpansFrom(t, start, e)
    decreases e - i
  {
    if i < e {
      SpansSkip(t, start, i + 1, e);
    }
  }

  /** A piece whose only terminator is its last character. */
  ghost predicate EndsOnlyAtLast(s: string) {
    forall k :: 0 <= k < |s| && IsTerminator(s[k]) ==> k == |s| - 1
  }

  lemma {:induction false} PiecesEndOnlyAtLast()
    ensures EndsOnlyAtLast(Piece1) && EndsOnlyAtLast(Piece2) && EndsOnlyAtLast(Sentence3)
  {
    Piece1EndsOnlyAtLast();
    Piece2EndsOnlyAtLast();
    Sentence3EndsOnlyAtLast();
  }

  lemma {:induction false} Piece1EndsOnlyAtLast()
    ensures EndsOnlyAtLast(Piece1)
  {
  }

  lemma {:induction false} Piece2EndsOnlyAtLast()
    ensures EndsOnlyAtLast(Piece2)
  {
  }

  lemma {:induction false} Sentence3EndsOnlyAtLast()
    ensures EndsOnlyAtLast(Sentence3)
  {
  }

  lemma {:induction false} ProtectedTerminators()
    ensures forall k :: 0 <= k < |Protected| && IsTerminator(Protected[k]) ==> k == 26 || k == 59 || k == 83
  {
    PiecesEndOnlyAtLast();
    forall k | 0 <= k < |Protected| && IsTerminator(Protected[k]) ensures k == 26 || k == 59 || k == 83 {
      if k < 27 {
        assert Protected[k] == Piece1[k];
      } else if 28 <= k < 60 {
        assert Protected[k] == Piece2[k - 28];
      } else if 61 <= k {
        assert Protected[k] == Sentence3[k - 61];
      }
    }
  }

  /** The separators of the protected text: after "sea." and after "Dubai.",
      each followed by one space and a capital. */
  lemma {:induction false} ProtectedBoundaries()
    ensures BoundaryAt(Protected, 27) && RunEnd(Protected, 27) == 28
    ensures BoundaryAt(Protected, 60) && RunEnd(Protected, 60) == 61
    ensures forall j :: 0 <= j < |Protected| && j != 27 && j != 60 ==> !BoundaryAt(Protected, j)
  {
    ProtectedTerminators();
    assert RunEnd(Protected, 28) == 28;
    assert RunEnd(Protected, 61) == 61;
  }

  lemma {:induction false} ProtectedSentences()
    ensures Sentences(Protected) == [Piece1, Piece2, Sentence3]
  {
    ProtectedSpans();
    ProtectedSlices();
  }

  lemma {:induction false} ProtectedSpans()
    ensures SentenceSpans(Protected) == [Span(0, 27), Span(28, 60), Span(61, 84)]
  {
    ProtectedBoundaries();
    SpansSkip(Protected, 0, 0, 27);
    SpansSkip(Protected, 28, 28, 60);
    SpansSkip(Protected, 61, 61, |Protected|);
  }

  lemma {:induction false} ProtectedSlices()
    ensures Protected[0..27] == Piece1 && Protected[28..60] == Piece2 && Protected[61..84] == Sentence3
  {
  }

  /** str.replace copies a prefix that does not contain the pattern's first
      character. */
  lemma {:induction false} ReplaceSkip(x: string, y: string, pat: string, rep: string)
    requires pat != [] && pat[0] !in x
    ensures ReplaceAll(x + y, pat, rep) == x + ReplaceAll(y, pat, rep)
  {
    if x == [] {
      assert x + y == y;
    } else {
      assert !OccursAt(x + y, pat, 0) by {
        assert (x + y)[0] == x[0];
      }
      assert (x + y)[1..] == x[1..] + y;
      ReplaceSkip(x[1..], y, pat, rep);
      assert x + ReplaceAll(y, pat, rep) == [x[0]] + (x[1..] + ReplaceAll(y, pat, rep));
    }
  }

  /** A protected title has its dot back after the restoration. */
  lemma {:induction false} RestoreProtected(abbr: string, rest: string)
    requires '<' !in abbr && '<' !in rest && abbr != [] && !IsSpace(abbr[0])
    requires rest != [] && !IsSpace(rest[|rest| - 1])
    ensures Strip(abbr + Marker + rest) != []
    ensures Restore(abbr + Marker + rest) == abbr + "." + rest
  {
    ReplaceSkip(abbr, Marker + rest, Marker, ".");
    assert OccursAt(Marker + rest, Marker, 0);
    assert (Marker + rest)[|Marker|..] == rest;
    ReplaceSkip(rest, [], Marker, ".");
    assert rest + [] == rest;
    var r := abbr + "." + rest;
    assert ReplaceAll(abbr + Marker + rest, Marker, ".") == r by {
      assert abbr + Marker + rest == abbr + (Marker + rest);
    }
    StripFixedIffTrimmed(r);
    StripNonEmpty(abbr + Marker + rest, 0);
  }

  /** A trimmed sentence without a placeholder is restored to itself. */
  lemma {:induction false} RestorePlain(s: string)
    requires '<' !in s && s != [] && !IsSpace(s[0]) && !IsSpace(s[|s| - 1])
    ensures Strip(s) != [] && Restore(s) == s
  {
    ReplaceSkip(s, [], Marker, ".");
    assert s + [] == s;
    StripFixedIffTrimmed(s);
  }

  /** One more part that is not blank is kept, restored. */
  lemma {:induction false} KeepSnoc(parts: seq<string>, x: string)
    requires Strip(x) != []
    ensures Keep(parts + [x]) == Keep(parts) + [Restore(x)]
  {
    assert (parts + [x])[..|parts|] == parts;
  }

  /** Three parts that are not blank are all kept, restored. */
  lemma {:induction false} Keep3(a: string, b: string, c: string)
    requires Strip(a) != [] && Strip(b) != [] && Strip(c) != []
    ensures Keep([a, b, c]) == [Restore(a), Restore(b), Restore(c)]
  {
    KeepSnoc([], a);
    assert [] + [a] == [a];
    KeepSnoc([a], b);
    assert [a] + [b] == [a, b];
    KeepSnoc([a, b], c);
    assert [a, b] + [c] == [a, b, c];
  }

  /** Splitting "Dr. Reyes works at sea. Mr. Cruz is an OFW in Dubai.
      Pamilya niya ay masaya." gives exactly its three sentences: the
      abbreviations' dots do not end a sentence, the sentence ends do. */
  lemma {:induction false} ThreeSentences()
    ensures SplitSpec(Sentence1 + " " + Sentence2 + " " + Sentence3) == [Sentence1, Sentence2, Sentence3]
  {
    ParagraphSplitDead(Example);
    ProtectInput();
    ProtectedSentences();
    RestoreExample();
    Keep3(Piece1, Piece2, Sentence3);
  }

  lemma {:induction false} RestoreExample()
    ensures Strip(Piece1) != [] && Restore(Piece1) == Sentence1
    ensures Strip(Piece2) != [] && Restore(Piece2) == Sentence2
    ensures Strip(Sentence3) != [] && Restore(Sentence3) == Sentence3
  {
    RestoreFirst();
    RestoreSecond();
    RestoreThird();
  }

  lemma {:induction false} RestoreFirst()
    ensures Strip(Piece1) != [] && Restore(Piece1) == Sentence1
  {
    assert '<' !in Rest1 && !IsSpace(Rest1[|Rest1| - 1]);
    RestoreProtected("Dr", Rest1);
  }

  lemma {:induction false} RestoreSecond()
    ensures Strip(Piece2) != [] && Restore(Piece2) == Sentence2
  {
    assert '<' !in Rest2 && !IsSpace(Rest2[|Rest2| - 1]);
    RestoreProtected("Mr", Rest2);
  }

  lemma {:induction false} RestoreThird()
    ensures Strip(Sentence3) != [] && Restore(Sentence3) == Sentence3
  {
    assert '<' !in Sentence3 && !IsSpace(Sentence3[0]) && !IsSpace(Sentence3[|Sentence3| - 1]);
    RestorePlain(Sentence3);
  }

  /** A protected abbreviation comes back in the list's spelling: "MR. X" is
      one sentence, "Mr. X". */
  lemma {:induction false} ProtectedSpelling()
    ensures SplitSpec("MR. X") == ["Mr. X"]
  {
    var t := "Mr<DOT> X";
    ProtectAllUpperMr();
    SentencesUpperMr();
    ParagraphsIdle(t);
    KeepUpperMr();
  }

  lemma {:induction false} SentencesUpperMr()
    ensures Sentences("Mr<DOT> X") == ["Mr<DOT> X"]
  {
    var t := "Mr<DOT> X";
    NoTerminatorUpperMr();
    SentencesWithoutTerminator(t);
  }

  lemma {:induction false} NoTerminatorUpperMr()
    ensures forall k :: 0 <= k < |"Mr<DOT> X"| ==> !IsTerminator("Mr<DOT> X"[k])
  {
  }

  lemma {:induction false} ProtectAllUpperMr()
    ensures ProtectAll("MR. X", Abbreviations) == "Mr<DOT> X"
  {
    ProtectUpperMr();
    ProtectAllFirst("MR. X", Abbreviations);
    ProtectAllWithoutDot("Mr<DOT> X", Abbreviations[1..]);
  }

  lemma {:induction false} KeepUpperMr()
    ensures Keep(["Mr<DOT> X"]) == ["Mr. X"]
  {
    var t := "Mr<DOT> X";
    RestoreUpperMr();
    assert [t][..0] == [];
  }

  lemma {:induction false} ProtectUpperMr()
    ensures Protect("MR. X", "Mr") == "Mr<DOT> X"
  {
    var t := "MR. X";
    assert AbbrAt(t, "Mr", 0);
    forall j | 0 <= j < |t| && j != 0 ensures !AbbrAt(t, "Mr", j) {
      assert j + 2 < |t| ==> t[j + 2] != '.';
    }
    ProtectOneMatch(t, "Mr", 0);
    assert t[..0] == [] && t[3..] == " X";
  }

  lemma {:induction false} RestoreUpperMr()
    ensures Strip("Mr<DOT> X") != [] && Restore("Mr<DOT> X") == "Mr. X"
  {
    assert "Mr<DOT> X" == "Mr" + Marker + " X";
    RestoreProtected("Mr", " X");
  }

  // ---------------------------------------------------------------------
  // The unescaped dot of a dotted abbreviation is a wildcard
  // ---------------------------------------------------------------------

  const Mad: string := "mad. She"
  const MadProtected: string := "M.D" + Marker + " She"

  /** "mad." matches the pattern of "M.D." (the inner dot matches the 'a',
      the letters match in either case), so the word is rewritten to "M.D."
      and the sentence boundary after it, which the splitter would otherwise
      take, is lost: "mad. She" comes back as the single piece "M.D. She". */
  lemma {:induction false} WildcardSwallowsWord()
    ensures BoundaryAt(Mad, 4)
    ensures SplitSpec(Mad) == ["M.D. She"]
  {
    assert RunEnd(Mad, 5) == 5;
    assert RunEnd(Mad, 4) == 5;
    ProtectAllMad();
    SentencesMadProtected();
    ParagraphsIdle(MadProtected);
    KeepMadProtected();
    assert [MadProtected][..0] == [];
    assert Assemble([MadProtected]) == Assemble([]) + Keep(Paragraphs(MadProtected));
  }

  lemma {:induction false} ProtectAllMad()
    ensures ProtectAll(Mad, Abbreviations) == MadProtected
  {
    var a := Abbreviations;
    ProtectAllSplit(Mad, a, 17);
    forall k | 0 <= k < |a[..17]| ensures Protect(Mad, a[..17][k]) == Mad {
      MadIdleBefore(k);
    }
    ProtectAllIdle(Mad, a[..17]);
    ProtectAllFirst(Mad, a[17..]);
    assert a[17..][0] == "M.D" && a[17..][1..] == a[18..];
    ProtectMad();
    forall k | 0 <= k < |a[18..]| ensures Protect(MadProtected, a[18..][k]) == MadProtected {
      ProtectedIdleAfter(k + 18);
    }
    ProtectAllIdle(MadProtected, a[18..]);
  }

  /** Before "M.D" in the list, no abbreviation matches "mad. She": a match
      must end just before the only dot, at 3, and only the three-letter
      ones can start at the word boundary 0. */
  lemma {:induction false} MadIdleBefore(n: nat)
    requires n < 17
    ensures Protect(Mad, Abbreviations[n]) == Mad
  {
    var a := Abbreviations[n];
    AbbreviationLengths();
    forall j | 0 <= j < |Mad| ensures !AbbrAt(Mad, a, j) {
      if j == 0 && |a| == 3 {
        assert !PatternAt(Mad, a, 0);
      } else {
        assert j + |a| < |Mad| ==> Mad[j + |a|] != '.' || (j > 0 && IsWordChar(Mad[j - 1]));
      }
    }
    ProtectNoMatch(Mad, a);
  }

  /** "M.D" matches "mad." at 0 and nowhere else. */
  lemma {:induction false} ProtectMad()
    ensures Protect(Mad, "M.D") == MadProtected
  {
    assert AbbrAt(Mad, "M.D", 0);
    forall j | 0 <= j < |Mad| && j != 0 ensures !AbbrAt(Mad, "M.D", j) {
      assert j + 3 < |Mad| ==> Mad[j + 3] != '.';
    }
    ProtectOneMatch(Mad, "M.D", 0);
    assert Mad[..0] == [] && Mad[4..] == " She";
  }

  /** After "M.D", the remaining abbreviations find no dot to end on: the
      only dot left is at position 1. */
  lemma {:induction false} ProtectedIdleAfter(n: nat)
    requires 18 <= n < |Abbreviations|
    ensures Protect(MadProtected, Abbreviations[n]) == MadProtected
  {
    var a := Abbreviations[n];
    AbbreviationLengths();
    forall j | 0 <= j < |MadProtected| ensures !AbbrAt(MadProtected, a, j) {
      assert j + |a| < |MadProtected| ==> MadProtected[j + |a|] != '.';
    }
    ProtectNoMatch(MadProtected, a);
  }

  /** The protected text has no sentence boundary: its only terminator is
      not followed by whitespace. */
  lemma {:induction false} SentencesMadProtected()
    ensures Sentences(MadProtected) == [MadProtected]
  {
    var t := MadProtected;
    forall j | 0 <= j < |t| ensures !BoundaryAt(t, j) {
      if j >= 1 && IsTerminator(t[j - 1]) {
        assert j == 2;
      }
    }
    SpansSkip(t, 0, 0, |t|);
    assert t[0..|t|] == t;
  }

  lemma {:induction false} KeepMadProtected()
    ensures Keep([MadProtected]) == ["M.D. She"]
  {
    RestoreMadProtected();
    assert [MadProtected][..0] == [];
  }

  lemma {:induction false} RestoreMadProtected()
    ensures Strip(MadProtected) != [] && Restore(MadProtected) == "M.D. She"
  {
    RestoreProtected("M.D", " She");
  }
}
