/** What `normalizeHandLabel` promises, proved about its specification
    `HandLabel.Normalize`. */
module HandLabelProperties {
  import opened Wrappers
  import Text
  import opened HandLabel

  // ---- the permissive scan, declaratively --------------------------------

  predicate NoRankIn(s: string, i: nat, j: nat) {
    forall k :: i <= k < j && k < |s| ==> !IsRank(s[k])
  }

  /** The suit the scan records for a rank at position `p`, if any. */
  function SuitAfter(s: string, p: nat): seq<char> {
    if p + 1 < |s| && IsSuitLetter(s[p + 1]) then [Text.UpperChar(s[p + 1])] else []
  }

  lemma SuitIsNoRank(c: char)
    requires IsSuitLetter(c)
    ensures !IsRank(c)
  {
  }

  /** Characters that are not ranks, suits included, are passed over. */
  lemma {:induction false} SkipNonRanks(s: string, i: nat, j: nat, ranks: seq<char>, suits: seq<char>)
    requires i <= j <= |s| && NoRankIn(s, i, j)
    requires |ranks| < 2 && forall k :: 0 <= k < |ranks| ==> IsRank(ranks[k])
    ensures ScanFrom(s, i, ranks, suits) == ScanFrom(s, j, ranks, suits)
    decreases j - i
  {
    if i < j {
      SkipNonRanks(s, i + 1, j, ranks, suits);
    }
  }

  /** Where the scan goes on after a rank at `p`: past its suit, if any. */
  function NextAfter(s: string, p: nat): nat {
    if SuitAfter(s, p) != [] then p + 2 else p + 1
  }

  /** One step of the scan at a rank character. */
  lemma ScanAtRank(s: string, p: nat, ranks: seq<char>, suits: seq<char>)
    requires p < |s| && IsRank(s[p])
    requires |ranks| < 2 && forall k :: 0 <= k < |ranks| ==> IsRank(ranks[k])
    ensures NextAfter(s, p) <= |s|
    ensures |ranks| == 1 ==>
      ScanFrom(s, p, ranks, suits) == (ranks + [s[p]], suits + SuitAfter(s, p))
    ensures |ranks| == 0 ==>
      ScanFrom(s, p, ranks, suits) == ScanFrom(s, NextAfter(s, p), ranks + [s[p]], suits + SuitAfter(s, p))
  {
    if SuitAfter(s, p) == [] {
      assert suits + SuitAfter(s, p) == suits;
    }
  }

  /** The scan up to and past the first rank, at `p`. */
  lemma ScanToFirst(s: string, p: nat)
    requires p < |s| && IsRank(s[p]) && NoRankIn(s, 0, p)
    ensures NextAfter(s, p) <= |s|
    ensures Scan(s) == ScanFrom(s, NextAfter(s, p), [s[p]], SuitAfter(s, p))
  {
    SkipNonRanks(s, 0, p, [], []);
    ScanAtRank(s, p, [], []);
    assert [] + [s[p]] == [s[p]] && [] + SuitAfter(s, p) == SuitAfter(s, p);
  }

  /** The scan keeps the first two rank characters of the text, in order,
      and for each the suit letter right after it, if there is one. */
  lemma ScanFirstTwo(s: string, p: nat, q: nat)
    requires p < q < |s| && IsRank(s[p]) && IsRank(s[q])
    requires NoRankIn(s, 0, p) && NoRankIn(s, p + 1, q)
    ensures Scan(s) == ([s[p], s[q]], SuitAfter(s, p) + SuitAfter(s, q))
  {
    ScanToFirst(s, p);
    if SuitAfter(s, p) != [] {
      SuitIsNoRank(s[p + 1]);
    }
    assert NextAfter(s, p) <= q;
    SkipNonRanks(s, NextAfter(s, p), q, [s[p]], SuitAfter(s, p));
    ScanAtRank(s, q, [s[p]], SuitAfter(s, p));
    assert [s[p]] + [s[q]] == [s[p], s[q]];
  }

  /** The position of the first rank at or after `i`, or `|s|`. */
  function FirstRankFrom(s: string, i: nat): (p: nat)
    requires i <= |s|
    ensures i <= p <= |s| && NoRankIn(s, i, p)
    ensures p < |s| ==> IsRank(s[p])
    decreases |s| - i
  {
    if i == |s| then i else if IsRank(s[i]) then i else FirstRankFrom(s, i + 1)
  }

  predicate HasTwoRanks(s: string) {
    exists p, q :: 0 <= p < q < |s| && IsRank(s[p]) && IsRank(s[q])
  }

  /** The scan extracts two ranks exactly when the text holds two. */
  lemma ScanTwoIff(s: string)
    ensures |Scan(s).0| == 2 <==> HasTwoRanks(s)
  {
    var p := FirstRankFrom(s, 0);
    if p == |s| {
      SkipNonRanks(s, 0, |s|, [], []);
      assert !HasTwoRanks(s);
    } else {
      var q := FirstRankFrom(s, p + 1);
      if q < |s| {
        ScanFirstTwo(s, p, q);
      } else {
        SkipNonRanks(s, 0, p, [], []);
        ScanAtRank(s, p, [], []);
        assert [] + [s[p]] == [s[p]];
        SkipNonRanks(s, NextAfter(s, p), |s|, [s[p]], [] + SuitAfter(s, p));
        assert !HasTwoRanks(s) by {
          forall a, b | 0 <= a < b < |s| && IsRank(s[a]) ensures !IsRank(s[b]) {
            assert a >= p;
          }
        }
      }
    }
  }

  // ---- the three input forms ---------------------------------------------

  /** Full two-card text: the label says `S` exactly when the suits agree. */
  lemma FullCardForm(hand: string)
    requires hand != "" && MatchesFullCards(Compact(hand))
    ensures var s := Compact(hand);
      Normalize(hand) == Success(LabelOf(s[0], s[2], s[1] == s[3]))
  {
    var s := Compact(hand);
    UpperOfCompact(hand, 0);
    UpperOfCompact(hand, 1);
    UpperOfCompact(hand, 2);
    UpperOfCompact(hand, 3);
    PairOrLabelIsLabel(s[0], s[2], s[1] == s[3]);
  }

  /** Shorthand text: suited only with an explicit `S`, offsuit otherwise. */
  lemma ShorthandForm(hand: string)
    requires hand != "" && !MatchesFullCards(Compact(hand)) && MatchesShorthand(Compact(hand))
    ensures var s := Compact(hand);
      Normalize(hand) == Success(LabelOf(s[0], s[1], |s| == 3 && s[2] == 'S'))
  {
    var s := Compact(hand);
    UpperOfCompact(hand, 0);
    UpperOfCompact(hand, 1);
    if |s| == 3 {
      UpperOfCompact(hand, 2);
    }
    PairOrLabelIsLabel(s[0], s[1], |s| == 3 && s[2] == 'S');
  }

  /** Text no strict recogniser accepts goes to the scan. */
  lemma ScanBranch(hand: string, s: string)
    requires hand != "" && Compact(hand) == s
    requires !MatchesFullCards(s) && !MatchesShorthand(s)
    ensures |Scan(s).0| == 2 ==> (Normalize(hand) ==
      PairOrLabel(Scan(s).0[0], Scan(s).0[1], |Scan(s).1| == 2 && Scan(s).1[0] == Scan(s).1[1]))
    ensures |Scan(s).0| != 2 ==> Normalize(hand) == Failure(Unrecognized(hand))
  {
  }

  /** The suitedness the scan reports for two ranks at `p` and `q`. */
  lemma ScanSuited(s: string, p: nat, q: nat)
    requires p < q < |s| && IsRank(s[p]) && IsRank(s[q])
    requires NoRankIn(s, 0, p) && NoRankIn(s, p + 1, q)
    ensures |Scan(s).0| == 2 && Scan(s).0[0] == s[p] && Scan(s).0[1] == s[q]
    ensures (|Scan(s).1| == 2 && Scan(s).1[0] == Scan(s).1[1])
      <==> (SuitAfter(s, p) != [] && SuitAfter(s, p) == SuitAfter(s, q))
  {
    ScanFirstTwo(s, p, q);
    var suits := SuitAfter(s, p) + SuitAfter(s, q);
    assert (|suits| == 2 && suits[0] == suits[1])
      <==> (SuitAfter(s, p) != [] && SuitAfter(s, p) == SuitAfter(s, q));
  }

  /** Other text: the first two ranks, suited only when both carry the same
      suit letter. */
  lemma ScanForm(hand: string, p: nat, q: nat)
    requires hand != ""
    requires !MatchesFullCards(Compact(hand)) && !MatchesShorthand(Compact(hand))
    requires var s := Compact(hand);
      p < q < |s| && IsRank(s[p]) && IsRank(s[q]) && NoRankIn(s, 0, p) && NoRankIn(s, p + 1, q)
    ensures var s := Compact(hand);
      Normalize(hand) == Success(LabelOf(s[p], s[q],
        SuitAfter(s, p) != [] && SuitAfter(s, p) == SuitAfter(s, q)))
  {
    RecognizeScan(hand, Compact(hand), p, q);
  }

  lemma RecognizeScan(hand: string, s: string, p: nat, q: nat)
    requires !MatchesFullCards(s) && !MatchesShorthand(s)
    requires p < q < |s| && IsRank(s[p]) && IsRank(s[q]) && NoRankIn(s, 0, p) && NoRankIn(s, p + 1, q)
    ensures Recognize(hand, s) == Success(LabelOf(s[p], s[q],
        SuitAfter(s, p) != [] && SuitAfter(s, p) == SuitAfter(s, q)))
  {
    ScanSuited(s, p, q);
    var suited := SuitAfter(s, p) != [] && SuitAfter(s, p) == SuitAfter(s, q);
    PairOrLabelIsLabel(s[p], s[q], suited);
  }

  /** Only empty text is refused as empty. */
  lemma EmptyHandIff(hand: string)
    ensures Normalize(hand) == Failure(EmptyHand) <==> hand == ""
  {
    if hand != "" {
      RecognizeNeverEmpty(hand, Compact(hand));
    }
  }

  lemma RecognizeNeverEmpty(hand: string, s: string)
    ensures Recognize(hand, s) != Failure(EmptyHand)
  {
  }

  /** The text fails exactly when it is empty, or when no recogniser applies
      and it does not hold two ranks. */
  lemma NormalizeFailsIff(hand: string)
    ensures Normalize(hand).Failure? <==>
      hand == "" || (!MatchesFullCards(Compact(hand)) && !MatchesShorthand(Compact(hand))
                     && !HasTwoRanks(Compact(hand)))
  {
    NormalizeShape(hand);
    if hand != "" {
      var s := Compact(hand);
      ScanTwoIff(s);
      if !MatchesFullCards(s) && !MatchesShorthand(s) {
        ScanBranch(hand, s);
      }
    }
  }

  // ---- order independence and idempotence -------------------------------

  predicate NoWhitespace(h: string) {
    forall i :: 0 <= i < |h| ==> !Text.IsWhitespace(h[i])
  }

  lemma {:induction false} RemoveWhitespaceOfNone(h: string)
    requires NoWhitespace(h)
    ensures Text.RemoveWhitespace(h) == h
  {
    if h != [] {
      RemoveWhitespaceOfNone(h[1..]);
    }
  }

  /** Text without white space is only upper-cased. */
  lemma CompactOfNoWhitespace(h: string)
    requires NoWhitespace(h)
    ensures Compact(h) == Text.UpperAscii(h)
  {
    Text.TrimOfTrimmed(h);
    RemoveWhitespaceOfNone(h);
  }

  /** Upper-case ranks with `S` and `O`, the alphabet of labels. */
  predicate IsPlain(h: string) {
    forall i :: 0 <= i < |h| ==> IsRank(h[i]) || h[i] == 'S' || h[i] == 'O'
  }

  lemma PlainChar(c: char)
    requires IsRank(c) || c == 'S' || c == 'O'
    ensures !Text.IsWhitespace(c) && Text.UpperChar(c) == c
  {
  }

  lemma PlainHasNoWhitespace(h: string)
    requires IsPlain(h)
    ensures NoWhitespace(h)
  {
    forall i | 0 <= i < |h| ensures !Text.IsWhitespace(h[i]) {
      PlainChar(h[i]);
    }
  }

  lemma PlainIsUpper(h: string)
    requires IsPlain(h)
    ensures Text.UpperAscii(h) == h
  {
    forall i | 0 <= i < |h| ensures Text.UpperAscii(h)[i] == h[i] {
      PlainChar(h[i]);
    }
  }

  /** Text of upper-case ranks, `S` and `O` is its own compact form. */
  lemma CompactOfPlain(h: string)
    requires IsPlain(h)
    ensures Compact(h) == h
  {
    PlainHasNoWhitespace(h);
    PlainIsUpper(h);
    CompactOfNoWhitespace(h);
  }

  /** Two ranks and an optional `S` or `O`, all upper-case. */
  predicate IsPlainShorthand(h: string) {
    (|h| == 2 || (|h| == 3 && (h[2] == 'S' || h[2] == 'O'))) && IsRank(h[0]) && IsRank(h[1])
  }

  /** Text that compacts to plain shorthand is the label of its two ranks. */
  lemma PlainShorthand(hand: string)
    requires hand != "" && IsPlainShorthand(Compact(hand))
    ensures var s := Compact(hand);
      Normalize(hand) == Success(LabelOf(s[0], s[1], |s| == 3 && s[2] == 'S'))
  {
    var s := Compact(hand);
    PlainChar(s[0]);
    PlainChar(s[1]);
    ShorthandForm(hand);
  }

  lemma PlainShorthandIsPlain(h: string)
    requires IsPlainShorthand(h)
    ensures IsPlain(h)
  {
  }

  /** "KAs" and "AKs" name the same hand: the order of the ranks in
      shorthand does not matter. */
  lemma RankOrderIrrelevant(a: char, b: char, suffix: string)
    requires IsRank(a) && IsRank(b) && (suffix == "" || suffix == "S" || suffix == "O")
    ensures Normalize([a, b] + suffix) == Normalize([b, a] + suffix)
  {
    var h1, h2 := [a, b] + suffix, [b, a] + suffix;
    assert h1[0] == a && h1[1] == b && h2[0] == b && h2[1] == a;
    assert |h1| == |h2| && (|h1| == 3 ==> h1[2] == h2[2] && (h1[2] == 'S' <==> suffix == "S"));
    PlainLabel(h1);
    PlainLabel(h2);
    LabelOfSymmetric(a, b, suffix == "S");
  }

  /** Plain shorthand is the label of its two ranks. */
  lemma PlainLabel(h: string)
    requires IsPlainShorthand(h)
    ensures Normalize(h) == Success(LabelOf(h[0], h[1], |h| == 3 && h[2] == 'S'))
  {
    PlainShorthandIsPlain(h);
    CompactOfPlain(h);
    PlainShorthand(h);
  }

  /** A canonical label is the label of its own two ranks. */
  lemma LabelOfCanonical(l: string)
    requires IsCanonicalLabel(l)
    ensures LabelOf(l[0], l[1], |l| == 3 && l[2] == 'S') == l
  {
  }

  /** A canonical label is its own normal form. */
  lemma CanonicalIsFixed(l: string)
    requires IsCanonicalLabel(l)
    ensures Normalize(l) == Success(l)
  {
    PlainShorthandIsPlain(l);
    CompactOfPlain(l);
    PlainShorthand(l);
    LabelOfCanonical(l);
  }

  /** `normalize(normalize(x)) == normalize(x)`. */
  lemma NormalizeIdempotent(hand: string)
    requires Normalize(hand).Success?
    ensures Normalize(Normalize(hand).value) == Normalize(hand)
  {
    NormalizeShape(hand);
    CanonicalIsFixed(Normalize(hand).value);
  }

  // ---- the repository's test cases ---------------------------------------

  /** Shorthand with its compact form named, so that examples need not
      unfold `Compact`. */
  lemma ShorthandOf(hand: string, s: string, l: string)
    requires hand != "" && Compact(hand) == s && IsPlainShorthand(s)
    requires LabelOf(s[0], s[1], |s| == 3 && s[2] == 'S') == l
    ensures Normalize(hand) == Success(l)
  {
    PlainShorthand(hand);
  }

  lemma FullCardsOf(hand: string, s: string, l: string)
    requires hand != "" && Compact(hand) == s && MatchesFullCards(s)
    requires IsRank(s[0]) && IsRank(s[2]) && LabelOf(s[0], s[2], s[1] == s[3]) == l
    ensures Normalize(hand) == Success(l)
  {
    FullCardForm(hand);
  }

  lemma UnrecognizedOf(hand: string, s: string)
    requires hand != "" && Compact(hand) == s
    requires !MatchesFullCards(s) && !MatchesShorthand(s) && !HasTwoRanks(s)
    ensures Normalize(hand) == Failure(Unrecognized(hand))
  {
    ScanTwoIff(s);
    ScanBranch(hand, s);
  }

  /** The compact form of a word without white space. */
  lemma CompactOfWord(h: string, u: string)
    requires NoWhitespace(h) && Text.UpperAscii(h) == u
    ensures Compact(h) == u
  {
    CompactOfNoWhitespace(h);
  }

  lemma CompactFullOffsuit()
    ensures Compact("AhKs") == "AHKS"
  {
    CompactOfWord("AhKs", "AHKS");
  }

  lemma CompactFullSuited()
    ensures Compact("AsKs") == "ASKS"
  {
    CompactOfWord("AsKs", "ASKS");
  }

  lemma CompactFullPair()
    ensures Compact("TsTh") == "TSTH"
  {
    CompactOfWord("TsTh", "TSTH");
  }

  lemma CompactShorthandSuited()
    ensures Compact("AKs") == "AKS"
  {
    CompactOfWord("AKs", "AKS");
  }

  lemma CompactLowerCase()
    ensures Compact("a5s") == "A5S"
  {
    CompactOfWord("a5s", "A5S");
  }

  lemma CompactReversed()
    ensures Compact("KAs") == "KAS"
  {
    CompactOfWord("KAs", "KAS");
  }

  lemma UpperTen()
    ensures Text.UpperAscii("10s") == "10S"
  {
    assert Text.UpperAscii("s") == "S";
    assert Text.UpperAscii("0s") == "0S";
  }

  lemma CompactTen()
    ensures Compact("10s") == "10S"
  {
    UpperTen();
    CompactOfWord("10s", "10S");
  }

  /** Neither '1' nor '0' is a rank. */
  lemma TenHasNoRank()
    ensures !IsRank("10S"[0]) && !IsRank("10S"[1])
  {
    assert "10S"[0] == '1' && "10S"[1] == '0';
  }

  /** "10S" is neither form and holds no two ranks. */
  lemma TenFacts()
    ensures Compact("10s") == "10S"
    ensures !MatchesFullCards("10S") && !MatchesShorthand("10S") && !HasTwoRanks("10S")
  {
    CompactTen();
    TenHasNoRank();
    FirstTwoNoRank("10S");
  }

  /** Three characters of which the first two are not ranks hold at most
      one rank. */
  lemma FirstTwoNoRank(s: string)
    requires |s| == 3 && !IsRank(s[0]) && !IsRank(s[1])
    ensures !HasTwoRanks(s)
  {
    assert forall p :: 0 <= p < 2 ==> !IsRank(s[p]);
  }

  lemma ExampleFullOffsuit()
    ensures Normalize("AhKs") == Success("AKO")
  {
    CompactFullOffsuit();
    FullCardsOf("AhKs", "AHKS", "AKO");
  }

  lemma ExampleFullSuited()
    ensures Normalize("AsKs") == Success("AKS")
  {
    CompactFullSuited();
    FullCardsOf("AsKs", "ASKS", "AKS");
  }

  lemma ExampleFullPair()
    ensures Normalize("TsTh") == Success("TT")
  {
    CompactFullPair();
    FullCardsOf("TsTh", "TSTH", "TT");
  }

  lemma ExampleShorthandSuited()
    ensures Normalize("AKs") == Success("AKS")
  {
    CompactShorthandSuited();
    ShorthandOf("AKs", "AKS", "AKS");
  }

  lemma ExampleLowerCase()
    ensures Normalize("a5s") == Success("A5S")
  {
    CompactLowerCase();
    ShorthandOf("a5s", "A5S", "A5S");
  }

  lemma ExampleReversed()
    ensures Normalize("KAs") == Success("AKS")
  {
    CompactReversed();
    ShorthandOf("KAs", "KAS", "AKS");
  }

  lemma CompactUnsuffixed()
    ensures Compact("AK") == "AK"
  {
    CompactOfWord("AK", "AK");
  }

  lemma ExampleUnsuffixed()
    ensures Normalize("AK") == Success("AKO")
  {
    CompactUnsuffixed();
    ShorthandOf("AK", "AK", "AKO");
  }

  lemma ExamplePair()
    ensures Normalize("AA") == Success("AA")
  {
    CanonicalIsFixed("AA");
  }

  lemma RemoveSpaces()
    ensures Text.RemoveWhitespace("a k s") == "aks"
  {
    assert Text.RemoveWhitespace("s") == "s";
    assert Text.RemoveWhitespace(" s") == "s";
    assert Text.RemoveWhitespace("k s") == "ks";
    assert Text.RemoveWhitespace(" k s") == "ks";
  }

  lemma SpacedIsTrimmed()
    ensures Text.IsTrimmed("a k s")
  {
    assert "a k s"[0] == 'a' && "a k s"[4] == 's';
  }

  lemma TrimSpaced()
    ensures Text.Trim("a k s") == "a k s"
  {
    SpacedIsTrimmed();
    Text.TrimOfTrimmed("a k s");
  }

  lemma UpperAks()
    ensures Text.UpperAscii("aks") == "AKS"
  {
    assert Text.UpperAscii("s") == "S";
    assert Text.UpperAscii("ks") == "KS";
  }

  lemma CompactSpaced()
    ensures Compact("a k s") == "AKS"
  {
    TrimSpaced();
    RemoveSpaces();
    UpperAks();
  }

  lemma ExampleSpaced()
    ensures Normalize("a k s") == Success("AKS")
  {
    CompactSpaced();
    ShorthandOf("a k s", "AKS", "AKS");
  }

  /** "10" is not read as a ten: no rank list or pattern holds '1' or '0'. */
  lemma TenIsNotARank()
    ensures Normalize("10s") == Failure(Unrecognized("10s"))
  {
    TenFacts();
    UnrecognizedOf("10s", "10S");
  }
}
