/** Hand-label normalisation of the backend (`normalizeHandLabel`): free text
    such as "AhKs", "AKs", "a k s" or "AA" becomes a canonical label, either a
    pocket pair ("AA") or two distinct ranks, the higher first, followed by
    `S` (suited) or `O` (offsuit). */
module HandLabel {
  import opened Wrappers
  import Text

  /** The rank list of the source, from highest to lowest. */
  const Ranks: string := "AKQJT98765432"

  predicate IsRank(c: char) {
    c == 'A' || c == 'K' || c == 'Q' || c == 'J' || c == 'T' || c == '9' || c == '8'
    || c == '7' || c == '6' || c == '5' || c == '4' || c == '3' || c == '2'
  }

  /** The class `[CDHS]` under the `i` flag. */
  predicate IsSuitLetter(c: char) {
    c == 'C' || c == 'D' || c == 'H' || c == 'S' || c == 'c' || c == 'd' || c == 'h' || c == 's'
  }

  /** The class `[AKQJT2-9]` under the `i` flag. */
  predicate IsRankLetter(c: char) {
    IsRank(Text.UpperChar(c))
  }

  /** `ranks.indexOf(c)`, with `None` for -1. */
  function RankIndex(c: char): (r: Option<nat>)
    ensures r.Some? <==> IsRank(c)
    ensures r.Some? ==> r.value < |Ranks| && Ranks[r.value] == c
  {
    if c == 'A' then Some(0) else if c == 'K' then Some(1) else if c == 'Q' then Some(2)
    else if c == 'J' then Some(3) else if c == 'T' then Some(4) else if c == '9' then Some(5)
    else if c == '8' then Some(6) else if c == '7' then Some(7) else if c == '6' then Some(8)
    else if c == '5' then Some(9) else if c == '4' then Some(10) else if c == '3' then Some(11)
    else if c == '2' then Some(12) else None
  }

  /** `a` is strictly higher than `b`. */
  predicate Outranks(a: char, b: char)
    requires IsRank(a) && IsRank(b)
  {
    RankIndex(a).value < RankIndex(b).value
  }

  datatype HandError =
    | EmptyHand                     // "hand doit être une chaîne non vide"
    | InvalidRank(a: char, b: char) // thrown by orderRanks
    | Unrecognized(hand: string)    // "Format de main non reconnu"

  /** `orderRanks`: the two ranks, higher first; throws on a non-rank. */
  function OrderRanks(a: char, b: char): (r: Result<(char, char), HandError>)
    ensures r.Success? <==> IsRank(a) && IsRank(b)
    ensures r.Success? ==> r.value == (a, b) || r.value == (b, a)
    ensures r.Success? ==> RankIndex(r.value.0).value <= RankIndex(r.value.1).value
    ensures r.Failure? ==> r.error == InvalidRank(a, b)
  {
    var ai := RankIndex(a);
    var bi := RankIndex(b);
    if ai.None? || bi.None? then Failure(InvalidRank(a, b))
    else if ai.value <= bi.value then Success((a, b))
    else Success((b, a))
  }

  // ---- what a label is --------------------------------------------------

  /** A pocket pair without suffix, or two distinct ranks, higher first,
      followed by exactly `S` or `O`. */
  predicate IsCanonicalLabel(l: string) {
    (|l| == 2 && IsRank(l[0]) && l[0] == l[1])
    || (|l| == 3 && IsRank(l[0]) && IsRank(l[1]) && Outranks(l[0], l[1])
        && (l[2] == 'S' || l[2] == 'O'))
  }

  /** The label of two ranks, independent of their order. */
  function LabelOf(a: char, b: char, suited: bool): (l: string)
    requires IsRank(a) && IsRank(b)
    ensures IsCanonicalLabel(l)
    ensures a == b ==> l == [a, a]
    ensures a != b ==> |l| == 3 && (l[2] == 'S' <==> suited)
    ensures l[0] == a || l[0] == b
  {
    var sfx := if suited then 'S' else 'O';
    if a == b then [a, b]
    else if Outranks(a, b) then [a, b, sfx]
    else
      assert RankIndex(a).value != RankIndex(b).value;
      [b, a, sfx]
  }

  lemma LabelOfSymmetric(a: char, b: char, suited: bool)
    requires IsRank(a) && IsRank(b)
    ensures LabelOf(a, b, suited) == LabelOf(b, a, suited)
  {
    if a != b {
      assert RankIndex(a).value != RankIndex(b).value;
    }
  }

  /** The label built from `orderRanks` is the order-independent label. */
  lemma OrderedLabel(a: char, b: char, suited: bool)
    requires IsRank(a) && IsRank(b) && a != b
    ensures var o := OrderRanks(a, b).value;
      [o.0, o.1, if suited then 'S' else 'O'] == LabelOf(a, b, suited)
  {
    var i, j := RankIndex(a).value, RankIndex(b).value;
    assert Ranks[i] == a && Ranks[j] == b;
    assert i != j;
    var o := OrderRanks(a, b).value;
    if i < j {
      assert o == (a, b);
    } else {
      assert o == (b, a);
    }
  }

  // ---- the three recognisers ---------------------------------------------

  /** `raw.replace(/\s+/g, "").toUpperCase()` after `trim`. */
  function Compact(hand: string): (s: string)
    ensures Text.NoLowerAscii(s)
    ensures forall i :: 0 <= i < |s| ==> !Text.IsWhitespace(s[i])
  {
    var t := Text.RemoveWhitespace(Text.Trim(hand));
    Text.UpperAsciiIdempotent(t);
    assert forall i :: 0 <= i < |t| ==> !Text.IsWhitespace(Text.UpperChar(t[i])) by {
      forall i | 0 <= i < |t| ensures !Text.IsWhitespace(Text.UpperChar(t[i])) {
        Text.UpperKeepsWhitespace(t[i]);
      }
    }
    Text.UpperAscii(t)
  }

  /** `/^([AKQJT2-9])([CDHS])([AKQJT2-9])([CDHS])$/i` */
  predicate MatchesFullCards(s: string) {
    |s| == 4 && IsRankLetter(s[0]) && IsSuitLetter(s[1]) && IsRankLetter(s[2]) && IsSuitLetter(s[3])
  }

  /** `/^([AKQJT2-9])([AKQJT2-9])(S|O)?$/i` */
  predicate MatchesShorthand(s: string) {
    (|s| == 2 || |s| == 3) && IsRankLetter(s[0]) && IsRankLetter(s[1])
    && (|s| == 3 ==> Text.UpperChar(s[2]) == 'S' || Text.UpperChar(s[2]) == 'O')
  }

  /** The permissive scan, step by step as the loop runs it: collect a rank,
      take the next character along as its suit when it is a suit letter
      (skipping it), stop after the second rank. */
  function ScanFrom(s: string, i: nat, ranks: seq<char>, suits: seq<char>): (r: (seq<char>, seq<char>))
    requires |ranks| < 2 && forall k :: 0 <= k < |ranks| ==> IsRank(ranks[k])
    ensures |r.0| <= 2 && forall k :: 0 <= k < |r.0| ==> IsRank(r.0[k])
    decreases |s| - i
  {
    if i >= |s| then (ranks, suits)
    else if IsRank(s[i]) then
      var ranks' := ranks + [s[i]];
      var hasSuit := i + 1 < |s| && IsSuitLetter(s[i + 1]);
      var suits' := if hasSuit then suits + [Text.UpperChar(s[i + 1])] else suits;
      var next := if hasSuit then i + 2 else i + 1;
      if |ranks'| == 2 then (ranks', suits') else ScanFrom(s, next, ranks', suits')
    else ScanFrom(s, i + 1, ranks, suits)
  }

  function Scan(s: string): (seq<char>, seq<char>) {
    ScanFrom(s, 0, [], [])
  }

  /** The tail shared by the three recognisers: a pair, or `orderRanks`
      followed by the suitedness letter. */
  function PairOrLabel(r1: char, r2: char, suited: bool): (r: Result<string, HandError>)
    ensures r.Failure? <==> !(IsRank(r1) && IsRank(r2)) && r1 != r2
    ensures r.Failure? ==> r.error == InvalidRank(r1, r2)
  {
    if r1 == r2 then Success([r1, r2])
    else
      var o :- OrderRanks(r1, r2);
      Success([o.0, o.1, if suited then 'S' else 'O'])
  }

  /** The specification of `normalizeHandLabel`. */
  function Normalize(hand: string): Result<string, HandError> {
    if hand == "" then Failure(EmptyHand) else Recognize(hand, Compact(hand))
  }

  /** The recognisers in order on the compact text `s` of `hand`. */
  function Recognize(hand: string, s: string): Result<string, HandError> {
    if MatchesFullCards(s) then
      PairOrLabel(Text.UpperChar(s[0]), Text.UpperChar(s[2]), Text.UpperChar(s[1]) == Text.UpperChar(s[3]))
    else if MatchesShorthand(s) then
      // the suffix letter is `S`, `O` or absent; only `S` is suited
      var suf := if |s| == 3 then [Text.UpperChar(s[2])] else [];
      PairOrLabel(Text.UpperChar(s[0]), Text.UpperChar(s[1]), suf == "S")
    else
      var (ranks, suits) := Scan(s);
      if |ranks| == 2 then PairOrLabel(ranks[0], ranks[1], |suits| == 2 && suits[0] == suits[1])
      else Failure(Unrecognized(hand))
  }

  /** The permissive scan of `normalizeHandLabel` (its `for` loop). */
  method ScanCards(s: string) returns (extractedRanks: seq<char>, extractedSuits: seq<char>)
    ensures (extractedRanks, extractedSuits) == Scan(s)
  {
    extractedRanks, extractedSuits := [], [];
    var i := 0;
    while i < |s|
      invariant 0 <= i <= |s| && |extractedRanks| < 2
      invariant forall k :: 0 <= k < |extractedRanks| ==> IsRank(extractedRanks[k])
      invariant Scan(s) == ScanFrom(s, i, extractedRanks, extractedSuits)
      decreases |s| - i
    {
      var ch := s[i];
      if IsRank(ch) {
        extractedRanks := extractedRanks + [ch];
        if i + 1 < |s| && IsSuitLetter(s[i + 1]) {
          extractedSuits := extractedSuits + [Text.UpperChar(s[i + 1])];
          i := i + 1;
        }
        if |extractedRanks| == 2 {
          break;
        }
      }
      i := i + 1;
    }
  }

  /** `normalizeHandLabel` as written: the recognisers in order, then the
      scan. */
  method NormalizeHandLabel(hand: string) returns (r: Result<string, HandError>)
    ensures r == Normalize(hand)
    ensures r.Success? ==> IsCanonicalLabel(r.value)
  {
    NormalizeShape(hand);
    if hand == "" {
      return Failure(EmptyHand);
    }
    var s := Compact(hand);
    if MatchesFullCards(s) {
      var r1, r2 := Text.UpperChar(s[0]), Text.UpperChar(s[2]);
      var su1, su2 := Text.UpperChar(s[1]), Text.UpperChar(s[3]);
      if r1 == r2 {
        return Success([r1, r2]);
      }
      var o := OrderRanks(r1, r2);
      assert o.Success?; // both are ranks, so orderRanks does not throw
      var suited := if su1 == su2 then 'S' else 'O';
      return Success([o.value.0, o.value.1, suited]);
    }
    if MatchesShorthand(s) {
      var r1, r2 := Text.UpperChar(s[0]), Text.UpperChar(s[1]);
      var suf := if |s| == 3 then [Text.UpperChar(s[2])] else [];
      if r1 == r2 {
        return Success([r1, r2]);
      }
      var o := OrderRanks(r1, r2);
      assert o.Success?; // both are ranks, so orderRanks does not throw
      var suited := if suf == "S" then 'S' else if suf == "O" then 'O' else 'O';
      return Success([o.value.0, o.value.1, suited]);
    }
    var extractedRanks, extractedSuits := ScanCards(s);
    if |extractedRanks| == 2 {
      var r1, r2 := extractedRanks[0], extractedRanks[1];
      if r1 == r2 {
        return Success([r1, r2]);
      }
      var o := OrderRanks(r1, r2);
      assert o.Success?; // both are ranks, so orderRanks does not throw
      var suited := 'O';
      if |extractedSuits| == 2 {
        suited := if extractedSuits[0] == extractedSuits[1] then 'S' else 'O';
      }
      return Success([o.value.0, o.value.1, suited]);
    }
    return Failure(Unrecognized(hand));
  }

  // ---- properties --------------------------------------------------------

  lemma RankUnchangedByUpper(c: char)
    requires IsRank(c) || c == 'S' || c == 'O'
    ensures Text.UpperChar(c) == c
  {
  }

  lemma UpperOfCompact(hand: string, i: nat)
    requires i < |Compact(hand)|
    ensures Text.UpperChar(Compact(hand)[i]) == Compact(hand)[i]
  {
  }

  /** With two ranks, the shared tail is the order-independent label. */
  lemma PairOrLabelIsLabel(r1: char, r2: char, suited: bool)
    requires IsRank(r1) && IsRank(r2)
    ensures PairOrLabel(r1, r2, suited) == Success(LabelOf(r1, r2, suited))
  {
    if r1 != r2 {
      OrderedLabel(r1, r2, suited);
    }
  }

  /** Every label produced is canonical, and `orderRanks` never throws. */
  lemma NormalizeShape(hand: string)
    ensures Normalize(hand).Success? ==> IsCanonicalLabel(Normalize(hand).value)
    ensures Normalize(hand).Failure? ==>
      Normalize(hand).error == EmptyHand || Normalize(hand).error.Unrecognized?
  {
    if hand != "" {
      var s := Compact(hand);
      if MatchesFullCards(s) {
        PairOrLabelIsLabel(Text.UpperChar(s[0]), Text.UpperChar(s[2]), Text.UpperChar(s[1]) == Text.UpperChar(s[3]));
      } else if MatchesShorthand(s) {
        var suf := if |s| == 3 then [Text.UpperChar(s[2])] else [];
        PairOrLabelIsLabel(Text.UpperChar(s[0]), Text.UpperChar(s[1]), suf == "S");
      } else {
        var (ranks, suits) := Scan(s);
        if |ranks| == 2 {
          PairOrLabelIsLabel(ranks[0], ranks[1], |suits| == 2 && suits[0] == suits[1]);
        }
      }
    }
  }
}
