/** Hand-label normalisation of the older version (`src/domain.ts`): the
    hand text is only trimmed and upper-cased, so "AKs" becomes "AKS" but
    "AhKs" stays "AHKS" and "KAs" stays "KAS". */
module LegacyHandLabel {
  import Text

  /** `hand.trim().toUpperCase()` */
  function Normalize(hand: string): (r: string)
    ensures Text.IsTrimmed(r) && Text.NoLowerAscii(r)
    ensures |r| <= |hand|
  {
    var t := Text.Trim(hand);
    Text.UpperAsciiIdempotent(t);
    assert Text.IsTrimmed(Text.UpperAscii(t)) by {
      if t != [] {
        Text.UpperKeepsWhitespace(t[0]);
        Text.UpperKeepsWhitespace(t[|t| - 1]);
      }
    }
    Text.UpperAscii(t)
  }

  /** Upper-case text without surrounding white space is left as it is. */
  lemma FixedPoints(s: string)
    requires Text.IsTrimmed(s) && Text.NoLowerAscii(s)
    ensures Normalize(s) == s
  {
    Text.TrimOfTrimmed(s);
    assert Text.UpperAscii(s) == s;
  }

  /** Normalising twice is normalising once. */
  lemma NormalizeIdempotent(hand: string)
    ensures Normalize(Normalize(hand)) == Normalize(hand)
  {
    FixedPoints(Normalize(hand));
  }

  /** Surrounding white space goes; case is all that changes. */
  lemma ExampleLowerCase()
    ensures Normalize("aks") == "AKS"
  {
    Text.TrimOfTrimmed("aks");
    assert Text.UpperAscii("aks") == "AKS";
  }

  lemma ExamplePadded()
    ensures Normalize(" aks ") == "AKS"
  {
    assert " " + "aks" + " " == " aks ";
    PaddingIgnored(" ", "aks", " ");
    ExampleLowerCase();
  }

  /** The older normaliser neither reads suits nor reorders ranks. */
  lemma ExampleFullCards()
    ensures Normalize("AhKs") == "AHKS"
  {
    Text.TrimOfTrimmed("AhKs");
    assert Text.UpperAscii("AhKs") == "AHKS";
  }

  /** White space around the hand text makes no difference. */
  lemma PaddingIgnored(pre: string, hand: string, post: string)
    requires Text.AllWhitespace(pre) && Text.AllWhitespace(post)
    ensures Normalize(pre + hand + post) == Normalize(hand)
  {
    Text.TrimIgnoresPadding(pre, hand, post);
  }
}
