/** The comment texts on which the command pattern is pinned down, with the
    keyword each one yields or the absence of a match. */
module MatcherExamples {
  import opened Wrappers
  import opened CommandMatcher

  const HandleWithoutAt: string := "algorithms-keeper test"
  const MissingSegment: string := "@algorithm-keeper test"
  const WrongSeparator: string := "@algorithms_keeper test"
  const GluedKeyword: string := "@algorithms-keepertest test"

  const TestCommand: string := "@algorithms-keeper test"
  const ReviewCommand: string := "@algorithms-keeper review"
  const SpacedReview: string := "@algorithms-keeper      review     "
  const ReviewInNoise: string := "random " + LowerMention + "     " + "review" + "   random"
  const UpperCaseReview: string := "@Algorithms-Keeper   REVIEW  "

  const LowerMention: string := "@" + Handle

  lemma LowerMentionIsMention()
    ensures IsMention(LowerMention)
  {
    assert LowerMention[1..] == Handle;
  }

  /** Only index 0 of `text` can start a mention. */
  lemma OnlyLeadingAt(text: string)
    requires 1 <= |text| && '@' !in text[1..]
    ensures forall i: nat :: 0 < i ==> !MentionAt(text, i)
  {
    forall i: nat | 0 < i < |text| ensures !MentionAt(text, i) {
      assert text[i] == text[1..][i - 1];
      NoMentionWithoutAt(text, i);
    }
  }

  lemma NoMatchForHandleWithoutAt()
    ensures Match(HandleWithoutAt) == None
  {
    NoMatchWithoutAt(HandleWithoutAt);
  }

  lemma NoMatchForMissingSegment()
    ensures Match(MissingSegment) == None
  {
    OnlyLeadingAt(MissingSegment);
    assert MissingSegment[0..MentionLength][1..][9] == '-';
    MatchNeedsSeparatedMention(MissingSegment);
  }

  lemma NoMatchForWrongSeparator()
    ensures Match(WrongSeparator) == None
  {
    OnlyLeadingAt(WrongSeparator);
    assert WrongSeparator[0..MentionLength][1..][10] == '_';
    MatchNeedsSeparatedMention(WrongSeparator);
  }

  lemma NoMatchForGluedKeyword()
    ensures Match(GluedKeyword) == None
  {
    OnlyLeadingAt(GluedKeyword);
    assert GluedKeyword[MentionLength] == 't';
    MatchNeedsSeparatedMention(GluedKeyword);
  }

  lemma MatchTestCommand()
    ensures Match(TestCommand) == Some("test")
  {
    LowerMentionIsMention();
    assert AllOf(" ", IsWhitespace) && AllOf("test", IsWordChar);
    assert TestCommand == "" + LowerMention + " " + "test" + "";
    MatchOfMention("", LowerMention, " ", "test", "");
  }

  lemma MatchReviewCommand()
    ensures Match(ReviewCommand) == Some("review")
  {
    LowerMentionIsMention();
    assert AllOf(" ", IsWhitespace) && AllOf("review", IsWordChar);
    assert ReviewCommand == "" + LowerMention + " " + "review" + "";
    MatchOfMention("", LowerMention, " ", "review", "");
  }

  lemma MatchSpacedReview()
    ensures Match(SpacedReview) == Some("review")
  {
    LowerMentionIsMention();
    assert AllOf("      ", IsWhitespace) && AllOf("review", IsWordChar);
    assert SpacedReview == "" + LowerMention + "      " + "review" + "     ";
    MatchOfMention("", LowerMention, "      ", "review", "     ");
  }

  /** The noisy comment, spelt out. */
  lemma ReviewInNoiseSpelledOut()
    ensures ReviewInNoise == "random @algorithms-keeper     review   random"
  {
    assert LowerMention == "@algorithms-keeper";
  }

  lemma MatchReviewInNoise()
    ensures Match(ReviewInNoise) == Some("review")
  {
    LowerMentionIsMention();
    assert AllOf("     ", IsWhitespace) && AllOf("review", IsWordChar);
    MatchOfMention("random ", LowerMention, "     ", "review", "   random");
  }

  lemma MatchUpperCaseReview()
    ensures Match(UpperCaseReview) == Some("REVIEW")
  {
    var mention := "@Algorithms-Keeper";
    assert EqualsIgnoringCase(mention[1..], Handle) by {
      assert mention[1..][0] == 'A' && mention[1..][11] == 'K';
    }
    assert AllOf("   ", IsWhitespace) && AllOf("REVIEW", IsWordChar);
    assert UpperCaseReview == "" + mention + "   " + "REVIEW" + "  ";
    MatchOfMention("", mention, "   ", "REVIEW", "  ");
  }
}
