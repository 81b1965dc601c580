/**
 * The limiter on concrete answers: a long sentence without punctuation cut
 * to fifteen characters, a heading line dropped, a split at a break of two
 * spaces, a reply cut to its first sentence, and an answer on which
 * limiting twice differs from limiting once.
 */
module LimiterExamples {
  import opened Text
  import opened Limiter

  predicate PlainChars(s: string) {
    forall i :: 0 <= i < |s| ==> !IsMarkup(s[i])
  }

  lemma PlainConcat(a: string, b: string)
    requires PlainChars(a) && PlainChars(b)
    ensures PlainChars(a + b)
  {
    forall i | 0 <= i < |a + b| ensures !IsMarkup((a + b)[i]) {
      if i >= |a| {
        assert (a + b)[i] == b[i - |a|];
      }
    }
  }

  lemma PlainWords1() ensures PlainChars("This is a very ") {}
  lemma PlainWords2() ensures PlainChars("long single ") {}
  lemma PlainWords3() ensures PlainChars("sentence ") {}
  lemma PlainWords4() ensures PlainChars("without punctuation") {}

  lemma LongSentenceSplits()
    ensures "This is a very long single sentence without punctuation" ==
            "This is a very " + "long single " + "sentence " + "without punctuation"
  {
  }

  lemma LongPartsArePlain()
    ensures PlainChars("This is a very " + "long single " + "sentence " + "without punctuation")
  {
    var a, b, c, d := "This is a very ", "long single ", "sentence ", "without punctuation";
    PlainWords1(); PlainWords2(); PlainWords3(); PlainWords4();
    PlainConcat(a, b);
    PlainConcat(a + b, c);
    PlainConcat(a + b + c, d);
  }

  lemma LongPartsAreTrimmed()
    ensures IsTrimmed("This is a very " + "long single " + "sentence " + "without punctuation")
  {
    var a, b, c, d := "This is a very ", "long single ", "sentence ", "without punctuation";
    assert (a + b + c + d)[0] == a[0];
    assert (a + b + c + d)[|a + b + c + d| - 1] == d[|d| - 1];
  }

  lemma LongPartsCutAtFifteen()
    requires IsTrimmed("This is a very " + "long single " + "sentence " + "without punctuation")
    ensures Cut("This is a very " + "long single " + "sentence " + "without punctuation", 15) == "This is a very"
  {
    var a, rest := "This is a very ", "long single " + "sentence " + "without punctuation";
    assert a + "long single " + "sentence " + "without punctuation" == a + rest;
    assert |a| == 15 && (a + rest)[..15] == a;
    assert TrimEnd(a) == "This is a very";
  }

  lemma LongPartsAreCut()
    ensures LimitResponse("This is a very " + "long single " + "sentence " + "without punctuation", 1, 15) ==
            "This is a very"
  {
    var text := "This is a very " + "long single " + "sentence " + "without punctuation";
    LongPartsAreTrimmed();
    LongPartsArePlain();
    NoMarkupMatchesNothing(text);
    PlainTextIsOnlyCut(text, 1, 15);
    LongPartsCutAtFifteen();
  }

  /** One long sentence without punctuation is cut to 15 characters and right-trimmed. */
  lemma LongSentenceIsCut()
    ensures LimitResponse("This is a very long single sentence without punctuation", 1, 15) == "This is a very"
  {
    LongSentenceSplits();
    LongPartsAreCut();
  }

  lemma TitleTextSplits()
    ensures "# Title\nHello world." == "# " + "Title" + "\n" + "Hello world."
  {
  }

  lemma TitleIsTitleLine()
    ensures IsTitleLine("Title")
  {
  }

  lemma HelloWorldIsBodyLine()
    ensures IsBodyLine("Hello world.")
  {
  }

  lemma HelloWorldHasNoBreak()
    ensures !HasBreak("Hello world.")
  {
    var rest := "Hello world.";
    assert forall i :: 0 <= i < |rest| ==> (rest[i] == '.' <==> i == 11);
  }

  lemma HeadingPartsAreRemoved()
    ensures LimitResponse("# " + "Title" + "\n" + "Hello world.", 1, 15) == "Hello world."
  {
    TitleIsTitleLine();
    HelloWorldIsBodyLine();
    LeadingHeadingLineIsDropped("Title", "Hello world.");
    HelloWorldHasNoBreak();
    UnbrokenTextIsOnlyCut("# " + "Title" + "\n" + "Hello world.", 1, 15);
  }

  /** A leading heading line is removed entirely. */
  lemma HeadingLineIsRemoved()
    ensures LimitResponse("# Title\nHello world.", 1, 15) == "Hello world."
  {
    TitleTextSplits();
    HeadingPartsAreRemoved();
  }

  /** Removing the bullet of "- # h" leaves a heading line behind. */
  lemma BulletRemovalExposesHeading()
    ensures Clean("- # h") == "# h"
  {
    assert "- # h" == "- " + "# h";
    LeadingBulletIsDropped("# h");
  }

  lemma HeadingOnlyHasNoBreak()
    ensures !HasBreak("# h")
  {
    var t := "# h";
    assert forall p :: 0 <= p < |t| ==> !IsTerminator(t[p]);
  }

  /** A text that is only a heading line cleans to the empty string. */
  lemma HeadingOnlyCleansToEmpty()
    ensures Clean("# h") == []
  {
    assert "# h" == "# " + "h";
    HeadingOnlyIsDropped("h");
  }

  lemma BulletThenHeadingLimit()
    ensures LimitResponse("- # h", 1, 15) == "# h"
  {
    BulletRemovalExposesHeading();
    HeadingOnlyHasNoBreak();
    UnbrokenTextIsOnlyCut("- # h", 1, 15);
  }

  lemma HeadingOnlyLimit()
    ensures LimitResponse("# h", 1, 15) == ""
  {
    HeadingOnlyCleansToEmpty();
    UnbrokenTextIsOnlyCut("# h", 1, 15);
  }

  /**
   * Limiting is not idempotent in general: removing a bullet can expose a
   * heading, which a second pass removes, so a non-empty answer can even
   * shrink to the empty string.
   */
  lemma LimitNotIdempotent()
    ensures var once := LimitResponse("- # h", 1, 15);
            once == "# h" && LimitResponse(once, 1, 15) == "" != once
  {
    BulletThenHeadingLimit();
    HeadingOnlyLimit();
  }

  lemma HiIsFirstSentence()
    ensures IsFirstSentence("Hi.")
  {
    assert !HasBreak("Hi.") by {
      forall p | 0 <= p < 3 ensures !IsBreakAt("Hi.", p) {
        assert !IsSpace("Hi."[p]);
      }
    }
  }

  lemma YoIsLaterText()
    ensures IsLaterText("Yo") && !HasBreak("Yo")
  {
  }

  /** "Hi. Yo" splits into its two sentences. */
  lemma TwoSentenceSplit()
    ensures SplitSentences("Hi. Yo") == ["Hi.", "Yo"]
  {
    assert "Hi. Yo" == "Hi." + " " + "Yo";
    HiIsFirstSentence();
    YoIsLaterText();
    TwoSentences("Hi.", "Yo");
  }

  /**
   * A break is a terminator followed by a whole whitespace run: "A.B.  C"
   * splits once, after "A.B.", and the inner "." of "A.B." is no break.
   */
  lemma WideBreakSplit()
    ensures SplitSentences("A.B.  C") == ["A.B.", "C"]
  {
    var s := "A.B.  C";
    assert !IsBreakAt(s, 0) && !IsBreakAt(s, 1) && !IsBreakAt(s, 2) && !IsBreakAt(s, 3);
    assert IsBreakAt(s, 4);
    assert SpanSpaces(s, 6) == 6;
    assert SpanSpaces(s, 4) == 6;
    SplitAtFirstBreak(s, 4);
    assert s[..4] == "A.B." && s[6..] == "C";
    assert !HasBreak("C");
  }

  /** With the default limits, "Hi. Yo" is answered with its first sentence only. */
  lemma SecondSentenceIsDropped()
    ensures LimitResponse("Hi. Yo", 1, 15) == "Hi."
  {
    assert "Hi. Yo" == "Hi." + " " + "Yo";
    HiIsFirstSentence();
    YoIsLaterText();
    FirstSentenceKept("Hi.", "Yo", 15);
  }
}
