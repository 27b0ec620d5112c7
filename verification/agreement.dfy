/** How the browser's submission checks (assets/js/main.js) relate to the
    API's validation (backend/main.go) when the same text and feeling reach
    both. */
module Agreement {
  import opened Text
  import Stories
  import Api
  import opened Wrappers

  /** A submission the browser accepts also passes the API's trim and
      validation, unless its text or feeling is made only of characters the
      API counts as whitespace (U+0085 is whitespace only to Go; a feeling of
      spaces is kept by the browser, which does not trim it). Lengths here
      count characters, so this holds as stated on ASCII text only: on
      non-ASCII text Go's byte count can exceed 4000 or 100 where the
      browser's UTF-16 count does not, and the API then answers "too long". */
  lemma ClientAcceptedPassesServer(rawText: string, rawFeeling: string)
    requires Stories.CheckSubmission(rawText, rawFeeling).Accept?
    requires !AllSpace(Go, Stories.CheckSubmission(rawText, rawFeeling).story)
    requires !AllSpace(Go, Stories.CheckSubmission(rawText, rawFeeling).feeling)
    ensures var c := Stories.CheckSubmission(rawText, rawFeeling);
      Api.ValidatePost(Trim(Go, c.story), Trim(Go, c.feeling)).None?
  {
  }

  /** The two sides disagree on a whitespace-only feeling: the browser
      keeps it as it is (only an empty one becomes "Unknown"), the API trims
      it to nothing and answers "feeling is required". */
  lemma WhitespaceFeelingDiverges(text: string, feeling: string)
    requires text != [] && |text| <= Stories.MaxStory && Trimmed(Js, text) && Trimmed(Go, text)
    requires 1 <= |feeling| <= Stories.MaxFeeling && AllSpace(Js, feeling) && AllSpace(Go, feeling)
    ensures Stories.CheckSubmission(text, feeling) == Stories.Accept(text, feeling)
    ensures Api.ValidatePost(Trim(Go, text), Trim(Go, feeling)) == Some(Api.FeelingRequired)
  {
    TrimOfTrimmed(Js, text);
    TrimOfTrimmed(Go, text);
  }

  /** The two sides disagree on U+0085 (next line): the browser keeps a
      text made of it, the API trims it away and answers "story is required". */
  lemma NextLineStoryDiverges(text: string, feeling: string)
    requires text == "\U{85}"
    requires 1 <= |feeling| <= Stories.MaxFeeling && Trimmed(Go, feeling)
    ensures Stories.CheckSubmission(text, feeling) == Stories.Accept(text, feeling)
    ensures Api.ValidatePost(Trim(Go, text), Trim(Go, feeling)) == Some(Api.StoryRequired)
  {
    assert Trimmed(Js, text);
    TrimOfTrimmed(Js, text);
    assert AllSpace(Go, text);
  }
}
