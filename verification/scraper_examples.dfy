/** Worked examples of the text scraper. */
module ScraperExamples {
  import opened Wrappers
  import opened Text
  import opened Scraper
  import opened Ingredients

  /** Text with no match for any pattern falls back to the default list. */
  lemma NoPatternGivesDefault()
    ensures ExtractFromText("42!") == DefaultIngredients
  {
    assert Matches(Quoted, "42!") == [];
    assert Matches(Bracketed, "42!") == [];
    assert Matches(WordRun, "42!") == [];
  }

  /** A quoted match decides even when its clean-up leaves nothing: the result is empty. */
  lemma QuotedBlankGivesEmpty()
    ensures ExtractFromText("\" \"") == []
  {
    assert SpanEnd(Quoted, "\" \"", 1) == 2;
    assert MatchEnd(Quoted, "\" \"", 0) == Some(3);
    assert "\" \""[0..3] == "\" \"";
    assert Scan(Quoted, "\" \"", 3) == [];
    assert Matches(Quoted, "\" \"") == ["\" \""];
    assert StripMarkup("\" \"") == " ";
    assert Trim(" ") == "";
  }
}
