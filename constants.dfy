/**
 * constants.rs: the `Box`, `Glue` and `Penalty` records, the `LETTER_WIDTHS`
 * array of (grapheme, box) pairs, the four glue constants and the hyphen penalty.
 */
module Constants {
  import opened Primitives
  import opened Tables
  import K = KnuthMetrics

  /** An unbreakable unit of content. */
  datatype Box = Box(width: u32)

  /** A breakable separator; stretchability and shrinkability are `f32` in the source. */
  datatype Glue = Glue(width: u32, stretchability: real, shrinkability: real)

  /** An optional break point with a cost. */
  datatype Penalty = Penalty(width: u32, penalty: i32, flagged: bool)

  /** `LETTER_WIDTHS`: a fixed array of 33 (grapheme, box) pairs. */
  const LetterWidths: seq<(string, Box)> := [
    ("a", Box(9)), ("b", Box(10)), ("c", Box(8)), ("d", Box(10)), ("e", Box(8)),
    ("f", Box(6)), ("g", Box(9)), ("h", Box(10)), ("i", Box(5)), ("j", Box(6)),
    ("k", Box(10)), ("l", Box(5)), ("m", Box(15)), ("n", Box(10)), ("o", Box(9)),
    ("p", Box(10)), ("q", Box(10)), ("r", Box(7)), ("s", Box(7)), ("t", Box(7)),
    ("u", Box(10)), ("v", Box(9)), ("w", Box(13)), ("x", Box(10)), ("y", Box(10)),
    ("z", Box(8)),
    ("C", Box(13)), ("I", Box(6)), ("-", Box(6)),
    (",", Box(5)), (";", Box(5)), (".", Box(5)), ("'", Box(5))
  ]

  const WordGlue := Glue(6, 3.0, 2.0)
  const CommaGlue := Glue(6, 4.0, 2.0)
  const SemicolonGlue := Glue(6, 4.0, 1.0)
  const PeriodGlue := Glue(8, 6.0, 1.0)

  const HyphenPenalty := Penalty(0, 50, false)

  /** A glue record has the (w, y, z) of a specification. */
  predicate GlueIs(g: Glue, spec: K.GlueSpec) {
    g.width as int == spec.w && g.stretchability == spec.y as real && g.shrinkability == spec.z as real
  }
}

/** What `LETTER_WIDTHS` and the constants of constants.rs hold, checked against the doc comment. */
module ConstantsProperties {
  import opened Primitives
  import opened Tables
  import opened Constants
  import K = KnuthMetrics

  /** The position of a key in `LETTER_WIDTHS`, or -1 when it has none. */
  function WidthRank(g: string): int {
    if |g| != 1 then -1
    else if 'a' <= g[0] <= 'z' then g[0] as int - 'a' as int
    else if g[0] == 'C' then 26
    else if g[0] == 'I' then 27
    else if g[0] == '-' then 28
    else if g[0] == ',' then 29
    else if g[0] == ';' then 30
    else if g[0] == '.' then 31
    else if g[0] == '\'' then 32
    else -1
  }

  lemma LetterWidthsRanked()
    ensures |LetterWidths| == 33
    ensures RankedBy(LetterWidths, WidthRank)
  {
    RanksBelow17();
    RanksFrom17();
  }

  lemma RanksBelow17()
    ensures forall i :: 0 <= i < 17 ==> WidthRank(LetterWidths[i].0) == i
  {
  }

  lemma RanksFrom17()
    ensures forall i :: 17 <= i < 33 ==> WidthRank(LetterWidths[i].0) == i
  {
  }

  /** `LETTER_WIDTHS` has 33 entries and no key twice, so lookup by key is well defined. */
  lemma LetterWidthsKeysDistinct()
    ensures |LetterWidths| == 33
    ensures DistinctKeys(LetterWidths)
  {
    LetterWidthsRanked();
    DistinctByRank(LetterWidths, WidthRank);
  }

  lemma LowercaseEntries()
    ensures forall i :: 0 <= i < 26 ==> LetterWidths[i].1 == Box(K.LowercaseWidths[i] as u32)
  {
  }

  lemma LowercaseKeys()
    ensures forall i :: 0 <= i < 26 ==> LetterWidths[i].0 == [K.Lowercase[i]]
  {
  }

  /** Looking up 'a' through 'z' in `LETTER_WIDTHS` yields the widths the doc comment quotes. */
  lemma LowercaseWidthsMatchDoc()
    ensures forall i :: 0 <= i < 26 ==> Lookup(LetterWidths, [K.Lowercase[i]]) == Some(Box(K.LowercaseWidths[i] as u32))
  {
    LetterWidthsRanked();
    LowercaseEntries();
    LowercaseKeys();
    forall i | 0 <= i < 26 ensures Lookup(LetterWidths, [K.Lowercase[i]]) == Some(Box(K.LowercaseWidths[i] as u32)) {
      LookupRanked(LetterWidths, WidthRank, i);
    }
  }

  /** 'C', 'I' and '-' have the widths the doc comment quotes. */
  lemma CapitalsAndHyphenMatchDoc()
    ensures Lookup(LetterWidths, "C") == Some(Box(K.CapitalCWidth as u32))
    ensures Lookup(LetterWidths, "I") == Some(Box(K.CapitalIWidth as u32))
    ensures Lookup(LetterWidths, "-") == Some(Box(K.HyphenWidth as u32))
  {
    LetterWidthsRanked();
    assert LetterWidths[26] == ("C", Box(K.CapitalCWidth as u32));
    EntryAt(26, "C", K.CapitalCWidth);
    assert LetterWidths[27] == ("I", Box(K.CapitalIWidth as u32));
    EntryAt(27, "I", K.CapitalIWidth);
    assert LetterWidths[28] == ("-", Box(K.HyphenWidth as u32));
    EntryAt(28, "-", K.HyphenWidth);
  }

  lemma EntryAt(i: nat, key: string, width: nat)
    requires RankedBy(LetterWidths, WidthRank)
    requires i < |LetterWidths| && width < 0x1_0000_0000 && LetterWidths[i] == (key, Box(width as u32))
    ensures Lookup(LetterWidths, key) == Some(Box(width as u32))
  {
    LookupRanked(LetterWidths, WidthRank, i);
  }

  lemma CapitalsAndHyphenEntries()
    ensures LetterWidths[26] == ("C", Box(13)) && LetterWidths[27] == ("I", Box(6)) && LetterWidths[28] == ("-", Box(6))
  {
  }

  lemma PunctuationEntries()
    ensures forall j :: 0 <= j < 4 ==> LetterWidths[29 + j] == ([K.PunctuationMarks[j]], Box(K.PunctuationWidth as u32))
  {
  }

  /** Commas, semicolons, periods and apostrophes have the width the doc comment quotes. */
  lemma PunctuationWidthsMatchDoc()
    ensures forall j :: 0 <= j < |K.PunctuationMarks| ==>
      Lookup(LetterWidths, [K.PunctuationMarks[j]]) == Some(Box(K.PunctuationWidth as u32))
  {
    LetterWidthsRanked();
    PunctuationEntries();
    forall j | 0 <= j < |K.PunctuationMarks|
      ensures Lookup(LetterWidths, [K.PunctuationMarks[j]]) == Some(Box(K.PunctuationWidth as u32))
    {
      LookupRanked(LetterWidths, WidthRank, 29 + j);
    }
  }

  /** Apart from 'C' and 'I', no upper-case letter has an entry in `LETTER_WIDTHS`. */
  lemma UppercaseMostlyAbsent()
    ensures forall i :: 0 <= i < 26 && K.Uppercase[i] != 'C' && K.Uppercase[i] != 'I' ==>
      Lookup(LetterWidths, [K.Uppercase[i]]) == None
  {
    LetterWidthsRanked();
    K.AlphabetCodes();
    forall i | 0 <= i < 26 && K.Uppercase[i] != 'C' && K.Uppercase[i] != 'I'
      ensures Lookup(LetterWidths, [K.Uppercase[i]]) == None
    {
      AbsentByRank(LetterWidths, WidthRank, [K.Uppercase[i]]);
    }
  }

  /** The four glue constants are the (w, y, z) specifications the doc comment quotes. */
  lemma GlueConstantsMatchDoc()
    ensures GlueIs(WordGlue, K.BetweenWords)
    ensures GlueIs(CommaGlue, K.AfterComma)
    ensures GlueIs(SemicolonGlue, K.AfterSemicolon)
    ensures GlueIs(PeriodGlue, K.AfterPeriod)
  {
  }

  /** `HYPHEN_PENALTY` is the unflagged, zero-width penalty of 50 the doc comment quotes. */
  lemma HyphenPenaltyMatchesDoc()
    ensures HyphenPenalty.width == 0 && !HyphenPenalty.flagged
    ensures HyphenPenalty.penalty as int == K.HyphenLinePenalty
  {
  }
}
