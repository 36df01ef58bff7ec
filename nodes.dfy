/**
 * nodes.rs: the `Node` variants with their metrics, and the two static tables
 * `LETTER_BOXES` (grapheme to box) and `PUNCTUATION_GLUE` (grapheme to glue or
 * penalty), each a `phf_map!` keyed by grapheme.
 */
module Nodes {
  import opened Primitives
  import opened Tables

  /** A typesetting primitive. `Null` carries a grapheme that has no metrics. */
  datatype Node =
    | Box(width: u32)
    | Glue(width: u32, stretchability: real, shrinkability: real)
    | Penalty(width: u32, penalty: i32, flagged: bool)
    | Null(grapheme: string)

  /** The entries of `LETTER_BOXES`, in the order the source lists them. */
  const LetterBoxEntries: seq<(string, Node)> := [
    ("a", Box(9)), ("A", Box(9)),
    ("b", Box(10)), ("B", Box(10)),
    ("c", Box(8)), ("C", Box(13)),
    ("d", Box(10)), ("D", Box(10)),
    ("e", Box(8)), ("E", Box(8)),
    ("f", Box(6)), ("F", Box(6)),
    ("g", Box(9)), ("G", Box(9)),
    ("h", Box(10)), ("H", Box(10)),
    ("i", Box(5)), ("I", Box(6)),
    ("j", Box(6)), ("J", Box(6)),
    ("k", Box(10)), ("K", Box(10)),
    ("l", Box(5)), ("L", Box(5)),
    ("m", Box(15)), ("M", Box(15))
  ] + [
    ("n", Box(10)), ("N", Box(10)),
    ("o", Box(9)), ("O", Box(9)),
    ("p", Box(10)), ("P", Box(10)),
    ("q", Box(10)), ("Q", Box(10)),
    ("r", Box(7)), ("R", Box(7)),
    ("s", Box(7)), ("S", Box(7)),
    ("t", Box(7)), ("T", Box(7)),
    ("u", Box(10)), ("U", Box(10)),
    ("v", Box(9)), ("V", Box(9)),
    ("w", Box(13)), ("W", Box(13)),
    ("x", Box(10)), ("X", Box(10)),
    ("y", Box(10)), ("Y", Box(10)),
    ("z", Box(8)), ("Z", Box(8))
  ] + [
    ("-", Box(6)), (",", Box(5)), (";", Box(5)), (".", Box(5)), ("'", Box(5))
  ]

  /** The entries of `PUNCTUATION_GLUE`, in the order the source lists them. */
  const PunctuationGlueEntries: seq<(string, Node)> := [
    (" ", Glue(6, 3.0, 2.0)),
    (",", Glue(6, 4.0, 2.0)),
    (";", Glue(6, 4.0, 1.0)),
    (".", Glue(8, 6.0, 1.0)),
    ("-", Penalty(0, 50, false))
  ]

  /** `LETTER_BOXES`: the box of each letter, of the hyphen and of four punctuation marks. */
  const LetterBoxes: map<string, Node> := MapOf(LetterBoxEntries)

  /** `PUNCTUATION_GLUE`: the glue after a space or punctuation mark, and the hyphen's penalty. */
  const PunctuationGlue: map<string, Node> := MapOf(PunctuationGlueEntries)

  /** `LETTER_BOXES.get(grapheme)`: an entry is always a box, 5 to 15 units wide. */
  function GetLetterBox(grapheme: string): (r: Option<Node>)
    ensures r == Lookup(LetterBoxEntries, grapheme)
    ensures r.Some? ==> r.value.Box? && 5 <= r.value.width <= 15
  {
    GetMapOf(LetterBoxEntries, grapheme);
    LetterBoxEntriesAreBoxes();
    Get(LetterBoxes, grapheme)
  }

  /** Every entry of `LETTER_BOXES` is a box 5 to 15 units wide. */
  lemma LetterBoxEntriesAreBoxes()
    ensures forall e :: e in LetterBoxEntries ==> e.1.Box? && 5 <= e.1.width <= 15
  {
    BoxesBelow20();
    BoxesFrom20();
    BoxesFrom40();
    forall e | e in LetterBoxEntries ensures e.1.Box? && 5 <= e.1.width <= 15 {
      var i :| 0 <= i < |LetterBoxEntries| && LetterBoxEntries[i] == e;
    }
  }

  // The facts about the literal list are split into short ranges of positions,
  // which keeps each proof small.
  lemma BoxesBelow20()
    ensures |LetterBoxEntries| == 57
    ensures forall i :: 0 <= i < 20 ==> LetterBoxEntries[i].1.Box? && 5 <= LetterBoxEntries[i].1.width <= 15
  {
  }

  lemma BoxesFrom20()
    ensures forall i :: 20 <= i < 40 ==> LetterBoxEntries[i].1.Box? && 5 <= LetterBoxEntries[i].1.width <= 15
  {
  }

  lemma BoxesFrom40()
    ensures forall i :: 40 <= i < 57 ==> LetterBoxEntries[i].1.Box? && 5 <= LetterBoxEntries[i].1.width <= 15
  {
  }

  /** `PUNCTUATION_GLUE.get(grapheme)`: glue, except for the hyphen, whose entry is a penalty. */
  function GetPunctuationGlue(grapheme: string): (r: Option<Node>)
    ensures r == Lookup(PunctuationGlueEntries, grapheme)
    ensures r.Some? ==> (r.value.Glue? <==> grapheme != "-")
    ensures r.Some? ==> (r.value.Penalty? <==> grapheme == "-")
  {
    GetMapOf(PunctuationGlueEntries, grapheme);
    Get(PunctuationGlue, grapheme)
  }
}

/** What the two tables of nodes.rs hold, checked against the doc comment and against constants.rs. */
module NodesProperties {
  import opened Primitives
  import opened Tables
  import opened Nodes
  import C = Constants
  import CP = ConstantsProperties
  import K = KnuthMetrics

  /** The width nodes.rs gives an upper-case letter: the doc comment's for 'C' and 'I', the lower-case one's otherwise. */
  function UppercaseWidth(i: nat): nat
    requires i < 26
  {
    if K.Lowercase[i] == 'c' then K.CapitalCWidth
    else if K.Lowercase[i] == 'i' then K.CapitalIWidth
    else K.LowercaseWidths[i]
  }

  /** The position of a key in the list of `LETTER_BOXES` entries, or -1 when it has none. */
  function KeyRank(g: string): int {
    if |g| != 1 then -1
    else if 'a' <= g[0] <= 'z' then 2 * (g[0] as int - 'a' as int)
    else if 'A' <= g[0] <= 'Z' then 2 * (g[0] as int - 'A' as int) + 1
    else if g[0] == '-' then 52
    else if g[0] == ',' then 53
    else if g[0] == ';' then 54
    else if g[0] == '.' then 55
    else if g[0] == '\'' then 56
    else -1
  }

  /** The position of a key in the list of `PUNCTUATION_GLUE` entries, or -1 when it has none. */
  function GlueRank(g: string): int {
    if g == " " then 0
    else if g == "," then 1
    else if g == ";" then 2
    else if g == "." then 3
    else if g == "-" then 4
    else -1
  }

  /** Letters sit in pairs, lower case first, in alphabetical order. */
  lemma LetterEntriesLayout()
    ensures |LetterBoxEntries| == 57
    ensures forall i :: 0 <= i < 26 ==> LetterBoxEntries[2 * i] == ([K.Lowercase[i]], Box(K.LowercaseWidths[i] as u32))
    ensures forall i :: 0 <= i < 26 ==> LetterBoxEntries[2 * i + 1] == ([K.Uppercase[i]], Box(UppercaseWidth(i) as u32))
  {
    BoxesBelow20();
    LowercaseEntries0To7();
    UppercaseEntries0To7();
    LowercaseEntries7To13();
    UppercaseEntries7To13();
    LowercaseEntries13To20();
    UppercaseEntries13To20();
    LowercaseEntries20To26();
    UppercaseEntries20To26();
  }

  lemma LowercaseEntries0To7()
    ensures forall i :: 0 <= i < 7 ==> LetterBoxEntries[2 * i] == ([K.Lowercase[i]], Box(K.LowercaseWidths[i] as u32))
  {
  }

  lemma UppercaseEntries0To7()
    ensures forall i :: 0 <= i < 7 ==> LetterBoxEntries[2 * i + 1] == ([K.Uppercase[i]], Box(UppercaseWidth(i) as u32))
  {
    UppercaseEntries0To4();
  }

  lemma UppercaseEntries0To4()
    ensures forall i :: 0 <= i < 4 ==> LetterBoxEntries[2 * i + 1] == ([K.Uppercase[i]], Box(UppercaseWidth(i) as u32))
  {
  }

  lemma LowercaseEntries7To13()
    ensures forall i :: 7 <= i < 13 ==> LetterBoxEntries[2 * i] == ([K.Lowercase[i]], Box(K.LowercaseWidths[i] as u32))
  {
  }

  lemma UppercaseEntries7To13()
    ensures forall i :: 7 <= i < 13 ==> LetterBoxEntries[2 * i + 1] == ([K.Uppercase[i]], Box(UppercaseWidth(i) as u32))
  {
  }

  lemma LowercaseEntries13To20()
    ensures forall i :: 13 <= i < 20 ==> LetterBoxEntries[2 * i] == ([K.Lowercase[i]], Box(K.LowercaseWidths[i] as u32))
  {
  }

  lemma UppercaseEntries13To20()
    ensures forall i :: 13 <= i < 20 ==> LetterBoxEntries[2 * i + 1] == ([K.Uppercase[i]], Box(UppercaseWidth(i) as u32))
  {
  }

  lemma LowercaseEntries20To26()
    ensures forall i :: 20 <= i < 26 ==> LetterBoxEntries[2 * i] == ([K.Lowercase[i]], Box(K.LowercaseWidths[i] as u32))
  {
  }

  lemma UppercaseEntries20To26()
    ensures forall i :: 20 <= i < 26 ==> LetterBoxEntries[2 * i + 1] == ([K.Uppercase[i]], Box(UppercaseWidth(i) as u32))
  {
  }

  /** The hyphen and the punctuation marks close the list. */
  lemma PunctuationEntriesLayout()
    ensures LetterBoxEntries[52] == ("-", Box(K.HyphenWidth as u32))
    ensures forall j :: 0 <= j < 4 ==> LetterBoxEntries[53 + j] == ([K.PunctuationMarks[j]], Box(K.PunctuationWidth as u32))
  {
  }

  /** Each key of `LETTER_BOXES` sits at its rank, so no key occurs twice. */
  lemma LetterBoxesRanked()
    ensures RankedBy(LetterBoxEntries, KeyRank)
  {
    BoxesBelow20();
    Ranks0To13();
    Ranks13To26();
    Ranks26To39();
    Ranks39To52();
    Ranks52To57();
  }

  lemma Ranks0To13()
    ensures forall i :: 0 <= i < 13 ==> KeyRank(LetterBoxEntries[i].0) == i
  {
  }

  lemma Ranks13To26()
    ensures forall i :: 13 <= i < 26 ==> KeyRank(LetterBoxEntries[i].0) == i
  {
  }

  lemma Ranks26To39()
    ensures forall i :: 26 <= i < 39 ==> KeyRank(LetterBoxEntries[i].0) == i
  {
  }

  lemma Ranks39To52()
    ensures forall i :: 39 <= i < 52 ==> KeyRank(LetterBoxEntries[i].0) == i
  {
  }

  lemma Ranks52To57()
    ensures forall i :: 52 <= i < 57 ==> KeyRank(LetterBoxEntries[i].0) == i
  {
  }

  /** Each key of `PUNCTUATION_GLUE` sits at its rank, so no key occurs twice. */
  lemma PunctuationGlueRanked()
    ensures RankedBy(PunctuationGlueEntries, GlueRank)
  {
  }

  /** Getting 'a' through 'z' from `LETTER_BOXES` yields the widths the doc comment quotes. */
  lemma LowercaseBoxesMatchDoc()
    ensures forall i :: 0 <= i < 26 ==> GetLetterBox([K.Lowercase[i]]) == Some(Box(K.LowercaseWidths[i] as u32))
  {
    LetterBoxesRanked();
    LetterEntriesLayout();
    forall i | 0 <= i < 26 ensures GetLetterBox([K.Lowercase[i]]) == Some(Box(K.LowercaseWidths[i] as u32)) {
      LookupRanked(LetterBoxEntries, KeyRank, 2 * i);
    }
  }

  /**
   * Getting 'A' through 'Z' yields the width of the lower-case letter, except
   * for 'C' and 'I', which have the widths the doc comment quotes.
   */
  lemma UppercaseBoxesMatchDoc()
    ensures forall i :: 0 <= i < 26 ==> GetLetterBox([K.Uppercase[i]]) == Some(Box(UppercaseWidth(i) as u32))
  {
    LetterBoxesRanked();
    LetterEntriesLayout();
    forall i | 0 <= i < 26 ensures GetLetterBox([K.Uppercase[i]]) == Some(Box(UppercaseWidth(i) as u32)) {
      LookupRanked(LetterBoxEntries, KeyRank, 2 * i + 1);
    }
  }

  /**
   * An upper-case letter is exactly as wide as its lower-case letter, except
   * for c/C and i/I.
   */
  lemma CaseAgreement()
    ensures forall i :: 0 <= i < 26 ==>
      (GetLetterBox([K.Uppercase[i]]) == GetLetterBox([K.Lowercase[i]]) <==> K.Lowercase[i] != 'c' && K.Lowercase[i] != 'i')
  {
    LetterBoxesRanked();
    LetterEntriesLayout();
    forall i | 0 <= i < 26
      ensures GetLetterBox([K.Uppercase[i]]) == GetLetterBox([K.Lowercase[i]]) <==> K.Lowercase[i] != 'c' && K.Lowercase[i] != 'i'
    {
      LookupRanked(LetterBoxEntries, KeyRank, 2 * i);
      LookupRanked(LetterBoxEntries, KeyRank, 2 * i + 1);
      OnlyTwoCapitalsDiffer(i);
    }
  }

  lemma OnlyTwoCapitalsDiffer(i: nat)
    requires i < 26
    ensures UppercaseWidth(i) == K.LowercaseWidths[i] <==> K.Lowercase[i] != 'c' && K.Lowercase[i] != 'i'
  {
  }

  /** The two exceptions: c/C are 8 and 13 units wide, i/I 5 and 6 units, as the doc comment quotes for 'C' and 'I'. */
  lemma CaseExceptions()
    ensures GetLetterBox("c") == Some(Box(8)) && GetLetterBox("C") == Some(Box(K.CapitalCWidth as u32))
    ensures GetLetterBox("i") == Some(Box(5)) && GetLetterBox("I") == Some(Box(K.CapitalIWidth as u32))
  {
    LowerCBox();
    UpperCBox();
    LowerIBox();
    UpperIBox();
  }

  // One literal key per lemma keeps each proof small.
  lemma LowerCBox() ensures GetLetterBox("c") == Some(Box(8)) { LetterBoxesRanked(); BoxEntryAt(4, "c", 8); }
  lemma UpperCBox() ensures GetLetterBox("C") == Some(Box(13)) { LetterBoxesRanked(); BoxEntryAt(5, "C", 13); }
  lemma LowerIBox() ensures GetLetterBox("i") == Some(Box(5)) { LetterBoxesRanked(); BoxEntryAt(16, "i", 5); }
  lemma UpperIBox() ensures GetLetterBox("I") == Some(Box(6)) { LetterBoxesRanked(); BoxEntryAt(17, "I", 6); }

  lemma BoxEntryAt(i: nat, key: string, width: nat)
    requires RankedBy(LetterBoxEntries, KeyRank)
    requires i < |LetterBoxEntries| && width < 0x1_0000_0000 && LetterBoxEntries[i] == (key, Box(width as u32))
    ensures GetLetterBox(key) == Some(Box(width as u32))
  {
    LookupRanked(LetterBoxEntries, KeyRank, i);
  }

  /** '-' is 6 units wide and commas, semicolons, periods and apostrophes 5 units, as the doc comment quotes. */
  lemma PunctuationBoxesMatchDoc()
    ensures GetLetterBox("-") == Some(Box(K.HyphenWidth as u32))
    ensures forall j :: 0 <= j < |K.PunctuationMarks| ==> GetLetterBox([K.PunctuationMarks[j]]) == Some(Box(K.PunctuationWidth as u32))
  {
    LetterBoxesRanked();
    PunctuationEntriesLayout();
    LookupRanked(LetterBoxEntries, KeyRank, 52);
    forall j | 0 <= j < |K.PunctuationMarks|
      ensures GetLetterBox([K.PunctuationMarks[j]]) == Some(Box(K.PunctuationWidth as u32))
    {
      LookupRanked(LetterBoxEntries, KeyRank, 53 + j);
    }
  }

  /** The glue node a (w, y, z) specification describes. */
  function GlueNode(spec: K.GlueSpec): Node
    requires spec.w < 0x1_0000_0000
  {
    Glue(spec.w as u32, spec.y as real, spec.z as real)
  }

  /**
   * `PUNCTUATION_GLUE` holds the glue the doc comment quotes for a space, a
   * comma, a semicolon and a period, and the unflagged hyphen penalty of 50.
   */
  lemma PunctuationGlueMatchesDoc()
    ensures GetPunctuationGlue(" ") == Some(GlueNode(K.BetweenWords))
    ensures GetPunctuationGlue(",") == Some(GlueNode(K.AfterComma))
    ensures GetPunctuationGlue(";") == Some(GlueNode(K.AfterSemicolon))
    ensures GetPunctuationGlue(".") == Some(GlueNode(K.AfterPeriod))
    ensures GetPunctuationGlue("-") == Some(Penalty(0, K.HyphenLinePenalty as i32, false))
  {
    PunctuationGlueRanked();
    LookupRanked(PunctuationGlueEntries, GlueRank, 0);
    LookupRanked(PunctuationGlueEntries, GlueRank, 1);
    LookupRanked(PunctuationGlueEntries, GlueRank, 2);
    LookupRanked(PunctuationGlueEntries, GlueRank, 3);
    LookupRanked(PunctuationGlueEntries, GlueRank, 4);
  }

  /** A digit has neither a box nor glue. */
  lemma DigitsAbsent()
    ensures forall d :: '0' <= d <= '9' ==> GetLetterBox([d]) == None && GetPunctuationGlue([d]) == None
  {
    LetterBoxesRanked();
    PunctuationGlueRanked();
    forall d | '0' <= d <= '9' ensures GetLetterBox([d]) == None && GetPunctuationGlue([d]) == None {
      AbsentByRank(LetterBoxEntries, KeyRank, [d]);
      assert [d][0] == d;
      AbsentByRank(PunctuationGlueEntries, GlueRank, [d]);
    }
  }

  /** A space has glue but no box. */
  lemma SpaceOnlyGlue()
    ensures GetLetterBox(" ") == None && GetPunctuationGlue(" ").Some?
  {
    LetterBoxesRanked();
    AbsentByRank(LetterBoxEntries, KeyRank, " ");
    PunctuationGlueRanked();
    LookupRanked(PunctuationGlueEntries, GlueRank, 0);
  }

  /** An apostrophe has a box but no glue. */
  lemma ApostropheOnlyBox()
    ensures GetLetterBox("'").Some? && GetPunctuationGlue("'") == None
  {
    LetterBoxesRanked();
    assert LetterBoxEntries[56].0 == "'";
    LookupRanked(LetterBoxEntries, KeyRank, 56);
    PunctuationGlueRanked();
    AbsentByRank(PunctuationGlueEntries, GlueRank, "'");
  }
  /** Every (grapheme, box) pair of `LETTER_WIDTHS` in constants.rs has the same box in `LETTER_BOXES`. */
  lemma LetterWidthsAgree()
    ensures forall j :: 0 <= j < |C.LetterWidths| ==> GetLetterBox(C.LetterWidths[j].0) == Some(Box(C.LetterWidths[j].1.width))
  {
    CP.LetterWidthsRanked();
    forall j | 0 <= j < |C.LetterWidths| ensures GetLetterBox(C.LetterWidths[j].0) == Some(Box(C.LetterWidths[j].1.width)) {
      if j < 26 {
        LowercaseWidthAgrees(j);
      } else if j == 26 {
        CapitalCWidthAgrees(j);
      } else if j == 27 {
        CapitalIWidthAgrees(j);
      } else if j == 28 {
        HyphenWidthAgrees(j);
      } else {
        PunctuationWidthAgrees(j - 29);
      }
    }
  }

  // One position of `LETTER_WIDTHS` per lemma keeps each proof small.
  lemma LowercaseWidthAgrees(j: nat)
    requires j < 26
    ensures GetLetterBox(C.LetterWidths[j].0) == Some(Box(C.LetterWidths[j].1.width))
  {
    CP.LowercaseKeys();
    CP.LowercaseEntries();
    LetterBoxesRanked();
    LetterEntriesLayout();
    LookupRanked(LetterBoxEntries, KeyRank, 2 * j);
  }

  lemma CapitalCWidthAgrees(j: nat)
    requires j == 26
    ensures GetLetterBox(C.LetterWidths[j].0) == Some(Box(C.LetterWidths[j].1.width))
  {
    CP.CapitalsAndHyphenEntries();
    UpperCBox();
  }

  lemma CapitalIWidthAgrees(j: nat)
    requires j == 27
    ensures GetLetterBox(C.LetterWidths[j].0) == Some(Box(C.LetterWidths[j].1.width))
  {
    CP.CapitalsAndHyphenEntries();
    UpperIBox();
  }

  lemma HyphenWidthAgrees(j: nat)
    requires j == 28
    ensures GetLetterBox(C.LetterWidths[j].0) == Some(Box(C.LetterWidths[j].1.width))
  {
    CP.CapitalsAndHyphenEntries();
    LetterBoxesRanked();
    PunctuationEntriesLayout();
    LookupRanked(LetterBoxEntries, KeyRank, 52);
  }

  lemma PunctuationWidthAgrees(m: nat)
    requires m < 4
    ensures GetLetterBox(C.LetterWidths[29 + m].0) == Some(Box(C.LetterWidths[29 + m].1.width))
  {
    CP.PunctuationEntries();
    assert C.LetterWidths[29 + m].0 == [K.PunctuationMarks[m]];
    PunctuationBoxesMatchDoc();
  }

  /**
   * `PUNCTUATION_GLUE` holds the four glue constants of constants.rs for a
   * space, a comma, a semicolon and a period, and `HYPHEN_PENALTY` for '-'.
   */
  lemma GlueConstantsAgree()
    ensures GetPunctuationGlue(" ") == Some(Glue(C.WordGlue.width, C.WordGlue.stretchability, C.WordGlue.shrinkability))
    ensures GetPunctuationGlue(",") == Some(Glue(C.CommaGlue.width, C.CommaGlue.stretchability, C.CommaGlue.shrinkability))
    ensures GetPunctuationGlue(";") == Some(Glue(C.SemicolonGlue.width, C.SemicolonGlue.stretchability, C.SemicolonGlue.shrinkability))
    ensures GetPunctuationGlue(".") == Some(Glue(C.PeriodGlue.width, C.PeriodGlue.stretchability, C.PeriodGlue.shrinkability))
    ensures GetPunctuationGlue("-") == Some(Penalty(C.HyphenPenalty.width, C.HyphenPenalty.penalty, C.HyphenPenalty.flagged))
  {
    PunctuationGlueMatchesDoc();
    CP.GlueConstantsMatchDoc();
    CP.HyphenPenaltyMatchesDoc();
  }
}
