/**
 * The character metrics and glue specifications quoted from Knuth and Plass,
 * "Breaking Paragraphs Into Lines" (Digital Typography, p. 75), in the doc
 * comments of constants.rs and nodes.rs. This module is the reference the two
 * tables of the source are checked against; the source itself does not use it.
 */
module KnuthMetrics {

  /** The lower-case letters, in the order the widths are quoted. */
  const Lowercase: string := "abcdefghijklmnopqrstuvwxyz"

  /** The upper-case letters, aligned with `Lowercase`. */
  const Uppercase: string := "ABCDEFGHIJKLMNOPQRSTUVWXYZ"

  /** 'a' through 'z' are respectively this many units wide. */
  const LowercaseWidths: seq<nat> :=
    [9, 10, 8, 10, 8, 6, 9, 10, 5, 6, 10, 5, 15, 10, 9, 10, 10, 7, 7, 7, 10, 9, 13, 10, 10, 8]

  /** 'C', 'I' and '-' are 13, 6 and 6 units wide. */
  const CapitalCWidth: nat := 13
  const CapitalIWidth: nat := 6
  const HyphenWidth: nat := 6

  /** Commas, semicolons, periods and apostrophes occupy 5 units each. */
  const PunctuationMarks: string := ",;.'"
  const PunctuationWidth: nat := 5

  /** A glue specification (w, y, z): natural width, stretchability, shrinkability. */
  datatype GlueSpec = GlueSpec(w: nat, y: nat, z: nat)

  const BetweenWords := GlueSpec(6, 3, 2)
  const AfterComma := GlueSpec(6, 4, 2)
  const AfterSemicolon := GlueSpec(6, 4, 1)
  const AfterPeriod := GlueSpec(8, 6, 1)

  /** The penalty assessed for every line that ends with a hyphen. */
  const HyphenLinePenalty: nat := 50

  /** The letters are consecutive character codes. */
  lemma AlphabetCodes()
    ensures forall i :: 0 <= i < 26 ==> Lowercase[i] as int == 'a' as int + i
    ensures forall i :: 0 <= i < 26 ==> Uppercase[i] as int == 'A' as int + i
  {
  }
}
