# Knuth–Plass front end: paragraph nodes and metric tables

This project models the front end of a Knuth–Plass line breaker written in Rust
(`rust/src/lines/`). The model has three parts, one per source file:

- **graf.rs** (`graf.dfy`, module `Graf`). A paragraph (`Graf`) holds its plain
  text and a growing list of nodes. `parse_nodes` walks the text one grapheme at
  a time and appends one node per grapheme:
  - a space becomes glue (width 3, stretch 1, shrink 1);
  - a hyphen becomes an unflagged penalty of 100 with width 0;
  - anything else becomes a box of width 1.

  The builder uses these fixed values of its own. It does not look at the tables
  below, and the model follows it in that.
  - `Graf` is a class with a `plainText` field and a `nodes: seq<Node>` field.
  - `ParseNodes` is a loop that appends to `nodes`.
  - The meaning of the loop is given by the function `NodesOf`, and the lemmas
    are about that function.
- **nodes.rs** (`nodes.dfy`, modules `Nodes` and `NodesProperties`). This file
  holds the `Node` enum and the two static maps `LETTER_BOXES` (grapheme to box)
  and `PUNCTUATION_GLUE` (grapheme to glue, or to a penalty for the hyphen).
  - Each map is kept as its list of entries in source order. `Tables.MapOf`
    builds the `map` from that list.
  - `GetLetterBox` and `GetPunctuationGlue` are the maps' `get`.
- **constants.rs** (`constants.dfy`, modules `Constants` and
  `ConstantsProperties`). This file holds the `Box`/`Glue`/`Penalty` records,
  the 33-entry `LETTER_WIDTHS` array, the four glue constants and
  `HYPHEN_PENALTY`.

Both tables carry a doc comment that quotes the metrics of Knuth and Plass,
"Breaking Paragraphs Into Lines" (*Digital Typography*, p. 75).
`knuth.dfy` (module `KnuthMetrics`) writes those quoted numbers down once, as
an independent reference. The lemmas check each table against that reference
and the two tables against each other.

Supporting files:
- `primitives.dfy`: `u32`, `i32` and `Option`.
- `tables.dfy`: lookup in an entry list, first match wins. It also has a
  rank-function technique that proves a list's keys distinct.

## Model

| member | source | states |
|---|---|---|
| Graf.GraphemeNodeKinds | rust/src/lines/graf.rs:28-40 | the node names the kind of its grapheme: glue exactly for `" "` (3/1/1), a penalty exactly for `"-"` (0, 100, unflagged), a width-1 box exactly for every other grapheme |
| Graf.SameNodeSameKind | rust/src/lines/graf.rs:28-40 | two graphemes give the same node if and only if they are both spaces, both hyphens or both something else |
| Graf.NodesOf | rust/src/lines/graf.rs:27-42 | one node per grapheme: the result is as long as the input and node `i` is the node of grapheme `i` |
| Graf.NodesOfAppend | rust/src/lines/graf.rs:27-42 | the nodes of `a + b` are the nodes of `a` followed by the nodes of `b`, so order follows input order |
| Graf.RepeatedParse | rust/src/lines/graf.rs:26-44 | appending the nodes of the same graphemes twice is the same as appending the nodes of the doubled grapheme list; with `ParseNodes`, a second call duplicates the nodes |
| Graf.ExampleNodes | rust/src/lines/graf.rs:27-42 | `a`, ` `, `b`, `-`, `c` becomes box, glue, box, penalty, box |
| Graf.NodeCounts | rust/src/lines/graf.rs:28-40 | the glue count equals the number of space graphemes, the penalty count the number of hyphens, and the box count the number of other graphemes; the total width is 3 per space plus 1 per other grapheme |
| Graf.SegmentedNodes | rust/src/lines/graf.rs:27 | for any segmentation of the text into non-empty graphemes, there are no more nodes than characters, no glue unless the text has a space, and no penalty unless it has a hyphen |
| Graf.Graf.constructor | rust/src/lines/graf.rs:19-24 | `new` keeps the text unchanged and starts with no nodes |
| Graf.Graf.ParseNodes | rust/src/lines/graf.rs:26-44 | the text is unchanged; the new node list is the old list followed by `NodesOf` of the text's graphemes, so existing nodes stay as a prefix |
| Graf.Graf.GetNodes | rust/src/lines/graf.rs:46-48 | returns the node list with the same length and every node in its place |
| Graf.Graf.ToVec | rust/src/lines/graf.rs:50-52 | the copy it builds holds exactly the nodes, in order |
| Tables.Lookup | rust/src/lines/nodes.rs:33-99 | a found value belongs to an entry with that key; nothing is found if and only if no entry has the key |
| Tables.MapOf | rust/src/lines/nodes.rs:33-99 | the map built from the entries has a key if and only if lookup in the entry list finds it, and maps it to the value found there |
| Tables.GetMapOf | rust/src/lines/nodes.rs:33-99 | `get` on the built map agrees with lookup in the entry list |
| Nodes.GetLetterBox | rust/src/lines/nodes.rs:33-91 | `LETTER_BOXES.get` returns the entry for the grapheme; every hit is a `Box` between 5 and 15 units wide |
| Nodes.LetterBoxEntriesAreBoxes | rust/src/lines/nodes.rs:33-91 | every value in `LETTER_BOXES` is a `Box` of width 5 to 15 |
| Nodes.GetPunctuationGlue | rust/src/lines/nodes.rs:93-99 | `PUNCTUATION_GLUE.get` returns the entry for the grapheme; a hit is glue exactly when the grapheme is not `"-"` and a penalty exactly when it is |
| NodesProperties.LowercaseBoxesMatchDoc | rust/src/lines/nodes.rs:23-85 | `a` to `z` have the widths 9, 10, 8, …, 8 of the doc comment |
| NodesProperties.UppercaseBoxesMatchDoc | rust/src/lines/nodes.rs:23-85 | `A` to `Z` have the lower-case width, except `C` (13) and `I` (6), which have the doc comment's widths |
| NodesProperties.CaseAgreement | rust/src/lines/nodes.rs:34-85 | an upper-case letter is as wide as its lower-case letter if and only if the letter is neither c nor i |
| NodesProperties.CaseExceptions | rust/src/lines/nodes.rs:38-51 | c/C are 8 and 13 units wide, i/I 5 and 6 |
| NodesProperties.PunctuationBoxesMatchDoc | rust/src/lines/nodes.rs:26-90 | `-` is 6 units wide; `,` `;` `.` `'` are 5 units wide |
| NodesProperties.PunctuationGlueMatchesDoc | rust/src/lines/nodes.rs:27-98 | space, comma, semicolon and period have glue (6,3,2), (6,4,2), (6,4,1) and (8,6,1); `-` has an unflagged penalty of 50 with width 0 |
| NodesProperties.DigitsAbsent | rust/src/lines/nodes.rs:33-99 | a digit is in neither table |
| NodesProperties.SpaceOnlyGlue | rust/src/lines/nodes.rs:33-99 | a space is in the glue table only |
| NodesProperties.ApostropheOnlyBox | rust/src/lines/nodes.rs:33-99 | an apostrophe is in the box table only |
| NodesProperties.LetterWidthsAgree | rust/src/lines/constants.rs:30-64 | every key of `LETTER_WIDTHS` is a key of `LETTER_BOXES` with the same width |
| NodesProperties.GlueConstantsAgree | rust/src/lines/nodes.rs:93-98 | `PUNCTUATION_GLUE` holds `WORD_GLUE`, `COMMA_GLUE`, `SEMICOLON_GLUE` and `PERIOD_GLUE` for space, comma, semicolon and period, and `HYPHEN_PENALTY` for `-` |
| ConstantsProperties.LetterWidthsKeysDistinct | rust/src/lines/constants.rs:30-64 | `LETTER_WIDTHS` has 33 entries with pairwise distinct keys |
| ConstantsProperties.LowercaseWidthsMatchDoc | rust/src/lines/constants.rs:20-56 | looking up `a` to `z` yields the doc comment's widths |
| ConstantsProperties.CapitalsAndHyphenMatchDoc | rust/src/lines/constants.rs:57-59 | `C`, `I` and `-` are 13, 6 and 6 units wide |
| ConstantsProperties.PunctuationWidthsMatchDoc | rust/src/lines/constants.rs:60-63 | `,` `;` `.` `'` are 5 units wide |
| ConstantsProperties.UppercaseMostlyAbsent | rust/src/lines/constants.rs:30-64 | no upper-case letter other than `C` and `I` has an entry |
| ConstantsProperties.GlueConstantsMatchDoc | rust/src/lines/constants.rs:66-88 | the four glue constants are (6,3,2), (6,4,2), (6,4,1) and (8,6,1) |
| ConstantsProperties.HyphenPenaltyMatchesDoc | rust/src/lines/constants.rs:90-94 | `HYPHEN_PENALTY` has width 0, penalty 50 and is not flagged |

## Left out

- Grapheme segmentation, which the `unicode_segmentation` crate performs, is foreign code. `ParseNodes` takes it as a function parameter. `SegmentedNodes` assumes only that the result is a segmentation of the text into non-empty graphemes, not the Unicode rules.
- The breakpoint scanner, the optimiser, `parse` and `get_hyphens` are called from `lib.rs` and `main.rs`, but none of them is defined in the core files. Nothing is known of their behaviour.
- `f32` stretch and shrink values are modelled as `real`. No arithmetic is done on them.
- `u32` and `i32` fields are bounded newtypes. No operation here can overflow them.
- `phf_map!` is modelled as a `map` built from its entry list. Perfect hashing is an implementation detail of the lookup.
- The `Null` node of nodes.rs is a constructor only. No code in the core produces it.
- The wasm binding, the command-line entry point and debug printing are I/O glue.
- The JavaScript/TypeScript demos and the bundler configurations are unrelated to line breaking.
- The sample paragraphs `GRAFS` and `KNUTH_EXAMPLE_GRAF` in constants.rs are test data only.
- Graf.Graf.ToVec: returns the nodes by value. The source returns a vector of references into the paragraph, so the model does not capture aliasing.
