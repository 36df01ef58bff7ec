/**
 * graf.rs: a paragraph (`Graf`) that turns its text into one node per
 * grapheme. The builder uses its own fixed metrics (a space is glue 3/1/1, a
 * hyphen a penalty of 100, anything else a box of width 1), not the tables of
 * nodes.rs and constants.rs.
 *
 * Splitting the text into extended grapheme clusters is done by a foreign
 * library in the source; here it is the parameter `segment`.
 */
module Graf {
  import opened Primitives
  import C = Constants

  /** A node of the paragraph: a box, glue or a penalty, each carrying its record. */
  datatype Node =
    | Box(box: C.Box)
    | Glue(glue: C.Glue)
    | Penalty(penalty: C.Penalty)

  /** The glue `parse_nodes` gives a space. */
  const SpaceGlue := C.Glue(3, 1.0, 1.0)

  /** The penalty `parse_nodes` gives a hyphen. */
  const HyphenPenalty := C.Penalty(0, 100, false)

  /** The box `parse_nodes` gives every other grapheme. */
  const GraphemeBox := C.Box(1)

  /** The node of one grapheme, as the `match` in `parse_nodes` chooses it. */
  function GraphemeNode(g: string): Node {
    if g == " " then Glue(SpaceGlue)
    else if g == "-" then Penalty(HyphenPenalty)
    else Box(GraphemeBox)
  }

  /** What a node reveals about the grapheme it was built from. */
  datatype Kind = Space | Hyphen | Other

  function KindOf(g: string): Kind {
    if g == " " then Space else if g == "-" then Hyphen else Other
  }

  /** Reads back the kind of grapheme a node of the builder stands for. */
  function NodeKind(n: Node): Kind {
    match n
    case Glue(_) => Space
    case Penalty(_) => Hyphen
    case Box(_) => Other
  }

  /**
   * The builder is total and loses exactly the distinction between graphemes
   * of the same kind: the node names the kind, and each kind has one node.
   */
  lemma GraphemeNodeKinds(g: string)
    ensures NodeKind(GraphemeNode(g)) == KindOf(g)
    ensures GraphemeNode(g).Glue? <==> g == " "
    ensures GraphemeNode(g).Penalty? <==> g == "-"
    ensures GraphemeNode(g).Box? <==> g != " " && g != "-"
    ensures GraphemeNode(g).Glue? ==> GraphemeNode(g).glue == SpaceGlue
    ensures GraphemeNode(g).Penalty? ==> GraphemeNode(g).penalty == HyphenPenalty
    ensures GraphemeNode(g).Box? ==> GraphemeNode(g).box == GraphemeBox
  {
  }

  /** Two graphemes give the same node exactly when they are of the same kind. */
  lemma SameNodeSameKind(g: string, h: string)
    ensures GraphemeNode(g) == GraphemeNode(h) <==> KindOf(g) == KindOf(h)
  {
    GraphemeNodeKinds(g);
    GraphemeNodeKinds(h);
  }

  /** The nodes of a sequence of graphemes: one per grapheme, in order. */
  function NodesOf(gs: seq<string>): (r: seq<Node>)
    ensures |r| == |gs|
    ensures forall i :: 0 <= i < |gs| ==> r[i] == GraphemeNode(gs[i])
  {
    if gs == [] then [] else [GraphemeNode(gs[0])] + NodesOf(gs[1..])
  }

  /** Building nodes commutes with concatenating grapheme sequences. */
  lemma NodesOfAppend(a: seq<string>, b: seq<string>)
    ensures NodesOf(a + b) == NodesOf(a) + NodesOf(b)
  {
    assert forall i :: 0 <= i < |a + b| ==> NodesOf(a + b)[i] == (NodesOf(a) + NodesOf(b))[i];
  }

  /** Appending the nodes of the same graphemes twice is parsing them doubled. */
  lemma RepeatedParse(ns: seq<Node>, gs: seq<string>)
    ensures ns + NodesOf(gs) + NodesOf(gs) == ns + NodesOf(gs + gs)
  {
    NodesOfAppend(gs, gs);
  }

  /** "a b-c", one grapheme per character, becomes box, glue, box, penalty, box. */
  lemma ExampleNodes()
    ensures NodesOf(["a", " ", "b", "-", "c"]) ==
      [Box(C.Box(1)), Glue(C.Glue(3, 1.0, 1.0)), Box(C.Box(1)), Penalty(C.Penalty(0, 100, false)), Box(C.Box(1))]
  {
  }

  /** The number of elements of `s` that satisfy `p`. */
  function CountIf<T>(s: seq<T>, p: T -> bool): (n: nat)
    ensures n <= |s|
  {
    if s == [] then 0 else (if p(s[0]) then 1 else 0) + CountIf(s[1..], p)
  }

  /** The total width of a run of nodes, as the line breaker would add it up. */
  function TotalWidth(ns: seq<Node>): nat {
    if ns == [] then 0
    else
      (match ns[0]
       case Box(b) => b.width as nat
       case Glue(g) => g.width as nat
       case Penalty(p) => p.width as nat) + TotalWidth(ns[1..])
  }

  /**
   * The glue nodes are the spaces, the penalties the hyphens and the boxes
   * everything else, counted grapheme for grapheme; the node widths add up
   * to three per space and one per other grapheme.
   */
  lemma {:induction false} NodeCounts(gs: seq<string>)
    ensures CountIf(NodesOf(gs), (n: Node) => n.Glue?) == CountIf(gs, (g: string) => g == " ")
    ensures CountIf(NodesOf(gs), (n: Node) => n.Penalty?) == CountIf(gs, (g: string) => g == "-")
    ensures CountIf(NodesOf(gs), (n: Node) => n.Box?) == CountIf(gs, (g: string) => g != " " && g != "-")
    ensures TotalWidth(NodesOf(gs)) == 3 * CountIf(gs, (g: string) => g == " ") + CountIf(gs, (g: string) => g != " " && g != "-")
  {
    if gs != [] {
      NodeCounts(gs[1..]);
      assert NodesOf(gs)[1..] == NodesOf(gs[1..]);
    }
  }

  /** The characters of a sequence of graphemes, joined in order. */
  function Concat(gs: seq<string>): string {
    if gs == [] then "" else gs[0] + Concat(gs[1..])
  }

  /** A segmentation of `text`: non-empty graphemes that join up to the text. */
  predicate IsSegmentation(gs: seq<string>, text: string) {
    Concat(gs) == text && forall i :: 0 <= i < |gs| ==> gs[i] != ""
  }

  /** Every character of a grapheme occurs in the joined text. */
  lemma {:induction false} ConcatContains(gs: seq<string>, i: nat, c: char)
    requires i < |gs| && c in gs[i]
    ensures c in Concat(gs)
  {
    if i > 0 {
      ConcatContains(gs[1..], i - 1, c);
    }
  }

  /** A segmentation has at most as many graphemes as the text has characters. */
  lemma {:induction false} SegmentationLength(gs: seq<string>, text: string)
    requires IsSegmentation(gs, text)
    ensures |gs| <= |text|
  {
    if gs != [] {
      SegmentationLength(gs[1..], Concat(gs[1..]));
      assert text == gs[0] + Concat(gs[1..]);
    }
  }

  /**
   * For a segmentation of the text, `parse_nodes` makes no more nodes than the
   * text has characters, makes no glue when the text has no space, and makes
   * no penalty when it has no hyphen.
   */
  lemma SegmentedNodes(gs: seq<string>, text: string)
    requires IsSegmentation(gs, text)
    ensures |NodesOf(gs)| <= |text|
    ensures ' ' !in text ==> forall i :: 0 <= i < |gs| ==> !NodesOf(gs)[i].Glue?
    ensures '-' !in text ==> forall i :: 0 <= i < |gs| ==> !NodesOf(gs)[i].Penalty?
  {
    SegmentationLength(gs, text);
    forall i | 0 <= i < |gs|
      ensures ' ' !in text ==> !NodesOf(gs)[i].Glue?
      ensures '-' !in text ==> !NodesOf(gs)[i].Penalty?
    {
      if gs[i] == " " {
        ConcatContains(gs, i, ' ');
      } else if gs[i] == "-" {
        ConcatContains(gs, i, '-');
      }
    }
  }

  /** `Graf`: the paragraph text and the nodes built from it so far. */
  class Graf {
    var plainText: string
    var nodes: seq<Node>

    /** `Graf::new`: keeps the text as given, with no nodes yet. */
    constructor (plainText: string)
      ensures this.plainText == plainText
      ensures nodes == []
    {
      this.plainText := plainText;
      nodes := [];
    }

    /**
     * `Graf::parse_nodes`: appends one node per grapheme of the text, in
     * order, keeping the nodes already there and the text itself.
     */
    method ParseNodes(segment: string -> seq<string>)
      modifies this
      ensures plainText == old(plainText)
      ensures nodes == old(nodes) + NodesOf(segment(plainText))
    {
      var graphemes := segment(plainText);
      var index := 0;
      while index < |graphemes|
        invariant 0 <= index <= |graphemes|
        invariant plainText == old(plainText)
        invariant nodes == old(nodes) + NodesOf(graphemes[..index])
      {
        var grapheme := graphemes[index];
        var node;
        if grapheme == " " {
          node := Glue(C.Glue(3, 1.0, 1.0));
        } else if grapheme == "-" {
          node := Penalty(C.Penalty(0, 100, false));
        } else {
          node := Box(C.Box(1));
        }
        assert graphemes[..index + 1] == graphemes[..index] + [grapheme];
        NodesOfAppend(graphemes[..index], [grapheme]);
        nodes := nodes + [node];
        index := index + 1;
      }
      assert graphemes[..index] == graphemes;
    }

    /** `Graf::get_nodes`: the node list itself. */
    function GetNodes(): (r: seq<Node>)
      reads this
      ensures |r| == |nodes| && forall i :: 0 <= i < |r| ==> r[i] == nodes[i]
    {
      nodes
    }

    /** `Graf::to_vec`: a new list holding the nodes in the same order. */
    method ToVec() returns (r: seq<Node>)
      ensures r == nodes
    {
      r := [];
      var index := 0;
      while index < |nodes|
        invariant 0 <= index <= |nodes|
        invariant r == nodes[..index]
      {
        r := r + [nodes[index]];
        index := index + 1;
      }
      assert nodes[..index] == nodes;
    }
  }
}
