// parser/ASTNode.kt: the syntax tree the parser builds and `asReversed`, which
// turns a lookbehind body around so that it can be matched right to left.

module Ast {
  import opened Utils
  import opened Numeric

  /** The four subclasses of the sealed `LookNode`. */
  datatype LookKind = PositiveLookahead | PositiveLookbehind | NegativeLookahead | NegativeLookbehind

  datatype ASTNode =
    | RootNode(groupNames: seq<(int16, string)>, numGroups: int16, nodes: seq<ASTNode>)
    | GroupNode(index: Option<int16>, nodes: seq<ASTNode>)
    | CodePointNode(codePoint: int32)
      /** The `ByteArray` of a list, as signed Kotlin `Byte` values */
    | CodePointListNode(codePoints: seq<int8>)
    | NegateNode(node: ASTNode)
    | StartNode
    | EndNode
    | AnyNode
    | WordNode
    | WordBoundaryNode
    | DigitNode
    | WhitespaceNode
    | MatchNode
    | UnicodeClassNode(name: string)
      /**
       * May name no group; the compiler then emits it as a code point.
       * `awaiting` stands for the object identity the parser uses to patch a
       * `\k<name>` reference once all groups are known: the name it waits
       * for, and None once patched (or for a numbered reference).
       */
    | BackReferenceNode(refIndex: int16, awaiting: Option<string>)
    | CharacterClassNode(nodes: seq<ASTNode>)
    | InvertedCharacterClassNode(nodes: seq<ASTNode>)
    | CodePointRangeNode(start: int32, end: int32)
    | ZeroOrOneNode(node: ASTNode, lazy: bool)
    | ZeroOrMoreNode(node: ASTNode, lazy: bool)
    | OneOrMoreNode(node: ASTNode, lazy: bool)
    | RepetitionNode(node: ASTNode, min: int16, max: Option<int16>, lazy: bool)
    | AlternationNode(lhs: ASTNode, rhs: ASTNode)
    | LookNode(kind: LookKind, nodes: seq<ASTNode>)

  /** A node statically known to be a `RootNode`. */
  type Root = n: ASTNode | n.RootNode? witness RootNode([], 0, [])

  /** The classes implementing the `QuantifierNode` interface. */
  predicate IsQuantifier(n: ASTNode)
  {
    n.ZeroOrOneNode? || n.ZeroOrMoreNode? || n.OneOrMoreNode? || n.RepetitionNode?
  }

  /** Nodes that keep the default `asReversed() = this`. */
  predicate IsLeaf(n: ASTNode)
  {
    n.CodePointNode? || n.CodePointListNode? || n.StartNode? || n.EndNode? || n.AnyNode?
    || n.WordNode? || n.WordBoundaryNode? || n.DigitNode? || n.WhitespaceNode? || n.MatchNode?
    || n.UnicodeClassNode? || n.BackReferenceNode? || n.CharacterClassNode?
    || n.InvertedCharacterClassNode? || n.CodePointRangeNode?
  }

  /** Nodes whose `asReversed` reverses their child list. */
  predicate HasChildList(n: ASTNode)
  {
    n.RootNode? || n.GroupNode? || n.LookNode?
  }

  /** `nodes.asReversed().map(ASTNode::asReversed)`: a reversed view, each child reversed. */
  function ReverseChildren(ns: seq<ASTNode>): (r: seq<ASTNode>)
    ensures |r| == |ns|
    decreases ns, 0
  {
    seq(|ns|, i requires 0 <= i < |ns| => AsReversed(ns[|ns| - 1 - i]))
  }

  function AsReversed(n: ASTNode): ASTNode
    decreases n, 1
  {
    match n
    case RootNode(g, k, ns) => RootNode(g, k, ReverseChildren(ns))
    case GroupNode(idx, ns) => GroupNode(idx, ReverseChildren(ns))
    case NegateNode(m) => NegateNode(AsReversed(m))
    case ZeroOrOneNode(m, lz) => ZeroOrOneNode(AsReversed(m), lz)
    case ZeroOrMoreNode(m, lz) => ZeroOrMoreNode(AsReversed(m), lz)
    case OneOrMoreNode(m, lz) => OneOrMoreNode(AsReversed(m), lz)
    case RepetitionNode(m, lo, hi, lz) => RepetitionNode(AsReversed(m), lo, hi, lz)
    case AlternationNode(l, r) => AlternationNode(AsReversed(l), AsReversed(r))
    case LookNode(kind, ns) => LookNode(kind, ReverseChildren(ns))
    case _ => n
  }

  /** Every leaf is its own reversal. */
  lemma AsReversedLeaf(n: ASTNode)
    requires IsLeaf(n)
    ensures AsReversed(n) == n
  {
  }

  /**
   * For Root, Group and the four lookarounds, child `i` of the reversal is the
   * reversal of child `|nodes| - 1 - i`; the node kind, group index, group
   * names and group count are unchanged.
   */
  lemma AsReversedReversesChildren(n: ASTNode)
    requires HasChildList(n)
    ensures HasChildList(AsReversed(n)) && |AsReversed(n).nodes| == |n.nodes|
    ensures forall i | 0 <= i < |n.nodes| ::
              AsReversed(n).nodes[i] == AsReversed(n.nodes[|n.nodes| - 1 - i])
    ensures n.RootNode? ==> AsReversed(n).RootNode? && AsReversed(n).groupNames == n.groupNames
                            && AsReversed(n).numGroups == n.numGroups
    ensures n.GroupNode? ==> AsReversed(n).GroupNode? && AsReversed(n).index == n.index
    ensures n.LookNode? ==> AsReversed(n).LookNode? && AsReversed(n).kind == n.kind
  {
  }

  /**
   * Negation, quantifiers and alternation keep their shape: the same
   * constructor, laziness and bounds, and `lhs`/`rhs` stay on their side.
   */
  lemma AsReversedKeepsShape(n: ASTNode)
    ensures n.NegateNode? ==> AsReversed(n) == NegateNode(AsReversed(n.node))
    ensures IsQuantifier(n) <==> IsQuantifier(AsReversed(n))
    ensures IsQuantifier(n) ==> AsReversed(n).node == AsReversed(n.node)
                                && AsReversed(n).lazy == n.lazy
    ensures n.ZeroOrOneNode? ==> AsReversed(n).ZeroOrOneNode?
    ensures n.ZeroOrMoreNode? ==> AsReversed(n).ZeroOrMoreNode?
    ensures n.OneOrMoreNode? ==> AsReversed(n).OneOrMoreNode?
    ensures n.RepetitionNode? ==> AsReversed(n).RepetitionNode? && AsReversed(n).min == n.min
                                  && AsReversed(n).max == n.max
    ensures n.AlternationNode? ==> AsReversed(n) == AlternationNode(AsReversed(n.lhs), AsReversed(n.rhs))
  {
  }

  /** Reversing twice gives back the original tree. */
  lemma {:induction false} AsReversedInvolution(n: ASTNode)
    ensures AsReversed(AsReversed(n)) == n
    decreases n
  {
    if HasChildList(n) {
      ReverseChildrenInvolution(n.nodes);
    } else if n.AlternationNode? {
      AsReversedInvolution(n.lhs);
      AsReversedInvolution(n.rhs);
    } else if n.NegateNode? || IsQuantifier(n) {
      AsReversedInvolution(n.node);
    }
  }

  lemma {:induction false} ReverseChildrenInvolution(ns: seq<ASTNode>)
    ensures ReverseChildren(ReverseChildren(ns)) == ns
    decreases ns
  {
    var r := ReverseChildren(ns);
    forall i | 0 <= i < |ns|
      ensures ReverseChildren(r)[i] == ns[i]
    {
      assert r[|ns| - 1 - i] == AsReversed(ns[i]);
      AsReversedInvolution(ns[i]);
    }
  }

  /**
   * A weight that strictly decreases from a class or lookaround node to the
   * root copy the compiler builds around its children.
   */
  function Size(n: ASTNode): nat
    decreases n, 1
  {
    match n
    case RootNode(_, _, ns) => 1 + SizeAll(ns)
    case GroupNode(_, ns) => 1 + SizeAll(ns)
    case CharacterClassNode(ns) => 2 + SizeAll(ns)
    case InvertedCharacterClassNode(ns) => 2 + SizeAll(ns)
    case LookNode(_, ns) => 2 + SizeAll(ns)
    case NegateNode(m) => 1 + Size(m)
    case ZeroOrOneNode(m, _) => 1 + Size(m)
    case ZeroOrMoreNode(m, _) => 1 + Size(m)
    case OneOrMoreNode(m, _) => 1 + Size(m)
    case RepetitionNode(m, _, _, _) => 1 + Size(m)
    case AlternationNode(l, r) => 1 + Size(l) + Size(r)
    case _ => 1
  }

  function SizeAll(ns: seq<ASTNode>): nat
    decreases ns, 0
  {
    if ns == [] then 0 else SizeAll(ns[..|ns| - 1]) + Size(ns[|ns| - 1])
  }

  /** Each child weighs less than the list it belongs to (plus one). */
  lemma {:induction false} SizeAllBounds(ns: seq<ASTNode>, i: int)
    requires 0 <= i < |ns|
    ensures Size(ns[i]) <= SizeAll(ns)
    decreases |ns|
  {
    if i < |ns| - 1 {
      SizeAllBounds(ns[..|ns| - 1], i);
    }
  }
}
