// parser/Optimizer.kt: coalesces runs of small code points in one child list
// into `CodePointListNode`s.

module Optimizer {
  import opened Utils
  import opened Numeric
  import opened Ast

  /** A code point the optimizer folds into a run: `codePoint <= Byte.MAX_VALUE`. */
  predicate IsSmall(n: ASTNode)
  {
    n.CodePointNode? && n.codePoint <= BYTE_MAX
  }

  /** The loop's two mutable lists: `newNodes` and `runningCodePointBytes`. */
  datatype Acc = Acc(newNodes: seq<ASTNode>, running: seq<int8>)

  /** One iteration of the `for (node in nodes)` loop of `optimizeChildren`. */
  function Step(acc: Acc, node: ASTNode): Acc
  {
    if IsSmall(node) then
      if |acc.running| == BYTE_MAX then
        Acc(acc.newNodes + [CodePointListNode(acc.running)], [ToByte(node.codePoint)])
      else
        Acc(acc.newNodes, acc.running + [ToByte(node.codePoint)])
    else
      Acc(acc.newNodes + Flushed(acc.running) + [node], [])
  }

  /**
   * What a node that is not small flushes before itself: a run of two or more
   * bytes as a list, a single byte as a plain code point, nothing otherwise.
   */
  function Flushed(running: seq<int8>): seq<ASTNode>
  {
    if |running| >= 2 then [CodePointListNode(running)]
    else if |running| == 1 then [CodePointNode(running[0])]
    else []
  }

  /** The loop state after visiting every node of `nodes`, in order. */
  function Fold(nodes: seq<ASTNode>): Acc
  {
    if nodes == [] then Acc([], []) else Step(Fold(nodes[..|nodes| - 1]), nodes[|nodes| - 1])
  }

  /**
   * What `optimizeChildren` returns: `newNodes` after the loop. The final
   * `runningCodePointBytes` is not flushed.
   */
  function OptimizedChildren(nodes: seq<ASTNode>): seq<ASTNode>
  {
    Fold(nodes).newNodes
  }

  /** `optimizeChildren`, as the source's loop over two growing lists. */
  method OptimizeChildren(nodes: seq<ASTNode>) returns (newNodes: seq<ASTNode>)
    ensures newNodes == OptimizedChildren(nodes)
  {
    newNodes := [];
    var running: seq<int8> := [];
    for i := 0 to |nodes|
      invariant Acc(newNodes, running) == Fold(nodes[..i])
    {
      assert nodes[..i + 1][..i] == nodes[..i];
      var node := nodes[i];
      if node.CodePointNode? && node.codePoint <= BYTE_MAX {
        if |running| == BYTE_MAX {
          newNodes := newNodes + [CodePointListNode(running)];
          running := [];
        }
        running := running + [ToByte(node.codePoint)];
      } else {
        if |running| >= 2 {
          newNodes := newNodes + [CodePointListNode(running)];
          running := [];
        } else if |running| == 1 {
          newNodes := newNodes + [CodePointNode(running[0])];
          running := [];
        }
        newNodes := newNodes + [node];
      }
    }
    assert nodes[..|nodes|] == nodes;
  }

  /** `Optimizer.optimize`: a list-bearing node gets its own child list coalesced. */
  function Optimize(node: ASTNode): ASTNode
  {
    match node
    case RootNode(g, k, ns) => RootNode(g, k, OptimizedChildren(ns))
    case GroupNode(idx, ns) => GroupNode(idx, OptimizedChildren(ns))
    case NegateNode(m) => NegateNode(Optimize(m))
    case CharacterClassNode(ns) => CharacterClassNode(OptimizedChildren(ns))
    case InvertedCharacterClassNode(ns) => InvertedCharacterClassNode(OptimizedChildren(ns))
    case ZeroOrOneNode(m, lz) => ZeroOrOneNode(Optimize(m), lz)
    case ZeroOrMoreNode(m, lz) => ZeroOrMoreNode(Optimize(m), lz)
    case OneOrMoreNode(m, lz) => OneOrMoreNode(Optimize(m), lz)
    case RepetitionNode(m, lo, hi, lz) => RepetitionNode(Optimize(m), lo, hi, lz)
    case AlternationNode(l, r) => AlternationNode(Optimize(l), Optimize(r))
    case LookNode(kind, ns) => LookNode(kind, OptimizedChildren(ns))
    case _ => node
  }

  // ---------------------------------------------------------------------------
  // Properties of one optimized list

  predicate NoLists(ns: seq<ASTNode>)
  {
    forall i | 0 <= i < |ns| :: !ns[i].CodePointListNode?
  }

  /** The lists the optimizer emits: 2 to 127 bytes. */
  predicate WellFormedList(n: ASTNode)
  {
    n.CodePointListNode? ==> 2 <= |n.codePoints| <= BYTE_MAX
  }

  /** The loop state keeps its lists well formed and its run at most 127 bytes. */
  lemma {:induction false} FoldWellFormed(nodes: seq<ASTNode>)
    requires NoLists(nodes)
    ensures |Fold(nodes).running| <= BYTE_MAX
    ensures forall i | 0 <= i < |Fold(nodes).newNodes| :: WellFormedList(Fold(nodes).newNodes[i])
  {
    if nodes != [] {
      FoldWellFormed(nodes[..|nodes| - 1]);
    }
  }

  /** Every emitted `CodePointListNode` holds between 2 and 127 byte values. */
  lemma ListsAreBounded(nodes: seq<ASTNode>)
    requires NoLists(nodes)
    ensures forall i | 0 <= i < |OptimizedChildren(nodes)| :: WellFormedList(OptimizedChildren(nodes)[i])
  {
    FoldWellFormed(nodes);
  }

  /** The nodes that are neither small code points nor lists, in order. */
  function Others(ns: seq<ASTNode>): seq<ASTNode>
  {
    if ns == [] then []
    else
      var last := ns[|ns| - 1];
      Others(ns[..|ns| - 1]) + (if IsSmall(last) || last.CodePointListNode? then [] else [last])
  }

  lemma {:induction false} OthersAppend(a: seq<ASTNode>, b: seq<ASTNode>)
    ensures Others(a + b) == Others(a) + Others(b)
    decreases |b|
  {
    if b == [] {
      assert a + b == a;
    } else {
      var init := b[..|b| - 1];
      var last := b[|b| - 1];
      assert (a + b)[..|a + b| - 1] == a + init && (a + b)[|a + b| - 1] == last;
      OthersAppend(a, init);
      var tail := if IsSmall(last) || last.CodePointListNode? then [] else [last];
      assert Others(a + b) == Others(a + init) + tail;
      assert Others(b) == Others(init) + tail;
    }
  }

  lemma OthersSingle(n: ASTNode)
    ensures Others([n]) == if IsSmall(n) || n.CodePointListNode? then [] else [n]
  {
    assert [n][..0] == [];
  }

  /** What one loop step adds to the output has the same other nodes as the visited node. */
  lemma StepOthers(acc: Acc, node: ASTNode)
    requires !node.CodePointListNode?
    ensures Others(Step(acc, node).newNodes) == Others(acc.newNodes) + Others([node])
  {
    OthersSingle(node);
    if IsSmall(node) {
      if |acc.running| == BYTE_MAX {
        assert Step(acc, node).newNodes == acc.newNodes + [CodePointListNode(acc.running)];
        OthersAppend(acc.newNodes, [CodePointListNode(acc.running)]);
        OthersSingle(CodePointListNode(acc.running));
      } else {
        assert Step(acc, node).newNodes == acc.newNodes;
      }
    } else {
      StepOthersFlush(acc, node, Flushed(acc.running));
    }
  }

  lemma StepOthersFlush(acc: Acc, node: ASTNode, flushed: seq<ASTNode>)
    requires !IsSmall(node) && !node.CodePointListNode? && flushed == Flushed(acc.running)
    ensures Others(Step(acc, node).newNodes) == Others(acc.newNodes) + Others([node])
  {
    assert Step(acc, node).newNodes == acc.newNodes + flushed + [node];
    OthersAppend(acc.newNodes + flushed, [node]);
    OthersAppend(acc.newNodes, flushed);
    if flushed != [] {
      assert flushed == [flushed[0]];
      OthersSingle(flushed[0]);
    }
  }

  /** Other nodes come out unchanged and in their original relative order. */
  lemma {:induction false} OthersPreserved(nodes: seq<ASTNode>)
    requires NoLists(nodes)
    ensures Others(OptimizedChildren(nodes)) == Others(nodes)
  {
    if nodes != [] {
      var init := nodes[..|nodes| - 1];
      var last := nodes[|nodes| - 1];
      OthersPreserved(init);
      FoldWellFormed(init);
      StepOthers(Fold(init), last);
      OthersAppend(init, [last]);
      assert init + [last] == nodes;
    }
  }

  predicate NoAdjacentSmall(ns: seq<ASTNode>)
  {
    forall i | 0 <= i < |ns| - 1 :: !(IsSmall(ns[i]) && IsSmall(ns[i + 1]))
  }

  /**
   * No two small code points are adjacent in the output, and the output never
   * ends with one (a flushed single is always followed by the node that
   * flushed it).
   */
  lemma {:induction false} FoldNoAdjacentSmall(nodes: seq<ASTNode>)
    ensures NoAdjacentSmall(Fold(nodes).newNodes)
    ensures |Fold(nodes).newNodes| > 0 ==> !IsSmall(Fold(nodes).newNodes[|Fold(nodes).newNodes| - 1])
  {
    if nodes != [] {
      FoldNoAdjacentSmall(nodes[..|nodes| - 1]);
    }
  }

  lemma NoTwoSmallCodePointsAdjacent(nodes: seq<ASTNode>)
    ensures NoAdjacentSmall(OptimizedChildren(nodes))
  {
    FoldNoAdjacentSmall(nodes);
  }

  /** Lists read back as one code point per byte; other nodes as themselves. */
  function Expand(ns: seq<ASTNode>): seq<ASTNode>
  {
    if ns == [] then []
    else
      var last := ns[|ns| - 1];
      Expand(ns[..|ns| - 1]) + (if last.CodePointListNode? then Singles(last.codePoints) else [last])
  }

  function Singles(bs: seq<int8>): (r: seq<ASTNode>)
    ensures |r| == |bs|
  {
    seq(|bs|, j requires 0 <= j < |bs| => CodePointNode(bs[j]))
  }

  /** The input as the optimizer sees it: small code points truncated to a `Byte`. */
  function Truncated(ns: seq<ASTNode>): (r: seq<ASTNode>)
    ensures |r| == |ns|
  {
    seq(|ns|, j requires 0 <= j < |ns| =>
      if IsSmall(ns[j]) then CodePointNode(ToByte(ns[j].codePoint)) else ns[j])
  }

  lemma {:induction false} ExpandAppend(a: seq<ASTNode>, b: seq<ASTNode>)
    ensures Expand(a + b) == Expand(a) + Expand(b)
    decreases |b|
  {
    if b == [] {
      assert a + b == a;
    } else {
      var init := b[..|b| - 1];
      var last := b[|b| - 1];
      assert (a + b)[..|a + b| - 1] == a + init && (a + b)[|a + b| - 1] == last;
      ExpandAppend(a, init);
      var tail := if last.CodePointListNode? then Singles(last.codePoints) else [last];
      assert Expand(a + b) == Expand(a + init) + tail;
      assert Expand(b) == Expand(init) + tail;
    }
  }

  lemma ExpandSingle(n: ASTNode)
    ensures Expand([n]) == if n.CodePointListNode? then Singles(n.codePoints) else [n]
  {
    assert [n][..0] == [];
  }

  /** One loop step keeps "expanded output + open run" equal to the truncated input. */
  lemma StepExpands(acc: Acc, node: ASTNode)
    requires !node.CodePointListNode?
    ensures Expand(Step(acc, node).newNodes) + Singles(Step(acc, node).running)
            == Expand(acc.newNodes) + Singles(acc.running) + Truncated([node])
  {
    if IsSmall(node) {
      StepExpandsSmall(acc, node);
    } else {
      StepExpandsOther(acc, node);
    }
  }

  lemma StepExpandsSmall(acc: Acc, node: ASTNode)
    requires IsSmall(node)
    ensures Expand(Step(acc, node).newNodes) + Singles(Step(acc, node).running)
            == Expand(acc.newNodes) + Singles(acc.running) + Truncated([node])
  {
    var b := ToByte(node.codePoint);
    assert Truncated([node]) == [CodePointNode(b)];
    if |acc.running| == BYTE_MAX {
      ExpandAppend(acc.newNodes, [CodePointListNode(acc.running)]);
      ExpandSingle(CodePointListNode(acc.running));
      assert Singles([b]) == [CodePointNode(b)];
    } else {
      assert Singles(acc.running + [b]) == Singles(acc.running) + [CodePointNode(b)];
    }
  }

  lemma StepExpandsOther(acc: Acc, node: ASTNode)
    requires !IsSmall(node) && !node.CodePointListNode?
    ensures Expand(Step(acc, node).newNodes) + Singles(Step(acc, node).running)
            == Expand(acc.newNodes) + Singles(acc.running) + Truncated([node])
  {
    var flushed := Flushed(acc.running);
    assert Truncated([node]) == [node];
    assert Step(acc, node) == Acc(acc.newNodes + flushed + [node], []);
    assert Singles([]) == [];
    ExpandAppend(acc.newNodes + flushed, [node]);
    ExpandAppend(acc.newNodes, flushed);
    ExpandSingle(node);
    FlushedExpands(acc.running);
  }

  /** Flushing the run emits exactly its bytes, one code point each. */
  lemma FlushedExpands(running: seq<int8>)
    ensures Expand(Flushed(running)) == Singles(running)
  {
    if |running| >= 2 {
      ExpandSingle(CodePointListNode(running));
    } else if |running| == 1 {
      ExpandSingle(CodePointNode(running[0]));
      assert Singles(running) == [CodePointNode(running[0])];
    } else {
      assert Singles(running) == [];
    }
  }

  /**
   * The loop never loses a node except the open run: expanding the output and
   * appending the run gives back the truncated input.
   */
  lemma {:induction false} FoldExpands(nodes: seq<ASTNode>)
    requires NoLists(nodes)
    ensures Expand(Fold(nodes).newNodes) + Singles(Fold(nodes).running) == Truncated(nodes)
  {
    if nodes != [] {
      var init := nodes[..|nodes| - 1];
      var last := nodes[|nodes| - 1];
      var acc := Fold(init);
      assert Fold(nodes) == Step(acc, last);
      FoldExpands(init);
      StepExpands(acc, last);
      assert Expand(Step(acc, last).newNodes) + Singles(Step(acc, last).running)
             == Truncated(init) + Truncated([last]);
      assert Truncated(nodes) == Truncated(init) + Truncated([last]);
    }
  }

  /** The run is empty exactly when the input is empty or ends with a node that is not small. */
  lemma FoldRunEmpty(nodes: seq<ASTNode>)
    ensures Fold(nodes).running == [] <==> (nodes == [] || !IsSmall(nodes[|nodes| - 1]))
  {
    if nodes != [] {
      assert Fold(nodes) == Step(Fold(nodes[..|nodes| - 1]), nodes[|nodes| - 1]);
    }
  }

  /**
   * Expanding the output reproduces the input when it does not end with a
   * small code point; otherwise the output is the input without its last run
   * of 1 to 127 small code points.
   */
  lemma ExpandRecoversInput(nodes: seq<ASTNode>)
    requires NoLists(nodes)
    ensures nodes == [] || !IsSmall(nodes[|nodes| - 1]) ==>
              Expand(OptimizedChildren(nodes)) == Truncated(nodes)
    ensures nodes != [] && IsSmall(nodes[|nodes| - 1]) ==>
              var kept := |Expand(OptimizedChildren(nodes))|;
              |nodes| - BYTE_MAX <= kept < |nodes|
              && Expand(OptimizedChildren(nodes)) == Truncated(nodes)[..kept]
  {
    FoldExpands(nodes);
    FoldRunEmpty(nodes);
    FoldWellFormed(nodes);
    var acc := Fold(nodes);
    var k := |acc.running|;
    assert Expand(acc.newNodes) == Truncated(nodes)[..|nodes| - k];
  }

  /** Code points between -128 and 127 are kept as they are. */
  lemma TruncatedIdentity(nodes: seq<ASTNode>)
    requires forall i | 0 <= i < |nodes| :: IsSmall(nodes[i]) ==> -0x80 <= nodes[i].codePoint
    ensures Truncated(nodes) == nodes
  {
  }

  // ---------------------------------------------------------------------------
  // Properties of `optimize`

  /** Leaves come back unchanged. */
  lemma OptimizeLeaf(node: ASTNode)
    requires IsLeaf(node) && !node.CharacterClassNode? && !node.InvertedCharacterClassNode?
    ensures Optimize(node) == node
  {
  }

  /**
   * `optimize` keeps the node kind, group names and count, group index,
   * lookaround kind, laziness and repetition bounds.
   */
  lemma OptimizeKeepsShape(node: ASTNode)
    ensures node.RootNode? ==> Optimize(node).RootNode? && Optimize(node).groupNames == node.groupNames
                               && Optimize(node).numGroups == node.numGroups
    ensures node.GroupNode? ==> Optimize(node).GroupNode? && Optimize(node).index == node.index
    ensures node.LookNode? ==> Optimize(node).LookNode? && Optimize(node).kind == node.kind
    ensures IsQuantifier(node) ==> IsQuantifier(Optimize(node)) && Optimize(node).lazy == node.lazy
    ensures node.RepetitionNode? ==> Optimize(node).RepetitionNode? && Optimize(node).min == node.min
                                     && Optimize(node).max == node.max
    ensures node.NegateNode? ==> Optimize(node).NegateNode?
    ensures node.AlternationNode? ==> Optimize(node).AlternationNode?
  {
  }
}
