/** The scope rule of src/context/language/javascript-parser.js. Babel's
    traversal calls `processNode` on every `Function` node (any kind of
    function, method or arrow) and every `TSInterfaceDeclaration`, in visit
    order; `processNode` keeps the largest node that covers the line range,
    where a node must be strictly larger than the best so far, and the best
    starts at size 0 with no node.

    Parsing is not part of this model: the visited nodes come in as a
    sequence in traversal order, each with its kind and its first and last
    line. */
module JavascriptParser {
  import opened Wrappers

  /** `Function` is Babel's alias for every function-like node. */
  datatype NodeKind = Function | TSInterfaceDeclaration | OtherKind

  datatype JsNode = JsNode(kind: NodeKind, startLine: int, endLine: int)

  /** What `processNode` returns and the traversal threads through. */
  datatype Accumulator = Accumulator(largestSize: int, largestEnclosingContext: Option<JsNode>)

  /** What `findEnclosingContext` returns: a wrapper whatever the outcome. */
  datatype EnclosingContext = EnclosingContext(enclosingContext: Option<JsNode>)

  function Size(n: JsNode): int
  {
    n.endLine - n.startLine
  }

  predicate Covers(n: JsNode, lineStart: int, lineEnd: int)
  {
    n.startLine <= lineStart && lineEnd <= n.endLine
  }

  /** The visitor has a handler for this kind of node. */
  predicate Handled(n: JsNode)
  {
    n.kind == Function || n.kind == TSInterfaceDeclaration
  }

  predicate Candidate(n: JsNode, lineStart: int, lineEnd: int)
  {
    Handled(n) && Covers(n, lineStart, lineEnd)
  }

  /** processNode: the node replaces the best so far only if it covers the
      range and is strictly larger; otherwise the accumulator comes back as
      it was. */
  function ProcessNode(node: JsNode, lineStart: int, lineEnd: int, largestSize: int,
                       largestEnclosingContext: Option<JsNode>): (r: Accumulator)
    ensures r.largestSize >= largestSize
    ensures Covers(node, lineStart, lineEnd) && Size(node) > largestSize <==> r.largestEnclosingContext != largestEnclosingContext || r.largestSize != largestSize
    ensures r.largestSize != largestSize ==> r == Accumulator(Size(node), Some(node))
  {
    if node.startLine <= lineStart && lineEnd <= node.endLine then
      var size := node.endLine - node.startLine;
      if size > largestSize then Accumulator(size, Some(node))
      else Accumulator(largestSize, largestEnclosingContext)
    else Accumulator(largestSize, largestEnclosingContext)
  }

  /** The traversal: `processNode` on each handled node, in visit order. */
  function Traverse(nodes: seq<JsNode>, lineStart: int, lineEnd: int, acc: Accumulator): Accumulator
  {
    if nodes == [] then acc
    else
      var a := Traverse(nodes[..|nodes| - 1], lineStart, lineEnd, acc);
      var n := nodes[|nodes| - 1];
      if Handled(n) then ProcessNode(n, lineStart, lineEnd, a.largestSize, a.largestEnclosingContext) else a
  }

  /** No handled node covering the range spans more than one line. */
  predicate NoneQualifies(nodes: seq<JsNode>, lineStart: int, lineEnd: int)
  {
    forall j :: 0 <= j < |nodes| && Candidate(nodes[j], lineStart, lineEnd) ==> Size(nodes[j]) <= 0
  }

  /** `nodes[i]` is a largest covering handled node, of positive size, and
      no earlier covering handled node is as large. */
  predicate IsFirstLargest(nodes: seq<JsNode>, lineStart: int, lineEnd: int, i: int)
  {
    && 0 <= i < |nodes|
    && Candidate(nodes[i], lineStart, lineEnd)
    && Size(nodes[i]) > 0
    && (forall j :: 0 <= j < |nodes| && Candidate(nodes[j], lineStart, lineEnd) ==> Size(nodes[j]) <= Size(nodes[i]))
    && (forall j :: 0 <= j < i && Candidate(nodes[j], lineStart, lineEnd) ==> Size(nodes[j]) < Size(nodes[i]))
  }

  /** From the initial accumulator, the traversal finds nothing exactly when
      no covering handled node has positive size, and otherwise the first
      of the largest ones, with its size. */
  lemma {:induction false} TraverseFindsFirstLargest(nodes: seq<JsNode>, lineStart: int, lineEnd: int)
    ensures var r := Traverse(nodes, lineStart, lineEnd, Accumulator(0, None));
      && (r.largestEnclosingContext.None? <==> NoneQualifies(nodes, lineStart, lineEnd))
      && (r.largestEnclosingContext.None? ==> r.largestSize == 0)
      && (r.largestEnclosingContext.Some? ==>
            exists i :: IsFirstLargest(nodes, lineStart, lineEnd, i) && nodes[i] == r.largestEnclosingContext.value
                        && r.largestSize == Size(nodes[i]))
  {
    if nodes != [] {
      var m := |nodes| - 1;
      var init, n := nodes[..m], nodes[m];
      TraverseFindsFirstLargest(init, lineStart, lineEnd);
      var a := Traverse(init, lineStart, lineEnd, Accumulator(0, None));
      var r := Traverse(nodes, lineStart, lineEnd, Accumulator(0, None));
      assert forall j :: 0 <= j < m ==> nodes[j] == init[j];
      if a.largestEnclosingContext.Some? {
        var i :| IsFirstLargest(init, lineStart, lineEnd, i) && init[i] == a.largestEnclosingContext.value
                 && a.largestSize == Size(init[i]);
        if r.largestSize != a.largestSize {
          assert IsFirstLargest(nodes, lineStart, lineEnd, m);
        } else {
          assert IsFirstLargest(nodes, lineStart, lineEnd, i);
        }
      } else if r.largestEnclosingContext.Some? {
        assert IsFirstLargest(nodes, lineStart, lineEnd, m);
      }
    }
  }

  /** findEnclosingContext over the visited nodes. */
  method FindEnclosingContext(nodes: seq<JsNode>, lineStart: int, lineEnd: int) returns (r: EnclosingContext)
    ensures r.enclosingContext == Traverse(nodes, lineStart, lineEnd, Accumulator(0, None)).largestEnclosingContext
    ensures r.enclosingContext.None? <==> NoneQualifies(nodes, lineStart, lineEnd)
    ensures r.enclosingContext.Some? ==>
      exists i :: IsFirstLargest(nodes, lineStart, lineEnd, i) && nodes[i] == r.enclosingContext.value
  {
    var largestEnclosingContext: Option<JsNode> := None;
    var largestSize := 0;
    for i := 0 to |nodes|
      invariant Accumulator(largestSize, largestEnclosingContext) == Traverse(nodes[..i], lineStart, lineEnd, Accumulator(0, None))
    {
      assert nodes[..i + 1][..i] == nodes[..i];
      if nodes[i].kind == Function || nodes[i].kind == TSInterfaceDeclaration {
        var acc := ProcessNode(nodes[i], lineStart, lineEnd, largestSize, largestEnclosingContext);
        largestSize := acc.largestSize;
        largestEnclosingContext := acc.largestEnclosingContext;
      }
    }
    assert nodes[..|nodes|] == nodes;
    TraverseFindsFirstLargest(nodes, lineStart, lineEnd);
    return EnclosingContext(largestEnclosingContext);
  }
}
