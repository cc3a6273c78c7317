/** `findEnclosingContext` of src/context/language/python-parser.ts. The
    recursive `visitNode` walks the tree-sitter tree in preorder and updates
    one shared `largestContext` record. Despite the record's name the rule
    keeps the SMALLEST covering `class_definition` or `function_definition`:
    the first covering node is always taken, and a later one replaces it only
    when strictly smaller. Tree-sitter rows are 0-based; both ends get 1
    added before they are compared with the 1-based line range.

    The tree-sitter parse is not part of this model: the tree comes in as a
    `SyntaxNode` value with its type, rows and children. */
module PythonParserTs {
  import opened Wrappers

  datatype SyntaxNode = SyntaxNode(nodeType: string, startRow: int, endRow: int, children: seq<SyntaxNode>)

  /** What `findEnclosingContext` returns: a wrapper whatever the outcome. */
  datatype EnclosingContext = EnclosingContext(enclosingContext: Option<SyntaxNode>)

  /** The shared `{size, context}` record that `visitNode` updates. */
  class LargestContext {
    var size: int
    var context: Option<SyntaxNode>

    constructor()
      ensures size == 0 && context == None
    {
      size := 0;
      context := None;
    }
  }

  const RelevantNodeTypes := ["class_definition", "function_definition"]

  function StartLine(n: SyntaxNode): int
  {
    n.startRow + 1
  }

  function EndLine(n: SyntaxNode): int
  {
    n.endRow + 1
  }

  function Size(n: SyntaxNode): int
  {
    EndLine(n) - StartLine(n)
  }

  predicate Qualifies(n: SyntaxNode, lineStart: int, lineEnd: int)
  {
    n.nodeType in RelevantNodeTypes && StartLine(n) <= lineStart && EndLine(n) >= lineEnd
  }

  /** Every node of the tree, each before its children, children left to
      right: the order in which `visitNode` reaches them. */
  function Preorder(node: SyntaxNode): seq<SyntaxNode>
    decreases node
  {
    [node] + PreorderAll(node.children)
  }

  function PreorderAll(nodes: seq<SyntaxNode>): seq<SyntaxNode>
    decreases nodes
  {
    if nodes == [] then []
    else PreorderAll(nodes[..|nodes| - 1]) + Preorder(nodes[|nodes| - 1])
  }

  /** The record's `size` and `context` as one value. */
  datatype Choice = Choice(size: int, context: Option<SyntaxNode>)

  /** What one call of `visitNode` does to the record before recursing. */
  function Step(c: Choice, node: SyntaxNode, lineStart: int, lineEnd: int): Choice
  {
    if Qualifies(node, lineStart, lineEnd) then
      var size := EndLine(node) - StartLine(node);
      if size < c.size || c.context == None then Choice(size, Some(node)) else c
    else c
  }

  /** The record after `visitNode` has reached `nodes` in order. */
  function Walk(nodes: seq<SyntaxNode>, lineStart: int, lineEnd: int, c: Choice): Choice
  {
    if nodes == [] then c
    else Step(Walk(nodes[..|nodes| - 1], lineStart, lineEnd, c), nodes[|nodes| - 1], lineStart, lineEnd)
  }

  lemma {:induction false} WalkAppend(a: seq<SyntaxNode>, b: seq<SyntaxNode>, lineStart: int, lineEnd: int, c: Choice)
    ensures Walk(a + b, lineStart, lineEnd, c) == Walk(b, lineStart, lineEnd, Walk(a, lineStart, lineEnd, c))
  {
    if b == [] {
      assert a + b == a;
    } else {
      var m := |b| - 1;
      assert (a + b)[..|a + b| - 1] == a + b[..m];
      assert (a + b)[|a + b| - 1] == b[m];
      WalkAppend(a, b[..m], lineStart, lineEnd, c);
    }
  }

  /** `nodes[i]` is a smallest qualifying node, and no earlier qualifying
      node is as small. */
  predicate IsFirstSmallest(nodes: seq<SyntaxNode>, lineStart: int, lineEnd: int, i: int)
  {
    && 0 <= i < |nodes|
    && Qualifies(nodes[i], lineStart, lineEnd)
    && (forall j :: 0 <= j < |nodes| && Qualifies(nodes[j], lineStart, lineEnd) ==> Size(nodes[i]) <= Size(nodes[j]))
    && (forall j :: 0 <= j < i && Qualifies(nodes[j], lineStart, lineEnd) ==> Size(nodes[i]) < Size(nodes[j]))
  }

  /** From the initial record, the walk keeps nothing exactly when no node
      qualifies, and otherwise the first of the smallest qualifying nodes,
      whatever its size. */
  lemma {:induction false} WalkFindsFirstSmallest(nodes: seq<SyntaxNode>, lineStart: int, lineEnd: int)
    ensures var c := Walk(nodes, lineStart, lineEnd, Choice(0, None));
      && (c.context.None? <==> forall j :: 0 <= j < |nodes| ==> !Qualifies(nodes[j], lineStart, lineEnd))
      && (c.context.Some? ==>
            exists i :: IsFirstSmallest(nodes, lineStart, lineEnd, i) && nodes[i] == c.context.value
                        && c.size == Size(nodes[i]))
  {
    if nodes != [] {
      var m := |nodes| - 1;
      var init := nodes[..m];
      WalkFindsFirstSmallest(init, lineStart, lineEnd);
      var a := Walk(init, lineStart, lineEnd, Choice(0, None));
      var c := Walk(nodes, lineStart, lineEnd, Choice(0, None));
      assert forall j :: 0 <= j < m ==> nodes[j] == init[j];
      if a.context.Some? {
        var i :| IsFirstSmallest(init, lineStart, lineEnd, i) && init[i] == a.context.value && a.size == Size(init[i]);
        if c != a {
          assert IsFirstSmallest(nodes, lineStart, lineEnd, m);
        } else {
          assert IsFirstSmallest(nodes, lineStart, lineEnd, i);
        }
      } else if c.context.Some? {
        assert IsFirstSmallest(nodes, lineStart, lineEnd, m);
      }
    }
  }

  /** A node inside a child's subtree is in the node's own preorder. */
  lemma {:induction false} PreorderReachesDescendants(node: SyntaxNode, i: int, x: SyntaxNode)
    requires 0 <= i < |node.children| && x in Preorder(node.children[i])
    ensures x in Preorder(node)
  {
    PreorderAllContains(node.children, i, x);
  }

  lemma {:induction false} PreorderAllContains(nodes: seq<SyntaxNode>, i: int, x: SyntaxNode)
    requires 0 <= i < |nodes| && x in Preorder(nodes[i])
    ensures x in PreorderAll(nodes)
    decreases |nodes|
  {
    var m := |nodes| - 1;
    if i < m {
      assert nodes[..m][i] == nodes[i];
      PreorderAllContains(nodes[..m], i, x);
    }
  }

  /** visitNode: check the node, then recurse into each child in order. */
  method VisitNode(node: SyntaxNode, lineStart: int, lineEnd: int, largestContext: LargestContext)
    modifies largestContext
    decreases node
    ensures Choice(largestContext.size, largestContext.context)
      == Walk(Preorder(node), lineStart, lineEnd, old(Choice(largestContext.size, largestContext.context)))
  {
    ghost var before := Choice(largestContext.size, largestContext.context);
    var startLine := node.startRow + 1;
    var endLine := node.endRow + 1;
    if node.nodeType in RelevantNodeTypes && startLine <= lineStart && endLine >= lineEnd {
      var size := endLine - startLine;
      if size < largestContext.size || largestContext.context == None {
        largestContext.size := size;
        largestContext.context := Some(node);
      }
    }
    ghost var checked := Choice(largestContext.size, largestContext.context);
    assert checked == Step(before, node, lineStart, lineEnd);
    assert checked == Walk([node], lineStart, lineEnd, before) by {
      assert [node][..0] == [];
    }
    var children := node.children;
    for k := 0 to |children|
      invariant Choice(largestContext.size, largestContext.context) == Walk(PreorderAll(children[..k]), lineStart, lineEnd, checked)
    {
      assert children[..k + 1][..k] == children[..k];
      VisitNode(children[k], lineStart, lineEnd, largestContext);
      WalkAppend(PreorderAll(children[..k]), Preorder(children[k]), lineStart, lineEnd, checked);
    }
    assert children[..|children|] == children;
    WalkAppend([node], PreorderAll(children), lineStart, lineEnd, before);
    assert Preorder(node) == [node] + PreorderAll(children);
  }

  /** findEnclosingContext on the parsed tree. */
  method FindEnclosingContext(rootNode: SyntaxNode, lineStart: int, lineEnd: int) returns (r: EnclosingContext)
    ensures r.enclosingContext == Walk(Preorder(rootNode), lineStart, lineEnd, Choice(0, None)).context
    ensures r.enclosingContext.None? <==>
      forall j :: 0 <= j < |Preorder(rootNode)| ==> !Qualifies(Preorder(rootNode)[j], lineStart, lineEnd)
    ensures r.enclosingContext.Some? ==>
      exists i :: IsFirstSmallest(Preorder(rootNode), lineStart, lineEnd, i) && Preorder(rootNode)[i] == r.enclosingContext.value
  {
    var largestContext := new LargestContext();
    VisitNode(rootNode, lineStart, lineEnd, largestContext);
    WalkFindsFirstSmallest(Preorder(rootNode), lineStart, lineEnd);
    return EnclosingContext(largestContext.context);
  }
}
