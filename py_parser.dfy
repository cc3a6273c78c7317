/** `find_enclosing_context` of src/context/language/py-parser.py. A
    `ContextFinder` walks the syntax tree with `ast.NodeVisitor`: every
    `FunctionDef` and `ClassDef` is checked before its children are visited,
    and the finder keeps the largest node that covers the line range, where a
    node must be strictly larger than the best so far, starting from size 0.

    `ast.parse` is not part of this model: its outcome comes in as a
    `ParseResult`, either a tree or the text of the `SyntaxError`. A node's
    children are the nodes `generic_visit` reaches from it, in its order. */
module PyParser {
  import opened Wrappers

  /** The node classes the visitor tells apart; every other class is
      `OtherNode`. `AsyncFunctionDef` has no handler of its own, so it is
      walked through like any other node without being checked. */
  datatype PyKind = FunctionDef | ClassDef | AsyncFunctionDef | OtherNode

  datatype PyNode = PyNode(kind: PyKind, name: string, lineno: int, endLineno: int, children: seq<PyNode>)

  datatype ParseResult = Parsed(tree: PyNode) | SyntaxError(message: string)

  /** The dictionary `find_enclosing_context` returns: the context's fields,
      or a single `error` entry. */
  datatype Outcome =
    | Context(typeName: string, name: string, startLine: int, endLine: int)
    | Error(error: string)

  const NoContextError := "No enclosing context found"
  const SyntaxErrorPrefix := "Syntax error in the file: "

  /** The finder's `largest_size` and `largest_context`. */
  datatype Choice = Choice(size: int, context: Option<PyNode>)

  /** Every node of the tree, each before its children, children left to
      right: the order in which the visitor reaches them. */
  function Preorder(node: PyNode): seq<PyNode>
    decreases node
  {
    [node] + PreorderAll(node.children)
  }

  function PreorderAll(nodes: seq<PyNode>): seq<PyNode>
    decreases nodes
  {
    if nodes == [] then []
    else PreorderAll(nodes[..|nodes| - 1]) + Preorder(nodes[|nodes| - 1])
  }

  predicate Checked(n: PyNode)
  {
    n.kind == FunctionDef || n.kind == ClassDef
  }

  predicate Covers(n: PyNode, lineStart: int, lineEnd: int)
  {
    n.lineno <= lineStart && lineEnd <= n.endLineno
  }

  predicate Candidate(n: PyNode, lineStart: int, lineEnd: int)
  {
    Checked(n) && Covers(n, lineStart, lineEnd)
  }

  function Size(n: PyNode): int
  {
    n.endLineno - n.lineno
  }

  /** check_node as a function of the finder's state. */
  function Check(c: Choice, node: PyNode, lineStart: int, lineEnd: int): Choice
  {
    if node.lineno <= lineStart && lineEnd <= node.endLineno then
      var size := node.endLineno - node.lineno;
      if size > c.size then Choice(size, Some(node)) else c
    else c
  }

  /** The finder's state after the visitor has reached `nodes` in order. */
  function Walk(nodes: seq<PyNode>, lineStart: int, lineEnd: int, c: Choice): Choice
  {
    if nodes == [] then c
    else
      var w := Walk(nodes[..|nodes| - 1], lineStart, lineEnd, c);
      var n := nodes[|nodes| - 1];
      if Checked(n) then Check(w, n, lineStart, lineEnd) else w
  }

  lemma {:induction false} WalkAppend(a: seq<PyNode>, b: seq<PyNode>, lineStart: int, lineEnd: int, c: Choice)
    ensures Walk(a + b, lineStart, lineEnd, c) == Walk(b, lineStart, lineEnd, Walk(a, lineStart, lineEnd, c))
  {
    if b == [] {
      assert a + b == a;
    } else {
      var m := |b| - 1;
      assert (a + b)[..|a + b| - 1] == a + b[..m];
      assert (a + b)[|a + b| - 1] == b[m];
      WalkAppend(a, b[..m], lineStart, lineEnd, c);
    }
  }

  /** A node inside a child's subtree is in the node's own preorder: nested
      definitions are candidates too. */
  lemma {:induction false} PreorderReachesDescendants(node: PyNode, i: int, x: PyNode)
    requires 0 <= i < |node.children| && x in Preorder(node.children[i])
    ensures x in Preorder(node)
  {
    PreorderAllContains(node.children, i, x);
  }

  lemma {:induction false} PreorderAllContains(nodes: seq<PyNode>, i: int, x: PyNode)
    requires 0 <= i < |nodes| && x in Preorder(nodes[i])
    ensures x in PreorderAll(nodes)
    decreases |nodes|
  {
    var m := |nodes| - 1;
    if i < m {
      assert nodes[..m][i] == nodes[i];
      PreorderAllContains(nodes[..m], i, x);
    }
  }

  predicate NoneQualifies(nodes: seq<PyNode>, lineStart: int, lineEnd: int)
  {
    forall j :: 0 <= j < |nodes| && Candidate(nodes[j], lineStart, lineEnd) ==> Size(nodes[j]) <= 0
  }

  /** `nodes[i]` is a largest covering candidate, of positive size, and no
      earlier covering candidate is as large. */
  predicate IsFirstLargest(nodes: seq<PyNode>, lineStart: int, lineEnd: int, i: int)
  {
    && 0 <= i < |nodes|
    && Candidate(nodes[i], lineStart, lineEnd)
    && Size(nodes[i]) > 0
    && (forall j :: 0 <= j < |nodes| && Candidate(nodes[j], lineStart, lineEnd) ==> Size(nodes[j]) <= Size(nodes[i]))
    && (forall j :: 0 <= j < i && Candidate(nodes[j], lineStart, lineEnd) ==> Size(nodes[j]) < Size(nodes[i]))
  }

  /** From a fresh finder, the walk keeps nothing exactly when no covering
      candidate spans more than one line, and otherwise the first of the
      largest covering candidates. */
  lemma {:induction false} WalkFindsFirstLargest(nodes: seq<PyNode>, lineStart: int, lineEnd: int)
    ensures var c := Walk(nodes, lineStart, lineEnd, Choice(0, None));
      && (c.context.None? <==> NoneQualifies(nodes, lineStart, lineEnd))
      && (c.context.None? ==> c.size == 0)
      && (c.context.Some? ==>
            exists i :: IsFirstLargest(nodes, lineStart, lineEnd, i) && nodes[i] == c.context.value
                        && c.size == Size(nodes[i]))
  {
    if nodes != [] {
      var m := |nodes| - 1;
      var init := nodes[..m];
      WalkFindsFirstLargest(init, lineStart, lineEnd);
      var a := Walk(init, lineStart, lineEnd, Choice(0, None));
      var c := Walk(nodes, lineStart, lineEnd, Choice(0, None));
      assert forall j :: 0 <= j < m ==> nodes[j] == init[j];
      if a.context.Some? {
        var i :| IsFirstLargest(init, lineStart, lineEnd, i) && init[i] == a.context.value && a.size == Size(init[i]);
        if c.size != a.size {
          assert IsFirstLargest(nodes, lineStart, lineEnd, m);
        } else {
          assert IsFirstLargest(nodes, lineStart, lineEnd, i);
        }
      } else if c.context.Some? {
        assert IsFirstLargest(nodes, lineStart, lineEnd, m);
      }
    }
  }

  class ContextFinder {
    var lineStart: int
    var lineEnd: int
    var largestContext: Option<PyNode>
    var largestSize: int

    constructor(lineStart: int, lineEnd: int)
      ensures this.lineStart == lineStart && this.lineEnd == lineEnd
      ensures largestContext == None && largestSize == 0
    {
      this.lineStart := lineStart;
      this.lineEnd := lineEnd;
      largestContext := None;
      largestSize := 0;
    }

    /** check_node; the node classes checked always carry `end_lineno`. */
    method CheckNode(node: PyNode)
      modifies this
      ensures lineStart == old(lineStart) && lineEnd == old(lineEnd)
      ensures Choice(largestSize, largestContext) == Check(old(Choice(largestSize, largestContext)), node, lineStart, lineEnd)
    {
      if node.lineno <= lineStart && lineEnd <= node.endLineno {
        var size := node.endLineno - node.lineno;
        if size > largestSize {
          largestSize := size;
          largestContext := Some(node);
        }
      }
    }

    /** NodeVisitor.visit: `visit_FunctionDef` and `visit_ClassDef` check the
        node and then walk its children; every other node is only walked. */
    method Visit(node: PyNode)
      modifies this
      decreases node, 1
      ensures lineStart == old(lineStart) && lineEnd == old(lineEnd)
      ensures Choice(largestSize, largestContext) == Walk(Preorder(node), lineStart, lineEnd, old(Choice(largestSize, largestContext)))
    {
      ghost var before := Choice(largestSize, largestContext);
      if node.kind == FunctionDef || node.kind == ClassDef {
        CheckNode(node);
      }
      assert [node][..0] == [];
      GenericVisit(node);
      WalkAppend([node], PreorderAll(node.children), lineStart, lineEnd, before);
    }

    /** NodeVisitor.generic_visit: visit each child in order. */
    method GenericVisit(node: PyNode)
      modifies this
      decreases node, 0
      ensures lineStart == old(lineStart) && lineEnd == old(lineEnd)
      ensures Choice(largestSize, largestContext) == Walk(PreorderAll(node.children), lineStart, lineEnd, old(Choice(largestSize, largestContext)))
    {
      ghost var before := Choice(largestSize, largestContext);
      var children := node.children;
      for k := 0 to |children|
        invariant lineStart == old(lineStart) && lineEnd == old(lineEnd)
        invariant Choice(largestSize, largestContext) == Walk(PreorderAll(children[..k]), lineStart, lineEnd, before)
      {
        assert children[..k + 1][..k] == children[..k];
        Visit(children[k]);
        WalkAppend(PreorderAll(children[..k]), Preorder(children[k]), lineStart, lineEnd, before);
      }
      assert children[..|children|] == children;
    }
  }

  /** `__class__.__name__` of a checked node. */
  function KindName(kind: PyKind): string
  {
    match kind
    case FunctionDef => "FunctionDef"
    case ClassDef => "ClassDef"
    case AsyncFunctionDef => "AsyncFunctionDef"
    case OtherNode => "AST"
  }

  /** The dictionary built from the finder's final state: the kept node's
      class name, name and lines, or the no-context error. */
  function Report(c: Choice): Outcome
  {
    match c.context
    case Some(node) => Context(KindName(node.kind), node.name, node.lineno, node.endLineno)
    case None => Error(NoContextError)
  }

  /** find_enclosing_context on the outcome of `ast.parse`. */
  method FindEnclosingContext(parsed: ParseResult, lineStart: int, lineEnd: int) returns (r: Outcome)
    ensures parsed.SyntaxError? ==> r == Error(SyntaxErrorPrefix + parsed.message)
    ensures parsed.Parsed? ==> r == Report(Walk(Preorder(parsed.tree), lineStart, lineEnd, Choice(0, None)))
    ensures parsed.Parsed? ==> (r == Error(NoContextError) <==> NoneQualifies(Preorder(parsed.tree), lineStart, lineEnd))
    ensures parsed.Parsed? ==> r.Context? || r == Error(NoContextError)
    ensures parsed.Parsed? && r.Context? ==>
      exists i :: var nodes := Preorder(parsed.tree);
        && IsFirstLargest(nodes, lineStart, lineEnd, i)
        && r == Context(KindName(nodes[i].kind), nodes[i].name, nodes[i].lineno, nodes[i].endLineno)
  {
    if parsed.SyntaxError? {
      return Error(SyntaxErrorPrefix + parsed.message);
    }
    var finder := new ContextFinder(lineStart, lineEnd);
    finder.Visit(parsed.tree);
    WalkFindsFirstLargest(Preorder(parsed.tree), lineStart, lineEnd);
    if finder.largestContext.Some? {
      var node := finder.largestContext.value;
      return Context(KindName(node.kind), node.name, node.lineno, node.endLineno);
    }
    return Error(NoContextError);
  }
}
