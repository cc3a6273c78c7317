/** The two tree-based Python backends side by side. src/context/language/
    py-parser.py keeps the LARGEST covering definition and never one that
    spans a single line; src/context/language/python-parser.ts keeps the
    SMALLEST, single-line ones included. The same source text shows both
    differences: `ast` numbers lines from 1, tree-sitter rows from 0. */
module Backends {
  import opened Wrappers
  import PyParser
  import PythonParserTs

  /** The Python text
      ```
      class Shape:
          def area(self):
              return 0
      ```
      as `ast` sees it (lines 1 to 3) ... */
  const PyArea := PyParser.PyNode(PyParser.FunctionDef, "area", 2, 3, [])
  const PyShape := PyParser.PyNode(PyParser.ClassDef, "Shape", 1, 3, [PyArea])
  const PyModule := PyParser.PyNode(PyParser.OtherNode, "", 1, 3, [PyShape])

  /** ... and as tree-sitter sees it (rows 0 to 2). */
  const TsArea := PythonParserTs.SyntaxNode("function_definition", 1, 2, [])
  const TsShape := PythonParserTs.SyntaxNode("class_definition", 0, 2, [TsArea])
  const TsModule := PythonParserTs.SyntaxNode("module", 0, 2, [TsShape])

  /** For line 3, the `ast` backend reports the class and the tree-sitter
      backend the method inside it. */
  lemma LargestAgainstSmallest()
    ensures PyParser.Report(PyParser.Walk(PyParser.Preorder(PyModule), 3, 3, PyParser.Choice(0, None)))
      == PyParser.Context("ClassDef", "Shape", 1, 3)
    ensures PythonParserTs.Walk(PythonParserTs.Preorder(TsModule), 3, 3, PythonParserTs.Choice(0, None)).context
      == Some(TsArea)
  {
    assert PyParser.Preorder(PyModule) == [PyModule, PyShape, PyArea] by {
      assert PyParser.Preorder(PyArea) == [PyArea];
      assert PyParser.PreorderAll([PyArea]) == [PyArea];
      assert PyParser.PreorderAll([PyShape]) == [PyShape, PyArea];
    }
    var py := [PyModule, PyShape, PyArea];
    assert py[..2] == [PyModule, PyShape] && py[..2][..1] == [PyModule] && [PyModule][..0] == [];
    assert PyParser.Walk([PyModule], 3, 3, PyParser.Choice(0, None)) == PyParser.Choice(0, None);
    assert PyParser.Walk(py[..2], 3, 3, PyParser.Choice(0, None)) == PyParser.Choice(2, Some(PyShape));
    assert PyParser.Walk(py, 3, 3, PyParser.Choice(0, None)) == PyParser.Choice(2, Some(PyShape));
    assert PythonParserTs.Preorder(TsModule) == [TsModule, TsShape, TsArea] by {
      assert PythonParserTs.Preorder(TsArea) == [TsArea];
      assert PythonParserTs.PreorderAll([TsArea]) == [TsArea];
      assert PythonParserTs.PreorderAll([TsShape]) == [TsShape, TsArea];
    }
    var ts := [TsModule, TsShape, TsArea];
    assert ts[..2] == [TsModule, TsShape] && ts[..2][..1] == [TsModule] && [TsModule][..0] == [];
    assert PythonParserTs.Walk([TsModule], 3, 3, PythonParserTs.Choice(0, None)) == PythonParserTs.Choice(0, None);
    assert PythonParserTs.Walk(ts[..2], 3, 3, PythonParserTs.Choice(0, None)) == PythonParserTs.Choice(2, Some(TsShape));
    assert PythonParserTs.Walk(ts, 3, 3, PythonParserTs.Choice(0, None)) == PythonParserTs.Choice(1, Some(TsArea));
  }

  /** `def f(): pass` on line 1, alone in its file. */
  const PyOneLiner := PyParser.PyNode(PyParser.FunctionDef, "f", 1, 1, [])
  const TsOneLiner := PythonParserTs.SyntaxNode("function_definition", 0, 0, [])

  /** A definition on a single line has size 0: the `ast` backend, whose
      best size starts at 0 and must be beaten, finds no context, while the
      tree-sitter backend takes the first covering node whatever its size. */
  lemma SingleLineDefinition()
    ensures PyParser.Report(PyParser.Walk(PyParser.Preorder(PyOneLiner), 1, 1, PyParser.Choice(0, None)))
      == PyParser.Error(PyParser.NoContextError)
    ensures PythonParserTs.Walk(PythonParserTs.Preorder(TsOneLiner), 1, 1, PythonParserTs.Choice(0, None)).context
      == Some(TsOneLiner)
  {
    assert PyParser.Preorder(PyOneLiner) == [PyOneLiner];
    assert PythonParserTs.Preorder(TsOneLiner) == [TsOneLiner];
  }
}
