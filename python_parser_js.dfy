/** `findEnclosingContext` of src/context/language/python-parser.js. It
    does not parse at all: it splits the file into lines and scans upward
    from the first line of the range, trimming each line, and stops at the
    first one that starts with `def ` (a function) or `class ` (a class). The
    name is the second space-separated word cut at the first `(`. The end of
    the range plays no part.

    The scan reads `lines[i]` before checking that it exists: when the range
    starts below the last line, `lines[i]` is undefined and `.trim()` throws
    a TypeError, which the model returns as a `Failure`. */
module PythonParserJs {
  import opened Wrappers
  import opened Text

  datatype LineContext = LineContext(typeName: string, name: string)

  const TrimOfUndefined := "TypeError: Cannot read properties of undefined (reading 'trim')"

  /** A line made of a keyword, a space and more text splits on spaces into
      the keyword, then the parts of the rest. */
  lemma KeywordSplit(keyword: string, line: string)
    requires ' ' !in keyword && StartsWith(line, keyword + " ")
    ensures Split(line, ' ') == [keyword] + Split(line[|keyword| + 1..], ' ')
  {
    assert line == keyword + [' '] + line[|keyword| + 1..] by {
      assert line[..|keyword| + 1] == keyword + " ";
    }
    SplitSep(keyword, line[|keyword| + 1..], ' ');
  }

  predicate IsHeader(trimmed: string)
  {
    StartsWith(trimmed, "def ") || StartsWith(trimmed, "class ")
  }

  /** `line.split(" ")[1].split("(")[0]`: the header's second space-separated
      word, cut at its first `(`. */
  function NameOf(line: string): (name: string)
    requires IsHeader(line)
    ensures '(' !in name
  {
    if StartsWith(line, "def ") then KeywordSplit("def", line); Split(Split(line, ' ')[1], '(')[0]
    else KeywordSplit("class", line); Split(Split(line, ' ')[1], '(')[0]
  }

  /** What one line contributes: a context when its trimmed text is a `def `
      or `class ` header, `def ` tested first. */
  function LineResult(line: string): Option<LineContext>
  {
    var t := Trim(line);
    if StartsWith(t, "def ") then Some(LineContext("function", NameOf(t)))
    else if StartsWith(t, "class ") then Some(LineContext("class", NameOf(t)))
    else None
  }

  /** What each line of the file contributes, index by index. */
  function LineResults(lines: seq<string>): (results: seq<Option<LineContext>>)
    ensures |results| == |lines|
    ensures forall j :: 0 <= j < |lines| ==> results[j] == LineResult(lines[j])
  {
    seq(|lines|, j requires 0 <= j < |lines| => LineResult(lines[j]))
  }

  /** The scan from index `i` down to 0, as JavaScript runs it, over what
      each line contributes; an index past the last line is where `trim`
      meets `undefined`. */
  function ScanFrom(results: seq<Option<LineContext>>, i: int): Result<Option<LineContext>, string>
    decreases i + 1
  {
    if i < 0 then Success(None)
    else if i >= |results| then Failure(TrimOfUndefined)
    else if results[i].Some? then Success(results[i])
    else ScanFrom(results, i - 1)
  }

  /** The scan fails exactly when it starts past the last line; otherwise it
      finds the nearest header at or above that line, or nothing when there
      is none. */
  lemma {:induction false} ScanFindsNearestHeader(results: seq<Option<LineContext>>, i: int)
    ensures ScanFrom(results, i).Failure? <==> i >= |results|
    ensures ScanFrom(results, i).Success? ==>
      (ScanFrom(results, i).value.None? <==> forall j :: 0 <= j <= i ==> results[j].None?)
    ensures ScanFrom(results, i).Success? && ScanFrom(results, i).value.Some? ==>
      exists k :: 0 <= k <= i && ScanFrom(results, i).value == results[k]
                  && forall j :: k < j <= i ==> results[j].None?
    decreases i + 1
  {
    if 0 <= i < |results| && results[i].None? {
      ScanFindsNearestHeader(results, i - 1);
      var r := ScanFrom(results, i - 1);
      if r.value.Some? {
        var k :| 0 <= k <= i - 1 && r.value == results[k]
                 && forall j :: k < j <= i - 1 ==> results[j].None?;
        assert forall j :: k < j <= i ==> results[j].None?;
      }
    }
  }

  /** A header's name is the word after the keyword, up to a `(`, a space or
      the end of the line; whatever else follows it, such as a colon, stays
      in the name. */
  lemma NameOfHeader(keyword: string, name: string, tail: string)
    requires keyword == "def" || keyword == "class"
    requires ' ' !in name && '(' !in name
    requires tail == [] || tail[0] == '(' || tail[0] == ' '
    ensures IsHeader(keyword + " " + name + tail)
    ensures NameOf(keyword + " " + name + tail) == name
  {
    var line := keyword + " " + name + tail;
    assert line[..|keyword| + 1] == keyword + " ";
    assert line[|keyword| + 1..] == name + tail;
    KeywordSplit(keyword, line);
    var word := Split(name + tail, ' ')[0];
    if tail == [] {
      assert name + tail == name;
      SplitWithoutSep(name, ' ');
      SplitWithoutSep(name, '(');
    } else if tail[0] == ' ' {
      assert name + tail == name + [' '] + tail[1..];
      SplitSep(name, tail[1..], ' ');
      SplitWithoutSep(name, '(');
    } else {
      SplitPrefix(name, tail, ' ');
      assert tail == "(" + tail[1..];
      SplitPrefix("(", tail[1..], ' ');
      var rest := Split(tail[1..], ' ')[0];
      assert word == name + ['('] + rest;
      SplitSep(name, rest, '(');
    }
  }

  /** A header line that carries no surrounding whitespace gives its kind
      and the word after the keyword; so `class Foo:` gives the class named
      `Foo:`, colon included. */
  lemma HeaderLine(keyword: string, name: string, tail: string)
    requires keyword == "def" || keyword == "class"
    requires ' ' !in name && '(' !in name
    requires tail == [] || tail[0] == '(' || tail[0] == ' '
    requires name + tail != [] && !IsJsWhitespace((name + tail)[|name + tail| - 1])
    ensures LineResult(keyword + " " + name + tail)
      == Some(LineContext(if keyword == "def" then "function" else "class", name))
  {
    var line := keyword + " " + name + tail;
    if keyword == "def" {
      assert StartsWith(line, "def ") by {
        assert line[..4] == "def ";
      }
    } else {
      assert StartsWith(line, "class ") && !StartsWith(line, "def ") by {
        assert line[..6] == "class ";
        assert line[0] == line[..6][0] == 'c';
        assert line[..4][0] == line[0];
      }
    }
    assert NameOf(line) == name by {
      NameOfHeader(keyword, name, tail);
    }
    assert Trim(line) == line by {
      assert line[0] == keyword[0];
      assert line[|line| - 1] == (name + tail)[|name + tail| - 1];
      TrimKeeps(line);
    }
  }

  /** `class Foo:` names the class `Foo:`, colon included. */
  lemma ClassNameKeepsColon()
    ensures LineResult("class Foo:") == Some(LineContext("class", "Foo:"))
  {
    assert "class" + " " + "Foo:" + "" == "class Foo:";
    assert ' ' !in "Foo:" && '(' !in "Foo:";
    HeaderLine("class", "Foo:", "");
  }

  /** `def area(self):` names the function `area`. */
  lemma FunctionNameStopsAtParenthesis()
    ensures LineResult("def area(self):") == Some(LineContext("function", "area"))
  {
    assert "def" + " " + "area" + "(self):" == "def area(self):";
    assert ' ' !in "area" && '(' !in "area";
    HeaderLine("def", "area", "(self):");
  }

  /** Indentation and trailing whitespace make no difference to a line. */
  lemma LineIgnoresSurroundingWhitespace(before: string, line: string, after: string)
    requires AllWhitespace(before) && AllWhitespace(after)
    ensures LineResult(before + line + after) == LineResult(line)
  {
    TrimIgnoresSurroundingWhitespace(before, line, after);
  }

  /** findEnclosingContext; `lineEnd` is accepted and not read. */
  method FindEnclosingContext(file: string, lineStart: int, lineEnd: int) returns (r: Result<Option<LineContext>, string>)
    ensures r == ScanFrom(LineResults(Split(file, '\n')), lineStart - 1)
  {
    var lines := Split(file, '\n');
    ghost var results := LineResults(lines);
    var context: Option<LineContext> := None;
    var i := lineStart - 1;
    while i >= 0
      invariant context == None
      invariant ScanFrom(results, lineStart - 1) == ScanFrom(results, i)
      decreases i + 1
    {
      if i >= |lines| {
        return Failure(TrimOfUndefined);
      }
      var line := Trim(lines[i]);
      assert results[i] == LineResult(lines[i]);
      if StartsWith(line, "def ") {
        context := Some(LineContext("function", NameOf(line)));
        break;
      } else if StartsWith(line, "class ") {
        context := Some(LineContext("class", NameOf(line)));
        break;
      }
      i := i - 1;
    }
    return Success(context);
  }
}
