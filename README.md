# Diff context for pull-request review, in Dafny

This project models the part of the pull-request reviewer that turns a file's
diff into the text a language model reads.

It covers two parts of `src/context`:

- **The hunk-to-context pipeline of `review.ts`:**
  - trimming a hunk to its changed lines;
  - merging the hunks that fall in one scope;
  - splicing a merged hunk into its scope's lines under a hunk header;
  - expanding a hunk with lines above and below;
  - the two whole-file strategies;
  - grouping the hunks of a file by the scope a parser reports for them.
- **The four scope-selection rules of the language backends:**
  - Babel (`javascript-parser.js`) and Python's `ast` (`py-parser.py`) keep the largest enclosing definition.
  - Tree-sitter (`python-parser.ts`) keeps the smallest.
  - `python-parser.js` scans the text upward for a `def ` or `class ` line.

The JavaScript primitives the pipeline relies on are written out in module `Text`:

- `slice` and `splice`, with relative and clamped indexes;
- `split` on one character, and `join`;
- `trim`, with the ECMAScript whitespace set;
- `${n}`, with its reading back.

This lets contracts speak about the same edge cases as the source.

The model takes the source's own form:

- **Pure computations** are functions: `trimHunk`, `processNode` and the string assembly of the strategies.
- **Imperative code** becomes methods with loops and invariants:
  - the loops of `expandHunk`, `expandFileLines` and `diffContextPerHunk`;
  - the in-place sort and accumulation of `combineHunks`;
  - the upward scan of `python-parser.js`.
- **The Python `ContextFinder` and the tree-sitter `largestContext` record** are classes whose methods update their fields.
- **Each such method** is proved equal to a specification function. Lemmas then prove what the source promises of that function.

Modules:

- `Wrappers`: `Option` and `Result`.
- `Text`: the JavaScript string and array primitives.
- `Hunks`: the hunk record, `trimHunk` and the hunk header.
- `Combine`: `combineHunks`.
- `ScopeString`: `buildingScopeString`.
- `Expand`: `expandHunk`, `expandFileLines`, `expandedPatchStrategy` and `rawPatchStrategy`.
- `DiffContext`: `diffContextPerHunk`.
- `JavascriptParser`, `PyParser`, `PythonParserTs` and `PythonParserJs`: the four scope-selection rules.
- `Backends`: the two tree-based Python backends compared on one input.

Each backend keeps to its own node record: Babel nodes, `ast` nodes with their class and name, and tree-sitter nodes with 0-based rows and a type string. `PyParser` and `PythonParserTs` each define their own preorder and its lemmas, and `JavascriptParser` and `PyParser` each define their own `IsFirstLargest`. So the backends share no definitions, and each copy is stated over its own backend's nodes.

In these places the code behaves differently from what its names and comments suggest, and the model follows the code:

- **Merged line counts.** A hunk's `newLines` is the number of new-file lines the hunk spans. Once the gap lines are pushed in (review.ts:125), the merged hunk spans them too, but the code adds only the hunks' own counts (review.ts:128-129, `Combine.MergeAsWrittenTotals`). The corrected `Combine.Merge` adds each gap's length to both counts, so the merged header matches the merged lines (`Combine.MergeCounts`, see Findings).
- **A hunk with no change.** On such a hunk both `findIndex` calls of `trimHunk` return -1. The code then keeps the last line and moves `newStart` one line up (`Hunks.TrimHunkWithoutChange`).
- **The header of an excerpt.** review.ts:108 builds the header from the hunk it is given. review.ts:158-159 give it the merged hunk, so the header shows the merged hunk's coordinates.
- **An empty patched file.** review.ts:138 refuses any falsy result of `applyPatch`. That covers its failure value and also the empty text of a patch that applies and empties the file, so both fail with "Failed to apply patch." (`DiffContext.DiffContextPerHunk`).

## Model

| member | source | states |
|---|---|---|
| Text.Slice | src/context/review.ts:103 | `slice` keeps exactly `s[begin..end]` when both ends are in range, nothing when `end <= begin`, and never grows the array |
| Text.Splice | src/context/review.ts:107 | `splice` in range leaves the part before `start`, the items, and the part after the deleted lines |
| Text.SpliceFrom | src/context/review.ts:107 | every element left by `splice` comes from the array or from the inserted items |
| Text.Split | src/context/review.ts:22 | `split` yields at least one part and no part contains the separator |
| Text.JoinSplit | src/context/review.ts:40 | joining the parts of a split with the same separator gives the text back |
| Text.SplitJoin | src/context/review.ts:108 | splitting a join of separator-free parts gives the parts back |
| Text.TrimIgnoresSurroundingWhitespace | src/context/language/python-parser.js:19 | `trim` gives the same text whatever whitespace surrounds it |
| Text.IntToString | src/context/review.ts:31 | `${n}` of an integer contains no line break, so a header is one line |
| Text.DecimalRoundTrip | src/context/review.ts:150 | reading the decimal rendering of a natural number gives the number back |
| Hunks.FindChange | src/context/review.ts:87 | `findIndex` is -1 exactly when no line starts with `+` or `-`, and otherwise the index of the first such line |
| Hunks.LastChange | src/context/review.ts:88 | the index into the reversed lines, seen from the front: -1 exactly when there is no change, otherwise the last changed line |
| Hunks.TrimHunk | src/context/review.ts:86-91 | trimming keeps the old range, `newLines` and the delimiters of the hunk |
| Hunks.TrimHunkSpan | src/context/review.ts:86-91 | with a change, the trimmed lines are exactly the span from the first to the last changed line, they begin and end with a change, every change lies inside, and `newStart` moves down by the number of leading lines dropped |
| Hunks.TrimHunkAround | src/context/review.ts:86-91 | a hunk made of unchanged lines, a block that starts and ends with a change, and unchanged lines trims to that block, with `newStart` moved by the leading lines |
| Hunks.TrimHunkIdempotent | src/context/review.ts:86-91 | trimming a trimmed hunk that has a change changes nothing |
| Hunks.TrimHunkWithoutChange | src/context/review.ts:87-90 | a hunk without a change keeps only its last line (both indexes are -1) and its `newStart` moves one line up |
| Hunks.Header | src/context/review.ts:108 | the hunk header is one line starting with `@@ -` |
| Combine.Insert | src/context/review.ts:116 | one step of a stable insertion sort: `h` goes behind every hunk whose `newStart` is not greater than its own, and the run grows by one |
| Combine.SortByNewStart | src/context/review.ts:116 | the order `hunks.sort((a, b) => a.newStart - b.newStart)` leaves the hunks in, with the same number of hunks (its properties are the `Sort` lemmas below) |
| Combine.InsertPermutes | src/context/review.ts:116 | inserting a hunk into a sorted run adds exactly that hunk |
| Combine.InsertSorted | src/context/review.ts:116 | inserting into a run sorted by `newStart` keeps it sorted |
| Combine.InsertStrictlySorted | src/context/review.ts:116 | inserting a hunk with a new `newStart` into a strictly sorted run keeps it strictly sorted |
| Combine.SortPermutes | src/context/review.ts:116 | the sort by `newStart` is a permutation of the hunks |
| Combine.SortStable | src/context/review.ts:116 | the sort is stable: the hunks with any given `newStart` come out in the order they arrived in |
| Combine.SortSorted | src/context/review.ts:116 | the sorted hunks are in non-decreasing `newStart` order |
| Combine.SortStrictlySorted | src/context/review.ts:116 | hunks with distinct starts sort into strictly increasing order |
| Combine.SortedUnique | src/context/review.ts:116 | a strictly sorted and a sorted arrangement of the same hunks are equal |
| Combine.SortOrderIndependent | src/context/review.ts:116 | hunks with distinct starts combine the same whatever order they arrive in |
| Combine.InsertInPlace | src/context/review.ts:116 | one step of the in-place sort inserts `a[i]` into the sorted prefix and leaves the rest of the array untouched |
| Combine.SortHunks | src/context/review.ts:116 | the in-place sort leaves the array equal to the stable sort of its old contents |
| Combine.SumsAppend | src/context/review.ts:128-129 | the summed line counts of two runs add up |
| Combine.SumsPermutation | src/context/review.ts:128-129 | the summed line counts do not depend on the order of the hunks |
| Combine.Gap | src/context/review.ts:125 | the file slice pushed between hunks: the new-file lines from 0-based index `newStart + newLines - 1` of the merge so far up to the next hunk's `newStart - 1`, clamped as `slice` clamps |
| Combine.AbsorbAsWritten | src/context/review.ts:124-129 | one iteration of the merge loop as written: appends the gap, the hunk's lines and its delimiters, and grows both counts by the hunk's own counts only |
| Combine.Absorb | src/context/review.ts:124-129 | one iteration of the corrected merge loop: appends the same lines and delimiters, and grows both counts by the gap's length as well |
| Combine.MergeAsWritten | src/context/review.ts:118-130 | the combined hunk as written: a copy of the first sorted hunk, then `AbsorbAsWritten` with each further hunk in order |
| Combine.Merge | src/context/review.ts:118-130 | the corrected combined hunk: a copy of the first sorted hunk, then `Absorb` with each further hunk in order |
| Combine.CombineHunksAsWritten | src/context/review.ts:112-133 | combining fails with "No hunks to combine." exactly when there are no hunks |
| Combine.MergeAsWrittenTotals | src/context/review.ts:118-130 | as written, the merged hunk starts where the first hunk starts, its counts are the sums of the hunks' counts, and its delimiters are the hunks' delimiters in order |
| Combine.CombineHunksAsWrittenTotals | src/context/review.ts:112-133 | as written, combining succeeds on any non-empty list, starts at the smallest `newStart`, sums the counts of all hunks and concatenates the delimiters in sorted order |
| Combine.MergeAsWrittenLines | src/context/review.ts:124-126 | as written, each further hunk appends the file lines from `newStart + newLines - 1` of the merge so far up to its own start, then its own lines |
| Combine.MergeFillsEachGapOnce | src/context/review.ts:124-129 | corrected: for hunks in order without overlap, the merged lines are the hunks' lines with each gap's file lines between them once, and both counts include the gap lines, so the merge ends where the last hunk ends |
| Combine.MergeCounts | src/context/review.ts:118-130 | corrected: the merged hunk starts where the first hunk starts, ends where the last hunk ends, counts the gap lines in both counts, and keeps the delimiters in order |
| Combine.MergeInterleaves | src/context/review.ts:124-126 | corrected: the merged lines are the hunks' lines with exactly the file lines between consecutive hunks in between |
| Combine.ExampleMergeAsWritten | src/context/review.ts:124-126 | as written, three one-line hunks merge with the line `C` repeated |
| Combine.ExampleMerge | src/context/review.ts:124-126 | corrected, the same three hunks merge with every file line once |
| Combine.CombineHunksAsWrittenRepeatsLines | src/context/review.ts:124-126 | `combineHunks` on a five-line file and its three hunks repeats line `C`, and the corrected merge does not |
| Combine.CombineHunks | src/context/review.ts:112-133 | the method fails on no hunks, sorts the array in place by `newStart`, and returns the corrected merge of the sorted hunks |
| ScopeString.ContextLines | src/context/review.ts:103 | the scope's lines `start..end`, 1-based and inclusive, taken with `slice` and its clamping |
| ScopeString.InjectionLineAsWritten | src/context/review.ts:104 | the new-file line the injection index points at as written: the untrimmed `newStart` plus the index of the first change among the trimmed lines |
| ScopeString.ScopeExcerpt | src/context/review.ts:105-108 | the header, then the scope lines with the hunk lines spliced in at a given file line, in place of as many lines as the hunk keeps in the new file |
| ScopeString.ScopeLinesAsWritten | src/context/review.ts:103-108 | the excerpt as written: the trimmed lines spliced in at `InjectionLineAsWritten`, under the merged hunk's header |
| ScopeString.ScopeLines | src/context/review.ts:103-108 | the corrected excerpt: the trimmed lines spliced in at the trimmed hunk's own `newStart`, under the same header |
| ScopeString.CountKept | src/context/review.ts:105 | the number of lines to replace is at most the number of hunk lines |
| ScopeString.ScopeLinesLayout | src/context/review.ts:103-108 | corrected: the excerpt is the header, the scope lines above the trimmed hunk, the trimmed hunk lines, and the scope lines below the new-file lines the hunk covers |
| ScopeString.ScopeLinesAsWrittenLayout | src/context/review.ts:104-108 | as written, the trimmed lines are spliced in at the untrimmed hunk's first new line instead |
| ScopeString.InjectionLineAsWrittenIgnoresTrim | src/context/review.ts:104 | as written, for a hunk with a change, the splice starts at the untrimmed hunk's `newStart`, because the first trimmed line is itself a change |
| ScopeString.ScopeLinesSplit | src/context/review.ts:94-109 | when neither the file lines nor the hunk lines contain a line break, splitting the joined excerpt gives back its lines |
| ScopeString.FooHunkTrimmed | src/context/review.ts:86-91 | a hunk with three context lines on each side of a `-`/`+` pair trims to the pair, with `newStart` moving from 2 to 5, and the pair keeps one line of the new file |
| ScopeString.ScopeLinesExample | src/context/review.ts:103-108 | corrected, a ten-line function's excerpt has its line 5 replaced by the pair |
| ScopeString.ScopeLinesAsWrittenMisplaces | src/context/review.ts:104 | as written, the same excerpt has the pair after line 1 in place of line 2, so line 2 is lost and the new line 5 is shown as unchanged |
| ScopeString.BuildingScopeString | src/context/review.ts:94-109 | the method returns the corrected excerpt lines joined by line breaks; when no hunk line contains a line break, splitting the result gives those lines back, with the header first |
| Expand.At | src/context/review.ts:28 | `lines[i]` is defined exactly for an index inside the array, and is then that line |
| Expand.Range | src/context/review.ts:27-29 | a `for` loop from `lo` to `hi` pushes `hi - lo` entries, none when `hi <= lo` |
| Expand.RangeAt | src/context/review.ts:27-29 | the `k`-th entry pushed is `lines[lo + k]`, `undefined` outside the array |
| Expand.RangeDefined | src/context/review.ts:27-29 | inside the array, the pushed entries are the lines `lo..hi` |
| Expand.Render | src/context/review.ts:40 | `join` renders a line as itself and `undefined` as an empty string |
| Expand.AddMissing | src/context/review.ts:32-34 | the `forEach` over the hunk lines: each line is pushed unless the array already includes it |
| Expand.AddMissingContents | src/context/review.ts:32-34 | after the hunk lines, the expansion holds exactly what it held plus every hunk line |
| Expand.AddMissingAppendsNewLines | src/context/review.ts:32-34 | the hunk lines only append to the expansion, never reorder it |
| Expand.NewLinesAreNew | src/context/review.ts:32-34 | the appended hunk lines were not in the expansion before, are pairwise distinct, and are lines of the hunk |
| Expand.WindowStart | src/context/review.ts:24 | `Math.max(0, hunk.oldStart - 1 - linesAbove)`, the first old-file index shown |
| Expand.WindowEnd | src/context/review.ts:25 | `Math.min(lines.length, hunk.oldStart - 1 + hunk.oldLines + linesBelow)`, one past the last old-file index shown |
| Expand.Lead | src/context/review.ts:27-31 | the entries pushed before the hunk lines: the old lines from `WindowStart` up to the hunk's first old line, then the header |
| Expand.Expansion | src/context/review.ts:22-38 | the expansion array: `Lead`, the hunk lines it does not yet include, then the old lines from the hunk's end up to `WindowEnd` |
| Expand.ExpansionWindow | src/context/review.ts:22-38 | for a hunk inside the file, the expansion is up to `linesAbove` lines above, the header, the new hunk lines, and up to `linesBelow` lines below its old range |
| Expand.PushRange | src/context/review.ts:27-29 | the loop appends exactly the range of lines |
| Expand.PushMissing | src/context/review.ts:32-34 | the `forEach` appends exactly the missing hunk lines |
| Expand.BuildExpansion | src/context/review.ts:23-38 | the array built is the expansion: lines above, header, hunk lines, lines below |
| Expand.ExpandHunk | src/context/review.ts:16-41 | `expandHunk` returns the expansion of the hunk in the old file, rendered and joined by line breaks |
| Expand.ExpandFileLines | src/context/review.ts:44-73 | `expandFileLines` gives one expansion per hunk, in order, each that hunk's expansion in the old contents |
| Expand.HeadingLines | src/context/review.ts:79 | a file heading splits into `## <filename>` and an empty line, then the body's lines |
| Expand.RawPatchStrategy | src/context/review.ts:83 | the raw strategy's lines are the heading lines followed by the patch's lines |
| Expand.ExpandedPatchStrategy | src/context/review.ts:76-80 | the expanded strategy is the heading followed by the expansions of five lines each way, separated by blank lines |
| DiffContext.RangeKeyInjective | src/context/review.ts:150 | two scopes with non-negative lines share a `start-end` key only if they are the same scope |
| DiffContext.ScopeOf | src/context/review.ts:146-147 | the parser's answer for one hunk, asked from the trimmed `newStart` to that line plus the untrimmed `newLines` |
| DiffContext.ScopesOf | src/context/review.ts:145-147 | each hunk's scope is looked up from its trimmed `newStart` over `newLines` lines |
| DiffContext.ScopeKeys | src/context/review.ts:149-151 | the scopes in the order hunks first found them, which is the order `scopeMap` keeps its keys in |
| DiffContext.Group | src/context/review.ts:151 | the hunks found in one scope, in patch order |
| DiffContext.ScopeMap | src/context/review.ts:149-151 | the map the first loop builds: each found scope maps to an array, and every hunk found there is appended to it in turn |
| DiffContext.ScopeMapGroups | src/context/review.ts:151 | the map holds exactly the scopes found, each with the hunks of that scope in arrival order |
| DiffContext.ScopeKeysDistinct | src/context/review.ts:151 | the map's keys are distinct |
| DiffContext.ScopeKeysExactly | src/context/review.ts:151 | a scope is a key exactly when some hunk found it |
| DiffContext.GroupExactly | src/context/review.ts:151 | a scope's group holds exactly the hunks that found that scope |
| DiffContext.GroupNonEmpty | src/context/review.ts:151 | every key's group has at least one hunk, so combining it cannot fail |
| DiffContext.UnlistedGroupEmpty | src/context/review.ts:151 | a scope that is not a key has no hunks |
| DiffContext.ScopeKeysFirstSeenOrder | src/context/review.ts:157 | the map visits its keys in the order hunks first found them |
| DiffContext.ExpandedText | src/context/review.ts:153 | `expandHunk(file.old_contents, hunk)` with five lines above and below: the expansion rendered and joined by line breaks |
| DiffContext.Fallbacks | src/context/review.ts:152-154 | the expansions pushed by the first loop, one per hunk without a scope, in patch order |
| DiffContext.FallbacksCount | src/context/review.ts:152-154 | one expanded context per hunk without a scope |
| DiffContext.Excerpt | src/context/review.ts:158-159 | one scope's excerpt: its hunks sorted and merged, then spliced into the scope's lines and joined by line breaks |
| DiffContext.Excerpts | src/context/review.ts:157-161 | one excerpt per scope visited |
| DiffContext.Contexts | src/context/review.ts:143-163 | the array returned: the fallback expansions, then one excerpt per scope in the map's key order |
| DiffContext.ContextsCount | src/context/review.ts:143-163 | the result has one entry per hunk without a scope plus one per distinct scope |
| DiffContext.CollectScopes | src/context/review.ts:142-155 | the first loop builds exactly the key order, the map and the fallback contexts of the specification |
| DiffContext.AddScopeExcerpts | src/context/review.ts:157-161 | the second loop appends, after the fallback contexts, one excerpt per key in the map's order |
| DiffContext.CombineGroup | src/context/review.ts:158 | a scope's hunks combine into the corrected merge of the hunks sorted by `newStart` |
| DiffContext.DiffContextPerHunk | src/context/review.ts:136-164 | when `applyPatch` gives no text or the empty text, the call fails with "Failed to apply patch.", since review.ts:138 refuses any falsy result; otherwise the result is the fallback expansions followed by one excerpt per scope in first-seen order |
| JavascriptParser.ProcessNode | src/context/language/javascript-parser.js:6-16 | the accumulator changes only for a node that covers the range and is strictly larger, and then becomes that node and its size |
| JavascriptParser.Traverse | src/context/language/javascript-parser.js:27-36 | the traversal's state after the visited nodes: `processNode` applied to each `Function` and `TSInterfaceDeclaration` in visit order, other nodes skipped |
| JavascriptParser.TraverseFindsFirstLargest | src/context/language/javascript-parser.js:25-36 | from size 0 and no node, the traversal finds nothing exactly when no covering `Function` or `TSInterfaceDeclaration` spans more than one line, and otherwise the first of the largest |
| JavascriptParser.FindEnclosingContext | src/context/language/javascript-parser.js:20-40 | the loop returns a wrapper holding the first largest covering function or interface of positive size, or null when there is none |
| PyParser.Preorder | src/context/language/py-parser.py:18-24 | every node of the tree in the order `visit` reaches it: each node before its children, children left to right |
| PyParser.Check | src/context/language/py-parser.py:26-31 | `check_node` on the finder's size and context: a covering node strictly larger than the best replaces it |
| PyParser.Walk | src/context/language/py-parser.py:18-34 | the finder's state after the visitor has reached the given nodes in order, with `Check` applied to each `FunctionDef` and `ClassDef` |
| PyParser.PreorderReachesDescendants | src/context/language/py-parser.py:18-24 | every node below a child is visited too, so nested definitions are candidates |
| PyParser.WalkFindsFirstLargest | src/context/language/py-parser.py:26-31 | from size 0, the walk keeps nothing exactly when no covering `FunctionDef` or `ClassDef` spans more than one line, and otherwise the first of the largest in preorder |
| PyParser.ContextFinder.constructor | src/context/language/py-parser.py:12-16 | a new finder holds the range, no context and size 0 |
| PyParser.ContextFinder.CheckNode | src/context/language/py-parser.py:26-31 | `check_node` replaces the best only with a covering, strictly larger node, and keeps the range |
| PyParser.ContextFinder.Visit | src/context/language/py-parser.py:18-24 | visiting a node checks every `FunctionDef` and `ClassDef` of its subtree in preorder, each before its children |
| PyParser.ContextFinder.GenericVisit | src/context/language/py-parser.py:20 | `generic_visit` visits the children's subtrees left to right |
| PyParser.Report | src/context/language/py-parser.py:36-44 | the dictionary built from the final state: the kept node's class name, name and lines, or the "No enclosing context found" error |
| PyParser.FindEnclosingContext | src/context/language/py-parser.py:5-44 | a syntax error gives its error entry without a walk; otherwise the result names the first largest covering definition with its class name, name and lines, or is exactly the "No enclosing context found" error when none spans more than one line |
| PythonParserTs.LargestContext.constructor | src/context/language/python-parser.ts:17 | the record starts at size 0 with no context |
| PythonParserTs.Preorder | src/context/language/python-parser.ts:21-37 | every node of the tree in the order `visitNode` reaches it: each node before its children, children left to right |
| PythonParserTs.Step | src/context/language/python-parser.ts:22-32 | what one call of `visitNode` does to the record: a qualifying node replaces the context when none is held yet or when it is strictly smaller |
| PythonParserTs.Walk | src/context/language/python-parser.ts:21-41 | the record after `visitNode` has reached the given nodes in order, with `Step` applied to each |
| PythonParserTs.PreorderReachesDescendants | src/context/language/python-parser.ts:35-37 | every node below a child is visited too |
| PythonParserTs.WalkFindsFirstSmallest | src/context/language/python-parser.ts:26-31 | the walk keeps nothing exactly when no node qualifies, and otherwise the first of the smallest qualifying nodes in preorder, of any size, single-line nodes included |
| PythonParserTs.VisitNode | src/context/language/python-parser.ts:21-38 | `visitNode` checks the node with rows made 1-based, then its children's subtrees left to right |
| PythonParserTs.FindEnclosingContext | src/context/language/python-parser.ts:13-46 | the wrapper holds the first smallest covering `class_definition` or `function_definition`, or null exactly when none covers the range |
| PythonParserJs.LineResult | src/context/language/python-parser.js:19-33 | what one line gives: on the trimmed line, a `function` for `def `, else a `class` for `class `, named by `NameOf`, else nothing |
| PythonParserJs.ScanFrom | src/context/language/python-parser.js:18-35 | the upward scan from index `i`: the first line at or above it that gives a context, nothing once past index 0, and the `trim` TypeError at an index past the last line |
| PythonParserJs.NameOf | src/context/language/python-parser.js:23 | the name extracted never contains `(` |
| PythonParserJs.NameOfHeader | src/context/language/python-parser.js:23 | the name is the word after the keyword up to a `(`, a space or the end of the line, whatever follows |
| PythonParserJs.HeaderLine | src/context/language/python-parser.js:19-31 | a `def ` line gives a `function` and a `class ` line a `class`, named by the word after the keyword |
| PythonParserJs.ClassNameKeepsColon | src/context/language/python-parser.js:30 | `class Foo:` gives the class named `Foo:`, colon kept |
| PythonParserJs.FunctionNameStopsAtParenthesis | src/context/language/python-parser.js:23 | `def area(self):` gives the function named `area` |
| PythonParserJs.LineIgnoresSurroundingWhitespace | src/context/language/python-parser.js:19 | indentation and trailing whitespace do not change what a line gives |
| PythonParserJs.ScanFindsNearestHeader | src/context/language/python-parser.js:18-34 | the scan throws exactly when it starts past the last line; otherwise it returns the nearest header at or above its first line, or null when there is none |
| PythonParserJs.FindEnclosingContext | src/context/language/python-parser.js:14-36 | the loop returns the upward scan from line `lineStart` over what each line of the file gives, so by `ScanFindsNearestHeader` it throws exactly when `lineStart` is past the last line and otherwise returns the nearest header at or above it; `lineEnd` plays no part |
| Backends.LargestAgainstSmallest | src/context/language/python-parser.ts:28-31 | for a method inside a class, the `ast` backend reports the class and the tree-sitter backend the method |
| Backends.SingleLineDefinition | src/context/language/py-parser.py:28-31 | a one-line definition is found by tree-sitter but not by the `ast` backend |

## Left out

- Parsing is not modelled: `diff.parsePatch`, `diff.applyPatch`, Babel's parser and traversal, tree-sitter and Python's `ast.parse` are foreign code. The model takes the hunks, the patched text (or its absence), the visited nodes and the trees as inputs.
- DiffContext.DiffContextPerHunk: the parser is a function from the patched text and a line range to an optional scope. The check `if (context)` (review.ts:149) is then the scope's presence, not the always-true wrapper the object-returning parsers give back.
- DiffContext.DiffContextPerHunk: the map is keyed by the scope's two line numbers, not by the string `start-end`. `DiffContext.RangeKeyInjective` shows the two keyings group alike for non-negative lines.
- DiffContext.DiffContextPerHunk: review.ts:159 passes the string key as `enclosingContext`, and review.ts:101-102 then read its `loc` or `startPosition`. The model passes the scope's lines instead, which is the intended data flow. The node-shape dispatch is not modelled either.
- DiffContext.DiffContextPerHunk: the merged excerpts use the corrected `Combine.Merge` and `ScopeString.ScopeLines` (see Findings), not the code as written.
- DiffContext.CombineGroup: the source sorts the map's own array in place. The model sorts a fresh copy, since that array is not read again.
- `smarterContextPatchStrategy` (review.ts:167-171) calls `functionContextPatchStrategy`, which is not defined in the file, and `getParserForExtension`, which lives in `../constants`. `../constants` is not part of this model. Its fallback branch is `Expand.ExpandedPatchStrategy`.
- Expand.ExpandFileLines and Expand.ExpandedPatchStrategy take the parsed hunks of all patches in one sequence, so the grouping per patch of `parsePatch` is not represented.
- Text.IntToString: JavaScript numbers are doubles. The model uses unbounded integers, which agree for every line number a file can have.
- PyParser.ContextFinder.CheckNode: `hasattr(node, 'end_lineno')` is taken as always true. Every `FunctionDef` and `ClassDef` produced by `ast.parse` in Python 3.8 and later carries it.
- PyParser.FindEnclosingContext: `str(e)` of the `SyntaxError` comes in as a string. `getattr(node, 'name', None)` is the node's name, which every checked node has.
- `main` of py-parser.py (lines 46-70), the `dryRun` methods of the three backends, and the `PythonParser` constructor's grammar setup are I/O or wrappers around foreign code.
- JavascriptParser.FindEnclosingContext: Babel's `Function` alias (declarations, expressions, arrows, methods) is one node kind.
- src/llms/chat.ts is a network call with no logic of its own.

## Findings

| source | as written | input that shows it | evidently intended | confidence | as-written member | corrected member |
|---|---|---|---|---|---|---|
| src/context/review.ts:125 | each gap starts at `combinedHunk.newStart + combinedHunk.newLines - 1`, but `newLines` grows only by the hunks' own counts (128), not by the gap lines pushed in 125 | file `A\nb\nC\nd\nE` with one-line hunks at new lines 1, 3 and 5: the merged lines repeat `C` | a gap starts after the last new-file line already in the merged hunk, and the gap lines count towards `newLines` and `oldLines` | high; proved on the model, not executed | Combine.CombineHunksAsWrittenRepeatsLines | Combine.MergeFillsEachGapOnce |
| src/context/review.ts:104 | the injection index adds the index of the first change in the trimmed lines (always 0) to the untrimmed `hunk.newStart` | a ten-line function with a hunk whose three leading context lines precede a change at new line 5: the pair lands after line 1 and line 5 stays | `trimmedHunk.newStart - start`, where the first trimmed line sits in the scope | high; proved on the model, not executed | ScopeString.ScopeLinesAsWrittenMisplaces | ScopeString.ScopeLinesLayout |
