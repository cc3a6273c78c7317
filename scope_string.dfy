/** `buildingScopeString` (src/context/review.ts): the excerpt for one scope.
    It takes the scope's lines `start..end` of the new file, splices the
    trimmed hunk lines into them in place of the new-file lines they cover,
    and puts the hunk header in front.

    The scope's first and last line reach this function as plain integers;
    which field of a parser's node they come from is not part of this model.

    As written, the injection index is `hunk.newStart - start` plus the index
    of the first changed line in the TRIMMED lines, which is 0 whenever the
    hunk has a change: the lines land at the untrimmed hunk's first line, as
    many lines too early as the hunk has leading context. `ScopeLines` uses
    the trimmed hunk's own `newStart`, which is what that sum aims at, and is
    the version the rest of the model uses. */
module ScopeString {
  import opened Text
  import opened Hunks

  /** `fileLines.slice(start - 1, end)`: lines `start..end`, 1-based and
      inclusive. */
  function ContextLines(fileLines: seq<string>, start: int, end: int): seq<string>
  {
    Slice(fileLines, start - 1, end)
  }

  /** `lines.filter((line) => !line.startsWith("-")).length`: the lines of the
      hunk that exist in the new file. */
  function CountKept(lines: seq<string>): (n: nat)
    ensures n <= |lines|
  {
    if lines == [] then 0
    else CountKept(lines[..|lines| - 1]) + (if StartsWith(lines[|lines| - 1], "-") then 0 else 1)
  }

  /** The new-file line the splice starts at as written: the injection
      index `hunk.newStart - start + trimmedHunk.lines.findIndex(...)` is
      this line's offset from `start`. */
  function InjectionLineAsWritten(hunk: Hunk): int
  {
    hunk.newStart + FindChange(TrimHunk(hunk).lines)
  }

  /** The header, then lines `start..end` of the file with `items` spliced
      in at file line `at`, in place of as many lines as `items` keeps. */
  function ScopeExcerpt(fileLines: seq<string>, start: int, end: int, header: string, at: int, items: seq<string>): seq<string>
  {
    [header] + Splice(ContextLines(fileLines, start, end), at - start, CountKept(items), items)
  }

  /** The excerpt's lines as written. */
  function ScopeLinesAsWritten(fileLines: seq<string>, start: int, end: int, hunk: Hunk): seq<string>
  {
    ScopeExcerpt(fileLines, start, end, Header(hunk), InjectionLineAsWritten(hunk), TrimHunk(hunk).lines)
  }

  /** The excerpt's lines with the trimmed hunk spliced in at its own first
      new line, which is what the sum above aims at. */
  function ScopeLines(fileLines: seq<string>, start: int, end: int, hunk: Hunk): seq<string>
  {
    ScopeExcerpt(fileLines, start, end, Header(hunk), TrimHunk(hunk).newStart, TrimHunk(hunk).lines)
  }

  predicate NoNewlines(lines: seq<string>)
  {
    forall i :: 0 <= i < |lines| ==> '\n' !in lines[i]
  }

  /** Splicing `d` lines in at file line `at` of lines `start..end`, when
      they lie inside the scope, keeps the file lines around them. */
  lemma SpliceIntoScope(fileLines: seq<string>, start: int, end: int, at: int, d: int, items: seq<string>)
    requires 1 <= start <= at && 0 <= d && at - 1 + d <= end <= |fileLines|
    ensures Splice(ContextLines(fileLines, start, end), at - start, d, items)
      == fileLines[start - 1..at - 1] + items + fileLines[at - 1 + d..end]
  {
    var ctx := ContextLines(fileLines, start, end);
    var k := at - start;
    assert ctx == fileLines[start - 1..end];
    assert ctx[..k] == fileLines[start - 1..at - 1];
    assert ctx[k + d..] == fileLines[at - 1 + d..end];
  }

  /** When the items replace lines that lie inside the scope, the excerpt
      keeps the scope lines above and below them, in order. */
  lemma ExcerptLayout(fileLines: seq<string>, start: int, end: int, header: string, at: int, items: seq<string>)
    requires 1 <= start <= at && at - 1 + CountKept(items) <= end <= |fileLines|
    ensures ScopeExcerpt(fileLines, start, end, header, at, items)
      == [header] + fileLines[start - 1..at - 1] + items + fileLines[at - 1 + CountKept(items)..end]
  {
    SpliceIntoScope(fileLines, start, end, at, CountKept(items), items);
  }

  /** When the scope holds the new-file lines the trimmed hunk covers, the
      excerpt is the header, the scope lines above the first trimmed line,
      the trimmed hunk lines, and the scope lines below the last new-file
      line the hunk covers: exactly the hunk's own new-file lines are
      replaced, and every other scope line is kept, in order. */
  lemma ScopeLinesLayout(fileLines: seq<string>, start: int, end: int, hunk: Hunk)
    requires 1 <= start <= TrimHunk(hunk).newStart
    requires TrimHunk(hunk).newStart - 1 + CountKept(TrimHunk(hunk).lines) <= end <= |fileLines|
    ensures var t, r := TrimHunk(hunk), ScopeLines(fileLines, start, end, hunk);
      var below := t.newStart - 1 + CountKept(t.lines);
      r == [Header(hunk)] + fileLines[start - 1..t.newStart - 1] + t.lines + fileLines[below..end]
  {
    var t := TrimHunk(hunk);
    ExcerptLayout(fileLines, start, end, Header(hunk), t.newStart, t.lines);
  }

  /** As written, a hunk with a change is spliced in at its untrimmed first
      new line: the trimmed lines open with a change, so the index added to
      `hunk.newStart` is 0. */
  lemma InjectionLineAsWrittenIgnoresTrim(hunk: Hunk)
    requires HasChange(hunk.lines)
    ensures InjectionLineAsWritten(hunk) == hunk.newStart
  {
    var t := TrimHunk(hunk);
    assert IsChange(t.lines[0]) by { TrimHunkSpan(hunk); }
  }

  /** As written the same splice starts at the untrimmed hunk's first new
      line: the scope lines kept above it stop at `hunk.newStart`, and the
      lines replaced are the ones from `hunk.newStart` on, whatever the
      number of leading context lines trimmed away. */
  lemma ScopeLinesAsWrittenLayout(fileLines: seq<string>, start: int, end: int, hunk: Hunk)
    requires HasChange(hunk.lines)
    requires 1 <= start <= hunk.newStart
    requires hunk.newStart - 1 + CountKept(TrimHunk(hunk).lines) <= end <= |fileLines|
    ensures var t, r := TrimHunk(hunk), ScopeLinesAsWritten(fileLines, start, end, hunk);
      var below := hunk.newStart - 1 + CountKept(t.lines);
      r == [Header(hunk)] + fileLines[start - 1..hunk.newStart - 1] + t.lines + fileLines[below..end]
  {
    InjectionLineAsWrittenIgnoresTrim(hunk);
    var t := TrimHunk(hunk);
    ExcerptLayout(fileLines, start, end, Header(hunk), hunk.newStart, t.lines);
  }

  /** A ten-line function on new lines 1 to 10 whose line 5 is replaced; the
      hunk carries three context lines on each side. */
  const FooLines := ["l1", "l2", "l3", "l4", "new5", "l6", "l7", "l8", "l9", "l10"]
  const FooHunk := Hunk(2, 7, 2, 7,
    [" l2", " l3", " l4", "-old5", "+new5", " l6", " l7", " l8"],
    ["\n", "\n", "\n", "\n", "\n", "\n", "\n", "\n"])

  lemma CountKeptPair()
    ensures CountKept(["-old5", "+new5"]) == 1
  {
    var kept := ["-old5", "+new5"];
    assert kept[..1] == ["-old5"];
    assert ["-old5"][..0] == [];
    assert kept[0][..1] == "-";
    assert kept[1][..1] == "+";
  }

  lemma FooHunkTrimmed()
    ensures TrimHunk(FooHunk).lines == ["-old5", "+new5"]
    ensures TrimHunk(FooHunk).newStart == 5
    ensures CountKept(["-old5", "+new5"]) == 1
  {
    var pre, mid, post := [" l2", " l3", " l4"], ["-old5", "+new5"], [" l6", " l7", " l8"];
    forall i | 0 <= i < 3 ensures !IsChange(pre[i]) && !IsChange(post[i]) {
      IsChangeFirstChar(pre[i]);
      IsChangeFirstChar(post[i]);
    }
    IsChangeFirstChar(mid[0]);
    IsChangeFirstChar(mid[1]);
    TrimHunkAround(FooHunk, pre, mid, post);
    CountKeptPair();
  }

  /** The excerpt for the example: the whole function with its line 5
      replaced by the hunk's `-`/`+` pair, and the header in front. */
  lemma ScopeLinesExample()
    ensures ScopeLines(FooLines, 1, 10, FooHunk)
      == [Header(FooHunk)] + FooLines[0..4] + TrimHunk(FooHunk).lines + FooLines[5..10]
  {
    FooHunkTrimmed();
    ScopeLinesLayout(FooLines, 1, 10, FooHunk);
  }

  /** As written, the same example injects the pair after line 1 and drops
      line 2 in its place, while the new line 5 stays in the excerpt as if
      unchanged: the excerpt differs from the one above. */
  lemma ScopeLinesAsWrittenMisplaces()
    ensures ScopeLinesAsWritten(FooLines, 1, 10, FooHunk)
      == [Header(FooHunk)] + FooLines[0..1] + TrimHunk(FooHunk).lines + FooLines[2..10]
  {
    FooHunkTrimmed();
    assert HasChange(FooHunk.lines) by { IsChangeFirstChar(FooHunk.lines[3]); }
    ScopeLinesAsWrittenLayout(FooLines, 1, 10, FooHunk);
  }

  /** An excerpt made of newline-free lines splits back into those lines
      once joined with newlines. */
  lemma ExcerptSplits(fileLines: seq<string>, start: int, end: int, header: string, at: int, items: seq<string>)
    requires NoNewlines(fileLines) && '\n' !in header && NoNewlines(items)
    ensures Split(Join(ScopeExcerpt(fileLines, start, end, header, at, items), "\n"), '\n')
      == ScopeExcerpt(fileLines, start, end, header, at, items)
  {
    var ctx := ContextLines(fileLines, start, end);
    assert NoNewlines(ctx);
    var spliced := Splice(ctx, at - start, CountKept(items), items);
    SpliceNoNewlines(ctx, at - start, CountKept(items), items);
    var all := [header] + spliced;
    assert NoNewlines(all) by {
      assert forall i :: 0 < i < |all| ==> all[i] == spliced[i - 1];
    }
    SplitJoin(all, '\n');
  }

  lemma SpliceNoNewlines(s: seq<string>, at: int, d: int, items: seq<string>)
    requires NoNewlines(s) && NoNewlines(items)
    ensures NoNewlines(Splice(s, at, d, items))
  {
    var r := Splice(s, at, d, items);
    forall i | 0 <= i < |r| ensures '\n' !in r[i] {
      SpliceFrom(s, at, d, items, i);
    }
  }

  /** Trimming keeps a subset of the hunk's lines. */
  lemma TrimmedNoNewlines(hunk: Hunk)
    requires NoNewlines(hunk.lines)
    ensures NoNewlines(TrimHunk(hunk).lines)
  {
    var s := hunk.lines;
    var b, e := FindChange(s), |s| - FindChange(Reverse(s));
    var t := TrimHunk(hunk).lines;
    assert t == Slice(s, b, e);
    forall i | 0 <= i < |t| ensures '\n' !in t[i] {
      SliceFrom(s, b, e, i);
    }
  }

  /** The excerpt of a newline-free file and hunk splits back into its lines
      once joined with newlines. */
  lemma ScopeLinesSplit(fileLines: seq<string>, start: int, end: int, hunk: Hunk)
    requires NoNewlines(fileLines) && NoNewlines(hunk.lines)
    ensures Split(Join(ScopeLines(fileLines, start, end, hunk), "\n"), '\n') == ScopeLines(fileLines, start, end, hunk)
  {
    TrimmedNoNewlines(hunk);
    ExcerptSplits(fileLines, start, end, Header(hunk), TrimHunk(hunk).newStart, TrimHunk(hunk).lines);
  }

  /** buildingScopeString with the corrected injection index. The splice on
      the local array becomes a reassignment of the local sequence. */
  method BuildingScopeString(fileContents: string, start: int, end: int, hunk: Hunk) returns (r: string)
    ensures r == Join(ScopeLines(Split(fileContents, '\n'), start, end, hunk), "\n")
    ensures NoNewlines(hunk.lines) ==> Split(r, '\n') == ScopeLines(Split(fileContents, '\n'), start, end, hunk)
    ensures NoNewlines(hunk.lines) ==> Split(r, '\n')[0] == Header(hunk)
  {
    var fileLines := Split(fileContents, '\n');
    var trimmedHunk := TrimHunk(hunk);
    var contextLines := Slice(fileLines, start - 1, end);
    var injectionIdx := trimmedHunk.newStart - start;
    var linesToReplace := CountKept(trimmedHunk.lines);
    contextLines := Splice(contextLines, injectionIdx, linesToReplace, trimmedHunk.lines);
    var all := [Header(hunk)] + contextLines;
    r := Join(all, "\n");
    assert all == ScopeLines(fileLines, start, end, hunk);
    if NoNewlines(hunk.lines) {
      ScopeLinesSplit(fileLines, start, end, hunk);
    }
  }
}
