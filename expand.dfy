/** The fallback excerpts of src/context/review.ts: `expandHunk` and
    `expandFileLines` widen each hunk with up to `linesAbove` old-file lines
    above it and `linesBelow` below it, and `expandedPatchStrategy` and
    `rawPatchStrategy` put a file heading in front.

    The expansion is a JavaScript array that the code pushes onto; reading
    `lines[i]` outside the old file gives `undefined`, which is kept here as
    `None` (it is never equal to a hunk line, and `join` renders it as the
    empty string). Parsing the patch into hunks is not part of this model:
    the hunks come in as a parameter, in the order the parser yields them. */
module Expand {
  import opened Wrappers
  import opened Text
  import opened Hunks

  /** The changed file as the pull request lists it. */
  datatype PRFile = PRFile(filename: string, oldContents: string, patch: string)

  /** `lines[i]`: the line, or `undefined` outside the array. */
  function At(lines: seq<string>, i: int): (r: Option<string>)
    ensures r.Some? <==> 0 <= i < |lines|
    ensures r.Some? ==> r.value == lines[i]
  {
    if 0 <= i < |lines| then Some(lines[i]) else None
  }

  /** The entries `lines[lo]`, ..., `lines[hi - 1]` an index loop pushes. */
  function Range(lines: seq<string>, lo: int, hi: int): (r: seq<Option<string>>)
    ensures |r| == if hi <= lo then 0 else hi - lo
    decreases hi - lo
  {
    if hi <= lo then [] else Range(lines, lo, hi - 1) + [At(lines, hi - 1)]
  }

  /** Entry `k` of a range is `lines[lo + k]`. */
  lemma {:induction false} RangeAt(lines: seq<string>, lo: int, hi: int)
    ensures forall k :: 0 <= k < |Range(lines, lo, hi)| ==> Range(lines, lo, hi)[k] == At(lines, lo + k)
    decreases hi - lo
  {
    if lo < hi {
      RangeAt(lines, lo, hi - 1);
    }
  }

  /** Inside the array, a range holds the lines themselves. */
  lemma RangeDefined(lines: seq<string>, lo: int, hi: int)
    requires 0 <= lo <= hi <= |lines|
    ensures Range(lines, lo, hi) == Defined(lines[lo..hi])
  {
    RangeAt(lines, lo, hi);
  }

  /** Lines as array entries, all defined. */
  function Defined(xs: seq<string>): (r: seq<Option<string>>)
    ensures |r| == |xs|
    ensures forall k :: 0 <= k < |xs| ==> r[k] == Some(xs[k])
  {
    seq(|xs|, k requires 0 <= k < |xs| => Some(xs[k]))
  }

  /** `Array.prototype.join` renders `undefined` as the empty string. */
  function Render(entries: seq<Option<string>>): (r: seq<string>)
    ensures |r| == |entries|
    ensures forall k :: 0 <= k < |entries| ==> r[k] == (if entries[k].Some? then entries[k].value else "")
  {
    seq(|entries|, k requires 0 <= k < |entries| => if entries[k].Some? then entries[k].value else "")
  }

  /** `xs.forEach((x) => { if (!acc.includes(x)) acc.push(x); })`. */
  function AddMissing(acc: seq<Option<string>>, xs: seq<string>): seq<Option<string>>
  {
    if xs == [] then acc
    else
      var a := AddMissing(acc, xs[..|xs| - 1]);
      if Some(xs[|xs| - 1]) in a then a else a + [Some(xs[|xs| - 1])]
  }

  /** An independent description of what that loop appends: each line of
      `xs` that is neither already in `acc` nor an earlier line of `xs`, in
      order. */
  function NewLines(acc: seq<Option<string>>, xs: seq<string>): seq<Option<string>>
  {
    if xs == [] then []
    else
      var x, init := xs[|xs| - 1], xs[..|xs| - 1];
      NewLines(acc, init) + (if Some(x) in acc || x in init then [] else [Some(x)])
  }

  /** One more step of the loop. */
  lemma AddMissingStep(acc: seq<Option<string>>, xs: seq<string>, j: nat)
    requires j < |xs|
    ensures AddMissing(acc, xs[..j + 1])
      == var a := AddMissing(acc, xs[..j]); if Some(xs[j]) in a then a else a + [Some(xs[j])]
  {
    assert xs[..j + 1][..j] == xs[..j];
  }

  /** What the loop leaves behind holds exactly the entries it started with
      and the lines it was offered. */
  lemma {:induction false} AddMissingContents(acc: seq<Option<string>>, xs: seq<string>)
    ensures forall e :: e in AddMissing(acc, xs) <==> e in acc || (e.Some? && e.value in xs)
  {
    if xs != [] {
      var init := xs[..|xs| - 1];
      AddMissingContents(acc, init);
      assert xs == init + [xs[|xs| - 1]];
    }
  }

  /** The loop keeps what was there and appends exactly `NewLines`. */
  lemma {:induction false} AddMissingAppendsNewLines(acc: seq<Option<string>>, xs: seq<string>)
    ensures AddMissing(acc, xs) == acc + NewLines(acc, xs)
  {
    if xs != [] {
      var x, init := xs[|xs| - 1], xs[..|xs| - 1];
      AddMissingAppendsNewLines(acc, init);
      AddMissingContents(acc, init);
    }
  }

  /** No appended line was already present and none is appended twice. */
  lemma {:induction false} NewLinesAreNew(acc: seq<Option<string>>, xs: seq<string>)
    ensures forall k :: 0 <= k < |NewLines(acc, xs)| ==> NewLines(acc, xs)[k] !in acc
    ensures forall k, l :: 0 <= k < l < |NewLines(acc, xs)| ==> NewLines(acc, xs)[k] != NewLines(acc, xs)[l]
    ensures forall e :: e in NewLines(acc, xs) ==> e.Some? && e.value in xs
  {
    if xs != [] {
      var x, init := xs[|xs| - 1], xs[..|xs| - 1];
      NewLinesAreNew(acc, init);
      var n := NewLines(acc, init);
      if !(Some(x) in acc || x in init) {
        assert Some(x) !in n;
      }
    }
  }

  function Max(a: int, b: int): int { if a < b then b else a }
  function Min(a: int, b: int): int { if a < b then a else b }

  /** `Math.max(0, hunk.oldStart - 1 - linesAbove)`. */
  function WindowStart(h: Hunk, above: int): int
  {
    Max(0, h.oldStart - 1 - above)
  }

  /** `Math.min(lines.length, hunk.oldStart - 1 + hunk.oldLines + linesBelow)`. */
  function WindowEnd(lines: seq<string>, h: Hunk, below: int): int
  {
    Min(|lines|, h.oldStart - 1 + h.oldLines + below)
  }

  /** The entries above the hunk and its header: where the hunk lines are
      checked against. */
  function Lead(lines: seq<string>, h: Hunk, above: int): seq<Option<string>>
  {
    Range(lines, WindowStart(h, above), h.oldStart - 1) + [Some(Header(h))]
  }

  /** The expansion array: old-file lines above the hunk, the header, the
      hunk lines not already present, and old-file lines below the hunk. */
  function Expansion(lines: seq<string>, h: Hunk, above: int, below: int): seq<Option<string>>
  {
    AddMissing(Lead(lines, h, above), h.lines)
    + Range(lines, h.oldStart - 1 + h.oldLines, WindowEnd(lines, h, below))
  }

  /** For a hunk that lies inside the old file, the expansion is the old
      lines `oldStart - 1 - min(above, oldStart - 1) .. oldStart - 1`, the
      header, the hunk lines that are new to it, and the old lines from the
      hunk's end on, at most `below` of them and never past the file's end. */
  lemma ExpansionWindow(lines: seq<string>, h: Hunk, above: nat, below: nat)
    requires 1 <= h.oldStart && 0 <= h.oldLines && h.oldStart - 1 + h.oldLines <= |lines|
    ensures var first, last := h.oldStart - 1, h.oldStart - 1 + h.oldLines;
      var s := first - Min(above, first);
      var e := last + Min(below, |lines| - last);
      var lead := Defined(lines[s..first]) + [Some(Header(h))];
      Expansion(lines, h, above, below) == lead + NewLines(lead, h.lines) + Defined(lines[last..e])
  {
    var first, last := h.oldStart - 1, h.oldStart - 1 + h.oldLines;
    var s := first - Min(above, first);
    var e := last + Min(below, |lines| - last);
    assert WindowStart(h, above) == s && WindowEnd(lines, h, below) == e;
    var lead := Defined(lines[s..first]) + [Some(Header(h))];
    var tail := Defined(lines[last..e]);
    assert Lead(lines, h, above) == lead by {
      RangeDefined(lines, s, first);
    }
    assert Range(lines, last, WindowEnd(lines, h, below)) == tail by {
      RangeDefined(lines, last, e);
    }
    ExpansionParts(lines, h, above, below, lead, tail);
  }

  /** The expansion is the lead, the new hunk lines, and the lines below. */
  lemma ExpansionParts(lines: seq<string>, h: Hunk, above: int, below: int, lead: seq<Option<string>>, tail: seq<Option<string>>)
    requires lead == Lead(lines, h, above)
    requires tail == Range(lines, h.oldStart - 1 + h.oldLines, WindowEnd(lines, h, below))
    ensures Expansion(lines, h, above, below) == lead + NewLines(lead, h.lines) + tail
  {
    AddMissingAppendsNewLines(lead, h.lines);
  }

  /** `for (let i = lo; i < hi; i++) expansion.push(lines[i]);` */
  method PushRange(expansion: seq<Option<string>>, lines: seq<string>, lo: int, hi: int)
    returns (r: seq<Option<string>>)
    ensures r == expansion + Range(lines, lo, hi)
  {
    r := expansion;
    var i := lo;
    while i < hi
      invariant lo <= i && (i == lo || i <= hi)
      invariant r == expansion + Range(lines, lo, i)
      decreases hi - i
    {
      r := r + [At(lines, i)];
      i := i + 1;
    }
  }

  /** `xs.forEach((x) => { if (!expansion.includes(x)) expansion.push(x); })` */
  method PushMissing(expansion: seq<Option<string>>, xs: seq<string>) returns (r: seq<Option<string>>)
    ensures r == AddMissing(expansion, xs)
  {
    r := expansion;
    var j := 0;
    while j < |xs|
      invariant 0 <= j <= |xs|
      invariant r == AddMissing(expansion, xs[..j])
    {
      AddMissingStep(expansion, xs, j);
      if Some(xs[j]) !in r {
        r := r + [Some(xs[j])];
      }
      j := j + 1;
    }
    assert xs[..j] == xs;
  }

  /** The body of `expandHunk` (and, line for line, of `expandFileLines`)
      that builds the expansion array. */
  method BuildExpansion(lines: seq<string>, h: Hunk, above: int, below: int)
    returns (expansion: seq<Option<string>>)
    ensures expansion == Expansion(lines, h, above, below)
  {
    expansion := [];
    var start := WindowStart(h, above);
    var end := WindowEnd(lines, h, below);
    expansion := PushRange(expansion, lines, start, h.oldStart - 1);
    assert expansion == Range(lines, start, h.oldStart - 1);
    expansion := expansion + [Some(Header(h))];
    expansion := PushMissing(expansion, h.lines);
    expansion := PushRange(expansion, lines, h.oldStart - 1 + h.oldLines, end);
  }

  /** expandHunk: the expansion of `hunk` against `contents`, joined by
      newlines. */
  method ExpandHunk(contents: string, hunk: Hunk, linesAbove: int, linesBelow: int) returns (r: string)
    ensures r == Join(Render(Expansion(Split(contents, '\n'), hunk, linesAbove, linesBelow)), "\n")
  {
    var lines := Split(contents, '\n');
    var expansion := BuildExpansion(lines, hunk, linesAbove, linesBelow);
    r := Join(Render(expansion), "\n");
  }

  /** The expansions of `hunks`, in order. */
  function Expansions(lines: seq<string>, hunks: seq<Hunk>, above: int, below: int): (r: seq<seq<Option<string>>>)
    ensures |r| == |hunks|
  {
    if hunks == [] then []
    else Expansions(lines, hunks[..|hunks| - 1], above, below) + [Expansion(lines, hunks[|hunks| - 1], above, below)]
  }

  /** Entry `i` of the list is the expansion of hunk `i`. */
  lemma {:induction false} ExpansionsAt(lines: seq<string>, hunks: seq<Hunk>, above: int, below: int, i: nat)
    requires i < |hunks|
    ensures Expansions(lines, hunks, above, below)[i] == Expansion(lines, hunks[i], above, below)
  {
    var n := |hunks| - 1;
    if i < n {
      ExpansionsAt(lines, hunks[..n], above, below, i);
      assert hunks[..n][i] == hunks[i];
    }
  }

  /** expandFileLines: one expansion array per hunk of the file's patch, in
      patch order, all against the old contents. */
  method ExpandFileLines(file: PRFile, hunks: seq<Hunk>, linesAbove: int, linesBelow: int)
    returns (expandedHunks: seq<seq<Option<string>>>)
    ensures |expandedHunks| == |hunks|
    ensures forall i :: 0 <= i < |hunks| ==>
      expandedHunks[i] == Expansion(Split(file.oldContents, '\n'), hunks[i], linesAbove, linesBelow)
  {
    var lines := Split(file.oldContents, '\n');
    expandedHunks := [];
    for n := 0 to |hunks|
      invariant expandedHunks == Expansions(lines, hunks[..n], linesAbove, linesBelow)
    {
      var expansion := BuildExpansion(lines, hunks[n], linesAbove, linesBelow);
      assert hunks[..n + 1][..n] == hunks[..n];
      expandedHunks := expandedHunks + [expansion];
    }
    assert hunks[..|hunks|] == hunks;
    forall i | 0 <= i < |hunks|
      ensures expandedHunks[i] == Expansion(lines, hunks[i], linesAbove, linesBelow)
    {
      ExpansionsAt(lines, hunks, linesAbove, linesBelow, i);
    }
  }

  /** `## filename` and a blank line. */
  function Heading(file: PRFile): string
  {
    "## " + file.filename + "\n\n"
  }

  /** With a file name on one line, a strategy's text reads as the heading
      line, a blank line, and then the body's own lines. */
  lemma HeadingLines(file: PRFile, body: string)
    requires '\n' !in file.filename
    ensures Split(Heading(file) + body, '\n') == ["## " + file.filename, ""] + Split(body, '\n')
  {
    var title := "## " + file.filename;
    assert '\n' !in title by {
      assert forall k :: 0 <= k < |title| ==> title[k] == (if k < 3 then "## "[k] else file.filename[k - 3]);
    }
    assert Heading(file) + body == title + ['\n'] + ("" + ['\n'] + body);
    SplitSep(title, "" + ['\n'] + body, '\n');
    SplitSep("", body, '\n');
  }

  /** rawPatchStrategy: the heading, then the patch text as it is. */
  function RawPatchStrategy(file: PRFile): (r: string)
    ensures '\n' !in file.filename ==>
      Split(r, '\n') == ["## " + file.filename, ""] + Split(file.patch, '\n')
  {
    var r := Heading(file) + file.patch;
    if '\n' in file.filename then r
    else HeadingLines(file, file.patch); r
  }

  /** The text of each expansion, as `patch.join("\n")` gives it. */
  function ExpansionTexts(lines: seq<string>, hunks: seq<Hunk>, above: int, below: int): (r: seq<string>)
    ensures |r| == |hunks|
  {
    seq(|hunks|, i requires 0 <= i < |hunks| => Join(Render(Expansion(lines, hunks[i], above, below)), "\n"))
  }

  /** expandedPatchStrategy: the heading, then every hunk's expansion with
      five lines either side, separated by blank lines. */
  method ExpandedPatchStrategy(file: PRFile, hunks: seq<Hunk>) returns (r: string)
    ensures r == Heading(file) + Join(ExpansionTexts(Split(file.oldContents, '\n'), hunks, 5, 5), "\n\n")
    ensures '\n' !in file.filename ==>
      Split(r, '\n') == ["## " + file.filename, ""]
        + Split(Join(ExpansionTexts(Split(file.oldContents, '\n'), hunks, 5, 5), "\n\n"), '\n')
  {
    var expandedPatches := ExpandFileLines(file, hunks, 5, 5);
    var texts := seq(|expandedPatches|, i requires 0 <= i < |expandedPatches| => Join(Render(expandedPatches[i]), "\n"));
    assert texts == ExpansionTexts(Split(file.oldContents, '\n'), hunks, 5, 5);
    var expansions := Join(texts, "\n\n");
    r := "## " + file.filename + "\n\n" + expansions;
    if '\n' !in file.filename {
      HeadingLines(file, expansions);
    }
  }
}
