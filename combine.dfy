/** `combineHunks` (src/context/review.ts): merge the hunks that fall in one
    scope into a single hunk. The input array is sorted in place by `newStart`
    with JavaScript's stable sort, the first hunk is copied, and every later
    hunk appends the new-file lines of the gap before it and then its own lines.

    Two versions of the merge step are modelled. `AbsorbAsWritten` is the code
    as it stands: `newLines` grows by the hunks' own counts only, yet the next
    gap is measured from `newStart + newLines`, so from the third hunk on the
    gap starts too early and repeats lines already in the result.
    `Absorb` also counts the gap lines, which makes `newStart + newLines`
    the true end of the merged region; the imperative `CombineHunks`, which the
    rest of the model uses, is proved against it. */
module Combine {
  import opened Wrappers
  import opened Text
  import opened Hunks

  const NoHunksError := "No hunks to combine."

  predicate Sorted(s: seq<Hunk>)
  {
    forall i, j :: 0 <= i < j < |s| ==> s[i].newStart <= s[j].newStart
  }

  predicate StrictlySorted(s: seq<Hunk>)
  {
    forall i, j :: 0 <= i < j < |s| ==> s[i].newStart < s[j].newStart
  }

  predicate DistinctStarts(s: seq<Hunk>)
  {
    forall i, j :: 0 <= i < j < |s| ==> s[i].newStart != s[j].newStart
  }

  // ---------------------------------------------------------------------------
  // The sort: `hunks.sort((a, b) => a.newStart - b.newStart)`, stable.

  /** Insert `h` behind every hunk whose `newStart` is not greater, scanning
      from the end: one step of a stable insertion sort. */
  function Insert(h: Hunk, s: seq<Hunk>): (r: seq<Hunk>)
    ensures |r| == |s| + 1
  {
    if s == [] || s[|s| - 1].newStart <= h.newStart then s + [h]
    else Insert(h, s[..|s| - 1]) + [s[|s| - 1]]
  }

  /** The order a stable sort by `newStart` leaves the hunks in. */
  function SortByNewStart(s: seq<Hunk>): (r: seq<Hunk>)
    ensures |r| == |s|
  {
    if s == [] then []
    else Insert(s[|s| - 1], SortByNewStart(s[..|s| - 1]))
  }

  lemma {:induction false} InsertPermutes(h: Hunk, s: seq<Hunk>)
    ensures multiset(Insert(h, s)) == multiset(s) + multiset{h}
  {
    if s != [] && s[|s| - 1].newStart > h.newStart {
      var init := s[..|s| - 1];
      assert s == init + [s[|s| - 1]];
      InsertPermutes(h, init);
    }
  }

  /** The sort only reorders: the result is a permutation of the input. */
  lemma {:induction false} SortPermutes(s: seq<Hunk>)
    ensures multiset(SortByNewStart(s)) == multiset(s)
  {
    if s != [] {
      var init := s[..|s| - 1];
      assert s == init + [s[|s| - 1]];
      SortPermutes(init);
      InsertPermutes(s[|s| - 1], SortByNewStart(init));
    }
  }

  /** The hunks of `s` that start at new line `k`, in their order in `s`. */
  function KeyRun(k: int, s: seq<Hunk>): seq<Hunk>
  {
    if s == [] then []
    else KeyRun(k, s[..|s| - 1]) + (if s[|s| - 1].newStart == k then [s[|s| - 1]] else [])
  }

  /** Insertion puts `h` behind every hunk with the same start and moves no
      hunk past another with the same start. */
  lemma {:induction false} InsertStable(k: int, h: Hunk, s: seq<Hunk>)
    ensures KeyRun(k, Insert(h, s)) == KeyRun(k, s) + (if h.newStart == k then [h] else [])
  {
    if s == [] || s[|s| - 1].newStart <= h.newStart {
      assert (s + [h])[..|s|] == s;
    } else {
      var init, last := s[..|s| - 1], s[|s| - 1];
      InsertStable(k, h, init);
      var r := Insert(h, init);
      assert (r + [last])[..|r|] == r;
    }
  }

  /** The sort is stable: hunks with the same `newStart` keep the order they
      arrived in, so that order decides how they are merged. */
  lemma {:induction false} SortStable(k: int, s: seq<Hunk>)
    ensures KeyRun(k, SortByNewStart(s)) == KeyRun(k, s)
  {
    if s != [] {
      var init := s[..|s| - 1];
      SortStable(k, init);
      InsertStable(k, s[|s| - 1], SortByNewStart(init));
    }
  }

  lemma {:induction false} InsertSorted(h: Hunk, s: seq<Hunk>)
    requires Sorted(s)
    ensures Sorted(Insert(h, s))
  {
    if s == [] || s[|s| - 1].newStart <= h.newStart {
      assert Insert(h, s) == s + [h];
    } else {
      var init, last := s[..|s| - 1], s[|s| - 1];
      InsertSorted(h, init);
      InsertPermutes(h, init);
      var r := Insert(h, init);
      assert Insert(h, s) == r + [last];
      forall k | 0 <= k < |r| ensures r[k].newStart <= last.newStart {
        assert r[k] in multiset(r);
        assert r[k] == h || r[k] in multiset(init);
      }
    }
  }

  /** The sort leaves the hunks in ascending `newStart` order. */
  lemma {:induction false} SortSorted(s: seq<Hunk>)
    ensures Sorted(SortByNewStart(s))
  {
    if s != [] {
      SortSorted(s[..|s| - 1]);
      InsertSorted(s[|s| - 1], SortByNewStart(s[..|s| - 1]));
    }
  }

  lemma {:induction false} InsertStrictlySorted(h: Hunk, s: seq<Hunk>)
    requires StrictlySorted(s)
    requires forall i :: 0 <= i < |s| ==> s[i].newStart != h.newStart
    ensures StrictlySorted(Insert(h, s))
  {
    if s == [] || s[|s| - 1].newStart <= h.newStart {
      assert Insert(h, s) == s + [h];
    } else {
      var init, last := s[..|s| - 1], s[|s| - 1];
      InsertStrictlySorted(h, init);
      InsertPermutes(h, init);
      var r := Insert(h, init);
      assert Insert(h, s) == r + [last];
      forall k | 0 <= k < |r| ensures r[k].newStart < last.newStart {
        assert r[k] in multiset(r);
        assert r[k] == h || r[k] in multiset(init);
      }
    }
  }

  /** Hunks with pairwise different starts come out strictly ascending. */
  lemma {:induction false} SortStrictlySorted(s: seq<Hunk>)
    requires DistinctStarts(s)
    ensures StrictlySorted(SortByNewStart(s))
  {
    if s != [] {
      var init, last := s[..|s| - 1], s[|s| - 1];
      SortStrictlySorted(init);
      SortPermutes(init);
      var sorted := SortByNewStart(init);
      forall k | 0 <= k < |sorted| ensures sorted[k].newStart != last.newStart {
        assert sorted[k] in multiset(init);
        var i :| 0 <= i < |init| && init[i] == sorted[k];
        assert s[i] == sorted[k];
      }
      InsertStrictlySorted(last, sorted);
    }
  }

  /** A strictly ascending sequence and an ascending one with the same
      elements start with the same hunk. */
  lemma SameHead(a: seq<Hunk>, b: seq<Hunk>)
    requires StrictlySorted(a) && Sorted(b) && a != []
    requires multiset(a) == multiset(b)
    ensures b != [] && a[0] == b[0]
  {
    assert a[0] in multiset(b);
    var j :| 0 <= j < |b| && b[j] == a[0];
    assert b[0] in multiset(a);
    var i :| 0 <= i < |a| && a[i] == b[0];
    assert b[0].newStart <= b[j].newStart;
    assert a[i].newStart == a[0].newStart;
  }

  /** Dropping a shared first hunk keeps the equality of the elements. */
  lemma DropHead(a: seq<Hunk>, b: seq<Hunk>)
    requires a != [] && b != [] && a[0] == b[0]
    requires multiset(a) == multiset(b)
    ensures multiset(a[1..]) == multiset(b[1..])
  {
    assert a == [a[0]] + a[1..];
    assert b == [b[0]] + b[1..];
    assert multiset(a[1..]) == multiset(a) - multiset{a[0]};
    assert multiset(b[1..]) == multiset(b) - multiset{a[0]};
  }

  /** A strictly ascending sequence is the only ascending arrangement of its
      elements. */
  lemma {:induction false} SortedUnique(a: seq<Hunk>, b: seq<Hunk>)
    requires StrictlySorted(a) && Sorted(b)
    requires multiset(a) == multiset(b)
    ensures a == b
  {
    if a != [] {
      SameHead(a, b);
      DropHead(a, b);
      assert StrictlySorted(a[1..]) && Sorted(b[1..]);
      SortedUnique(a[1..], b[1..]);
      assert a == [a[0]] + a[1..];
      assert b == [b[0]] + b[1..];
    } else {
      assert |b| == |multiset(b)| == 0;
    }
  }

  /** For hunks with distinct starts, the sorted order does not depend on the
      order the hunks came in. */
  lemma SortOrderIndependent(s1: seq<Hunk>, s2: seq<Hunk>)
    requires multiset(s1) == multiset(s2)
    requires DistinctStarts(s1)
    ensures SortByNewStart(s1) == SortByNewStart(s2)
  {
    SortStrictlySorted(s1);
    SortSorted(s2);
    SortPermutes(s1);
    SortPermutes(s2);
    SortedUnique(SortByNewStart(s1), SortByNewStart(s2));
  }

  /** `h` lands behind the first `j` hunks when every hunk from `j` on starts
      after it and the one before `j`, if any, does not. */
  lemma {:induction false} InsertAt(h: Hunk, s: seq<Hunk>, j: nat)
    requires j <= |s|
    requires forall k :: j <= k < |s| ==> s[k].newStart > h.newStart
    requires j == 0 || s[j - 1].newStart <= h.newStart
    ensures Insert(h, s) == s[..j] + [h] + s[j..]
    decreases |s|
  {
    if |s| == j {
      assert s[..j] == s && s[j..] == [];
    } else {
      var init := s[..|s| - 1];
      InsertAt(h, init, j);
      assert init[..j] == s[..j];
      assert init[j..] + [s[|s| - 1]] == s[j..];
    }
  }

  /** The array after the insertion: the prefix up to `j`, the key, then
      the rest of the prefix one place to the right. */
  lemma Shifted(cur: seq<Hunk>, sorted: seq<Hunk>, key: Hunk, j: nat)
    requires j <= |sorted| < |cur| && cur[j] == key
    requires forall k :: 0 <= k < j ==> cur[k] == sorted[k]
    requires forall k :: j < k <= |sorted| ==> cur[k] == sorted[k - 1]
    ensures cur[..|sorted| + 1] == sorted[..j] + [key] + sorted[j..]
  {
    var r := sorted[..j] + [key] + sorted[j..];
    forall k | 0 <= k <= |sorted| ensures cur[k] == r[k] {
      if k < j {
        assert r[k] == sorted[k];
      } else if k > j {
        assert r[k] == sorted[k - 1];
      }
    }
  }

  /** Shift every element of `a[..i]` that starts after `key`, from the
      right, one place to the right, and return the gap left behind. */
  method ShiftGreater(a: array<Hunk>, i: nat, key: Hunk) returns (j: nat)
    requires i < a.Length
    modifies a
    ensures j <= i
    ensures forall k :: 0 <= k < j ==> a[k] == old(a[k])
    ensures forall k :: j < k <= i ==> a[k] == old(a[k - 1])
    ensures forall k :: i < k < a.Length ==> a[k] == old(a[k])
    ensures forall k :: j <= k < i ==> old(a[k]).newStart > key.newStart
    ensures j == 0 || old(a[j - 1]).newStart <= key.newStart
  {
    j := i;
    while j > 0 && a[j - 1].newStart > key.newStart
      invariant 0 <= j <= i
      invariant forall k :: 0 <= k < j ==> a[k] == old(a[k])
      invariant forall k :: j < k <= i ==> a[k] == old(a[k - 1])
      invariant forall k :: i < k < a.Length ==> a[k] == old(a[k])
      invariant forall k :: j <= k < i ==> old(a[k]).newStart > key.newStart
    {
      a[j] := a[j - 1];
      j := j - 1;
    }
  }

  /** Move `a[i]` left past every greater element of the sorted prefix
      `a[..i]`, shifting those one place right. */
  method InsertInPlace(a: array<Hunk>, i: nat)
    requires i < a.Length
    modifies a
    ensures a[..i + 1] == Insert(old(a[i]), old(a[..i]))
    ensures a[i + 1..] == old(a[i + 1..])
  {
    ghost var sorted := a[..i];
    ghost var tail := a[i + 1..];
    var key := a[i];
    var j := ShiftGreater(a, i, key);
    InsertAt(key, sorted, j);
    a[j] := key;
    Shifted(a[..], sorted, key, j);
    assert a[i + 1..] == tail;
  }

  /** Stable insertion sort of the array, in place. */
  method SortHunks(a: array<Hunk>)
    modifies a
    ensures a[..] == SortByNewStart(old(a[..]))
  {
    ghost var input := a[..];
    for i := 0 to a.Length
      invariant a[..i] == SortByNewStart(input[..i])
      invariant a[i..] == input[i..]
    {
      assert a[i] == input[i];
      InsertInPlace(a, i);
      assert input[..i + 1][..i] == input[..i];
      assert a[i + 1..] == input[i + 1..];
    }
    assert input[..a.Length] == input;
  }

  // ---------------------------------------------------------------------------
  // Sums and concatenations over a list of hunks.

  function SumNewLines(s: seq<Hunk>): int
  {
    if s == [] then 0 else SumNewLines(s[..|s| - 1]) + s[|s| - 1].newLines
  }

  function SumOldLines(s: seq<Hunk>): int
  {
    if s == [] then 0 else SumOldLines(s[..|s| - 1]) + s[|s| - 1].oldLines
  }

  function Delimiters(s: seq<Hunk>): seq<string>
  {
    if s == [] then [] else Delimiters(s[..|s| - 1]) + s[|s| - 1].linedelimiters
  }

  lemma {:induction false} SumsAppend(s: seq<Hunk>, t: seq<Hunk>)
    ensures SumNewLines(s + t) == SumNewLines(s) + SumNewLines(t)
    ensures SumOldLines(s + t) == SumOldLines(s) + SumOldLines(t)
  {
    if t == [] {
      assert s + t == s;
    } else {
      assert (s + t)[..|s + t| - 1] == s + t[..|t| - 1];
      SumsAppend(s, t[..|t| - 1]);
    }
  }

  /** The totals do not depend on the order of the hunks. */
  lemma {:induction false} SumsPermutation(s: seq<Hunk>, t: seq<Hunk>)
    requires multiset(s) == multiset(t)
    ensures SumNewLines(s) == SumNewLines(t)
    ensures SumOldLines(s) == SumOldLines(t)
  {
    if s == [] {
      assert |t| == |multiset(t)| == 0;
    } else {
      var x := s[|s| - 1];
      assert x in multiset(t);
      var j :| 0 <= j < |t| && t[j] == x;
      var rest := t[..j] + t[j + 1..];
      assert t == t[..j] + [x] + t[j + 1..];
      assert s == s[..|s| - 1] + [x];
      assert multiset(t) == multiset(t[..j]) + multiset{x} + multiset(t[j + 1..]);
      assert multiset(s) == multiset(s[..|s| - 1]) + multiset{x};
      assert multiset(rest) == multiset(t[..j]) + multiset(t[j + 1..]);
      assert multiset(s[..|s| - 1]) == multiset(s) - multiset{x};
      assert multiset(rest) == multiset(t) - multiset{x};
      SumsPermutation(s[..|s| - 1], rest);
      SumsAppend(t[..j] + [x], t[j + 1..]);
      SumsAppend(t[..j], [x]);
      SumsAppend(t[..j], t[j + 1..]);
      assert SumNewLines([x]) == x.newLines by { assert [x][..0] == []; }
      assert SumOldLines([x]) == x.oldLines by { assert [x][..0] == []; }
    }
  }

  // ---------------------------------------------------------------------------
  // The merge step, as written and corrected.

  /** `fileLines.slice(c.newStart + c.newLines - 1, h.newStart - 1)`: the
      new-file lines between the running merged hunk, as its counts describe
      it, and the next hunk. */
  function Gap(fileLines: seq<string>, c: Hunk, h: Hunk): seq<string>
  {
    Slice(fileLines, c.newStart + c.newLines - 1, h.newStart - 1)
  }

  /** One iteration of the merge loop as written: the gap lines are appended
      but not counted. */
  function AbsorbAsWritten(fileLines: seq<string>, c: Hunk, h: Hunk): Hunk
  {
    c.(lines := c.lines + Gap(fileLines, c, h) + h.lines,
       linedelimiters := c.linedelimiters + h.linedelimiters,
       newLines := c.newLines + h.newLines,
       oldLines := c.oldLines + h.oldLines)
  }

  /** One iteration of the merge loop with the gap lines counted in both
      `newLines` and `oldLines` (they are unchanged lines, present in both
      files). */
  function Absorb(fileLines: seq<string>, c: Hunk, h: Hunk): Hunk
  {
    var gap := Gap(fileLines, c, h);
    c.(lines := c.lines + gap + h.lines,
       linedelimiters := c.linedelimiters + h.linedelimiters,
       newLines := c.newLines + |gap| + h.newLines,
       oldLines := c.oldLines + |gap| + h.oldLines)
  }

  function MergeAsWritten(fileLines: seq<string>, s: seq<Hunk>): Hunk
    requires s != []
  {
    if |s| == 1 then s[0]
    else AbsorbAsWritten(fileLines, MergeAsWritten(fileLines, s[..|s| - 1]), s[|s| - 1])
  }

  function Merge(fileLines: seq<string>, s: seq<Hunk>): Hunk
    requires s != []
  {
    if |s| == 1 then s[0]
    else Absorb(fileLines, Merge(fileLines, s[..|s| - 1]), s[|s| - 1])
  }

  /** combineHunks exactly as written, on a copy of the input. */
  function CombineHunksAsWritten(fileContents: string, hunks: seq<Hunk>): (r: Result<Hunk, string>)
    ensures r.Failure? <==> hunks == []
    ensures r.Failure? ==> r.error == NoHunksError
  {
    if hunks == [] then Failure(NoHunksError)
    else
      var sorted := SortByNewStart(hunks);
      Success(MergeAsWritten(Split(fileContents, '\n'), sorted))
  }

  lemma {:induction false} MergeAsWrittenTotals(fileLines: seq<string>, s: seq<Hunk>)
    requires s != []
    ensures var c := MergeAsWritten(fileLines, s);
      && c.newStart == s[0].newStart && c.oldStart == s[0].oldStart
      && c.newLines == SumNewLines(s) && c.oldLines == SumOldLines(s)
      && c.linedelimiters == Delimiters(s)
  {
    if |s| > 1 {
      MergeAsWrittenTotals(fileLines, s[..|s| - 1]);
    } else {
      assert s[..0] == [];
    }
  }

  /** As written, the merged counts are the plain sums of the input hunks'
      counts (gap lines not included), the start lines are those of the hunk
      with the smallest `newStart`, and the line delimiters are the input
      hunks' delimiters concatenated in sorted order. */
  lemma CombineHunksAsWrittenTotals(fileContents: string, hunks: seq<Hunk>)
    requires hunks != []
    ensures var r, sorted := CombineHunksAsWritten(fileContents, hunks), SortByNewStart(hunks);
      && r.Success?
      && |sorted| == |hunks|
      && r.value.newLines == SumNewLines(hunks) && r.value.oldLines == SumOldLines(hunks)
      && r.value.newStart == sorted[0].newStart && r.value.oldStart == sorted[0].oldStart
      && (forall h :: h in hunks ==> sorted[0].newStart <= h.newStart)
      && r.value.linedelimiters == Delimiters(sorted)
  {
    var sorted := SortByNewStart(hunks);
    SortPermutes(hunks);
    MergeAsWrittenTotals(Split(fileContents, '\n'), sorted);
    SumsPermutation(sorted, hunks);
    SortSorted(hunks);
    forall h | h in hunks ensures sorted[0].newStart <= h.newStart {
      assert h in multiset(sorted);
    }
  }

  /** As written, the merged lines start with the first hunk's lines, and hunk
      `k` contributes the file lines from index `newStart + (sum of newLines of
      the hunks before it) - 1` up to its own start, then its own lines. The
      running sum leaves out the gap lines, so the slice starts too early as
      soon as an earlier gap was not empty. */
  lemma {:induction false} MergeAsWrittenLines(fileLines: seq<string>, s: seq<Hunk>, k: nat)
    requires 1 <= k < |s|
    ensures MergeAsWritten(fileLines, s[..1]).lines == s[0].lines
    ensures MergeAsWritten(fileLines, s[..k + 1]).lines
      == MergeAsWritten(fileLines, s[..k]).lines
         + Slice(fileLines, s[0].newStart + SumNewLines(s[..k]) - 1, s[k].newStart - 1)
         + s[k].lines
  {
    MergeAsWrittenFirst(fileLines, s);
    MergeAsWrittenStep(fileLines, s, k);
    MergeAsWrittenEnd(fileLines, s, k);
  }

  lemma MergeAsWrittenFirst(fileLines: seq<string>, s: seq<Hunk>)
    requires s != []
    ensures MergeAsWritten(fileLines, s[..1]) == s[0]
  {
    assert s[..1] == [s[0]];
  }

  lemma MergeAsWrittenStep(fileLines: seq<string>, s: seq<Hunk>, k: nat)
    requires 1 <= k < |s|
    ensures MergeAsWritten(fileLines, s[..k + 1]) == AbsorbAsWritten(fileLines, MergeAsWritten(fileLines, s[..k]), s[k])
  {
    assert s[..k + 1][..k] == s[..k] && s[..k + 1][k] == s[k];
  }

  lemma MergeAsWrittenEnd(fileLines: seq<string>, s: seq<Hunk>, k: nat)
    requires 1 <= k <= |s|
    ensures var w := MergeAsWritten(fileLines, s[..k]);
      w.newStart + w.newLines == s[0].newStart + SumNewLines(s[..k])
  {
    MergeAsWrittenTotals(fileLines, s[..k]);
    assert s[..k][0] == s[0];
  }

  // ---------------------------------------------------------------------------
  // What the corrected merge achieves.

  /** Hunks as a diff of one file produces them: ascending, not overlapping in
      the new file, and inside it. */
  predicate WellPlaced(fileLines: seq<string>, s: seq<Hunk>)
  {
    && s != []
    && 1 <= s[0].newStart
    && (forall i :: 0 <= i < |s| ==> 0 <= s[i].newLines)
    && (forall i :: 0 <= i < |s| - 1 ==> s[i].newStart + s[i].newLines <= s[i + 1].newStart)
    && s[|s| - 1].newStart + s[|s| - 1].newLines <= |fileLines| + 1
  }

  lemma WellPlacedPrefix(fileLines: seq<string>, s: seq<Hunk>, k: nat)
    requires WellPlaced(fileLines, s) && 1 <= k <= |s|
    ensures WellPlaced(fileLines, s[..k])
    ensures s[k - 1].newStart + s[k - 1].newLines <= |fileLines| + 1
    decreases |s| - k
  {
    if k < |s| {
      WellPlacedPrefix(fileLines, s, k + 1);
    }
  }

  /** The region the hunks span: each hunk's own lines with exactly the file
      lines between consecutive hunks in between. */
  function Interleaved(fileLines: seq<string>, s: seq<Hunk>): seq<string>
    requires WellPlaced(fileLines, s)
  {
    if |s| == 1 then s[0].lines
    else
      var n := |s|;
      WellPlacedPrefix(fileLines, s, n - 1);
      OrderedStarts(fileLines, s, 0, n - 2);
      var prevEnd := s[n - 2].newStart + s[n - 2].newLines;
      Interleaved(fileLines, s[..n - 1]) + fileLines[prevEnd - 1..s[n - 1].newStart - 1] + s[n - 1].lines
  }

  /** The number of file lines between consecutive hunks. */
  function GapLines(s: seq<Hunk>): int
  {
    if |s| <= 1 then 0
    else GapLines(s[..|s| - 1]) + s[|s| - 1].newStart - (s[|s| - 2].newStart + s[|s| - 2].newLines)
  }

  /** With the gap lines counted, every file line between two hunks appears
      exactly once, the merged hunk ends where the last hunk ends, and the
      counts are the hunks' sums plus the gap lines. */
  lemma MergeFillsEachGapOnce(fileLines: seq<string>, s: seq<Hunk>)
    requires WellPlaced(fileLines, s)
    ensures var c := Merge(fileLines, s);
      && c.lines == Interleaved(fileLines, s)
      && c.newStart == s[0].newStart && c.oldStart == s[0].oldStart
      && c.newStart + c.newLines == s[|s| - 1].newStart + s[|s| - 1].newLines
      && c.newLines == SumNewLines(s) + GapLines(s)
      && c.oldLines == SumOldLines(s) + GapLines(s)
      && c.linedelimiters == Delimiters(s)
  {
    MergeCounts(fileLines, s);
    MergeInterleaves(fileLines, s);
  }

  /** Before the last hunk of well-placed hunks: the end of the one before it
      is a line of the file and does not pass the last hunk's start. */
  lemma LastGap(fileLines: seq<string>, s: seq<Hunk>)
    requires WellPlaced(fileLines, s) && |s| > 1
    ensures var n, prevEnd := |s|, s[|s| - 2].newStart + s[|s| - 2].newLines;
      && 1 <= prevEnd <= s[n - 1].newStart
      && 0 <= s[n - 1].newLines && s[n - 1].newStart + s[n - 1].newLines <= |fileLines| + 1
      && WellPlaced(fileLines, s[..n - 1])
      && s[..n - 1][n - 2] == s[n - 2] && s[..n - 1][0] == s[0]
  {
    var n := |s|;
    WellPlacedPrefix(fileLines, s, n - 1);
    assert s[n - 2].newLines >= 0;
    if n - 2 > 0 {
      OrderedStarts(fileLines, s, 0, n - 2);
    }
  }

  /** The corrected merge's counts and start lines. */
  lemma {:induction false} MergeCounts(fileLines: seq<string>, s: seq<Hunk>)
    requires WellPlaced(fileLines, s)
    ensures var c := Merge(fileLines, s);
      && c.newStart == s[0].newStart && c.oldStart == s[0].oldStart
      && c.newStart + c.newLines == s[|s| - 1].newStart + s[|s| - 1].newLines
      && c.newLines == SumNewLines(s) + GapLines(s)
      && c.oldLines == SumOldLines(s) + GapLines(s)
      && c.linedelimiters == Delimiters(s)
  {
    var n := |s|;
    if n == 1 {
      assert s[..0] == [];
    } else {
      LastGap(fileLines, s);
      var init := s[..n - 1];
      MergeCounts(fileLines, init);
      assert init[..|init| - 1] == s[..n - 2];
      var prevEnd := s[n - 2].newStart + s[n - 2].newLines;
      AbsorbFills(fileLines, Merge(fileLines, init), s[n - 1], prevEnd);
    }
  }

  /** The corrected merge's lines. */
  lemma {:induction false} MergeInterleaves(fileLines: seq<string>, s: seq<Hunk>)
    requires WellPlaced(fileLines, s)
    ensures Merge(fileLines, s).lines == Interleaved(fileLines, s)
  {
    var n := |s|;
    if n > 1 {
      LastGap(fileLines, s);
      var init := s[..n - 1];
      MergeInterleaves(fileLines, init);
      MergeCounts(fileLines, init);
      var prevEnd := s[n - 2].newStart + s[n - 2].newLines;
      AbsorbFills(fileLines, Merge(fileLines, init), s[n - 1], prevEnd);
    }
  }

  /** One corrected merge step after a merged hunk that ends at `prevEnd`. */
  lemma AbsorbFills(fileLines: seq<string>, m: Hunk, h: Hunk, prevEnd: int)
    requires m.newStart + m.newLines == prevEnd
    requires 1 <= prevEnd <= h.newStart && 0 <= h.newLines && h.newStart + h.newLines <= |fileLines| + 1
    ensures var c := Absorb(fileLines, m, h);
      && c.lines == m.lines + fileLines[prevEnd - 1..h.newStart - 1] + h.lines
      && c.newStart == m.newStart && c.oldStart == m.oldStart
      && c.newLines == m.newLines + (h.newStart - prevEnd) + h.newLines
      && c.oldLines == m.oldLines + (h.newStart - prevEnd) + h.oldLines
      && c.linedelimiters == m.linedelimiters + h.linedelimiters
  {
  }

  lemma OrderedStarts(fileLines: seq<string>, s: seq<Hunk>, i: nat, j: nat)
    requires WellPlaced(fileLines, s) && i <= j < |s|
    ensures s[i].newStart <= s[j].newStart
    decreases j - i
  {
    if i < j {
      OrderedStarts(fileLines, s, i + 1, j);
    }
  }

  /** The new file of the example below, and its three one-line
      replacements at new lines 1, 3 and 5. */
  const ExampleFile := "A\nb\nC\nd\nE"
  const ExampleLines := ["A", "b", "C", "d", "E"]
  const ExampleHunks := [
    Hunk(1, 1, 1, 1, ["-a", "+A"], ["\n", "\n"]),
    Hunk(3, 1, 3, 1, ["-c", "+C"], ["\n", "\n"]),
    Hunk(5, 1, 5, 1, ["-e", "+E"], ["\n", "\n"])]

  lemma ExampleFileLines()
    ensures Split(ExampleFile, '\n') == ExampleLines
  {
    var fileLines := ExampleLines;
    SplitJoin(fileLines, '\n');
    assert Join(fileLines[4..], "\n") == "E";
    assert Join(fileLines[3..], "\n") == "d\nE";
    assert Join(fileLines[2..], "\n") == "C\nd\nE";
    assert Join(fileLines[1..], "\n") == "b\nC\nd\nE";
    assert Join(fileLines, "\n") == ExampleFile;
  }

  lemma ExampleSorted()
    ensures SortByNewStart(ExampleHunks) == ExampleHunks
  {
    var hs := ExampleHunks;
    assert hs[..2] == [hs[0], hs[1]] && hs[..2][..1] == [hs[0]];
    assert SortByNewStart([hs[0]]) == [hs[0]];
    assert SortByNewStart([hs[0], hs[1]]) == [hs[0], hs[1]];
  }

  lemma ExampleMergeAsWritten()
    ensures MergeAsWritten(ExampleLines, ExampleHunks).lines
      == ["-a", "+A", "b", "-c", "+C", "C", "d", "-e", "+E"]
  {
    var hs := ExampleHunks;
    assert hs[..2] == [hs[0], hs[1]] && hs[..2][..1] == [hs[0]];
    var one := MergeAsWritten(ExampleLines, hs[..1]);
    assert one == hs[0];
    assert hs[..2][..1] == hs[..1] && hs[..2][1] == hs[1];
    var w2 := MergeAsWritten(ExampleLines, hs[..2]);
    assert w2 == AbsorbAsWritten(ExampleLines, one, hs[1]);
    assert Gap(ExampleLines, hs[0], hs[1]) == ["b"];
    assert w2.lines == ["-a", "+A", "b", "-c", "+C"] && w2.newStart == 1 && w2.newLines == 2;
    assert Gap(ExampleLines, w2, hs[2]) == ["C", "d"];
  }

  lemma ExampleMerge()
    ensures Merge(ExampleLines, ExampleHunks).lines
      == ["-a", "+A", "b", "-c", "+C", "d", "-e", "+E"]
  {
    var hs := ExampleHunks;
    assert hs[..2] == [hs[0], hs[1]] && hs[..2][..1] == [hs[0]];
    var one := Merge(ExampleLines, hs[..1]);
    assert one == hs[0];
    assert hs[..2][..1] == hs[..1] && hs[..2][1] == hs[1];
    var m2 := Merge(ExampleLines, hs[..2]);
    assert m2 == Absorb(ExampleLines, one, hs[1]);
    assert Gap(ExampleLines, hs[0], hs[1]) == ["b"];
    assert m2.lines == ["-a", "+A", "b", "-c", "+C"] && m2.newStart == 1 && m2.newLines == 3;
    assert Gap(ExampleLines, m2, hs[2]) == ["d"];
  }

  /** Three one-line replacements at new lines 1, 3 and 5. As written, the gap
      before the third hunk starts from `1 + 2 - 1`, so the already replaced
      line 3 ("C") comes again as a plain line. The corrected merge gives every
      file line once, as `MergeFillsEachGapOnce` promises for well-placed hunks. */
  lemma CombineHunksAsWrittenRepeatsLines()
    ensures CombineHunksAsWritten(ExampleFile, ExampleHunks).value.lines
      == ["-a", "+A", "b", "-c", "+C", "C", "d", "-e", "+E"]
    ensures WellPlaced(Split(ExampleFile, '\n'), ExampleHunks)
    ensures Merge(Split(ExampleFile, '\n'), SortByNewStart(ExampleHunks)).lines
      == ["-a", "+A", "b", "-c", "+C", "d", "-e", "+E"]
  {
    ExampleFileLines();
    ExampleSorted();
    assert CombineHunksAsWritten(ExampleFile, ExampleHunks) == Success(MergeAsWritten(ExampleLines, ExampleHunks));
    ExampleMergeAsWritten();
    ExampleMerge();
    ExampleWellPlaced();
  }

  lemma ExampleWellPlaced()
    ensures WellPlaced(ExampleLines, ExampleHunks)
  {
  }

  /** One more hunk for the merge loop. */
  lemma MergeStep(fileLines: seq<string>, s: seq<Hunk>, i: nat)
    requires 1 <= i < |s|
    ensures Merge(fileLines, s[..i + 1]) == Absorb(fileLines, Merge(fileLines, s[..i]), s[i])
  {
    assert s[..i + 1][..i] == s[..i];
  }

  /** combineHunks with the gap lines counted: the array is sorted in place,
      the first hunk copied, and each later hunk absorbed in turn. */
  method CombineHunks(fileContents: string, hunks: array<Hunk>) returns (r: Result<Hunk, string>)
    modifies hunks
    ensures hunks[..] == SortByNewStart(old(hunks[..]))
    ensures hunks.Length == 0 ==> r == Failure(NoHunksError)
    ensures hunks.Length > 0 ==> r == Success(Merge(Split(fileContents, '\n'), hunks[..]))
  {
    if hunks.Length == 0 {
      return Failure(NoHunksError);
    }
    var fileLines := Split(fileContents, '\n');
    SortHunks(hunks);
    ghost var sorted := hunks[..];
    var combined := hunks[0];
    var rest := hunks[1..];
    assert sorted[..1] == [sorted[0]];
    for k := 0 to |rest|
      invariant hunks[..] == sorted
      invariant combined == Merge(fileLines, sorted[..k + 1])
    {
      assert rest[k] == sorted[k + 1];
      MergeStep(fileLines, sorted, k + 1);
      var hunk := rest[k];
      var gap := Gap(fileLines, combined, hunk);
      combined := combined.(
        lines := combined.lines + gap + hunk.lines,
        linedelimiters := combined.linedelimiters + hunk.linedelimiters,
        newLines := combined.newLines + |gap| + hunk.newLines,
        oldLines := combined.oldLines + |gap| + hunk.oldLines);
    }
    assert sorted[..|rest| + 1] == sorted;
    return Success(combined);
  }
}
