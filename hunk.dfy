/** A unified-diff hunk as the `diff` package parses it, the hunk header line,
    and `trimHunk` (src/context/review.ts), which cuts a hunk down to the span
    from its first to its last changed line. */
module Hunks {
  import opened Text

  /** Line numbers are 1-based; `lines` carry their `+`, `-` or ` ` prefix;
      `linedelimiters` holds the line ending of each line. */
  datatype Hunk = Hunk(
    oldStart: int,
    oldLines: int,
    newStart: int,
    newLines: int,
    lines: seq<string>,
    linedelimiters: seq<string>)

  /** An added or deleted line: `line.startsWith("+") || line.startsWith("-")`. */
  predicate IsChange(line: string)
  {
    StartsWith(line, "+") || StartsWith(line, "-")
  }

  /** A line is a change exactly when its first character is `+` or `-`. */
  lemma IsChangeFirstChar(line: string)
    ensures IsChange(line) <==> |line| >= 1 && (line[0] == '+' || line[0] == '-')
  {
    if |line| >= 1 {
      assert line[..1] == [line[0]];
    }
  }

  predicate HasChange(lines: seq<string>)
  {
    exists i :: 0 <= i < |lines| && IsChange(lines[i])
  }

  /** `lines.findIndex(IsChange)`: the first changed line, or -1. */
  function FindChange(lines: seq<string>): (k: int)
    ensures -1 <= k < |lines|
    ensures k == -1 <==> !HasChange(lines)
    ensures k >= 0 ==> IsChange(lines[k]) && forall i :: 0 <= i < k ==> !IsChange(lines[i])
  {
    if lines == [] then -1
    else if IsChange(lines[0]) then 0
    else
      var k := FindChange(lines[1..]);
      assert forall i :: 1 <= i < |lines| ==> lines[i] == lines[1..][i - 1];
      if k == -1 then -1 else k + 1
  }

  /** `s.slice().reverse()`. */
  function Reverse<T>(s: seq<T>): (r: seq<T>)
    ensures |r| == |s|
    ensures forall i :: 0 <= i < |s| ==> r[i] == s[|s| - 1 - i]
  {
    if s == [] then [] else Reverse(s[1..]) + [s[0]]
  }

  /** The index of the last changed line, or -1, found as trimHunk finds it:
      through the first changed line of the reversed list. */
  function LastChange(lines: seq<string>): (k: int)
    ensures -1 <= k < |lines|
    ensures k == -1 <==> !HasChange(lines)
    ensures k >= 0 ==> IsChange(lines[k]) && forall i :: k < i < |lines| ==> !IsChange(lines[i])
  {
    var rev := Reverse(lines);
    var e := FindChange(rev);
    if e == -1 then
      assert !HasChange(lines) by {
        forall i | 0 <= i < |lines| ensures !IsChange(lines[i]) {
          assert lines[i] == rev[|lines| - 1 - i];
        }
      }
      -1
    else
      assert forall i :: |lines| - 1 - e < i < |lines| ==> lines[i] == rev[|lines| - 1 - i];
      |lines| - 1 - e
  }

  /** trimHunk: keep `lines.slice(startIdx, lines.length - endIdx)` and move
      `newStart` on by `startIdx`; every other field is kept, the line
      delimiters included. */
  function TrimHunk(h: Hunk): (r: Hunk)
    ensures r.oldStart == h.oldStart && r.oldLines == h.oldLines && r.newLines == h.newLines
    ensures r.linedelimiters == h.linedelimiters
  {
    var startIdx := FindChange(h.lines);
    var endIdx := FindChange(Reverse(h.lines));
    h.(lines := Slice(h.lines, startIdx, |h.lines| - endIdx), newStart := startIdx + h.newStart)
  }

  /** With a changed line present, the trimmed lines are the contiguous slice
      from the first to the last changed line: both ends are changes, only
      unchanged lines are dropped, and `newStart` moves by the number of lines
      dropped in front. */
  lemma TrimHunkSpan(h: Hunk)
    requires HasChange(h.lines)
    ensures var s, e, r := FindChange(h.lines), LastChange(h.lines), TrimHunk(h);
      && 0 <= s <= e < |h.lines|
      && r.lines == h.lines[s..e + 1]
      && r.newStart == h.newStart + s
      && IsChange(r.lines[0]) && IsChange(r.lines[|r.lines| - 1])
      && (forall i :: 0 <= i < |h.lines| && IsChange(h.lines[i]) ==> s <= i <= e)
  {
    var s, e := FindChange(h.lines), LastChange(h.lines);
    var endIdx := FindChange(Reverse(h.lines));
    assert |h.lines| - endIdx == e + 1;
  }

  /** The converse view of trimming: a hunk made of unchanged lines, a span
      that opens and closes with a change, and unchanged lines again is cut
      to exactly that span, and its `newStart` moves past the lines in front. */
  lemma TrimHunkAround(h: Hunk, pre: seq<string>, mid: seq<string>, post: seq<string>)
    requires h.lines == pre + mid + post
    requires |mid| >= 1 && IsChange(mid[0]) && IsChange(mid[|mid| - 1])
    requires forall i :: 0 <= i < |pre| ==> !IsChange(pre[i])
    requires forall i :: 0 <= i < |post| ==> !IsChange(post[i])
    ensures TrimHunk(h).lines == mid
    ensures TrimHunk(h).newStart == h.newStart + |pre|
  {
    var lines := h.lines;
    var a, b := |pre|, |pre| + |mid| - 1;
    assert lines[a] == mid[0] && lines[b] == mid[|mid| - 1];
    assert HasChange(lines);
    TrimHunkSpan(h);
    var s, e := FindChange(lines), LastChange(lines);
    forall i | 0 <= i < a ensures !IsChange(lines[i]) {
      assert lines[i] == pre[i];
    }
    forall i | b < i < |lines| ensures !IsChange(lines[i]) {
      assert lines[i] == post[i - a - |mid|];
    }
    assert s == a;
    assert e == b;
    assert lines[a..b + 1] == mid;
  }

  /** Trimming a hunk that has a change twice is the same as trimming it once. */
  lemma TrimHunkIdempotent(h: Hunk)
    requires HasChange(h.lines)
    ensures TrimHunk(TrimHunk(h)) == TrimHunk(h)
  {
    TrimHunkSpan(h);
    var t := TrimHunk(h);
    assert HasChange(t.lines) by { assert IsChange(t.lines[0]); }
    assert FindChange(t.lines) == 0;
    var rev := Reverse(t.lines);
    assert IsChange(rev[0]);
    assert FindChange(rev) == 0;
    assert t.lines[0..|t.lines|] == t.lines;
  }

  /** Without any changed line both searches give -1, and `slice(-1, n + 1)`
      keeps only the last line: the hunk is cut to its final line and
      `newStart` moves back by one. */
  lemma TrimHunkWithoutChange(h: Hunk)
    requires !HasChange(h.lines)
    ensures TrimHunk(h).lines == if h.lines == [] then [] else [h.lines[|h.lines| - 1]]
    ensures TrimHunk(h).newStart == h.newStart - 1
  {
    assert !HasChange(Reverse(h.lines)) by {
      var rev := Reverse(h.lines);
      forall i | 0 <= i < |rev| ensures !IsChange(rev[i]) {
        assert rev[i] == h.lines[|h.lines| - 1 - i];
      }
    }
  }

  /** The unified-diff header `@@ -oldStart,oldLines +newStart,newLines @@`. */
  function Header(h: Hunk): (r: string)
    ensures '\n' !in r
    ensures StartsWith(r, "@@ -")
  {
    "@@ -" + IntToString(h.oldStart) + "," + IntToString(h.oldLines)
    + " +" + IntToString(h.newStart) + "," + IntToString(h.newLines) + " @@"
  }
}
