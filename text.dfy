/** The JavaScript string and array primitives the pipeline relies on, with
    their edge cases written out: relative and clamped indexes of `slice` and
    `splice`, `split` on a one-character separator, `join`, `trim`, and the
    decimal rendering of an integer inside a template literal. */
module Text {

  /** True when `line` begins with `prefix` (String.prototype.startsWith). */
  predicate StartsWith(line: string, prefix: string)
  {
    |prefix| <= |line| && line[..|prefix|] == prefix
  }

  /** A relative index as `slice` and `splice` read it: negative values count
      from the end, and the result is clamped to `0..n`. */
  function JsIndex(i: int, n: nat): (k: nat)
    ensures k <= n
    ensures 0 <= i <= n ==> k == i
  {
    if i < 0 then (if n + i < 0 then 0 else n + i)
    else if i > n then n
    else i
  }

  /** Array.prototype.slice(begin, end). */
  function Slice<T>(s: seq<T>, begin: int, end: int): (r: seq<T>)
    ensures |r| <= |s|
    ensures 0 <= begin <= end <= |s| ==> r == s[begin..end]
    ensures 0 <= end <= begin ==> r == []
  {
    var lo, hi := JsIndex(begin, |s|), JsIndex(end, |s|);
    if lo < hi then s[lo..hi] else []
  }

  /** Every element of a slice comes from the array. */
  lemma SliceFrom<T>(s: seq<T>, begin: int, end: int, i: int)
    requires 0 <= i < |Slice(s, begin, end)|
    ensures Slice(s, begin, end)[i] in s
  {
    var lo := JsIndex(begin, |s|);
    assert Slice(s, begin, end)[i] == s[lo + i];
  }

  /** Array.prototype.splice(start, deleteCount, ...items), as the array it
      leaves behind: `start` is a relative index, `deleteCount` is clamped to
      what is left after it. */
  function Splice<T>(s: seq<T>, start: int, deleteCount: int, items: seq<T>): (r: seq<T>)
    ensures 0 <= start <= |s| && 0 <= deleteCount <= |s| - start ==>
              r == s[..start] + items + s[start + deleteCount..]
  {
    var k := JsIndex(start, |s|);
    var d := if deleteCount < 0 then 0 else if deleteCount > |s| - k then |s| - k else deleteCount;
    s[..k] + items + s[k + d..]
  }

  /** Every element `splice` leaves behind comes from the array or from the
      inserted items. */
  lemma SpliceFrom<T>(s: seq<T>, start: int, deleteCount: int, items: seq<T>, i: int)
    requires 0 <= i < |Splice(s, start, deleteCount, items)|
    ensures Splice(s, start, deleteCount, items)[i] in s || Splice(s, start, deleteCount, items)[i] in items
  {
    var k := JsIndex(start, |s|);
    var d := if deleteCount < 0 then 0 else if deleteCount > |s| - k then |s| - k else deleteCount;
    var r := Splice(s, start, deleteCount, items);
    if i < k {
      assert r[i] == s[i];
    } else if i < k + |items| {
      assert r[i] == items[i - k];
    } else {
      assert r[i] == s[i - |items| + d];
    }
  }

  /** String.prototype.split with a one-character separator. */
  function Split(s: string, sep: char): (parts: seq<string>)
    ensures |parts| >= 1
    ensures forall i :: 0 <= i < |parts| ==> sep !in parts[i]
  {
    if s == [] then [""]
    else
      var rest := Split(s[1..], sep);
      if s[0] == sep then [""] + rest
      else [[s[0]] + rest[0]] + rest[1..]
  }

  /** Array.prototype.join(sep) over strings. */
  function Join(parts: seq<string>, sep: string): string
  {
    if |parts| == 0 then ""
    else if |parts| == 1 then parts[0]
    else parts[0] + sep + Join(parts[1..], sep)
  }

  /** Joining what `split` cut gives back the original text. */
  lemma {:induction false} JoinSplit(s: string, sep: char)
    ensures Join(Split(s, sep), [sep]) == s
  {
    if s != [] {
      var rest := Split(s[1..], sep);
      JoinSplit(s[1..], sep);
      if s[0] == sep {
        assert Split(s, sep) == [""] + rest;
        assert ([""] + rest)[1..] == rest;
      } else {
        var parts := [[s[0]] + rest[0]] + rest[1..];
        assert Split(s, sep) == parts;
        if |rest| > 1 {
          assert parts[1..] == rest[1..];
          assert Join(rest, [sep]) == rest[0] + [sep] + Join(rest[1..], [sep]);
        }
        assert s == [s[0]] + s[1..];
      }
    }
  }

  /** A text with no separator before the rest stays glued to the first part. */
  lemma {:induction false} SplitPrefix(p: string, t: string, sep: char)
    requires sep !in p
    ensures Split(p + t, sep) == [p + Split(t, sep)[0]] + Split(t, sep)[1..]
  {
    if p != [] {
      var ts := Split(t, sep);
      SplitPrefix(p[1..], t, sep);
      assert (p + t)[1..] == p[1..] + t;
      assert (p + t)[0] == p[0];
      var rest := [p[1..] + ts[0]] + ts[1..];
      assert Split(p + t, sep) == [[p[0]] + rest[0]] + rest[1..];
      assert rest[1..] == ts[1..];
      assert [p[0]] + (p[1..] + ts[0]) == p + ts[0];
    } else {
      assert p + t == t;
      var ts := Split(t, sep);
      assert p + ts[0] == ts[0];
      assert ts == [ts[0]] + ts[1..];
    }
  }

  /** A separator followed by text: the separator opens a new part. */
  lemma SplitSep(p: string, t: string, sep: char)
    requires sep !in p
    ensures Split(p + [sep] + t, sep) == [p] + Split(t, sep)
  {
    assert p + [sep] + t == p + ([sep] + t);
    SplitPrefix(p, [sep] + t, sep);
    assert ([sep] + t)[1..] == t;
    var st := Split([sep] + t, sep);
    assert st == [""] + Split(t, sep);
    assert st[0] == "" && st[1..] == Split(t, sep);
    assert p + "" == p;
  }

  /** A text without the separator is a single part. */
  lemma SplitWithoutSep(s: string, sep: char)
    requires sep !in s
    ensures Split(s, sep) == [s]
  {
    SplitPrefix(s, "", sep);
    assert s + "" == s;
  }

  /** Splitting a join of separator-free parts gives the parts back. */
  lemma {:induction false} SplitJoin(parts: seq<string>, sep: char)
    requires |parts| >= 1
    requires forall i :: 0 <= i < |parts| ==> sep !in parts[i]
    ensures Split(Join(parts, [sep]), sep) == parts
  {
    if |parts| == 1 {
      SplitPrefix(parts[0], "", sep);
      assert parts[0] + "" == parts[0];
    } else {
      SplitJoin(parts[1..], sep);
      SplitSep(parts[0], Join(parts[1..], [sep]), sep);
      assert [parts[0]] + parts[1..] == parts;
    }
  }

  /** The characters String.prototype.trim removes: ECMAScript WhiteSpace
      (tab, vertical tab, form feed, space, no-break space, byte order mark
      and the Unicode space separators) and LineTerminator. */
  predicate IsJsWhitespace(c: char)
  {
    c == '\t' || c == '\n' || c == '\U{000B}' || c == '\U{000C}' || c == '\r' || c == ' '
    || c == '\U{00A0}' || c == '\U{1680}' || ('\U{2000}' <= c <= '\U{200A}')
    || c == '\U{2028}' || c == '\U{2029}' || c == '\U{202F}' || c == '\U{205F}'
    || c == '\U{3000}' || c == '\U{FEFF}'
  }

  predicate AllWhitespace(s: string)
  {
    forall i :: 0 <= i < |s| ==> IsJsWhitespace(s[i])
  }

  function TrimStart(s: string): (r: string)
    ensures |r| <= |s| && r == s[|s| - |r|..]
    ensures r != [] ==> !IsJsWhitespace(r[0])
    ensures AllWhitespace(s[..|s| - |r|])
  {
    if s != [] && IsJsWhitespace(s[0]) then TrimStart(s[1..]) else s
  }

  function TrimEnd(s: string): (r: string)
    ensures |r| <= |s| && r == s[..|r|]
    ensures r != [] ==> !IsJsWhitespace(r[|r| - 1])
    ensures AllWhitespace(s[|r|..])
  {
    if s != [] && IsJsWhitespace(s[|s| - 1]) then TrimEnd(s[..|s| - 1]) else s
  }

  /** String.prototype.trim. */
  function Trim(s: string): string
  {
    TrimEnd(TrimStart(s))
  }

  lemma {:induction false} TrimStartSkips(ws: string, s: string)
    requires AllWhitespace(ws)
    ensures TrimStart(ws + s) == TrimStart(s)
  {
    if ws != [] {
      assert (ws + s)[1..] == ws[1..] + s;
      TrimStartSkips(ws[1..], s);
    } else {
      assert ws + s == s;
    }
  }

  lemma {:induction false} TrimEndSkips(s: string, ws: string)
    requires AllWhitespace(ws)
    ensures TrimEnd(s + ws) == TrimEnd(s)
  {
    if ws != [] {
      assert (s + ws)[..|s + ws| - 1] == s + ws[..|ws| - 1];
      TrimEndSkips(s, ws[..|ws| - 1]);
    } else {
      assert s + ws == s;
    }
  }

  lemma {:induction false} TrimStartAllWhitespace(ws: string)
    requires AllWhitespace(ws)
    ensures TrimStart(ws) == []
  {
    if ws != [] {
      TrimStartAllWhitespace(ws[1..]);
    }
  }

  lemma {:induction false} TrimStartKeepsTail(s: string, ws: string)
    requires AllWhitespace(ws)
    ensures TrimStart(s + ws) == TrimStart(s) + ws || (TrimStart(s) == [] && TrimStart(s + ws) == [])
    decreases |s|
  {
    if s == [] {
      assert s + ws == ws;
      TrimStartAllWhitespace(ws);
    } else if IsJsWhitespace(s[0]) {
      assert (s + ws)[1..] == s[1..] + ws;
      TrimStartKeepsTail(s[1..], ws);
    } else {
      assert (s + ws)[0] == s[0];
    }
  }

  /** Surrounding whitespace makes no difference to `trim`. */
  lemma TrimIgnoresSurroundingWhitespace(before: string, s: string, after: string)
    requires AllWhitespace(before) && AllWhitespace(after)
    ensures Trim(before + s + after) == Trim(s)
  {
    assert before + s + after == before + (s + after);
    TrimStartSkips(before, s + after);
    TrimStartKeepsTail(s, after);
    var t := TrimStart(s);
    if TrimStart(s + after) == t + after {
      TrimEndSkips(t, after);
    } else {
      assert t == [] && TrimStart(s + after) == [];
    }
  }

  /** A text that neither begins nor ends with whitespace is its own trim. */
  lemma TrimKeeps(s: string)
    requires s != [] && !IsJsWhitespace(s[0]) && !IsJsWhitespace(s[|s| - 1])
    ensures Trim(s) == s
  {
  }

  /** The ASCII digit of a value below ten. */
  function Digit(d: nat): (c: char)
    requires d < 10
    ensures '0' <= c <= '9'
  {
    ('0' as int + d) as char
  }

  /** The decimal rendering of a natural number, without leading zeros. */
  function NatToString(n: nat): (s: string)
    ensures |s| >= 1
    ensures forall i :: 0 <= i < |s| ==> '0' <= s[i] <= '9'
  {
    if n < 10 then [Digit(n)] else NatToString(n / 10) + [Digit(n % 10)]
  }

  /** `${n}` for an integer-valued JavaScript number. */
  function IntToString(n: int): (s: string)
    ensures '\n' !in s
  {
    if n < 0 then "-" + NatToString(-n) else NatToString(n)
  }

  /** The value of a string of decimal digits; the reading side of NatToString. */
  function DecimalValue(s: string): nat
    requires forall i :: 0 <= i < |s| ==> '0' <= s[i] <= '9'
  {
    if s == [] then 0 else 10 * DecimalValue(s[..|s| - 1]) + (s[|s| - 1] as int - '0' as int)
  }

  /** Reading a rendered number gives the number back. */
  lemma {:induction false} DecimalRoundTrip(n: nat)
    ensures DecimalValue(NatToString(n)) == n
  {
    if n >= 10 {
      DecimalRoundTrip(n / 10);
      var s := NatToString(n);
      assert s[..|s| - 1] == NatToString(n / 10);
    }
  }
}
