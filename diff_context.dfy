/** `diffContextPerHunk` (src/context/review.ts): every hunk is either given
    to the scope a parser finds around it, or, when none is found, expanded
    on its own. Hunks sharing a scope are combined and shown inside that
    scope.

    The parser is a resolver passed in as a function: given the patched text
    and a line range, it answers with the first and last line of the
    enclosing scope, or with nothing. The patched text is passed in too, as
    `applyPatch` gives it (`None` when it fails), and so are the hunks of the
    patch, in order.

    The source keys its map by the string `${start}-${end}` and hands that
    string on as the scope itself; this model keys the map by the pair of
    lines and hands the pair on, the data flow the code is built for
    (`RangeKeyInjective` shows that the string and the pair identify the
    same scopes). The source's `if (context)` is always true for the
    object-returning parsers; here a scope is absent exactly when the parser
    found none. */
module DiffContext {
  import opened Wrappers
  import opened Text
  import opened Hunks
  import opened Combine
  import opened ScopeString
  import opened Expand

  /** The first and last line of an enclosing scope. */
  datatype Scope = Scope(startLine: int, endLine: int)

  const ApplyError := "Failed to apply patch."

  /** The map key the source builds from a scope. */
  function RangeKey(s: Scope): string
  {
    IntToString(s.startLine) + "-" + IntToString(s.endLine)
  }

  lemma NatToStringNoDash(n: nat)
    ensures '-' !in NatToString(n)
  {
    var s := NatToString(n);
    forall i | 0 <= i < |s| ensures s[i] != '-' {
    }
  }

  /** Keys of scopes on non-negative lines are equal only for equal scopes,
      so keying by the pair groups hunks exactly as the string key does. */
  lemma RangeKeyInjective(a: Scope, b: Scope)
    requires a.startLine >= 0 && a.endLine >= 0 && b.startLine >= 0 && b.endLine >= 0
    requires RangeKey(a) == RangeKey(b)
    ensures a == b
  {
    var a1, a2 := NatToString(a.startLine), NatToString(a.endLine);
    var b1, b2 := NatToString(b.startLine), NatToString(b.endLine);
    NatToStringNoDash(a.startLine);
    NatToStringNoDash(b.startLine);
    SplitSep(a1, a2, '-');
    SplitSep(b1, b2, '-');
    assert RangeKey(a) == a1 + ['-'] + a2 && RangeKey(b) == b1 + ['-'] + b2;
    var parts := Split(RangeKey(a), '-');
    assert parts == [a1] + Split(a2, '-') == [b1] + Split(b2, '-');
    assert a1 == ([a1] + Split(a2, '-'))[0] == parts[0] == ([b1] + Split(b2, '-'))[0] == b1;
    assert Split(a2, '-') == ([a1] + Split(a2, '-'))[1..] == parts[1..] == ([b1] + Split(b2, '-'))[1..] == Split(b2, '-');
    JoinSplit(a2, '-');
    JoinSplit(b2, '-');
    DecimalRoundTrip(a.startLine);
    DecimalRoundTrip(b.startLine);
    DecimalRoundTrip(a.endLine);
    DecimalRoundTrip(b.endLine);
  }

  /** `parser.findEnclosingContext(updatedFile, lineStart, lineEnd)`. */
  type Resolver = (string, int, int) -> Option<Scope>

  /** The scope found for a hunk: the search runs from the trimmed hunk's
      first new line over `newLines` lines. */
  function ScopeOf(resolve: Resolver, updatedFile: string, h: Hunk): Option<Scope>
  {
    var t := TrimHunk(h);
    resolve(updatedFile, t.newStart, t.newStart + h.newLines)
  }

  function ScopesOf(resolve: Resolver, updatedFile: string, hunks: seq<Hunk>): (r: seq<Option<Scope>>)
    ensures |r| == |hunks|
    ensures forall i :: 0 <= i < |hunks| ==> r[i] == ScopeOf(resolve, updatedFile, hunks[i])
  {
    seq(|hunks|, i requires 0 <= i < |hunks| => ScopeOf(resolve, updatedFile, hunks[i]))
  }

  /** The scopes in the order they were first found: the iteration order of
      the map. */
  function ScopeKeys(scopes: seq<Option<Scope>>): seq<Scope>
  {
    if scopes == [] then []
    else
      var keys := ScopeKeys(scopes[..|scopes| - 1]);
      var last := scopes[|scopes| - 1];
      if last.Some? && last.value !in keys then keys + [last.value] else keys
  }

  /** The hunks found in scope `k`, in patch order. */
  function Group(hunks: seq<Hunk>, scopes: seq<Option<Scope>>, k: Scope): seq<Hunk>
    requires |hunks| == |scopes|
  {
    if hunks == [] then []
    else
      var n := |hunks| - 1;
      Group(hunks[..n], scopes[..n], k) + (if scopes[n] == Some(k) then [hunks[n]] else [])
  }

  /** The map the first loop builds: `scopeMap.set(key, [...(scopeMap.get(key)
      || []), hunk])` for every hunk with a scope. */
  function ScopeMap(hunks: seq<Hunk>, scopes: seq<Option<Scope>>): map<Scope, seq<Hunk>>
    requires |hunks| == |scopes|
  {
    if hunks == [] then map[]
    else
      var n := |hunks| - 1;
      var m := ScopeMap(hunks[..n], scopes[..n]);
      if scopes[n].Some? then
        m[scopes[n].value := (if scopes[n].value in m then m[scopes[n].value] else []) + [hunks[n]]]
      else m
  }

  /** The map holds a key for each listed scope, and under it the scope's
      hunks in patch order. */
  lemma {:induction false} ScopeMapGroups(hunks: seq<Hunk>, scopes: seq<Option<Scope>>)
    requires |hunks| == |scopes|
    ensures forall k :: k in ScopeMap(hunks, scopes) <==> k in ScopeKeys(scopes)
    ensures forall k :: k in ScopeMap(hunks, scopes) ==> ScopeMap(hunks, scopes)[k] == Group(hunks, scopes, k)
  {
    if hunks != [] {
      var n := |hunks| - 1;
      ScopeMapGroups(hunks[..n], scopes[..n]);
      var m := ScopeMap(hunks[..n], scopes[..n]);
      forall k | k in ScopeMap(hunks, scopes)
        ensures ScopeMap(hunks, scopes)[k] == Group(hunks, scopes, k)
      {
        if scopes[n] == Some(k) && k !in m {
          UnlistedGroupEmpty(hunks[..n], scopes[..n], k);
        }
      }
    }
  }

  lemma MapKeyListed(hunks: seq<Hunk>, scopes: seq<Option<Scope>>, k: Scope)
    requires |hunks| == |scopes|
    ensures k in ScopeMap(hunks, scopes) <==> k in ScopeKeys(scopes)
  {
    ScopeMapGroups(hunks, scopes);
  }

  lemma MapKeyGroup(hunks: seq<Hunk>, scopes: seq<Option<Scope>>, k: Scope)
    requires |hunks| == |scopes| && k in ScopeKeys(scopes)
    ensures k in ScopeMap(hunks, scopes) && ScopeMap(hunks, scopes)[k] == Group(hunks, scopes, k)
  {
    ScopeMapGroups(hunks, scopes);
  }

  /** `expandHunk(file.old_contents, hunk)` with its default five lines. */
  function ExpandedText(contents: string, h: Hunk): string
  {
    Join(Render(Expansion(Split(contents, '\n'), h, 5, 5)), "\n")
  }

  /** The fallback excerpts, one per hunk without a scope, in patch order. */
  function Fallbacks(contents: string, hunks: seq<Hunk>, scopes: seq<Option<Scope>>): seq<string>
    requires |hunks| == |scopes|
  {
    if hunks == [] then []
    else
      var n := |hunks| - 1;
      Fallbacks(contents, hunks[..n], scopes[..n])
      + (if scopes[n].None? then [ExpandedText(contents, hunks[n])] else [])
  }

  /** The excerpt of one scope: its hunks combined, then shown inside it. */
  function Excerpt(updatedFile: string, k: Scope, group: seq<Hunk>): string
    requires group != []
  {
    var fileLines := Split(updatedFile, '\n');
    Join(ScopeLines(fileLines, k.startLine, k.endLine, Merge(fileLines, SortByNewStart(group))), "\n")
  }

  /** The excerpts of the first `m` scopes, in first-found order. */
  function Excerpts(updatedFile: string, hunks: seq<Hunk>, scopes: seq<Option<Scope>>, m: nat): (r: seq<string>)
    requires |hunks| == |scopes| && m <= |ScopeKeys(scopes)|
    ensures |r| == m
  {
    if m == 0 then []
    else
      var k := ScopeKeys(scopes)[m - 1];
      GroupNonEmpty(hunks, scopes, k);
      Excerpts(updatedFile, hunks, scopes, m - 1) + [Excerpt(updatedFile, k, Group(hunks, scopes, k))]
  }

  /** One more scope for the second loop of diffContextPerHunk. */
  lemma ExcerptsStep(updatedFile: string, hunks: seq<Hunk>, scopes: seq<Option<Scope>>, j: nat, k: Scope, group: seq<Hunk>)
    requires |hunks| == |scopes| && j < |ScopeKeys(scopes)|
    requires k == ScopeKeys(scopes)[j] && group == Group(hunks, scopes, k)
    ensures group != []
    ensures Excerpts(updatedFile, hunks, scopes, j + 1) == Excerpts(updatedFile, hunks, scopes, j) + [Excerpt(updatedFile, k, group)]
  {
    GroupNonEmpty(hunks, scopes, k);
  }

  /** All excerpts: the fallbacks first, then one per scope in first-found
      order. */
  function Contexts(contents: string, updatedFile: string, hunks: seq<Hunk>, scopes: seq<Option<Scope>>): seq<string>
    requires |hunks| == |scopes|
  {
    Fallbacks(contents, hunks, scopes) + Excerpts(updatedFile, hunks, scopes, |ScopeKeys(scopes)|)
  }

  /** Each scope is listed once. */
  lemma {:induction false} ScopeKeysDistinct(scopes: seq<Option<Scope>>)
    ensures forall a, b :: 0 <= a < b < |ScopeKeys(scopes)| ==> ScopeKeys(scopes)[a] != ScopeKeys(scopes)[b]
  {
    if scopes != [] {
      ScopeKeysDistinct(scopes[..|scopes| - 1]);
    }
  }

  /** A scope is listed exactly when some hunk was found in it. */
  lemma {:induction false} ScopeKeysExactly(scopes: seq<Option<Scope>>)
    ensures forall k :: k in ScopeKeys(scopes) <==> Some(k) in scopes
  {
    if scopes != [] {
      var init := scopes[..|scopes| - 1];
      ScopeKeysExactly(init);
      assert scopes == init + [scopes[|scopes| - 1]];
    }
  }

  /** The hunks of a scope are exactly those found in it. */
  lemma {:induction false} GroupExactly(hunks: seq<Hunk>, scopes: seq<Option<Scope>>, k: Scope)
    requires |hunks| == |scopes|
    ensures forall h :: h in Group(hunks, scopes, k) <==>
      exists i :: 0 <= i < |hunks| && hunks[i] == h && scopes[i] == Some(k)
  {
    if hunks != [] {
      var n := |hunks| - 1;
      GroupExactly(hunks[..n], scopes[..n], k);
      forall h | h in Group(hunks, scopes, k)
        ensures exists i :: 0 <= i < |hunks| && hunks[i] == h && scopes[i] == Some(k)
      {
        if h in Group(hunks[..n], scopes[..n], k) {
          var i :| 0 <= i < n && hunks[..n][i] == h && scopes[..n][i] == Some(k);
          assert hunks[i] == h && scopes[i] == Some(k);
        }
      }
      forall h | exists i :: 0 <= i < |hunks| && hunks[i] == h && scopes[i] == Some(k)
        ensures h in Group(hunks, scopes, k)
      {
        var i :| 0 <= i < |hunks| && hunks[i] == h && scopes[i] == Some(k);
        if i < n {
          assert hunks[..n][i] == h && scopes[..n][i] == Some(k);
        }
      }
    }
  }

  /** Every listed scope has at least one hunk, so combining never fails. */
  lemma GroupNonEmpty(hunks: seq<Hunk>, scopes: seq<Option<Scope>>, k: Scope)
    requires |hunks| == |scopes|
    requires k in ScopeKeys(scopes)
    ensures |Group(hunks, scopes, k)| >= 1
  {
    ScopeKeysExactly(scopes);
    GroupExactly(hunks, scopes, k);
    var i :| 0 <= i < |scopes| && scopes[i] == Some(k);
    assert hunks[i] in Group(hunks, scopes, k);
  }

  /** The number of hunks no scope was found for. */
  function Unscoped(scopes: seq<Option<Scope>>): nat
  {
    if scopes == [] then 0
    else Unscoped(scopes[..|scopes| - 1]) + (if scopes[|scopes| - 1].None? then 1 else 0)
  }

  /** One excerpt per hunk without a scope and one per distinct scope. */
  lemma {:induction false} ContextsCount(contents: string, updatedFile: string, hunks: seq<Hunk>, scopes: seq<Option<Scope>>)
    requires |hunks| == |scopes|
    ensures |Contexts(contents, updatedFile, hunks, scopes)| == Unscoped(scopes) + |ScopeKeys(scopes)|
  {
    FallbacksCount(contents, hunks, scopes);
  }

  lemma {:induction false} FallbacksCount(contents: string, hunks: seq<Hunk>, scopes: seq<Option<Scope>>)
    requires |hunks| == |scopes|
    ensures |Fallbacks(contents, hunks, scopes)| == Unscoped(scopes)
  {
    if hunks != [] {
      var n := |hunks| - 1;
      FallbacksCount(contents, hunks[..n], scopes[..n]);
    }
  }

  /** The index of the first hunk found in scope `k`, or -1. */
  function FirstSeen(scopes: seq<Option<Scope>>, k: Scope): (i: int)
    ensures -1 <= i < |scopes|
  {
    if scopes == [] then -1
    else
      var f := FirstSeen(scopes[..|scopes| - 1], k);
      if f >= 0 then f
      else if scopes[|scopes| - 1] == Some(k) then |scopes| - 1
      else -1
  }

  /** A scope found for some hunk has a first hunk. */
  lemma {:induction false} FirstSeenFound(scopes: seq<Option<Scope>>, k: Scope)
    ensures FirstSeen(scopes, k) >= 0 <==> Some(k) in scopes
    ensures FirstSeen(scopes, k) >= 0 ==> scopes[FirstSeen(scopes, k)] == Some(k)
  {
    if scopes != [] {
      var init := scopes[..|scopes| - 1];
      FirstSeenFound(init, k);
      assert scopes == init + [scopes[|scopes| - 1]];
    }
  }

  /** Scopes are listed in the order of their first hunk. */
  lemma {:induction false} ScopeKeysFirstSeenOrder(scopes: seq<Option<Scope>>)
    ensures forall a, b :: 0 <= a < b < |ScopeKeys(scopes)| ==>
      0 <= FirstSeen(scopes, ScopeKeys(scopes)[a]) < FirstSeen(scopes, ScopeKeys(scopes)[b])
  {
    if scopes != [] {
      var n := |scopes| - 1;
      var init := scopes[..n];
      ScopeKeysFirstSeenOrder(init);
      ScopeKeysExactly(init);
      var keys, keys0 := ScopeKeys(scopes), ScopeKeys(init);
      forall k | k in keys0 ensures 0 <= FirstSeen(scopes, k) == FirstSeen(init, k) < n {
        FirstSeenFound(init, k);
      }
      var last := scopes[n];
      if last.Some? && last.value !in keys0 {
        var k := last.value;
        assert keys == keys0 + [k];
        FirstSeenFound(init, k);
        assert FirstSeen(scopes, k) == n;
        forall a, b | 0 <= a < b < |keys|
          ensures 0 <= FirstSeen(scopes, keys[a]) < FirstSeen(scopes, keys[b])
        {
          assert keys[a] == keys0[a] && keys0[a] in keys0;
          if b < |keys0| {
            assert keys[b] == keys0[b] && keys0[b] in keys0;
          }
        }
      } else {
        assert keys == keys0;
        forall a, b | 0 <= a < b < |keys|
          ensures 0 <= FirstSeen(scopes, keys[a]) < FirstSeen(scopes, keys[b])
        {
          assert keys0[a] in keys0 && keys0[b] in keys0;
        }
      }
    } else {
      assert ScopeKeys(scopes) == [];
    }
  }

  /** One more hunk in the first loop of diffContextPerHunk: its scope is
      listed when it is new. */
  lemma KeysStep(scopes: seq<Option<Scope>>, i: nat)
    requires i < |scopes|
    ensures ScopeKeys(scopes[..i + 1]) ==
      var keys := ScopeKeys(scopes[..i]);
      if scopes[i].Some? && scopes[i].value !in keys then keys + [scopes[i].value] else keys
  {
    assert scopes[..i + 1][..i] == scopes[..i];
  }

  /** One more hunk: it is appended to its scope's array. */
  lemma MapStep(hunks: seq<Hunk>, scopes: seq<Option<Scope>>, i: nat)
    requires |hunks| == |scopes| && i < |hunks|
    ensures ScopeMap(hunks[..i + 1], scopes[..i + 1]) ==
      var m := ScopeMap(hunks[..i], scopes[..i]);
      if scopes[i].Some? then
        m[scopes[i].value := (if scopes[i].value in m then m[scopes[i].value] else []) + [hunks[i]]]
      else m
  {
    assert hunks[..i + 1][..i] == hunks[..i];
    assert scopes[..i + 1][..i] == scopes[..i];
  }

  /** One more hunk: without a scope, it is expanded on its own. */
  lemma FallbacksStep(contents: string, hunks: seq<Hunk>, scopes: seq<Option<Scope>>, i: nat)
    requires |hunks| == |scopes| && i < |hunks|
    ensures Fallbacks(contents, hunks[..i + 1], scopes[..i + 1])
      == Fallbacks(contents, hunks[..i], scopes[..i])
         + (if scopes[i].None? then [ExpandedText(contents, hunks[i])] else [])
  {
    assert hunks[..i + 1][..i] == hunks[..i];
    assert scopes[..i + 1][..i] == scopes[..i];
  }

  /** A scope not listed has no hunks. */
  lemma {:induction false} UnlistedGroupEmpty(hunks: seq<Hunk>, scopes: seq<Option<Scope>>, k: Scope)
    requires |hunks| == |scopes|
    requires k !in ScopeKeys(scopes)
    ensures Group(hunks, scopes, k) == []
  {
    if hunks != [] {
      var n := |hunks| - 1;
      UnlistedGroupEmpty(hunks[..n], scopes[..n], k);
    }
  }

  /** The scope search for one hunk, over the lines of its trimmed form. */
  method FindScope(resolve: Resolver, patched: string, hunk: Hunk) returns (context: Option<Scope>)
    ensures context == ScopeOf(resolve, patched, hunk)
  {
    var trimmedHunk := TrimHunk(hunk);
    context := resolve(patched, trimmedHunk.newStart, trimmedHunk.newStart + hunk.newLines);
  }

  /** The first loop of diffContextPerHunk (`hunks.forEach`): each hunk is
      filed under the scope found for it, or expanded on its own. The map's
      iteration order is kept as `keys`. */
  method CollectScopes(oldContents: string, patched: string, hunks: seq<Hunk>, resolve: Resolver)
    returns (keys: seq<Scope>, scopeMap: map<Scope, seq<Hunk>>, contexts: seq<string>)
    ensures keys == ScopeKeys(ScopesOf(resolve, patched, hunks))
    ensures scopeMap == ScopeMap(hunks, ScopesOf(resolve, patched, hunks))
    ensures contexts == Fallbacks(oldContents, hunks, ScopesOf(resolve, patched, hunks))
  {
    ghost var scopes := ScopesOf(resolve, patched, hunks);
    scopeMap := map[];
    keys := [];
    contexts := [];
    for i := 0 to |hunks|
      invariant keys == ScopeKeys(scopes[..i])
      invariant scopeMap == ScopeMap(hunks[..i], scopes[..i])
      invariant contexts == Fallbacks(oldContents, hunks[..i], scopes[..i])
    {
      var context := FindScope(resolve, patched, hunks[i]);
      assert context == scopes[i];
      KeysStep(scopes, i);
      MapStep(hunks, scopes, i);
      FallbacksStep(oldContents, hunks, scopes, i);
      if context.Some? {
        var key := context.value;
        MapKeyListed(hunks[..i], scopes[..i], key);
        if key !in scopeMap {
          keys := keys + [key];
        }
        scopeMap := scopeMap[key := (if key in scopeMap then scopeMap[key] else []) + [hunks[i]]];
      } else {
        var fallback := ExpandHunk(oldContents, hunks[i], 5, 5);
        contexts := contexts + [fallback];
      }
    }
    assert hunks[..|hunks|] == hunks && scopes[..|hunks|] == scopes;
  }

  /** `combineHunks(updatedFile, hunks)` on the array the map holds for a
      scope; the array is sorted in place, which nothing reads afterwards. */
  method CombineGroup(patched: string, group: seq<Hunk>) returns (combined: Hunk)
    requires group != []
    ensures combined == Merge(Split(patched, '\n'), SortByNewStart(group))
  {
    var arr := new Hunk[|group|](n requires 0 <= n < |group| => group[n]);
    assert arr[..] == group;
    var r := CombineHunks(patched, arr);
    combined := r.value;
  }

  /** The second loop's body for one scope: its hunks combined, then the
      scope string built around them. */
  method ExcerptOf(patched: string, key: Scope, group: seq<Hunk>) returns (context: string)
    requires group != []
    ensures context == Excerpt(patched, key, group)
  {
    var combined := CombineGroup(patched, group);
    context := BuildingScopeString(patched, key.startLine, key.endLine, combined);
  }

  /** diffContextPerHunk. `updatedFile` is what `applyPatch` returned:
      `None` for its failure value; the empty text is refused too, as `!""`
      is true. */
  method DiffContextPerHunk(file: PRFile, updatedFile: Option<string>, hunks: seq<Hunk>, resolve: Resolver)
    returns (r: Result<seq<string>, string>)
    ensures updatedFile.None? || updatedFile.value == "" ==> r == Failure(ApplyError)
    ensures updatedFile.Some? && updatedFile.value != "" ==>
      r == Success(Contexts(file.oldContents, updatedFile.value, hunks,
                            ScopesOf(resolve, updatedFile.value, hunks)))
  {
    if updatedFile.None? || updatedFile.value == "" {
      return Failure(ApplyError);
    }
    var patched := updatedFile.value;
    ghost var scopes := ScopesOf(resolve, patched, hunks);
    var keys, scopeMap, contexts := CollectScopes(file.oldContents, patched, hunks, resolve);
    contexts := AddScopeExcerpts(patched, keys, scopeMap, contexts, hunks, scopes);
    return Success(contexts);
  }

  /** The second loop of diffContextPerHunk (`scopeMap.forEach`): one
      excerpt per scope, in the map's order, appended to the fallbacks. */
  method AddScopeExcerpts(patched: string, keys: seq<Scope>, scopeMap: map<Scope, seq<Hunk>>,
                          fallbacks: seq<string>, ghost hunks: seq<Hunk>, ghost scopes: seq<Option<Scope>>)
    returns (contexts: seq<string>)
    requires |hunks| == |scopes|
    requires keys == ScopeKeys(scopes) && scopeMap == ScopeMap(hunks, scopes)
    ensures contexts == fallbacks + Excerpts(patched, hunks, scopes, |keys|)
  {
    contexts := fallbacks;
    for j := 0 to |keys|
      invariant contexts == fallbacks + Excerpts(patched, hunks, scopes, j)
    {
      contexts := AddScopeExcerpt(patched, keys, scopeMap, contexts, j, fallbacks, hunks, scopes);
    }
  }

  /** One iteration of the second loop: the excerpt of scope `keys[j]`. */
  method AddScopeExcerpt(patched: string, keys: seq<Scope>, scopeMap: map<Scope, seq<Hunk>>, contexts: seq<string>, j: nat,
                         ghost fallbacks: seq<string>, ghost hunks: seq<Hunk>, ghost scopes: seq<Option<Scope>>)
    returns (contexts': seq<string>)
    requires |hunks| == |scopes| && j < |keys|
    requires keys == ScopeKeys(scopes) && scopeMap == ScopeMap(hunks, scopes)
    requires contexts == fallbacks + Excerpts(patched, hunks, scopes, j)
    ensures contexts' == fallbacks + Excerpts(patched, hunks, scopes, j + 1)
  {
    var key := keys[j];
    MapKeyGroup(hunks, scopes, key);
    var group := scopeMap[key];
    ExcerptsStep(patched, hunks, scopes, j, key, group);
    var context := ExcerptOf(patched, key, group);
    contexts' := contexts + [context];
    AppendOne(fallbacks, Excerpts(patched, hunks, scopes, j), context);
  }

  lemma AppendOne(a: seq<string>, b: seq<string>, c: string)
    ensures (a + b) + [c] == a + (b + [c])
  {
  }
}
