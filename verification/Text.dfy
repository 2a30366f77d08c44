/** The string operations of Go's strings package that the models use. */
module Text {
  /** unicode.IsSpace. */
  predicate IsSpace(c: char)
  {
    c == ' ' || '\t' <= c <= '\r' || c == '\U{85}' || c == '\U{A0}' || c == '\U{1680}'
    || '\U{2000}' <= c <= '\U{200A}' || c == '\U{2028}' || c == '\U{2029}' || c == '\U{202F}'
    || c == '\U{205F}' || c == '\U{3000}'
  }

  /** Nothing but white space. */
  predicate Blank(s: string)
  {
    forall i :: 0 <= i < |s| ==> IsSpace(s[i])
  }

  // ---------------------------------------------------------------------- trimming

  function TrimLeft(s: string): string
  {
    if s != [] && IsSpace(s[0]) then TrimLeft(s[1..]) else s
  }

  function TrimRight(s: string): string
  {
    if s != [] && IsSpace(s[|s| - 1]) then TrimRight(s[..|s| - 1]) else s
  }

  /** strings.TrimSpace. */
  function Trim(s: string): string
  {
    TrimRight(TrimLeft(s))
  }

  predicate Trimmed(s: string)
  {
    s != [] ==> !IsSpace(s[0]) && !IsSpace(s[|s| - 1])
  }

  /** pat stands in s at position i. */
  predicate MatchAt(s: string, pat: string, i: int)
  {
    0 <= i && i + |pat| <= |s| && forall t :: 0 <= t < |pat| ==> s[i + t] == pat[t]
  }

  /** part is a stretch of s. */
  ghost predicate Within(part: string, s: string)
  {
    exists i :: MatchAt(s, part, i)
  }

  lemma WithinSlice(s: string, i: int, j: int)
    requires 0 <= i <= j <= |s|
    ensures Within(s[i..j], s)
  {
    assert MatchAt(s, s[i..j], i);
  }

  lemma WithinPrefix(s: string, j: int)
    requires 0 <= j <= |s|
    ensures Within(s[..j], s)
  {
    WithinSlice(s, 0, j);
    assert s[0..j] == s[..j];
  }

  lemma WithinSuffix(s: string, i: int)
    requires 0 <= i <= |s|
    ensures Within(s[i..], s)
  {
    WithinSlice(s, i, |s|);
    assert s[i..|s|] == s[i..];
  }

  lemma MatchThrough(a: string, b: string, c: string, i: int, k: int)
    requires MatchAt(b, a, i) && MatchAt(c, b, k)
    ensures MatchAt(c, a, k + i)
  {
    forall t | 0 <= t < |a| ensures c[k + i + t] == a[t] {
      assert b[i + t] == a[t] && c[k + (i + t)] == b[i + t];
    }
  }

  lemma WithinTransitive(a: string, b: string, c: string)
    requires Within(a, b) && Within(b, c)
    ensures Within(a, c)
  {
    var i :| MatchAt(b, a, i);
    var k :| MatchAt(c, b, k);
    MatchThrough(a, b, c, i, k);
  }

  lemma {:induction false} TrimLeftParts(s: string) returns (pad: string)
    ensures Blank(pad) && s == pad + TrimLeft(s)
    ensures TrimLeft(s) != [] ==> !IsSpace(TrimLeft(s)[0])
  {
    pad := "";
    if s != [] && IsSpace(s[0]) {
      pad := TrimLeftParts(s[1..]);
      pad := [s[0]] + pad;
    }
  }

  lemma {:induction false} TrimRightParts(s: string) returns (pad: string)
    ensures Blank(pad) && s == TrimRight(s) + pad
    ensures TrimRight(s) != [] ==> !IsSpace(TrimRight(s)[|TrimRight(s)| - 1])
  {
    pad := "";
    var n := |s| - 1;
    if s != [] && IsSpace(s[n]) {
      pad := TrimRightParts(s[..n]);
      pad := pad + [s[n]];
    }
  }

  /** A string is its trimmed core between two stretches of white space. */
  lemma TrimParts(s: string) returns (before: string, after: string)
    ensures Blank(before) && Blank(after) && s == before + (Trim(s) + after)
    ensures Trimmed(Trim(s))
  {
    before := TrimLeftParts(s);
    after := TrimRightParts(TrimLeft(s));
    assert Trim(s) != [] ==> Trim(s)[0] == TrimLeft(s)[0];
  }

  /** Trimming yields a trimmed stretch, and leaves a trimmed string alone. */
  lemma TrimIs(s: string)
    ensures Within(Trim(s), s) && Trimmed(Trim(s))
    ensures Trimmed(s) ==> Trim(s) == s
  {
    var before, after := TrimParts(s);
    assert MatchAt(s, Trim(s), |before|);
  }

  lemma {:induction false} TrimLeftPad(pad: string, s: string)
    requires Blank(pad)
    ensures TrimLeft(pad + s) == TrimLeft(s)
  {
    if pad == [] {
      assert pad + s == s;
    } else {
      TrimLeftPad(pad[1..], s);
      assert (pad + s)[1..] == pad[1..] + s;
    }
  }

  lemma {:induction false} TrimRightPad(s: string, pad: string)
    requires Blank(pad)
    ensures TrimRight(s + pad) == TrimRight(s)
  {
    if pad == [] {
      assert s + pad == s;
    } else {
      var n := |pad| - 1;
      TrimRightPad(s, pad[..n]);
      assert (s + pad)[..|s + pad| - 1] == s + pad[..n];
    }
  }

  lemma {:induction false} TrimLeftKeepsTail(s: string, c: char)
    ensures if Blank(s) then TrimLeft(s + [c]) == TrimLeft([c]) else TrimLeft(s + [c]) == TrimLeft(s) + [c]
  {
    if s == [] {
      assert s + [c] == [c];
    } else if IsSpace(s[0]) {
      TrimLeftKeepsTail(s[1..], c);
      assert (s + [c])[1..] == s[1..] + [c];
      assert Blank(s) <==> Blank(s[1..]);
    }
  }

  lemma {:induction false} TrimLeftBlank(s: string)
    requires Blank(s)
    ensures TrimLeft(s) == []
  {
    if s != [] {
      TrimLeftBlank(s[1..]);
    }
  }

  /** White space around a string does not show after trimming. */
  lemma {:induction false} TrimPadRight(s: string, pad: string)
    requires Blank(pad)
    ensures Trim(s + pad) == Trim(s)
  {
    if pad == [] {
      assert s + pad == s;
    } else {
      var n := |pad| - 1;
      TrimPadRight(s, pad[..n]);
      var t, c := s + pad[..n], pad[n];
      assert s + pad == t + [c];
      TrimLeftKeepsTail(t, c);
      if Blank(t) {
        TrimLeftBlank(t);
        TrimLeftBlank([c]);
      } else {
        TrimRightPad(TrimLeft(t), [c]);
      }
    }
  }

  lemma TrimPadLeft(pad: string, s: string)
    requires Blank(pad)
    ensures Trim(pad + s) == Trim(s)
  {
    TrimLeftPad(pad, s);
  }

  // --------------------------------------------------------------------- searching

  lemma MatchShift(s: string, pat: string, i: int, j: int, k: int)
    requires 0 <= i <= j <= |s| && 0 <= k && k + |pat| <= j - i
    ensures MatchAt(s[i..j], pat, k) <==> MatchAt(s, pat, i + k)
  {
    var part := s[i..j];
    assert forall t :: 0 <= t < |pat| ==> (part[k + t] == pat[t] <==> s[i + k + t] == pat[t]);
  }

  /** strings.Index: the first match, or -1. */
  function Index(s: string, pat: string): (r: int)
    ensures r == -1 || MatchAt(s, pat, r)
  {
    IndexFrom(s, pat, 0)
  }

  function IndexFrom(s: string, pat: string, i: nat): (r: int)
    ensures r == -1 || (i <= r && MatchAt(s, pat, r))
    decreases |s| - i
  {
    if i + |pat| > |s| then -1
    else if MatchAt(s, pat, i) then i
    else IndexFrom(s, pat, i + 1)
  }

  lemma {:induction false} IndexFromFirst(s: string, pat: string, i: nat, j: nat)
    requires i <= j && (IndexFrom(s, pat, i) == -1 || j < IndexFrom(s, pat, i))
    ensures !MatchAt(s, pat, j)
    decreases |s| - i
  {
    if i < j && i + |pat| <= |s| {
      IndexFromFirst(s, pat, i + 1, j);
    }
  }

  /** There is no match before the first, and none at all when none is found. */
  lemma IndexFirst(s: string, pat: string, j: int)
    requires 0 <= j && (Index(s, pat) == -1 || j < Index(s, pat))
    ensures !MatchAt(s, pat, j)
  {
    IndexFromFirst(s, pat, 0, j);
  }

  predicate Contains(s: string, pat: string)
  {
    Index(s, pat) != -1
  }

  lemma IndexIs(s: string, pat: string, i: int)
    requires MatchAt(s, pat, i) && forall j :: 0 <= j < i ==> !MatchAt(s, pat, j)
    ensures Index(s, pat) == i
  {
    var k := Index(s, pat);
    if k == -1 || i < k {
      IndexFirst(s, pat, i);
    }
  }

  /** What a string does not contain, none of its stretches contains. */
  lemma WithinContains(part: string, s: string, pat: string)
    requires Within(part, s) && !Contains(s, pat)
    ensures !Contains(part, pat)
  {
    var i :| MatchAt(s, part, i);
    var k := Index(part, pat);
    if k != -1 {
      MatchThrough(pat, part, s, k, i);
      IndexFirst(s, pat, i + k);
    }
  }

  /** No match lies across the joint of a and b. */
  predicate CleanJoint(a: string, b: string, pat: string)
  {
    forall j :: |a| - |pat| < j < |a| ==> !MatchAt(a + b, pat, j)
  }

  lemma MatchInAppend(a: string, b: string, pat: string, j: int)
    requires pat != []
    ensures 0 <= j <= |a| - |pat| ==> (MatchAt(a + b, pat, j) <==> MatchAt(a, pat, j))
    ensures j >= |a| ==> (MatchAt(a + b, pat, j) <==> MatchAt(b, pat, j - |a|))
  {
    assert (a + b)[0..|a|] == a && (a + b)[|a|..|a| + |b|] == b;
    if 0 <= j <= |a| - |pat| {
      MatchShift(a + b, pat, 0, |a|, j);
    }
    if |a| <= j && j + |pat| <= |a + b| {
      MatchShift(a + b, pat, |a|, |a| + |b|, j - |a|);
    }
  }

  /** A search passes over what does not match. */
  lemma IndexAppend(a: string, b: string, pat: string)
    requires pat != [] && !Contains(a, pat) && CleanJoint(a, b, pat)
    ensures Index(a + b, pat) == if Contains(b, pat) then |a| + Index(b, pat) else -1
  {
    forall j | 0 <= j && (!Contains(b, pat) || j < |a| + Index(b, pat)) ensures !MatchAt(a + b, pat, j) {
      MatchInAppend(a, b, pat, j);
      if j <= |a| - |pat| {
        IndexFirst(a, pat, j);
      } else if |a| <= j {
        IndexFirst(b, pat, j - |a|);
      }
    }
    if Contains(b, pat) {
      MatchInAppend(a, b, pat, |a| + Index(b, pat));
      IndexIs(a + b, pat, |a| + Index(b, pat));
    }
  }

  /** strings.Split for a non-empty separator. */
  function Split(s: string, sep: string): (parts: seq<string>)
    requires sep != []
    ensures parts != []
  {
    var i := Index(s, sep);
    if i == -1 then [s] else [s[..i]] + Split(s[i + |sep|..], sep)
  }

  /** A part without separator is the first of the split. */
  lemma SplitFirst(a: string, sep: string, b: string)
    requires sep != [] && !Contains(a, sep) && CleanJoint(a, sep + b, sep)
    ensures Split(a + sep + b, sep) == [a] + Split(b, sep)
  {
    var s := a + sep + b;
    assert s == a + (sep + b);
    IndexIs(sep + b, sep, 0);
    IndexAppend(a, sep + b, sep);
    assert s[..|a|] == a && s[|a| + |sep|..] == b;
  }

  lemma SplitStarts(s: string, sep: string)
    requires sep != []
    ensures Within(Split(s, sep)[0], s) && !Contains(Split(s, sep)[0], sep)
  {
    var i := Index(s, sep);
    if i == -1 {
      WithinPrefix(s, |s|);
      assert s[..|s|] == s;
    } else {
      WithinPrefix(s, i);
      BeforeFirst(s, sep);
    }
  }

  lemma SplitAfter(s: string, sep: string, k: nat)
    requires sep != [] && Index(s, sep) != -1 && 0 < k < |Split(s, sep)|
    ensures var rest := s[Index(s, sep) + |sep|..];
            k - 1 < |Split(rest, sep)| && Split(s, sep)[k] == Split(rest, sep)[k - 1]
  {
  }

  /** Parts are stretches of the string and free of the separator. */
  lemma {:induction false} SplitParts(s: string, sep: string, k: nat)
    requires sep != [] && k < |Split(s, sep)|
    ensures Within(Split(s, sep)[k], s) && !Contains(Split(s, sep)[k], sep)
    decreases |s|
  {
    var i := Index(s, sep);
    if i == -1 || k == 0 {
      SplitStarts(s, sep);
    } else {
      var rest := s[i + |sep|..];
      SplitAfter(s, sep, k);
      SplitParts(rest, sep, k - 1);
      WithinSuffix(s, i + |sep|);
      WithinTransitive(Split(rest, sep)[k - 1], rest, s);
    }
  }

  lemma BeforeFirst(s: string, pat: string)
    requires pat != [] && Contains(s, pat)
    ensures !Contains(s[..Index(s, pat)], pat)
  {
    var i := Index(s, pat);
    var k := Index(s[..i], pat);
    if k != -1 {
      assert s[..i] == s[0..i];
      MatchShift(s, pat, 0, i, k);
      IndexFirst(s, pat, k);
    }
  }

  // ------------------------------------------------------ building strings without matches

  lemma NoFirstChar(s: string, pat: string)
    requires pat != [] && pat[0] !in s
    ensures !Contains(s, pat)
  {
  }

  lemma OneCharJoint(a: string, b: string, pat: string)
    requires |pat| == 1
    ensures CleanJoint(a, b, pat)
  {
  }

  lemma TwoCharJoint(a: string, b: string, pat: string)
    requires |pat| == 2 && (a == [] || b == [] || a[|a| - 1] != pat[0] || b[0] != pat[1])
    ensures CleanJoint(a, b, pat)
  {
  }

  lemma JoinWithout(a: string, b: string, pat: string)
    requires pat != [] && !Contains(a, pat) && !Contains(b, pat) && CleanJoint(a, b, pat)
    ensures !Contains(a + b, pat)
  {
    IndexAppend(a, b, pat);
  }

  /** A first match is not moved by what follows. */
  lemma IndexKeeps(a: string, b: string, pat: string)
    requires pat != [] && Contains(a, pat)
    ensures Index(a + b, pat) == Index(a, pat)
  {
    var i := Index(a, pat);
    MatchInAppend(a, b, pat, i);
    forall j | 0 <= j < i ensures !MatchAt(a + b, pat, j) {
      MatchInAppend(a, b, pat, j);
      IndexFirst(a, pat, j);
    }
    IndexIs(a + b, pat, i);
  }
}
