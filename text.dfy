/** The JavaScript string operations the grading client relies on:
    `trim`, `replace` with a string pattern (first occurrence only),
    `replace` of every asterisk by a global pattern, `startsWith`, `split` on a literal separator,
    `substring` with a clamped start and `Array.prototype.join`. */
module Text {
  import opened Results

  /** The characters `String.prototype.trim` removes: WhiteSpace and
      LineTerminator of ECMAScript, which include every Unicode space
      separator. */
  predicate IsWhitespace(c: char)
  {
    || c == '\t' || c == '\U{000B}' || c == '\U{000C}' || c == ' '
    || c == '\U{00A0}' || c == '\U{FEFF}' || c == '\U{1680}'
    || ('\U{2000}' <= c <= '\U{200A}')
    || c == '\U{202F}' || c == '\U{205F}' || c == '\U{3000}'
    || c == '\n' || c == '\r' || c == '\U{2028}' || c == '\U{2029}'
  }

  /** No whitespace at either end. */
  predicate IsTrimmed(s: string)
  {
    s == [] || (!IsWhitespace(s[0]) && !IsWhitespace(s[|s| - 1]))
  }

  /** `a` is `b` with some elements left out, order kept. */
  predicate Subsequence<T(==)>(a: seq<T>, b: seq<T>)
  {
    if a == [] then true
    else if b == [] then false
    else if a[0] == b[0] then Subsequence(a[1..], b[1..])
    else Subsequence(a, b[1..])
  }

  lemma {:induction false} SubsequenceLength<T>(a: seq<T>, b: seq<T>)
    requires Subsequence(a, b)
    ensures |a| <= |b|
  {
    if a != [] && b != [] {
      if a[0] == b[0] { SubsequenceLength(a[1..], b[1..]); } else { SubsequenceLength(a, b[1..]); }
    }
  }

  /** Every character of `a` occurs in `b`. */
  predicate CharsWithin(a: string, b: string)
  {
    forall c :: c in a ==> c in b
  }

  /** The number of whitespace characters at the start of `s`. */
  function LeadingSpace(s: string): (n: nat)
    ensures n <= |s|
    ensures forall i :: 0 <= i < n ==> IsWhitespace(s[i])
    ensures n == |s| || !IsWhitespace(s[n])
  {
    if |s| > 0 && IsWhitespace(s[0]) then
      var t := s[1..];
      var m := LeadingSpace(t);
      assert forall i :: 0 < i <= m ==> s[i] == t[i - 1];
      1 + m
    else 0
  }

  /** The number of whitespace characters at the end of `s`. */
  function TrailingSpace(s: string): (n: nat)
    ensures n <= |s|
    ensures forall i :: |s| - n <= i < |s| ==> IsWhitespace(s[i])
    ensures n == |s| || !IsWhitespace(s[|s| - n - 1])
  {
    if |s| > 0 && IsWhitespace(s[|s| - 1]) then
      var t := s[..|s| - 1];
      var m := TrailingSpace(t);
      assert forall i :: |t| - m <= i < |t| ==> s[i] == t[i];
      1 + m
    else 0
  }

  /** `r` is the slice `s[a..b]`, and only whitespace lies outside it. */
  predicate TrimmedSlice(s: string, r: string, a: int, b: int)
  {
    && 0 <= a <= b <= |s| && r == s[a..b]
    && (forall i :: 0 <= i < a ==> IsWhitespace(s[i]))
    && (forall i :: b <= i < |s| ==> IsWhitespace(s[i]))
  }

  /** `String.prototype.trim`: the result has no surrounding whitespace and
      a trimmed string is left alone (`TrimSlice` shows that it is the input
      with the whitespace at both ends cut off). */
  function Trim(s: string): (r: string)
    ensures IsTrimmed(r)
    ensures IsTrimmed(s) ==> r == s
  {
    var t := s[LeadingSpace(s)..];
    t[..|t| - TrailingSpace(t)]
  }

  /** Trimming cuts whitespace off the ends and nothing else: the result is
      a slice of the input with only whitespace outside it. */
  lemma TrimSlice(s: string)
    ensures exists a, b :: TrimmedSlice(s, Trim(s), a, b)
  {
    var a := LeadingSpace(s);
    var t := s[a..];
    var b := a + |t| - TrailingSpace(t);
    forall i | b <= i < |s| ensures IsWhitespace(s[i]) {
      assert s[i] == t[i - a];
    }
    assert TrimmedSlice(s, Trim(s), a, b);
  }

  /** Trimming removes whitespace only: every character of the result is
      in the input, and every other character survives. */
  lemma TrimKeeps(s: string)
    ensures CharsWithin(Trim(s), s)
    ensures forall c :: c in s && !IsWhitespace(c) ==> c in Trim(s)
  {
    TrimSlice(s);
    var a, b :| TrimmedSlice(s, Trim(s), a, b);
    SliceKeeps(s, Trim(s), a, b);
  }

  /** A slice with only whitespace outside it is made of the input's
      characters and keeps every other character of it. */
  lemma SliceKeeps(s: string, r: string, a: int, b: int)
    requires TrimmedSlice(s, r, a, b)
    ensures CharsWithin(r, s)
    ensures forall c :: c in s && !IsWhitespace(c) ==> c in r
  {
    forall j | 0 <= j < |r| ensures r[j] in s {
      assert r[j] == s[a + j];
    }
    forall c | c in s && !IsWhitespace(c) ensures c in r {
      var i :| 0 <= i < |s| && s[i] == c;
      assert a <= i < b;
      assert r[i - a] == c;
    }
  }

  /** Trimming leaves a leading run of non-whitespace characters in place. */
  lemma TrimKeepsPrefix(s: string, p: string)
    requires StartsWith(s, p) && |p| > 0
    requires forall i :: 0 <= i < |p| ==> !IsWhitespace(p[i])
    ensures StartsWith(Trim(s), p)
  {
    assert s[0] == p[0] && s[|p| - 1] == p[|p| - 1];
    assert LeadingSpace(s) == 0 && s[0..] == s;
    assert |p| <= |s| - TrailingSpace(s);
    assert Trim(s)[..|p|] == s[..|p|];
  }

  /** `s.replace(/x/g, '')` for one character `x` (`RemoveAllKeeps`,
      `RemoveAllCounts` and `RemoveAllInOrder` show that exactly the other
      characters stay, as often as before and in order). */
  function RemoveAll(s: string, x: char): (r: string)
    ensures x !in r
    ensures |r| <= |s|
  {
    if s == [] then []
    else (if s[0] == x then [] else [s[0]]) + RemoveAll(s[1..], x)
  }

  /** Removing every `x` keeps every other character. */
  lemma {:induction false} RemoveAllKeeps(s: string, x: char)
    ensures forall c :: c in RemoveAll(s, x) <==> c in s && c != x
  {
    if s != [] {
      RemoveAllKeeps(s[1..], x);
      assert s == [s[0]] + s[1..];
    }
  }

  /** Removing every `x` keeps every other character as often as it
      occurs. */
  lemma {:induction false} RemoveAllCounts(s: string, x: char)
    ensures multiset(RemoveAll(s, x)) == multiset(s)[x := 0]
  {
    if s != [] {
      var t := s[1..];
      RemoveAllCounts(t, x);
      assert s == [s[0]] + t;
      assert multiset(s) == multiset([s[0]]) + multiset(t);
      if s[0] == x {
        assert RemoveAll(s, x) == RemoveAll(t, x);
      } else {
        assert RemoveAll(s, x) == [s[0]] + RemoveAll(t, x);
        assert multiset(RemoveAll(s, x)) == multiset([s[0]]) + multiset(RemoveAll(t, x));
      }
    }
  }

  /** Removing every `x` keeps the other characters in their order. */
  lemma {:induction false} RemoveAllInOrder(s: string, x: char)
    ensures Subsequence(RemoveAll(s, x), s)
  {
    if s != [] {
      var rest := RemoveAll(s[1..], x);
      RemoveAllInOrder(s[1..], x);
      if s[0] == x {
        assert RemoveAll(s, x) == rest;
        assert rest == [] || rest[0] != s[0];
      } else {
        assert RemoveAll(s, x) == [s[0]] + rest;
        assert ([s[0]] + rest)[1..] == rest;
      }
    }
  }

  /** Index of the first occurrence of `x` in `s`. */
  function IndexOfChar(s: string, x: char): (r: Option<nat>)
    ensures r.None? <==> x !in s
    ensures r.Some? ==> r.value < |s| && s[r.value] == x && x !in s[..r.value]
  {
    if s == [] then None
    else if s[0] == x then Some(0)
    else match IndexOfChar(s[1..], x)
      case None => None
      case Some(i) => assert s[..i + 1] == [s[0]] + s[1..][..i]; Some(i + 1)
  }

  /** `s.replace(x, '')` with a one-character string pattern: JavaScript
      replaces only the FIRST occurrence, wherever it is. */
  function RemoveFirst(s: string, x: char): (r: string)
    ensures x !in s ==> r == s
    ensures x in s ==> |r| == |s| - 1
    ensures x in s ==> exists i :: 0 <= i < |s| && s[i] == x && x !in s[..i] && r == s[..i] + s[i + 1..]
  {
    match IndexOfChar(s, x)
    case None => s
    case Some(i) => s[..i] + s[i + 1..]
  }

  predicate StartsWith(s: string, prefix: string)
  {
    |prefix| <= |s| && s[..|prefix|] == prefix
  }

  /** `s.substring(start)` for a non-negative start: a start past the end
      gives the empty string. */
  function Substring(s: string, start: nat): (r: string)
    ensures start <= |s| ==> r == s[start..]
    ensures start >= |s| ==> r == []
  {
    if start <= |s| then s[start..] else []
  }

  predicate OccursAt(s: string, sep: string, j: int)
  {
    0 <= j && j + |sep| <= |s| && s[j..j + |sep|] == sep
  }

  /** Position of the first occurrence of `sep` in `s` (`indexOf`). */
  function Find(s: string, sep: string): (r: Option<nat>)
    requires |sep| > 0
    ensures r.Some? ==> OccursAt(s, sep, r.value)
  {
    if |s| < |sep| then None
    else if s[..|sep|] == sep then Some(0)
    else match Find(s[1..], sep)
      case None => None
      case Some(i) =>
        assert s[i + 1..i + 1 + |sep|] == s[1..][i..i + |sep|];
        Some(i + 1)
  }

  /** `Find` returns the first occurrence, and nothing when there is none. */
  lemma {:induction false} FindFirst(s: string, sep: string)
    requires |sep| > 0
    ensures Find(s, sep).Some? ==> forall j :: 0 <= j < Find(s, sep).value ==> !OccursAt(s, sep, j)
    ensures Find(s, sep).None? ==> forall j :: !OccursAt(s, sep, j)
    decreases |s|
  {
    if |s| >= |sep| && s[..|sep|] != sep {
      var t := s[1..];
      FindFirst(t, sep);
      forall j | 0 < j && OccursAt(s, sep, j) ensures OccursAt(t, sep, j - 1) {
        assert t[j - 1..j - 1 + |sep|] == s[j..j + |sep|];
      }
    }
  }

  /** A one-character separator is found where the character first is. */
  lemma FindChar(s: string, x: char)
    ensures Find(s, [x]).None? <==> x !in s
    ensures Find(s, [x]) == IndexOfChar(s, x)
  {
    forall j | OccursAt(s, [x], j) ensures s[j] == x {
      assert s[j..j + 1] == [x];
    }
    if x in s {
      var j :| 0 <= j < |s| && s[j] == x;
      assert OccursAt(s, [x], j);
    }
  }

  /** `s.split(sep)` for a non-empty literal separator (also what a regular
      expression without special characters does): cut at every
      occurrence, scanning left to right. */
  function Split(s: string, sep: string): (r: seq<string>)
    requires |sep| > 0
    ensures |r| >= 1
    ensures Find(s, sep).None? ==> r == [s]
    ensures Find(s, sep).Some? ==> |r| >= 2 && r[0] == s[..Find(s, sep).value]
    decreases |s|
  {
    match Find(s, sep)
    case None => [s]
    case Some(i) => [s[..i]] + Split(s[i + |sep|..], sep)
  }

  /** Every piece of a split is made of the input's characters. */
  lemma {:induction false} SplitPiecesWithin(s: string, sep: string)
    requires |sep| > 0
    ensures forall k :: 0 <= k < |Split(s, sep)| ==> CharsWithin(Split(s, sep)[k], s)
    decreases |s|
  {
    match Find(s, sep)
    case None =>
    case Some(i) =>
      var rest := s[i + |sep|..];
      SplitPiecesWithin(rest, sep);
      var tail := Split(rest, sep);
      assert CharsWithin(rest, s);
      assert CharsWithin(s[..i], s);
      assert Split(s, sep) == [s[..i]] + tail;
      forall k | 0 < k < |tail| + 1 ensures CharsWithin(([s[..i]] + tail)[k], s) {
        assert ([s[..i]] + tail)[k] == tail[k - 1];
      }
  }

  /** `parts.join(sep)`: every character of the join comes from a part or
      from the separator. */
  function Join(parts: seq<string>, sep: string): (r: string)
    ensures forall c :: c in r ==> c in sep || exists k :: 0 <= k < |parts| && c in parts[k]
  {
    if |parts| == 0 then []
    else if |parts| == 1 then parts[0]
    else
      var rest := Join(parts[1..], sep);
      assert forall k :: 0 <= k < |parts| - 1 ==> parts[1..][k] == parts[k + 1];
      parts[0] + sep + rest
  }

  lemma {:induction false} JoinAppend(parts: seq<string>, sep: string, x: string)
    requires |parts| >= 1
    ensures Join(parts + [x], sep) == Join(parts, sep) + sep + x
  {
    if |parts| == 1 {
      assert parts + [x] == [parts[0], x];
      assert [parts[0], x][1..] == [x];
    } else {
      assert (parts + [x])[1..] == parts[1..] + [x];
      JoinAppend(parts[1..], sep, x);
    }
  }

  /** Joining a first part before at least one more puts the separator
      between it and the join of the rest. */
  lemma {:induction false} JoinCons(p: string, tail: seq<string>, sep: string)
    requires |tail| >= 1
    ensures Join([p] + tail, sep) == p + sep + Join(tail, sep)
  {
    assert ([p] + tail)[1..] == tail;
  }

  /** Splitting undoes joining: no piece loses or gains anything. */
  lemma {:induction false} JoinSplit(s: string, sep: string)
    requires |sep| > 0
    ensures Join(Split(s, sep), sep) == s
    decreases |s|
  {
    match Find(s, sep)
    case None =>
    case Some(i) =>
      var rest := s[i + |sep|..];
      JoinSplit(rest, sep);
      assert Split(s, sep) == [s[..i]] + Split(rest, sep);
      JoinCons(s[..i], Split(rest, sep), sep);
      AroundOccurrence(s, sep, i);
  }

  /** Text holding `sep` at `i` is the text before, `sep`, and the text
      after. */
  lemma {:induction false} AroundOccurrence(s: string, sep: string, i: int)
    requires OccursAt(s, sep, i)
    ensures s == s[..i] + sep + s[i + |sep|..]
  {
  }

  /** No piece of a split holds the separator. */
  lemma {:induction false} SplitPiecesFree(s: string, sep: string)
    requires |sep| > 0
    ensures forall k :: 0 <= k < |Split(s, sep)| ==> Find(Split(s, sep)[k], sep).None?
    decreases |s|
  {
    match Find(s, sep)
    case None =>
    case Some(i) =>
      var rest := s[i + |sep|..];
      SplitPiecesFree(rest, sep);
      FirstPieceFree(s, sep);
      assert Split(s, sep) == [s[..i]] + Split(rest, sep);
      FreeCons(s[..i], Split(rest, sep), sep);
  }

  /** One more piece free of the separator keeps all pieces free of it. */
  lemma {:induction false} FreeCons(p: string, tail: seq<string>, sep: string)
    requires |sep| > 0 && Find(p, sep).None?
    requires forall k :: 0 <= k < |tail| ==> Find(tail[k], sep).None?
    ensures forall k :: 0 <= k < |[p] + tail| ==> Find(([p] + tail)[k], sep).None?
  {
    forall k | 0 < k < |tail| + 1 ensures Find(([p] + tail)[k], sep).None? {
      assert ([p] + tail)[k] == tail[k - 1];
    }
  }

  /** The text before the first separator does not hold it. */
  lemma {:induction false} FirstPieceFree(s: string, sep: string)
    requires |sep| > 0 && Find(s, sep).Some?
    ensures Find(s[..Find(s, sep).value], sep).None?
  {
    FindFirst(s, sep);
    var i := Find(s, sep).value;
    var p := s[..i];
    forall j | 0 <= j ensures !OccursAt(p, sep, j) {
      if j + |sep| <= |p| {
        assert j < i && !OccursAt(s, sep, j);
        assert p[j..j + |sep|] == s[j..j + |sep|];
      }
    }
  }

  /** Joining pieces that do not hold a one-character separator and
      splitting again gives the pieces back. */
  lemma {:induction false} SplitJoin(parts: seq<string>, x: char)
    requires |parts| >= 1
    requires forall k :: 0 <= k < |parts| ==> x !in parts[k]
    ensures Split(Join(parts, [x]), [x]) == parts
  {
    FindChar(parts[0], x);
    if |parts| == 1 {
    } else {
      var s := Join(parts, [x]);
      var tail := Join(parts[1..], [x]);
      assert s == parts[0] + [x] + tail;
      var n := |parts[0]|;
      assert OccursAt(s, [x], n);
      forall j | 0 <= j < n ensures !OccursAt(s, [x], j) {
        assert s[j] == parts[0][j];
      }
      FindFirst(s, [x]);
      assert Find(s, [x]) == Some(n);
      assert s[n + 1..] == tail;
      assert s[..n] == parts[0];
      SplitJoin(parts[1..], x);
      assert Split(s, [x]) == [s[..n]] + Split(s[n + 1..], [x]);
      assert parts == [parts[0]] + parts[1..];
    }
  }

  /** A character in no part and not in the separator is not in the join. */
  lemma {:induction false} JoinFree(parts: seq<string>, sep: string, c: char)
    requires forall i :: 0 <= i < |parts| ==> c !in parts[i]
    requires c !in sep
    ensures c !in Join(parts, sep)
  {
    if |parts| > 1 {
      JoinFree(parts[1..], sep, c);
      assert c !in parts[0];
    }
  }
}
