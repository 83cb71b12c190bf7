/**
 Go's string operations that the service relies on: `strings.TrimSpace`,
 the byte order used by `sort.Strings` and by SQLite's default collation,
 and cutting at the first occurrence of a character. Characters are Unicode
 scalar values, whose order agrees with the order of their UTF-8 encodings.
 */
module Text {

  /** `unicode.IsSpace`. */
  predicate IsSpace(c: char) {
    || '\t' <= c <= '\r' || c == ' ' || c == '\U{0085}' || c == '\U{00A0}'
    || c == '\U{1680}' || '\U{2000}' <= c <= '\U{200A}'
    || c == '\U{2028}' || c == '\U{2029}' || c == '\U{202F}'
    || c == '\U{205F}' || c == '\U{3000}'
  }

  function TrimLeft(s: string): (r: string)
    ensures |r| <= |s|
    ensures r == "" || !IsSpace(r[0])
    ensures s == "" || !IsSpace(s[0]) ==> r == s
  {
    if s != "" && IsSpace(s[0]) then TrimLeft(s[1..]) else s
  }

  function TrimRight(s: string): (r: string)
    ensures r <= s
    ensures r == "" || !IsSpace(r[|r| - 1])
    ensures s == "" || !IsSpace(s[|s| - 1]) ==> r == s
  {
    if s != "" && IsSpace(s[|s| - 1]) then TrimRight(s[..|s| - 1]) else s
  }

  /** `strings.TrimSpace`: trimming is idempotent and leaves no outer space. */
  function TrimSpace(s: string): (r: string)
    ensures |r| <= |s|
    ensures r != "" ==> !IsSpace(r[0]) && !IsSpace(r[|r| - 1])
    ensures s == "" || (!IsSpace(s[0]) && !IsSpace(s[|s| - 1])) ==> r == s
  {
    TrimRight(TrimLeft(s))
  }

  lemma TrimSpaceIdempotent(s: string)
    ensures TrimSpace(TrimSpace(s)) == TrimSpace(s)
  {
  }

  predicate IsBlank(s: string) {
    forall c :: c in s ==> IsSpace(c)
  }

  lemma {:induction false} TrimLeftBlank(s: string)
    ensures TrimLeft(s) == "" <==> IsBlank(s)
  {
    if s != "" && IsSpace(s[0]) {
      TrimLeftBlank(s[1..]);
      assert s == [s[0]] + s[1..];
    }
  }

  /** A text is blank exactly when `strings.TrimSpace` leaves nothing of it. */
  lemma BlankTrimsToNothing(s: string)
    ensures TrimSpace(s) == "" <==> IsBlank(s)
  {
    var left := TrimLeft(s);
    TrimLeftBlank(s);
    if left != "" { assert !IsSpace(left[0]); TrimRightKeeps(left); }
  }

  lemma {:induction false} TrimRightKeeps(s: string)
    requires s != "" && !IsSpace(s[0])
    ensures TrimRight(s) != ""
  {
    if IsSpace(s[|s| - 1]) { TrimRightKeeps(s[..|s| - 1]); }
  }

  lemma {:induction false} TrimLeftCuts(s: string)
    ensures var n := |s| - |TrimLeft(s)|; TrimLeft(s) == s[n..] && IsBlank(s[..n])
  {
    if s != "" && IsSpace(s[0]) {
      TrimLeftCuts(s[1..]);
      var n := |s[1..]| - |TrimLeft(s)|;
      assert s[..n + 1] == [s[0]] + s[1..][..n];
    }
  }

  lemma {:induction false} TrimRightCuts(s: string)
    ensures IsBlank(s[|TrimRight(s)|..])
  {
    if s != "" && IsSpace(s[|s| - 1]) {
      var front := s[..|s| - 1];
      TrimRightCuts(front);
      assert s[|TrimRight(s)|..] == front[|TrimRight(front)|..] + [s[|s| - 1]];
    }
  }

  /** `s` is `core` between blanks. */
  predicate Surrounded(s: string, left: string, core: string, right: string) {
    s == left + core + right && IsBlank(left) && IsBlank(right)
  }

  /** Trimming removes spaces from both ends and nothing else. */
  lemma TrimSpaceCuts(s: string)
    ensures exists left, right :: Surrounded(s, left, TrimSpace(s), right)
  {
    var rest := TrimLeft(s);
    TrimLeftCuts(s);
    TrimRightCuts(rest);
    var left, core := s[..|s| - |rest|], TrimSpace(s);
    assert s == left + rest && core == TrimRight(rest);
    CutTwice(s, left, rest, core);
  }

  lemma CutTwice(s: string, left: string, rest: string, core: string)
    requires s == left + rest && core <= rest && IsBlank(left) && IsBlank(rest[|core|..])
    ensures exists l, right :: Surrounded(s, l, core, right)
  {
    assert rest == core + rest[|core|..];
    assert s == left + core + rest[|core|..];
    assert Surrounded(s, left, core, rest[|core|..]);
  }

  /** The characters of Unicode that `unicode.IsSpace` accepts, by code point. */
  lemma SpaceCodePoints(c: char)
    ensures IsSpace(c) <==>
            || c as int in {9, 10, 11, 12, 13, 32, 133, 160, 5760, 8232, 8233, 8239, 8287, 12288}
            || 8192 <= c as int <= 8202
  {
  }

  /** Lexicographic order, the order of `<` on Go strings. */
  predicate Less(a: string, b: string) {
    b != "" && (a == "" || a[0] < b[0] || (a[0] == b[0] && Less(a[1..], b[1..])))
  }

  lemma LessIrreflexive(a: string)
    ensures !Less(a, a)
  {
    if a != "" { LessIrreflexive(a[1..]); }
  }

  lemma {:induction false} LessTransitive(a: string, b: string, c: string)
    requires Less(a, b) && Less(b, c)
    ensures Less(a, c)
  {
    if a != "" && a[0] == b[0] && b[0] == c[0] {
      LessTransitive(a[1..], b[1..], c[1..]);
    }
  }

  lemma {:induction false} LessConnected(a: string, b: string)
    requires a != b
    ensures Less(a, b) || Less(b, a)
  {
    if a != "" && b != "" && a[0] == b[0] {
      assert a == [a[0]] + a[1..] && b == [b[0]] + b[1..];
      LessConnected(a[1..], b[1..]);
    }
  }

  /** `i` is the first position at which `a` and `b` differ, and there `a` is smaller or has ended. */
  predicate SmallerAt(a: string, b: string, i: nat) {
    i <= |a| && i < |b| && a[..i] == b[..i] && (i == |a| || a[i] < b[i])
  }

  lemma {:induction false} LessByFirstDifference(a: string, b: string)
    ensures Less(a, b) <==> exists i: nat :: SmallerAt(a, b, i)
  {
    if b == "" {
    } else if a == "" || a[0] < b[0] {
      assert SmallerAt(a, b, 0);
    } else if a[0] == b[0] {
      LessByFirstDifference(a[1..], b[1..]);
      if Less(a, b) {
        var i: nat :| SmallerAt(a[1..], b[1..], i);
        assert a[..i + 1] == [a[0]] + a[1..][..i] && b[..i + 1] == [b[0]] + b[1..][..i];
        assert SmallerAt(a, b, i + 1);
      } else {
        forall i: nat | SmallerAt(a, b, i) ensures SmallerAt(a[1..], b[1..], i - 1) {
          assert i > 0 && a[1..][..i - 1] == a[..i][1..] && b[1..][..i - 1] == b[..i][1..];
        }
      }
    } else {
      forall i: nat ensures !SmallerAt(a, b, i) {
        if i > 0 { FirstShared(a, b, i); }
      }
    }
  }

  lemma FirstShared(a: string, b: string, i: nat)
    requires i > 0
    ensures SmallerAt(a, b, i) ==> a[0] == b[0]
  {
    if SmallerAt(a, b, i) { assert a[..i][0] == b[..i][0]; }
  }

  /** The position of the first `c` in `s`, as `strings.IndexByte`, or the length. */
  function IndexOf(s: string, c: char): (i: nat)
    ensures i <= |s|
    ensures c !in s[..i]
    ensures i < |s| ==> s[i] == c
  {
    if s == "" || s[0] == c then 0
    else
      var rest := IndexOf(s[1..], c);
      assert s[..rest + 1] == [s[0]] + s[1..][..rest];
      rest + 1
  }

  /** The first occurrence is the only position of `c` with no `c` before it. */
  lemma {:induction false} IndexOfFirst(s: string, c: char, i: nat)
    requires i < |s| && s[i] == c && c !in s[..i]
    ensures IndexOf(s, c) == i
  {
  }
}
