/**
 * The two functions of Go's `strings` package that the filter and docs code
 * relies on: `TrimSpace` and `Index`. Strings are sequences of Unicode code
 * points.
 */
module Text {

  /** White space as Go's `unicode.IsSpace` defines it. */
  predicate IsSpace(c: char) {
    || ('\U{0009}' <= c <= '\U{000D}')
    || c == ' '
    || c == '\U{0085}'
    || c == '\U{00A0}'
    || c == '\U{1680}'
    || ('\U{2000}' <= c <= '\U{200A}')
    || c == '\U{2028}'
    || c == '\U{2029}'
    || c == '\U{202F}'
    || c == '\U{205F}'
    || c == '\U{3000}'
  }

  predicate AllSpace(s: string) {
    forall i :: 0 <= i < |s| ==> IsSpace(s[i])
  }

  /**
   * Go's `strings.TrimSpace`: `s` without its leading and trailing white
   * space. It is empty exactly when `s` is all white space, and otherwise
   * starts and ends with a character that is not white space.
   */
  function TrimSpace(s: string): (r: string)
    ensures |r| <= |s|
    ensures r == [] <==> AllSpace(s)
    ensures r != [] ==> !IsSpace(r[0]) && !IsSpace(r[|r| - 1])
  {
    if |s| > 0 && IsSpace(s[0]) then TrimSpace(s[1..])
    else if |s| > 0 && IsSpace(s[|s| - 1]) then TrimSpace(s[..|s| - 1])
    else s
  }

  /** `r` is `s[a..a + |r|]`, and everything of `s` around it is white space. */
  predicate TrimmedAt(s: string, r: string, a: int) {
    && 0 <= a && a + |r| <= |s|
    && r == s[a..a + |r|]
    && AllSpace(s[..a])
    && AllSpace(s[a + |r|..])
  }

  lemma AllSpaceConcat(x: string, y: string)
    requires AllSpace(x) && AllSpace(y)
    ensures AllSpace(x + y)
  {
    assert forall i :: 0 <= i < |x + y| ==> (x + y)[i] == if i < |x| then x[i] else y[i - |x|];
  }

  /** Trimming after dropping a leading space: the trimmed part moves one place to the right. */
  lemma TrimmedAtDropFirst(s: string, r: string, a: int)
    requires |s| > 0 && IsSpace(s[0]) && TrimmedAt(s[1..], r, a)
    ensures TrimmedAt(s, r, a + 1)
  {
    assert s[1..][a..a + |r|] == s[a + 1..a + 1 + |r|];
    AllSpaceConcat([s[0]], s[1..][..a]);
    assert s[..a + 1] == [s[0]] + s[1..][..a];
    assert s[a + 1 + |r|..] == s[1..][a + |r|..];
  }

  /** Trimming after dropping a trailing space: the trimmed part stays where it was. */
  lemma TrimmedAtDropLast(s: string, r: string, a: int)
    requires |s| > 0 && IsSpace(s[|s| - 1]) && TrimmedAt(s[..|s| - 1], r, a)
    ensures TrimmedAt(s, r, a)
  {
    var t := s[..|s| - 1];
    assert t[a..a + |r|] == s[a..a + |r|];
    assert s[..a] == t[..a];
    AllSpaceConcat(t[a + |r|..], [s[|s| - 1]]);
    assert s[a + |r|..] == t[a + |r|..] + [s[|s| - 1]];
  }

  /** `TrimSpace` removes only white space, and only at the two ends. */
  lemma {:induction false} TrimSpaceShape(s: string)
    ensures exists a :: TrimmedAt(s, TrimSpace(s), a)
  {
    var r := TrimSpace(s);
    if |s| > 0 && IsSpace(s[0]) {
      TrimSpaceShape(s[1..]);
      var a :| TrimmedAt(s[1..], r, a);
      TrimmedAtDropFirst(s, r, a);
    } else if |s| > 0 && IsSpace(s[|s| - 1]) {
      TrimSpaceShape(s[..|s| - 1]);
      var a :| TrimmedAt(s[..|s| - 1], r, a);
      TrimmedAtDropLast(s, r, a);
    } else {
      assert TrimmedAt(s, r, 0);
    }
  }

  /** `sub` occurs in `s` starting at index `i`. */
  predicate OccursAt(s: string, sub: string, i: int) {
    0 <= i && i + |sub| <= |s| && s[i..i + |sub|] == sub
  }

  /** Go's `strings.Contains`. */
  predicate Contains(s: string, sub: string) {
    exists i | 0 <= i <= |s| - |sub| :: OccursAt(s, sub, i)
  }

  /** Occurrences in the tail of `s` are the occurrences in `s` shifted by one. */
  lemma OccursInTail(s: string, sub: string)
    requires |s| > 0
    ensures forall i :: 1 <= i ==> (OccursAt(s, sub, i) <==> OccursAt(s[1..], sub, i - 1))
  {
    forall i | 1 <= i ensures OccursAt(s, sub, i) <==> OccursAt(s[1..], sub, i - 1) {
      if i + |sub| <= |s| {
        assert s[1..][i - 1..i - 1 + |sub|] == s[i..i + |sub|];
      }
    }
  }

  /**
   * Go's `strings.Index`: the index of the first occurrence of `sub` in `s`,
   * or -1 when there is none.
   */
  function IndexOf(s: string, sub: string): (r: int)
    ensures r == -1 ==> forall i :: !OccursAt(s, sub, i)
    ensures r != -1 ==> OccursAt(s, sub, r)
    ensures forall i :: 0 <= i < r ==> !OccursAt(s, sub, i)
    decreases |s|
  {
    if |s| < |sub| then -1
    else if s[..|sub|] == sub then 0
    else
      OccursInTail(s, sub);
      var k := IndexOf(s[1..], sub);
      if k == -1 then -1 else k + 1
  }

  /** `IndexOf` finds something exactly when `sub` occurs in `s`. */
  lemma IndexOfFinds(s: string, sub: string)
    ensures IndexOf(s, sub) == -1 <==> !Contains(s, sub)
    ensures IndexOf(s, sub) != -1 ==> 0 <= IndexOf(s, sub) <= |s| - |sub|
  {
    if IndexOf(s, sub) != -1 {
      assert OccursAt(s, sub, IndexOf(s, sub));
    }
  }

  /** An occurrence inside a prefix of `s` is an occurrence in `s` that ends within the prefix. */
  lemma OccursInPrefix(s: string, e: nat, sub: string, i: int)
    requires e <= |s|
    requires OccursAt(s[..e], sub, i)
    ensures OccursAt(s, sub, i) && i + |sub| <= e
  {
    assert s[..e][i..i + |sub|] == s[i..i + |sub|];
  }

  /**
   * A prefix of `s` that ends at or before the first occurrence of a
   * non-empty `sub` does not contain `sub`.
   */
  lemma PrefixBeforeOccurrence(s: string, e: nat, sub: string)
    requires e <= |s| && |sub| > 0
    requires forall i :: 0 <= i < e ==> !OccursAt(s, sub, i)
    ensures !Contains(s[..e], sub)
  {
    if Contains(s[..e], sub) {
      var i :| OccursAt(s[..e], sub, i);
      OccursInPrefix(s, e, sub, i);
      assert false;
    }
  }
}
