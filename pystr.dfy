/**
 * The three Python string operations the assistant relies on:
 * `str.lower()`, `str.strip()` and the substring test `p in s`.
 */
module PyStr {

  /** The characters for which Python's `str.isspace()` holds; `str.strip()` removes these. */
  predicate IsSpace(c: char)
  {
    || c == ' '
    || ('\t' <= c <= '\r')
    || ('\U{1C}' <= c <= '\U{1F}')
    || c == '\U{85}' || c == '\U{A0}' || c == '\U{1680}'
    || ('\U{2000}' <= c <= '\U{200A}')
    || c == '\U{2028}' || c == '\U{2029}' || c == '\U{202F}' || c == '\U{205F}' || c == '\U{3000}'
  }

  predicate IsUpper(c: char)
  {
    'A' <= c <= 'Z'
  }

  function LowerChar(c: char): (r: char)
    ensures !IsUpper(r)
    ensures IsSpace(r) <==> IsSpace(c)
    ensures !IsUpper(c) ==> r == c
  {
    if IsUpper(c) then (c as int - 'A' as int + 'a' as int) as char else c
  }

  /** No character of `s` is an upper-case letter. */
  predicate NoUpper(s: string)
  {
    forall i :: 0 <= i < |s| ==> !IsUpper(s[i])
  }

  /** `s` neither begins nor ends with whitespace. */
  predicate Stripped(s: string)
  {
    s == [] || (!IsSpace(s[0]) && !IsSpace(s[|s| - 1]))
  }

  /** `str.lower()`, on the ASCII letters. */
  function Lower(s: string): (r: string)
    ensures |r| == |s| && NoUpper(r)
    ensures NoUpper(s) ==> r == s
    ensures forall i :: 0 <= i < |s| ==> (IsSpace(r[i]) <==> IsSpace(s[i]))
  {
    seq(|s|, i requires 0 <= i < |s| => LowerChar(s[i]))
  }

  /** Drops the leading whitespace of `s`, and nothing else. */
  function TrimStart(s: string): (r: string)
    ensures |r| <= |s| && r == s[|s| - |r|..]
    ensures r == [] || !IsSpace(r[0])
    ensures forall i :: 0 <= i < |s| - |r| ==> IsSpace(s[i])
  {
    if |s| > 0 && IsSpace(s[0]) then TrimStart(s[1..]) else s
  }

  /** Drops the trailing whitespace of `s`, and nothing else. */
  function TrimEnd(s: string): (r: string)
    ensures |r| <= |s| && r == s[..|r|]
    ensures r == [] || !IsSpace(r[|r| - 1])
    ensures forall i :: |r| <= i < |s| ==> IsSpace(s[i])
  {
    if |s| > 0 && IsSpace(s[|s| - 1]) then TrimEnd(s[..|s| - 1]) else s
  }

  /** `s[a..b]` is `s` with leading and trailing whitespace only cut off. */
  predicate StripsTo(s: string, a: int, b: int)
  {
    && 0 <= a <= b <= |s|
    && (forall i :: 0 <= i < a ==> IsSpace(s[i]))
    && (forall i :: b <= i < |s| ==> IsSpace(s[i]))
  }

  /** `str.strip()`: the result has no whitespace at either end, is a piece of `s`,
      and a string that is already stripped comes back unchanged. */
  function Strip(s: string): (r: string)
    ensures Stripped(r)
    ensures exists a, b :: StripsTo(s, a, b) && r == s[a..b]
    ensures |r| <= |s|
    ensures NoUpper(s) ==> NoUpper(r)
    ensures Stripped(s) ==> r == s
  {
    TrimBoth(s);
    StripIsPiece(s);
    TrimEnd(TrimStart(s))
  }

  lemma StripIsPiece(s: string)
    ensures exists a, b :: StripsTo(s, a, b) && TrimEnd(TrimStart(s)) == s[a..b]
  {
    var t := TrimStart(s);
    var r := TrimEnd(t);
    PieceOfPiece(s, t, r);
    assert StripsTo(s, |s| - |t|, |s| - |t| + |r|);
  }

  /** Cutting leading whitespace off `s` to get `t`, then trailing whitespace off `t`
      to get `r`, cuts only leading and trailing whitespace off `s`. */
  lemma PieceOfPiece(s: string, t: string, r: string)
    requires |t| <= |s| && t == s[|s| - |t|..]
    requires forall i :: 0 <= i < |s| - |t| ==> IsSpace(s[i])
    requires |r| <= |t| && r == t[..|r|]
    requires forall i :: |r| <= i < |t| ==> IsSpace(t[i])
    ensures StripsTo(s, |s| - |t|, |s| - |t| + |r|)
    ensures r == s[|s| - |t|..|s| - |t| + |r|]
  {
    var a := |s| - |t|;
    SliceOfSlice(s, a, |r|);
    forall i | a + |r| <= i < |s| ensures IsSpace(s[i]) {
      assert s[i] == t[i - a];
    }
  }

  lemma TrimBoth(s: string)
    ensures var r := TrimEnd(TrimStart(s));
      && Stripped(r)
      && (NoUpper(s) ==> NoUpper(r))
      && (Stripped(s) ==> r == s)
  {
    var t := TrimStart(s);
    var r := TrimEnd(t);
    if r != [] {
      assert t[0] == r[0];
    }
    if NoUpper(s) {
      assert NoUpper(t) by { NoUpperSlice(s, |s| - |t|, |s|); }
      NoUpperSlice(t, 0, |r|);
    }
    if Stripped(s) && s != [] {
      assert |t| == |s|;
      assert |r| == |t|;
    }
  }

  lemma SliceOfSlice(s: string, a: nat, n: nat)
    requires a + n <= |s|
    ensures s[a..][..n] == s[a..a + n]
  {
  }

  lemma NoUpperSlice(s: string, a: nat, b: nat)
    requires a <= b <= |s| && NoUpper(s)
    ensures NoUpper(s[a..b])
  {
    assert forall i :: 0 <= i < b - a ==> s[a..b][i] == s[a + i];
  }

  /** Python's `p in s`: `p` occurs as a contiguous piece of `s`. */
  predicate Contains(s: string, p: string)
    decreases |s|
  {
    |p| <= |s| && (s[..|p|] == p || Contains(s[1..], p))
  }

  /** `p` occurs in `s` starting at index `i`. */
  predicate OccursAt(s: string, p: string, i: int)
  {
    0 <= i <= |s| - |p| && s[i..i + |p|] == p
  }

  /** `Contains` finds `p` exactly when it occurs somewhere in `s`. */
  lemma {:induction false} ContainsIff(s: string, p: string)
    ensures Contains(s, p) <==> exists i :: OccursAt(s, p, i)
    decreases |s|
  {
    if |p| <= |s| && s[..|p|] != p {
      ContainsIff(s[1..], p);
      if exists i :: OccursAt(s, p, i) {
        var i :| OccursAt(s, p, i);
        assert i != 0;
        assert OccursAt(s[1..], p, i - 1);
      }
      if Contains(s[1..], p) {
        var i :| OccursAt(s[1..], p, i);
        assert OccursAt(s, p, i + 1);
      }
    } else if |p| <= |s| {
      assert OccursAt(s, p, 0);
    }
  }

  /** A string lacking the first character of a non-empty `p` does not contain `p`. */
  lemma {:induction false} MissingFirstNotContained(s: string, p: string)
    requires p != [] && p[0] !in s
    ensures !Contains(s, p)
    decreases |s|
  {
    if |p| <= |s| {
      assert s[0] != p[0];
      MissingFirstNotContained(s[1..], p);
    }
  }
}
