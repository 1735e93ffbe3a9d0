/**
 * Email normalisation, `normalize.Email(e) = strings.ToLower(strings.TrimSpace(e))`.
 * Whitespace is Go's `unicode.IsSpace`; lower-casing is modelled for ASCII letters only.
 */
module Normalize {

  /** The characters Go's `unicode.IsSpace` reports as white space. */
  predicate IsSpace(c: char) {
    || c == ' ' || c == '\t' || c == '\n' || c == '\U{000B}' || c == '\U{000C}' || c == '\r'
    || c == '\U{0085}' || c == '\U{00A0}' || c == '\U{1680}'
    || ('\U{2000}' <= c <= '\U{200A}')
    || c == '\U{2028}' || c == '\U{2029}' || c == '\U{202F}' || c == '\U{205F}' || c == '\U{3000}'
  }

  predicate IsUpper(c: char) {
    'A' <= c <= 'Z'
  }

  /** `unicode.ToLower` restricted to ASCII letters. */
  function LowerChar(c: char): (r: char)
    ensures !IsUpper(r)
    ensures IsSpace(r) <==> IsSpace(c)
    ensures IsUpper(c) ==> r as int == c as int + 32
    ensures !IsUpper(c) ==> r == c
  {
    if IsUpper(c) then (c as int + 32) as char else c
  }

  /** `strings.TrimLeftFunc(s, unicode.IsSpace)`: the suffix left after dropping leading white space. */
  function TrimLeft(s: string): (r: string)
    ensures |r| <= |s| && r == s[|s| - |r|..]
    ensures forall k :: 0 <= k < |s| - |r| ==> IsSpace(s[k])
    ensures r != [] ==> !IsSpace(r[0])
  {
    if s != [] && IsSpace(s[0]) then TrimLeft(s[1..]) else s
  }

  /** `strings.TrimRightFunc(s, unicode.IsSpace)`: the prefix left after dropping trailing white space. */
  function TrimRight(s: string): (r: string)
    ensures |r| <= |s| && r == s[..|r|]
    ensures forall k :: |r| <= k < |s| ==> IsSpace(s[k])
    ensures r != [] ==> !IsSpace(r[|r| - 1])
  {
    if s != [] && IsSpace(s[|s| - 1]) then TrimRight(s[..|s| - 1]) else s
  }

  /** `strings.TrimSpace` */
  function TrimSpace(s: string): string {
    TrimRight(TrimLeft(s))
  }

  /** `strings.ToLower`, ASCII letters only. */
  function ToLower(s: string): (r: string)
    ensures |r| == |s|
    ensures forall k :: 0 <= k < |s| ==> r[k] == LowerChar(s[k])
  {
    seq(|s|, k requires 0 <= k < |s| => LowerChar(s[k]))
  }

  /** `normalize.Email` */
  function Email(e: string): string {
    ToLower(TrimSpace(e))
  }

  /** A string with no surrounding white space. */
  predicate Trimmed(s: string) {
    s == [] || (!IsSpace(s[0]) && !IsSpace(s[|s| - 1]))
  }

  /**
   * The independent description of TrimSpace: it is the slice s[i..j] obtained by
   * cutting all-white-space ends off at the first and last non-space characters.
   */
  lemma {:induction false} TrimLeftIsUnique(s: string, i: nat)
    requires i <= |s|
    requires forall k :: 0 <= k < i ==> IsSpace(s[k])
    requires i == |s| || !IsSpace(s[i])
    ensures TrimLeft(s) == s[i..]
  {
    if i > 0 {
      TrimLeftIsUnique(s[1..], i - 1);
      assert s[1..][i - 1..] == s[i..];
    }
  }

  lemma {:induction false} TrimRightIsUnique(s: string, j: nat)
    requires j <= |s|
    requires forall k :: j <= k < |s| ==> IsSpace(s[k])
    requires j == 0 || !IsSpace(s[j - 1])
    ensures TrimRight(s) == s[..j]
  {
    if j < |s| {
      TrimRightIsUnique(s[..|s| - 1], j);
      assert s[..|s| - 1][..j] == s[..j];
    }
  }

  /** Trimming an already trimmed string changes nothing. */
  lemma TrimSpaceOfTrimmed(s: string)
    requires Trimmed(s)
    ensures TrimSpace(s) == s
  {
    TrimLeftIsUnique(s, 0);
    TrimRightIsUnique(s, |s|);
  }

  /** TrimSpace returns the middle slice between maximal white-space ends. */
  lemma TrimSpaceIsSlice(s: string) returns (i: nat, j: nat)
    ensures i <= j <= |s| && TrimSpace(s) == s[i..j]
    ensures forall k :: 0 <= k < i ==> IsSpace(s[k])
    ensures forall k :: j <= k < |s| ==> IsSpace(s[k])
    ensures Trimmed(TrimSpace(s))
  {
    var l := TrimLeft(s);
    var r := TrimRight(l);
    i := |s| - |l|;
    j := i + |r|;
    assert r == s[i..j] by {
      assert l == s[i..];
      assert r == l[..|r|];
    }
    assert forall k :: j <= k < |s| ==> IsSpace(s[k]) by {
      forall k | j <= k < |s|
        ensures IsSpace(s[k])
      {
        assert s[k] == l[k - i];
      }
    }
    assert Trimmed(r) by {
      if r != [] {
        assert r[0] == l[0];
      }
    }
  }

  /** Email is idempotent: a normalised address is its own normal form. */
  lemma EmailIdempotent(e: string)
    ensures Email(Email(e)) == Email(e)
  {
    var t := TrimSpace(e);
    var _, _ := TrimSpaceIsSlice(e);
    var l := ToLower(t);
    assert Trimmed(l);
    TrimSpaceOfTrimmed(l);
    assert ToLower(l) == l;
  }

  /** The normal form has no surrounding white space and no upper-case ASCII letter. */
  lemma EmailShape(e: string)
    ensures Trimmed(Email(e))
    ensures forall k :: 0 <= k < |Email(e)| ==> !IsUpper(Email(e)[k])
  {
    var _, _ := TrimSpaceIsSlice(e);
  }

  /**
   * Apart from the white space cut off at both ends, Email keeps every character
   * in order and only lower-cases it.
   */
  lemma EmailKeepsInterior(e: string) returns (i: nat, j: nat)
    ensures i <= j <= |e|
    ensures Email(e) == ToLower(e[i..j])
    ensures forall k :: 0 <= k < i ==> IsSpace(e[k])
    ensures forall k :: j <= k < |e| ==> IsSpace(e[k])
  {
    i, j := TrimSpaceIsSlice(e);
  }

  /** White space around a trimmed string is exactly what TrimSpace removes. */
  lemma TrimSpacePadded(pre: string, t: string, post: string)
    requires forall k :: 0 <= k < |pre| ==> IsSpace(pre[k])
    requires forall k :: 0 <= k < |post| ==> IsSpace(post[k])
    requires Trimmed(t)
    ensures TrimSpace(pre + t + post) == t
  {
    var s := pre + t + post;
    if t == [] {
      assert forall k :: 0 <= k < |s| ==> IsSpace(s[k]) by {
        assert s == pre + post;
      }
      TrimLeftIsUnique(s, |s|);
      TrimRightIsUnique([], 0);
    } else {
      PaddedLeft(pre, t + post);
      assert s == pre + (t + post);
      PaddedRight(t, post);
    }
  }

  /** Leading white space in front of a string that starts with a non-space is what TrimLeft drops. */
  lemma PaddedLeft(pre: string, u: string)
    requires forall k :: 0 <= k < |pre| ==> IsSpace(pre[k])
    requires u != [] && !IsSpace(u[0])
    ensures TrimLeft(pre + u) == u
  {
    var s := pre + u;
    assert forall k :: 0 <= k < |pre| ==> s[k] == pre[k];
    assert s[|pre|] == u[0];
    TrimLeftIsUnique(s, |pre|);
    assert s[|pre|..] == u;
  }

  /** Trailing white space after a string that ends with a non-space is what TrimRight drops. */
  lemma PaddedRight(t: string, post: string)
    requires forall k :: 0 <= k < |post| ==> IsSpace(post[k])
    requires t != [] && !IsSpace(t[|t| - 1])
    ensures TrimRight(t + post) == t
  {
    var s := t + post;
    assert forall k :: |t| <= k < |s| ==> s[k] == post[k - |t|];
    assert s[|t| - 1] == t[|t| - 1];
    TrimRightIsUnique(s, |t|);
    assert s[..|t|] == t;
  }


  lemma ExampleTrimmed()
    ensures TrimSpace("  John.DOE@Example.COM  ") == "John.DOE@Example.COM"
  {
    var t := "John.DOE@Example.COM";
    assert "  John.DOE@Example.COM  " == "  " + t + "  ";
    TrimSpacePadded("  ", t, "  ");
  }

  lemma ExampleLowered()
    ensures ToLower("John.DOE@Example.COM") == "john.doe@example.com"
  {
  }

  /** The example from the unit test: surrounding blanks go, letters are lower-cased. */
  lemma EmailExample()
    ensures Email("  John.DOE@Example.COM  ") == "john.doe@example.com"
  {
    ExampleTrimmed();
    ExampleLowered();
  }
}
