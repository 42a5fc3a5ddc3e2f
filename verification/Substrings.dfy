/** Finding a marker inside a text. */
module Substrings {

  predicate StartsAt(text: string, token: string, i: nat) {
    i + |token| <= |text| && text[i..i + |token|] == token
  }

  /** `token` opens with a character that occurs nowhere else in it. */
  ghost predicate OpensUniquely(token: string) {
    |token| > 0 && forall i :: 0 < i < |token| ==> token[i] != token[0]
  }

  lemma ShiftStart(text: string, token: string, s: nat, i: nat)
    requires s <= |text|
    ensures StartsAt(text[s..], token, i) <==> StartsAt(text, token, s + i)
  {
    if s + i + |token| <= |text| {
      assert text[s..][i..i + |token|] == text[s + i..s + i + |token|];
    }
  }

  /** Such a token cannot begin in `t` and end in what follows, if that opens like a token. */
  lemma NoStraddle(t: string, rest: string, token: string, i: nat)
    requires OpensUniquely(token) && i < |t| && !StartsAt(t, token, i)
    requires rest == "" || rest[0] == token[0]
    ensures !StartsAt(t + rest, token, i)
  {
    if i + |token| <= |t| {
      assert (t + rest)[i..i + |token|] == t[i..i + |token|];
    } else if i + |token| <= |t + rest| {
      var slice := (t + rest)[i..i + |token|];
      assert slice[|t| - i] == (t + rest)[|t|] == rest[0];
      assert token[|t| - i] != token[0];
    }
  }

  // ---------------------------------------------------------------- separators

  ghost predicate Without(s: string, c: char) {
    forall i :: 0 <= i < |s| ==> s[i] != c
  }

  /** The first `c` separates. */
  lemma CutAtFirst(c: char, a: string, x: string, b: string, y: string)
    requires Without(a, c) && Without(b, c) && a + [c] + x == b + [c] + y
    ensures a == b && x == y
  {
    var s, t := a + [c] + x, b + [c] + y;
    assert s[|a|] == c && t[|b|] == c;
    assert forall i :: 0 <= i < |a| ==> s[i] == a[i];
    assert forall i :: 0 <= i < |b| ==> t[i] == b[i];
    assert |a| == |b|;
    assert a == s[..|a|] && b == t[..|b|];
    assert x == s[|a| + 1..] && y == t[|b| + 1..];
  }

  /** The last `c` separates. */
  lemma CutAtLast(c: char, a: string, x: string, b: string, y: string)
    requires Without(x, c) && Without(y, c) && a + [c] + x == b + [c] + y
    ensures a == b && x == y
  {
    var s, t := a + [c] + x, b + [c] + y;
    assert s[|a|] == c && t[|b|] == c;
    assert forall i :: |a| < i < |s| ==> s[i] == x[i - |a| - 1];
    assert forall i :: |b| < i < |t| ==> t[i] == y[i - |b| - 1];
    assert |a| == |b|;
    assert a == s[..|a|] && b == t[..|b|];
    assert x == s[|a| + 1..] && y == t[|b| + 1..];
  }
}
