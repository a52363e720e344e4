/** The searches of the C library's <string.h>, on strings as sequences. */
module Strings {

  const NUL: char := '\0'

  /** The place of the first c, |s| when there is none: `strchr`, and `strlen` for
      the terminator. */
  function FirstOf(s: seq<char>, c: char): (n: nat)
    ensures n <= |s| && (n < |s| ==> s[n] == c)
  {
    if s == [] || s[0] == c then 0 else FirstOf(s[1..], c) + 1
  }

  lemma {:induction false} NoneBefore(s: seq<char>, c: char)
    ensures c !in s[..FirstOf(s, c)]
  {
    if s != [] && s[0] != c {
      var n := FirstOf(s[1..], c);
      assert FirstOf(s, c) == n + 1;
      NoneBefore(s[1..], c);
      hide FirstOf;
      assert s[..n + 1] == [s[0]] + s[1..][..n];
    }
  }

  lemma FirstOfNone(s: seq<char>, c: char)
    ensures FirstOf(s, c) == |s| <==> c !in s
  {
    NoneBefore(s, c);
    if FirstOf(s, c) == |s| {
      assert s[..|s|] == s;
    }
  }

  lemma {:induction false} FirstOfIs(s: seq<char>, c: char, n: nat)
    requires n <= |s| && c !in s[..n] && (n < |s| ==> s[n] == c)
    ensures FirstOf(s, c) == n
  {
    if n > 0 {
      assert s[..n][0] == s[0];
      assert s[1..][..n - 1] == s[..n][1..];
      FirstOfIs(s[1..], c, n - 1);
    }
  }

  /** The place of the last c, -1 when there is none: `strrchr`. */
  function LastOf(s: seq<char>, c: char): (n: int)
    ensures -1 <= n < |s| && (n >= 0 ==> s[n] == c)
  {
    if s == [] then -1
    else if s[|s| - 1] == c then |s| - 1
    else LastOf(s[..|s| - 1], c)
  }

  lemma OneLonger(s: seq<char>, c: char, n: nat)
    requires s != [] && s[|s| - 1] != c && n < |s| && c !in s[..|s| - 1][n..]
    ensures c !in s[n..]
  {
    assert s[n..] == s[..|s| - 1][n..] + [s[|s| - 1]];
  }

  lemma {:induction false} NoneBehind(s: seq<char>, c: char)
    ensures c !in s[LastOf(s, c) + 1..]
  {
    if s != [] && s[|s| - 1] != c {
      var front := s[..|s| - 1];
      NoneBehind(front, c);
      OneLonger(s, c, LastOf(front, c) + 1);
    }
  }

  lemma LastOfNone(s: seq<char>, c: char)
    ensures LastOf(s, c) == -1 <==> c !in s
  {
    NoneBehind(s, c);
    if LastOf(s, c) == -1 {
      assert s[0..] == s;
    }
  }

  lemma {:induction false} LastOfIs(s: seq<char>, c: char, n: nat)
    requires n < |s| && s[n] == c && c !in s[n + 1..]
    ensures LastOf(s, c) == n
  {
    var k := |s| - 1;
    if n < k {
      assert s[n + 1..][k - n - 1] == s[k];
      assert s[..k][n + 1..] == s[n + 1..][..k - n - 1];
      LastOfIs(s[..k], c, n);
    }
  }

  /** The string at the start of some bytes. */
  function CString(bytes: seq<char>): (s: string)
    ensures NUL !in s && s <= bytes
    ensures |s| < |bytes| ==> bytes[|s|] == NUL
  {
    NoneBefore(bytes, NUL);
    bytes[..FirstOf(bytes, NUL)]
  }

  lemma CStringIs(bytes: seq<char>, s: string)
    requires NUL !in s && s + [NUL] <= bytes
    ensures CString(bytes) == s
  {
    assert bytes[|s|] == (s + [NUL])[|s|];
    FirstOfIs(bytes, NUL, |s|);
  }

  /** Bytes that agree with a string up to a terminator hold that part of it. */
  lemma CutString(bytes: seq<char>, s: string, from: nat, to: nat)
    requires NUL !in s && from <= to <= |s| && to < |bytes| && bytes[to] == NUL && bytes[from..to] == s[from..to]
    ensures CString(bytes[from..]) == s[from..to]
  {
    CStringIs(bytes[from..], s[from..to]);
  }
}
