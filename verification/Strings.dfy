/** C strings as the server reads them: up to the first NUL, and token by token. */
module Strings {
  import opened Bytes

  datatype Option<+T> = None | Some(value: T)

  /** The text a C string function sees: everything before the first NUL. */
  function CString(s: seq<byte>): (t: seq<byte>)
    ensures |t| <= |s| && t == s[..|t|]
    ensures 0 !in t && (|t| < |s| ==> s[|t|] == 0)
  {
    if s == [] || s[0] == 0 then [] else [s[0]] + CString(s[1..])
  }

  lemma {:induction false} CStringOfText(s: seq<byte>)
    requires 0 !in s
    ensures CString(s) == s
  {
    if s != [] {
      CStringOfText(s[1..]);
    }
  }

  /** A NUL hides whatever follows it. */
  lemma {:induction false} CStringStops(s: seq<byte>, rest: seq<byte>)
    requires 0 in s
    ensures CString(s + rest) == CString(s) && |CString(s)| < |s|
  {
    assert (s + rest)[0] == s[0];
    if s[0] != 0 {
      assert (s + rest)[1..] == s[1..] + rest;
      assert s == [s[0]] + s[1..];
      CStringStops(s[1..], rest);
    }
  }

  /** The length of the token that starts s; an empty one when s starts with the separator. */
  function TokenLen(s: seq<byte>, separator: byte): (n: nat)
    ensures n <= |s| && separator !in s[..n] && (n < |s| ==> s[n] == separator)
  {
    if s == [] || s[0] == separator then 0 else 1 + TokenLen(s[1..], separator)
  }

  lemma {:induction false} TokenOf(a: seq<byte>, rest: seq<byte>, separator: byte)
    requires separator !in a && (rest == [] || rest[0] == separator)
    ensures TokenLen(a + rest, separator) == |a|
  {
    if a != [] {
      assert (a + rest)[1..] == a[1..] + rest;
      TokenOf(a[1..], rest, separator);
    } else {
      assert a + rest == rest;
    }
  }
}
