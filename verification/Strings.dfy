/** The Python string operations the components rely on. */
module Strings {

  /** `str.isspace` on one character. */
  predicate IsSpace(c: char) {
    || c == ' ' || '\t' <= c <= '\r' || '\U{1c}' <= c <= '\U{1f}' || c == '\U{85}' || c == '\U{a0}'
    || c == '\U{1680}' || '\U{2000}' <= c <= '\U{200a}' || c == '\U{2028}' || c == '\U{2029}'
    || c == '\U{202f}' || c == '\U{205f}' || c == '\U{3000}'
  }

  function StripLeft(s: string): string { if s != "" && IsSpace(s[0]) then StripLeft(s[1..]) else s }

  function StripRight(s: string): string {
    if s != "" && IsSpace(s[|s| - 1]) then StripRight(s[..|s| - 1]) else s
  }

  function Strip(s: string): string { StripRight(StripLeft(s)) }

  lemma {:induction false} StripLeftExactly(s: string)
    ensures var n := |s| - |StripLeft(s)|;
      && 0 <= n && StripLeft(s) == s[n..] && (forall i :: 0 <= i < n ==> IsSpace(s[i]))
      && (n < |s| ==> !IsSpace(s[n]))
  {
    if s != "" && IsSpace(s[0]) { StripLeftExactly(s[1..]); }
  }

  lemma {:induction false} StripRightExactly(s: string)
    ensures var n := |StripRight(s)|;
      && n <= |s| && StripRight(s) == s[..n] && (forall i :: n <= i < |s| ==> IsSpace(s[i]))
      && (n > 0 ==> !IsSpace(s[n - 1]))
  {
    if s != "" && IsSpace(s[|s| - 1]) { StripRightExactly(s[..|s| - 1]); } else { assert s[..|s|] == s; }
  }

  /** What is left neither begins nor ends with a space, and only spaces around it are gone. */
  lemma StripExactly(s: string)
    ensures exists m, n ::
      && 0 <= m <= n <= |s| && Strip(s) == s[m..n]
      && (forall i :: 0 <= i < m || n <= i < |s| ==> IsSpace(s[i]))
      && (m < n ==> !IsSpace(s[m]) && !IsSpace(s[n - 1]))
  {
    var left := StripLeft(s);
    StripLeftExactly(s);
    StripRightExactly(left);
    var m := |s| - |left|;
    var n := m + |Strip(s)|;
    assert s[m..n] == Strip(s);
    forall i | n <= i < |s| ensures IsSpace(s[i]) { assert s[i] == left[i - m]; }
  }

  /** `part in text`. */
  predicate Contains(text: string, part: string) {
    part <= text || (text != "" && Contains(text[1..], part))
  }

  lemma {:induction false} ContainsExactly(text: string, part: string)
    ensures Contains(text, part) <==> exists i :: 0 <= i <= |text| && part <= text[i..]
  {
    if text != "" {
      ContainsExactly(text[1..], part);
      if Contains(text[1..], part) {
        var i :| 0 <= i <= |text[1..]| && part <= text[1..][i..];
        assert text[1..][i..] == text[i + 1..];
      }
      if i :| 0 < i <= |text| && part <= text[i..] {
        assert text[1..][i - 1..] == text[i..];
      }
      assert text[0..] == text;
    } else {
      assert text[0..] == text;
    }
  }

  /** `fold` is the character map of `str.casefold`. */
  function Casefold(fold: char -> string, text: string): string {
    if text == "" then "" else fold(text[0]) + Casefold(fold, text[1..])
  }

  /** Position of the first `c`, or the length if there is none. */
  function IndexOf(s: string, c: char): (i: nat)
    ensures i <= |s| && (i < |s| ==> s[i] == c) && c !in s[..i]
  {
    if s == "" || s[0] == c then 0
    else
      var i := IndexOf(s[1..], c) + 1;
      assert s[..i] == [s[0]] + s[1..][..i - 1];
      i
  }

  /** `s.split(c)`. */
  function Split(s: string, c: char): (parts: seq<string>)
    ensures parts != []
    decreases |s|
  {
    var i := IndexOf(s, c);
    if i == |s| then [s] else [s[..i]] + Split(s[i + 1..], c)
  }

  function Join(parts: seq<string>, c: char): string
    requires parts != []
  {
    if |parts| == 1 then parts[0] else parts[0] + [c] + Join(parts[1..], c)
  }

  lemma IndexOfFirst(a: string, c: char, b: string)
    requires c !in a
    ensures IndexOf(a + [c] + b, c) == |a|
    ensures IndexOf(a, c) == |a|
  {
    var s := a + [c] + b;
    var i := IndexOf(s, c);
    assert s[|a|] == c && forall k :: 0 <= k < |a| ==> s[k] == a[k] && a[k] in a;
    assert forall k :: 0 <= k < i ==> s[k] in s[..i];
  }

  lemma {:induction false} SplitJoin(parts: seq<string>, c: char)
    requires parts != [] && forall p :: p in parts ==> c !in p
    ensures Split(Join(parts, c), c) == parts
  {
    assert parts[0] in parts;
    if |parts| == 1 {
      IndexOfFirst(parts[0], c, "");
      assert parts == [parts[0]];
    } else {
      var rest := Join(parts[1..], c);
      IndexOfFirst(parts[0], c, rest);
      SplitJoin(parts[1..], c);
      var s := parts[0] + [c] + rest;
      assert s[..|parts[0]|] == parts[0] && s[|parts[0]| + 1..] == rest;
      assert parts == [parts[0]] + parts[1..];
    }
  }

  /** Nothing is lost by a split. */
  lemma {:induction false} JoinSplit(s: string, c: char)
    ensures Join(Split(s, c), c) == s
    decreases |s|
  {
    var i := IndexOf(s, c);
    if i < |s| {
      JoinSplit(s[i + 1..], c);
      assert Split(s, c)[1..] == Split(s[i + 1..], c);
      assert s == s[..i] + [c] + s[i + 1..];
    }
  }

  /** No piece of a split contains the separator. */
  lemma {:induction false} SplitPieces(s: string, c: char)
    ensures forall p :: p in Split(s, c) ==> c !in p
    decreases |s|
  {
    var i := IndexOf(s, c);
    if i == |s| {
      assert s[..i] == s;
    } else {
      SplitPieces(s[i + 1..], c);
    }
  }

  /** Folding goes character by character. */
  lemma {:induction false} CasefoldConcat(fold: char -> string, a: string, b: string)
    ensures Casefold(fold, "") == "" && forall c :: Casefold(fold, [c]) == fold(c)
    ensures Casefold(fold, a + b) == Casefold(fold, a) + Casefold(fold, b)
  {
    if a == "" {
      assert a + b == b;
    } else {
      CasefoldConcat(fold, a[1..], b);
      assert (a + b)[1..] == a[1..] + b && (a + b)[0] == a[0];
    }
  }
}
