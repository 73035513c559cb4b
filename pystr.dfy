/**
 * The handful of Python `str` operations the documentation server uses,
 * with Python's semantics for a single-character separator.
 */
module PyStr {

  /** `s.split(c)[0]`: the part of s before the first c, or all of s when c does not occur. */
  function Before(s: string, c: char): (r: string)
    ensures r <= s && c !in r
    ensures |r| < |s| ==> s[|r|] == c
    ensures c !in s ==> r == s
  {
    if s == [] || s[0] == c then [] else [s[0]] + Before(s[1..], c)
  }

  /** `sep.join(parts)`. */
  function Join(parts: seq<string>, sep: string): string
  {
    if parts == [] then ""
    else if |parts| == 1 then parts[0]
    else parts[0] + sep + Join(parts[1..], sep)
  }

  /** `s.split(c)`: the pieces between the occurrences of c, at least one of them. */
  function Split(s: string, c: char): (parts: seq<string>)
    ensures |parts| >= 1 && parts[0] == Before(s, c)
    ensures forall i :: 0 <= i < |parts| ==> c !in parts[i]
    ensures |parts| == 1 <==> c !in s
    decreases |s|
  {
    var head := Before(s, c);
    if |head| == |s| then [s]
    else
      assert c in s by { assert s[|head|] == c; }
      [head] + Split(s[|head| + 1..], c)
  }

  lemma JoinCons(head: string, rest: seq<string>, sep: string)
    requires |rest| >= 1
    ensures Join([head] + rest, sep) == head + sep + Join(rest, sep)
  {
    assert ([head] + rest)[1..] == rest;
  }

  lemma CutAt(s: string, head: string, c: char)
    requires head <= s && |head| < |s| && s[|head|] == c
    ensures s == head + [c] + s[|head| + 1..]
  {
    var k := |head|;
    assert s[..k] == head;
    assert s == s[..k] + s[k..];
    assert s[k..] == [c] + s[k + 1..];
  }

  /** Joining the pieces of a split with the separator gives back the original string. */
  lemma {:induction false} SplitJoin(s: string, c: char)
    ensures Join(Split(s, c), [c]) == s
    decreases |s|
  {
    var head := Before(s, c);
    if |head| < |s| {
      var tail := s[|head| + 1..];
      assert Split(s, c) == [head] + Split(tail, c);
      SplitJoin(tail, c);
      JoinCons(head, Split(tail, c), [c]);
      CutAt(s, head, c);
    }
  }

  /** The characters a strip removes: one given character, or Python's whitespace (no argument). */
  datatype CharClass = Only(c: char) | Whitespace
  {
    predicate Has(ch: char)
    {
      match this
      case Only(c) => ch == c
      case Whitespace => IsSpace(ch)
    }
  }

  /** `s.lstrip(chars)`: drops the longest prefix of characters in the class `cls`. */
  function LStrip(s: string, cls: CharClass): (r: string)
    ensures |r| <= |s| && r == s[|s| - |r|..]
    ensures r != [] ==> !cls.Has(r[0])
  {
    if s != [] && cls.Has(s[0]) then LStrip(s[1..], cls) else s
  }

  /** Every character lstrip drops is in the class. */
  lemma {:induction false} LStripDropsClass(s: string, cls: CharClass)
    ensures forall i :: 0 <= i < |s| - |LStrip(s, cls)| ==> cls.Has(s[i])
  {
    if s != [] && cls.Has(s[0]) {
      LStripDropsClass(s[1..], cls);
      forall i | 1 <= i < |s| - |LStrip(s, cls)|
        ensures cls.Has(s[i])
      {
        assert s[i] == s[1..][i - 1];
      }
    }
  }

  /** `s.rstrip(chars)`: drops the longest suffix of characters in the class `cls`. */
  function RStrip(s: string, cls: CharClass): (r: string)
    ensures |r| <= |s| && r == s[..|r|]
    ensures r != [] ==> !cls.Has(r[|r| - 1])
  {
    if s != [] && cls.Has(s[|s| - 1]) then RStrip(s[..|s| - 1], cls) else s
  }

  /** Every character rstrip drops is in the class. */
  lemma {:induction false} RStripDropsClass(s: string, cls: CharClass)
    ensures forall i :: |RStrip(s, cls)| <= i < |s| ==> cls.Has(s[i])
  {
    if s != [] && cls.Has(s[|s| - 1]) {
      RStripDropsClass(s[..|s| - 1], cls);
      forall i | |RStrip(s, cls)| <= i < |s| - 1
        ensures cls.Has(s[i])
      {
        assert s[i] == s[..|s| - 1][i];
      }
    }
  }

  /** r occurs in s as a contiguous piece. */
  predicate IsInfix(r: string, s: string)
  {
    exists i :: 0 <= i <= |s| && r <= s[i..]
  }

  lemma InfixTransitive(a: string, b: string, c: string)
    requires IsInfix(a, b) && IsInfix(b, c)
    ensures IsInfix(a, c)
  {
    var i :| 0 <= i <= |b| && a <= b[i..];
    var j :| 0 <= j <= |c| && b <= c[j..];
    assert a <= c[j + i..] by {
      forall k | 0 <= k < |a|
        ensures a[k] == c[j + i + k]
      {
        assert a[k] == b[i + k];
      }
    }
  }

  /** A character absent from s is absent from every piece of it. */
  lemma InfixExcludes(r: string, s: string, c: char)
    requires IsInfix(r, s) && c !in s
    ensures c !in r
  {
    var i :| 0 <= i <= |s| && r <= s[i..];
    assert r == s[i..][..|r|];
  }

  /**
   * `s.strip(chars)`: both ends stripped. The result is the piece of s that
   * starts where lstrip stopped, and neither of its ends is in the class.
   */
  function Strip(s: string, cls: CharClass): (r: string)
    ensures r != [] ==> !cls.Has(r[0]) && !cls.Has(r[|r| - 1])
    ensures var i := |s| - |LStrip(s, cls)|; i + |r| <= |s| && r == s[i..i + |r|]
  {
    var left := LStrip(s, cls);
    var r := RStrip(left, cls);
    PrefixOfTail(s, left, r);
    r
  }

  /** A prefix r of the tail `left` of s is the slice of s where `left` begins. */
  lemma PrefixOfTail(s: string, left: string, r: string)
    requires |left| <= |s| && left == s[|s| - |left|..]
    requires |r| <= |left| && r == left[..|r|]
    ensures |s| - |left| + |r| <= |s| && r == s[|s| - |left|..|s| - |left| + |r|]
  {
  }

  /** The result of strip is a piece of s. */
  lemma StripIsInfix(s: string, cls: CharClass)
    ensures IsInfix(Strip(s, cls), s)
  {
    var i := |s| - |LStrip(s, cls)|;
    assert Strip(s, cls) <= s[i..];
  }

  /**
   * What strip removes: every character before the result and after it is
   * in the class. With the contract of Strip (neither end of the result is
   * in the class) this pins the result down.
   */
  lemma StripDropsClass(s: string, cls: CharClass)
    ensures var i := |s| - |LStrip(s, cls)|;
      (forall k :: 0 <= k < i ==> cls.Has(s[k])) &&
      (forall k :: i + |Strip(s, cls)| <= k < |s| ==> cls.Has(s[k]))
  {
    LStripDropsClass(s, cls);
    var left := LStrip(s, cls);
    RStripDropsClass(left, cls);
    TailRunInClass(s, left, |RStrip(left, cls)|, cls);
  }

  /** A run of class characters at the end of the tail `left` of s is a run at the end of s. */
  lemma TailRunInClass(s: string, left: string, m: nat, cls: CharClass)
    requires |left| <= |s| && left == s[|s| - |left|..]
    requires forall k :: m <= k < |left| ==> cls.Has(left[k])
    ensures forall k :: |s| - |left| + m <= k < |s| ==> cls.Has(s[k])
  {
    var i := |s| - |left|;
    forall k | i + m <= k < |s|
      ensures cls.Has(s[k])
    {
      assert s[k] == left[k - i];
    }
  }

  /** Strip leaves nothing exactly when every character is in the class. */
  lemma StripEmptyIff(s: string, cls: CharClass)
    ensures Strip(s, cls) == [] <==> forall i :: 0 <= i < |s| ==> cls.Has(s[i])
  {
    var left := LStrip(s, cls);
    LStripDropsClass(s, cls);
    RStripDropsClass(left, cls);
  }

  /**
   * The characters for which Python's `str.isspace` holds, which are what
   * `strip()` removes by default: the ASCII controls TAB to CR and FS to US,
   * SPACE, NEL, NO-BREAK SPACE, OGHAM SPACE MARK, EN QUAD to HAIR SPACE, LINE
   * and PARAGRAPH SEPARATOR, NARROW NO-BREAK SPACE, MEDIUM MATHEMATICAL SPACE
   * and IDEOGRAPHIC SPACE.
   */
  predicate IsSpace(c: char)
  {
    '\t' <= c <= '\r' || '\U{1C}' <= c <= ' ' || c == '\U{85}' || c == '\U{A0}' || c == '\U{1680}' ||
    '\U{2000}' <= c <= '\U{200A}' || c == '\U{2028}' || c == '\U{2029}' || c == '\U{202F}' ||
    c == '\U{205F}' || c == '\U{3000}'
  }

  predicate StartsWith(s: string, prefix: string)
  {
    prefix <= s
  }

  predicate EndsWith(s: string, suffix: string)
  {
    |suffix| <= |s| && s[|s| - |suffix|..] == suffix
  }

  /** `s.replace(a, b)` for single characters. */
  function ReplaceChar(s: string, a: char, b: char): (r: string)
    ensures |r| == |s|
    ensures a != b ==> a !in r
    ensures forall i :: 0 <= i < |s| && s[i] != a ==> r[i] == s[i]
    ensures forall i :: 0 <= i < |s| && s[i] == a ==> r[i] == b
  {
    seq(|s|, i requires 0 <= i < |s| => if s[i] == a then b else s[i])
  }

  predicate IsUpper(c: char) { 'A' <= c <= 'Z' }
  predicate IsLower(c: char) { 'a' <= c <= 'z' }
  predicate IsCased(c: char) { IsUpper(c) || IsLower(c) }

  function ToUpper(c: char): char
  {
    if IsLower(c) then (c as int - 'a' as int + 'A' as int) as char else c
  }

  function ToLower(c: char): char
  {
    if IsUpper(c) then (c as int - 'A' as int + 'a' as int) as char else c
  }

  /**
   * `str.title()` over ASCII letters: a letter is upper-cased when it begins
   * a word (the preceding character is not a letter, or there is none, as
   * `afterLetter` says for the first one) and lower-cased otherwise; every
   * other character is kept.
   */
  function TitleFrom(s: string, afterLetter: bool): (r: string)
    ensures |r| == |s|
    ensures forall i :: 0 <= i < |s| && !IsCased(s[i]) ==> r[i] == s[i]
    ensures forall i :: 0 <= i < |s| && IsCased(s[i]) ==>
      ToLower(r[i]) == ToLower(s[i]) && IsCased(r[i]) &&
      (IsUpper(r[i]) <==> (if i == 0 then !afterLetter else !IsCased(s[i - 1])))
  {
    if s == [] then []
    else
      var c := s[0];
      var rest := TitleFrom(s[1..], IsCased(c));
      [if afterLetter then ToLower(c) else ToUpper(c)] + rest
  }

  function Title(s: string): (r: string)
    ensures |r| == |s|
    ensures forall i :: 0 <= i < |s| && !IsCased(s[i]) ==> r[i] == s[i]
    ensures forall i :: 0 <= i < |s| && IsCased(s[i]) ==>
      ToLower(r[i]) == ToLower(s[i]) && IsCased(r[i]) &&
      (IsUpper(r[i]) <==> i == 0 || !IsCased(s[i - 1]))
  {
    TitleFrom(s, false)
  }
}
