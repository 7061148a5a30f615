/**
 * The two `trim` operations the system relies on. The back end calls Java's `String.trim`,
 * which removes every leading and trailing character whose code point is at most U+0020.
 * The front end calls JavaScript's `String.prototype.trim`, which removes the characters of
 * ECMAScript's WhiteSpace and LineTerminator productions. The two sets differ: control
 * characters such as U+0001 are removed only by Java, and U+00A0 or U+3000 only by JavaScript.
 */
module Text {

  /** A character that Java's `String.trim` removes. */
  predicate IsJavaSpace(c: char) {
    c <= ' '
  }

  /** A character that JavaScript's `String.prototype.trim` removes. */
  predicate IsJsSpace(c: char) {
    || ('\U{9}' <= c <= '\U{D}')          // TAB, LF, VT, FF, CR
    || c == ' ' || c == '\U{A0}' || c == '\U{1680}'
    || ('\U{2000}' <= c <= '\U{200A}')
    || c == '\U{2028}' || c == '\U{2029}' || c == '\U{202F}' || c == '\U{205F}'
    || c == '\U{3000}' || c == '\U{FEFF}'
  }

  function DropLeading(s: string, isSpace: char -> bool): string {
    if s != [] && isSpace(s[0]) then DropLeading(s[1..], isSpace) else s
  }

  function DropTrailing(s: string, isSpace: char -> bool): string {
    if s != [] && isSpace(s[|s| - 1]) then DropTrailing(s[..|s| - 1], isSpace) else s
  }

  /** `DropLeading` keeps a suffix that starts with a non-space, and what it drops is space. */
  lemma {:induction false} DropLeadingSuffix(s: string, isSpace: char -> bool)
    ensures |DropLeading(s, isSpace)| <= |s|
    ensures DropLeading(s, isSpace) == s[|s| - |DropLeading(s, isSpace)|..]
    ensures DropLeading(s, isSpace) != [] ==> !isSpace(DropLeading(s, isSpace)[0])
    ensures forall k :: 0 <= k < |s| - |DropLeading(s, isSpace)| ==> isSpace(s[k])
  {
    if s != [] && isSpace(s[0]) {
      var t := s[1..];
      var r := DropLeading(t, isSpace);
      DropLeadingSuffix(t, isSpace);
      assert t[|t| - |r|..] == s[|s| - |r|..];
      forall k | 1 <= k < |s| - |r| ensures isSpace(s[k]) {
        assert s[k] == t[k - 1];
      }
    }
  }

  /** `DropTrailing` keeps a prefix that ends with a non-space, and what it drops is space. */
  lemma {:induction false} DropTrailingPrefix(s: string, isSpace: char -> bool)
    ensures |DropTrailing(s, isSpace)| <= |s|
    ensures DropTrailing(s, isSpace) == s[..|DropTrailing(s, isSpace)|]
    ensures DropTrailing(s, isSpace) != [] ==> !isSpace(DropTrailing(s, isSpace)[|DropTrailing(s, isSpace)| - 1])
    ensures forall k :: |DropTrailing(s, isSpace)| <= k < |s| ==> isSpace(s[k])
  {
    if s != [] && isSpace(s[|s| - 1]) {
      var t := s[..|s| - 1];
      var r := DropTrailing(t, isSpace);
      DropTrailingPrefix(t, isSpace);
      assert t[..|r|] == s[..|r|];
      forall k | |r| <= k < |s| - 1 ensures isSpace(s[k]) {
        assert s[k] == t[k];
      }
    }
  }

  /** `s` without its leading and trailing `isSpace` characters. */
  function Strip(s: string, isSpace: char -> bool): string {
    DropTrailing(DropLeading(s, isSpace), isSpace)
  }

  /** Neither end of a stripped string is space. */
  lemma StripEnds(s: string, isSpace: char -> bool)
    ensures var r := Strip(s, isSpace);
            r != [] ==> !isSpace(r[0]) && !isSpace(r[|r| - 1])
  {
    var lead := DropLeading(s, isSpace);
    DropLeadingSuffix(s, isSpace);
    DropTrailingPrefix(lead, isSpace);
    var r := DropTrailing(lead, isSpace);
    if r != [] {
      assert r[0] == lead[0];
    }
  }

  /** What `Strip` removes is space only: the result is a contiguous part of `s` with space on either side. */
  lemma StripCutsOnlySpace(s: string, isSpace: char -> bool)
    ensures exists i, j :: 0 <= i <= j <= |s| && Strip(s, isSpace) == s[i..j]
                           && (forall k :: 0 <= k < i ==> isSpace(s[k]))
                           && (forall k :: j <= k < |s| ==> isSpace(s[k]))
  {
    var lead := DropLeading(s, isSpace);
    DropLeadingSuffix(s, isSpace);
    DropTrailingPrefix(lead, isSpace);
    var r := DropTrailing(lead, isSpace);
    var i := |s| - |lead|;
    assert r == s[i..i + |r|];
    assert forall k :: i + |r| <= k < |s| ==> isSpace(lead[k - i]) && s[k] == lead[k - i];
  }

  /** Java's `String.trim`. */
  function JavaTrim(s: string): string {
    Strip(s, IsJavaSpace)
  }

  /** JavaScript's `String.prototype.trim`. */
  function JsTrim(s: string): string {
    Strip(s, IsJsSpace)
  }

  /** A string strips to nothing exactly when every character of it is a space. */
  lemma StripEmptyIff(s: string, isSpace: char -> bool)
    ensures Strip(s, isSpace) == [] <==> forall k :: 0 <= k < |s| ==> isSpace(s[k])
  {
    if forall k :: 0 <= k < |s| ==> isSpace(s[k]) {
      DropLeadingAllSpace(s, isSpace);
    } else {
      var k :| 0 <= k < |s| && !isSpace(s[k]);
      StripCutsOnlySpace(s, isSpace);
      var i, j :| 0 <= i <= j <= |s| && Strip(s, isSpace) == s[i..j]
                  && (forall k :: 0 <= k < i ==> isSpace(s[k]))
                  && (forall k :: j <= k < |s| ==> isSpace(s[k]));
      assert i <= k < j;
    }
  }

  lemma {:induction false} DropLeadingAllSpace(s: string, isSpace: char -> bool)
    requires forall k :: 0 <= k < |s| ==> isSpace(s[k])
    ensures DropLeading(s, isSpace) == []
  {
    if s != [] {
      DropLeadingAllSpace(s[1..], isSpace);
    }
  }

  /** Stripping twice is stripping once. */
  lemma StripIdempotent(s: string, isSpace: char -> bool)
    ensures Strip(Strip(s, isSpace), isSpace) == Strip(s, isSpace)
  {
    var r := Strip(s, isSpace);
    StripEnds(s, isSpace);
    if r != [] {
      assert DropLeading(r, isSpace) == r;
      assert DropTrailing(r, isSpace) == r;
    }
  }

  /** Java's blank test: `s.trim().isEmpty()` exactly when `s` holds only Java spaces. */
  lemma JavaBlankIff(s: string)
    ensures JavaTrim(s) == [] <==> forall k :: 0 <= k < |s| ==> IsJavaSpace(s[k])
  {
    StripEmptyIff(s, IsJavaSpace);
  }

  /** JavaScript's blank test: `!s.trim()` exactly when `s` holds only JavaScript spaces. */
  lemma JsBlankIff(s: string)
    ensures JsTrim(s) == [] <==> forall k :: 0 <= k < |s| ==> IsJsSpace(s[k])
  {
    StripEmptyIff(s, IsJsSpace);
  }
}
