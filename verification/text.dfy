/** Character and string primitives the product importer relies on:
    Python's `str.strip()`, `str.upper()`, `str.lower()`, `str.isalnum()`
    and `str.startswith()`.

    `strip()` is modelled exactly: the whitespace set is the one Python's
    `str.isspace()` accepts. Case mapping and `isalnum()` are restricted to
    ASCII letters and digits; other characters are left unchanged by the
    case mappings and are not alphanumeric. */
module Text {

  /** Python's `str.isspace()` for a single code point. */
  predicate IsSpace(c: char) {
    var n := c as int;
    || (0x09 <= n <= 0x0D)
    || (0x1C <= n <= 0x20)
    || n == 0x85 || n == 0xA0 || n == 0x1680
    || (0x2000 <= n <= 0x200A)
    || n == 0x2028 || n == 0x2029 || n == 0x202F || n == 0x205F || n == 0x3000
  }

  predicate IsAsciiLower(c: char) { 'a' <= c <= 'z' }

  predicate IsAsciiUpper(c: char) { 'A' <= c <= 'Z' }

  predicate IsAsciiDigit(c: char) { '0' <= c <= '9' }

  /** `str.isalnum()` restricted to ASCII. */
  predicate IsAlnum(c: char) {
    IsAsciiLower(c) || IsAsciiUpper(c) || IsAsciiDigit(c)
  }

  /** `str.startswith(p)`. */
  predicate StartsWith(s: string, p: string) {
    |p| <= |s| && s[..|p|] == p
  }

  /** No character of `s` is a lower-case ASCII letter. */
  predicate NoLower(s: string) {
    forall i :: 0 <= i < |s| ==> !IsAsciiLower(s[i])
  }

  /** No character of `s` is an upper-case ASCII letter. */
  predicate NoUpper(s: string) {
    forall i :: 0 <= i < |s| ==> !IsAsciiUpper(s[i])
  }

  function UpperChar(c: char): char {
    if IsAsciiLower(c) then (c as int - 32) as char else c
  }

  function LowerChar(c: char): char {
    if IsAsciiUpper(c) then (c as int + 32) as char else c
  }

  /** The first index at or after `i` whose character is not whitespace,
      or `|s|` when there is none. */
  function SkipSpaces(s: string, i: nat): (r: nat)
    requires i <= |s|
    ensures i <= r <= |s|
    ensures forall k :: i <= k < r ==> IsSpace(s[k])
    ensures r == |s| || !IsSpace(s[r])
    decreases |s| - i
  {
    if i < |s| && IsSpace(s[i]) then SkipSpaces(s, i + 1) else i
  }

  /** Where `s[lo..j]` ends once its trailing whitespace is dropped. */
  function TrimEnd(s: string, lo: nat, j: nat): (r: nat)
    requires lo <= j <= |s|
    ensures lo <= r <= j
    ensures forall k :: r <= k < j ==> IsSpace(s[k])
    ensures r == lo || !IsSpace(s[r - 1])
    decreases j
  {
    if lo < j && IsSpace(s[j - 1]) then TrimEnd(s, lo, j - 1) else j
  }

  /** `str.strip()`: a contiguous slice of `s` with only whitespace around
      it, and no whitespace at either of its own ends. */
  function Strip(s: string): (r: string)
    ensures r == [] || (!IsSpace(r[0]) && !IsSpace(r[|r| - 1]))
    ensures var i := SkipSpaces(s, 0);
              && i <= |s| - |r| && r == s[i..i + |r|]
              && (forall k :: 0 <= k < i ==> IsSpace(s[k]))
              && (forall k :: i + |r| <= k < |s| ==> IsSpace(s[k]))
  {
    var i := SkipSpaces(s, 0);
    s[i..TrimEnd(s, i, |s|)]
  }

  /** A string with no whitespace at either end is its own `strip()`. */
  lemma StripUnchanged(s: string)
    requires s == [] || (!IsSpace(s[0]) && !IsSpace(s[|s| - 1]))
    ensures Strip(s) == s
  {
    assert SkipSpaces(s, 0) == 0;
    assert TrimEnd(s, 0, |s|) == |s|;
    assert s[0..|s|] == s;
  }

  /** `str.upper()`: same length, no lower-case ASCII letter left, and each
      character equal to the input's one when case is ignored. */
  function ToUpper(s: string): (r: string)
    ensures |r| == |s|
    ensures NoLower(r)
    ensures forall i :: 0 <= i < |s| ==> LowerChar(r[i]) == LowerChar(s[i])
  {
    seq(|s|, i requires 0 <= i < |s| => UpperChar(s[i]))
  }

  /** `str.lower()`: same length, no upper-case ASCII letter left, and each
      character equal to the input's one when case is ignored. */
  function ToLower(s: string): (r: string)
    ensures |r| == |s|
    ensures NoUpper(r)
    ensures forall i :: 0 <= i < |s| ==> UpperChar(r[i]) == UpperChar(s[i])
  {
    seq(|s|, i requires 0 <= i < |s| => LowerChar(s[i]))
  }

  /** Stripping twice strips nothing more. */
  lemma StripIdempotent(s: string)
    ensures Strip(Strip(s)) == Strip(s)
  {
    StripUnchanged(Strip(s));
  }

  /** Upper-casing is idempotent, and a string is its own upper-case form
      exactly when it has no lower-case ASCII letter. */
  lemma ToUpperFixpoint(s: string)
    ensures ToUpper(ToUpper(s)) == ToUpper(s)
    ensures ToUpper(s) == s <==> NoLower(s)
  {
    if NoLower(s) {
      assert forall i :: 0 <= i < |s| ==> ToUpper(s)[i] == s[i];
    }
  }

  /** `s.lower().startswith(p)` for a lower-case prefix `p` holds exactly
      when the first `|p|` characters of `s` match `p` ignoring case. */
  lemma LowerStartsWith(s: string, p: string)
    requires NoUpper(p)
    ensures StartsWith(ToLower(s), p)
        <==> |p| <= |s| && forall i :: 0 <= i < |p| ==> UpperChar(s[i]) == UpperChar(p[i])
  {
    if |p| <= |s| && forall i :: 0 <= i < |p| ==> UpperChar(s[i]) == UpperChar(p[i]) {
      forall i | 0 <= i < |p|
        ensures ToLower(s)[i] == p[i]
      {
        assert UpperChar(ToLower(s)[i]) == UpperChar(p[i]);
        assert !IsAsciiUpper(p[i]) && !IsAsciiUpper(ToLower(s)[i]);
      }
      assert ToLower(s)[..|p|] == p;
    }
    if StartsWith(ToLower(s), p) {
      forall i | 0 <= i < |p|
        ensures UpperChar(s[i]) == UpperChar(p[i])
      {
        assert ToLower(s)[i] == p[i];
      }
    }
  }

  /** `s.upper().startswith(p.upper())` and `s.lower().startswith(p)` agree
      for a lower-case `p`: both compare the prefix ignoring case. */
  lemma UpperPrefixIgnoresCase(s: string, p: string)
    requires NoUpper(p)
    ensures StartsWith(ToUpper(s), ToUpper(p)) <==> StartsWith(ToLower(s), p)
  {
    LowerStartsWith(s, p);
    var u := ToUpper(p);
    if StartsWith(ToUpper(s), u) {
      forall i | 0 <= i < |p|
        ensures UpperChar(s[i]) == UpperChar(p[i])
      {
        assert ToUpper(s)[i] == u[i];
      }
    }
    if |p| <= |s| && forall i :: 0 <= i < |p| ==> UpperChar(s[i]) == UpperChar(p[i]) {
      assert ToUpper(s)[..|p|] == u;
    }
  }
}
