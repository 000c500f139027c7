/**
 Whitespace trimming of the text typed into the preferences entry, the
 `String.prototype.trim` step that precedes every addition to the list of
 tracked application ids.
 */
module Text {

  /** The characters `String.prototype.trim` strips: tab, vertical tab,
      form feed, the byte-order mark, the space separators of Unicode category
      Zs, and the line terminators LF, CR, U+2028 and U+2029. */
  predicate IsSpace(c: char) {
    || c == '\t' || c == '\U{000B}' || c == '\U{000C}' || c == '\U{FEFF}'
    || c == ' ' || c == '\U{00A0}' || c == '\U{1680}'
    || ('\U{2000}' <= c <= '\U{200A}')
    || c == '\U{202F}' || c == '\U{205F}' || c == '\U{3000}'
    || c == '\n' || c == '\r' || c == '\U{2028}' || c == '\U{2029}'
  }

  predicate AllSpace(s: string) {
    SpaceBetween(s, 0, |s|)
  }

  /** Every character of `s` at an index in `[lo, hi)` is whitespace. */
  predicate SpaceBetween(s: string, lo: int, hi: int)
    requires 0 <= lo && hi <= |s|
  {
    forall i :: lo <= i < hi ==> IsSpace(s[i])
  }

  /** Neither end of `r` is whitespace (vacuously true of the empty string). */
  predicate Trimmed(r: string) {
    r == [] || (!IsSpace(r[0]) && !IsSpace(r[|r| - 1]))
  }

  /** `r` sits at offset `i` of `s` with nothing but whitespace around it. */
  predicate FramedAt(r: string, s: string, i: nat) {
    && i + |r| <= |s|
    && s[i..i + |r|] == r
    && SpaceBetween(s, 0, i)
    && SpaceBetween(s, i + |r|, |s|)
  }

  /** `r` is what is left of `s` once its whitespace border is cut away:
      `s` is `r` framed by whitespace, and `r` has no whitespace at either
      end. */
  ghost predicate IsTrimOf(r: string, s: string) {
    Trimmed(r) && exists i: nat :: FramedAt(r, s, i)
  }

  /** Length of the whitespace run at the start of `s`. */
  function LeadingSpaces(s: string): (n: nat)
    ensures n <= |s|
    ensures SpaceBetween(s, 0, n)
    ensures n < |s| ==> !IsSpace(s[n])
  {
    if |s| > 0 && IsSpace(s[0]) then
      var m := LeadingSpaces(s[1..]);
      assert forall i :: 1 <= i < m + 1 ==> s[i] == s[1..][i - 1];
      m + 1
    else
      0
  }

  /** Length of the whitespace run at the end of `s`. */
  function TrailingSpaces(s: string): (n: nat)
    ensures n <= |s|
    ensures SpaceBetween(s, |s| - n, |s|)
    ensures n < |s| ==> !IsSpace(s[|s| - n - 1])
  {
    if |s| > 0 && IsSpace(s[|s| - 1]) then
      var init := s[..|s| - 1];
      var m := TrailingSpaces(init);
      assert forall i :: |init| - m <= i < |init| ==> s[i] == init[i];
      m + 1
    else
      0
  }

  /** `s` with its leading and trailing whitespace removed. */
  function Trim(s: string): (r: string)
    ensures |r| <= |s|
    ensures Trimmed(r)
    ensures IsTrimOf(r, s)
  {
    var lo := LeadingSpaces(s);
    var rest := s[lo..];
    var tr := TrailingSpaces(rest);
    var hi := |rest| - tr;
    var r := rest[..hi];
    assert s[lo..lo + |r|] == r;
    assert forall i :: lo + hi <= i < |s| ==> s[i] == rest[i - lo];
    assert FramedAt(r, s, lo);
    r
  }

  /** A non-empty framed string with no whitespace at its ends starts at the
      first and ends at the last non-whitespace character of `s`. */
  lemma FramedBounds(s: string, r: string, i: nat)
    requires FramedAt(r, s, i) && Trimmed(r) && r != []
    ensures i < |s| && !IsSpace(s[i])
    ensures i == LeadingSpaces(s)
    ensures i + |r| == |s| - TrailingSpaces(s)
  {
    assert s[i..i + |r|][0] == r[0];
    assert s[i..i + |r|][|r| - 1] == r[|r| - 1];
    assert !IsSpace(s[i + |r| - 1]);
  }

  /** The characterisation pins the trimmed string down: anything that is a
      trim of `s` in the sense of `IsTrimOf` is exactly `Trim(s)`. */
  lemma TrimUnique(s: string, r: string)
    requires IsTrimOf(r, s)
    ensures r == Trim(s)
  {
    var t := Trim(s);
    var i: nat :| FramedAt(r, s, i);
    var k: nat :| FramedAt(t, s, k);
    if r != [] && t != [] {
      FramedBounds(s, r, i);
      FramedBounds(s, t, k);
    } else if r != [] {
      FramedBounds(s, r, i);
    } else if t != [] {
      FramedBounds(s, t, k);
    }
  }

  /** Trimming an already trimmed string changes nothing. */
  lemma TrimIdempotent(s: string)
    ensures Trim(Trim(s)) == Trim(s)
  {
    var t := Trim(s);
    assert t[0..|t|] == t;
    assert FramedAt(t, t, 0);
    TrimUnique(t, t);
  }

  /** The trimmed text is empty exactly when the input is whitespace only. */
  lemma TrimEmptyIffAllSpace(s: string)
    ensures Trim(s) == [] <==> AllSpace(s)
  {
    if AllSpace(s) {
      assert s[0..0] == [];
      assert FramedAt([], s, 0);
      TrimUnique(s, []);
    } else {
      var t := Trim(s);
      var k: nat :| FramedAt(t, s, k);
    }
  }

  /** An ideographic space (U+3000) before an id is stripped like any other
      space separator. */
  lemma TrimStripsIdeographicSpace()
    ensures Trim("\U{3000}firefox.desktop") == "firefox.desktop"
  {
    var s := "\U{3000}firefox.desktop";
    assert s[1..1 + |"firefox.desktop"|] == "firefox.desktop";
    assert FramedAt("firefox.desktop", s, 1);
    TrimUnique(s, "firefox.desktop");
  }
}
