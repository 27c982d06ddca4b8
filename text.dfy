/** Python's `str.strip()` with no argument, as applied to the form fields that
    the register and edit-device handlers read. */
module Text {

  /** Python's `str.isspace()` for one character: the C0 separators and
      controls U+0009..U+000D and U+001C..U+0020, NEL, NBSP, OGHAM SPACE MARK,
      the spaces U+2000..U+200A, LINE and PARAGRAPH SEPARATOR, NNBSP, MMSP and
      IDEOGRAPHIC SPACE. */
  predicate IsSpace(c: char) {
    || ('\t' <= c <= '\r')
    || ('\U{1C}' <= c <= ' ')
    || c == '\U{85}' || c == '\U{A0}' || c == '\U{1680}'
    || ('\U{2000}' <= c <= '\U{200A}')
    || c == '\U{2028}' || c == '\U{2029}' || c == '\U{202F}'
    || c == '\U{205F}' || c == '\U{3000}'
  }

  /** Every character of `s` from index `lo` up to `hi` is whitespace. */
  ghost predicate SpaceBetween(s: string, lo: int, hi: int)
    requires 0 <= lo && hi <= |s|
  {
    forall k :: lo <= k < hi ==> IsSpace(s[k])
  }

  /** Neither end of `r` is whitespace. */
  ghost predicate Trimmed(r: string) {
    r == [] || (!IsSpace(r[0]) && !IsSpace(r[|r| - 1]))
  }

  /** `r` is the slice of `s` that starts at `i`, has no whitespace at either
      end, and everything cut away on both sides is whitespace. */
  ghost predicate StripAt(r: string, s: string, i: int) {
    && 0 <= i <= |s| - |r| && s[i..i + |r|] == r
    && SpaceBetween(s, 0, i) && SpaceBetween(s, i + |r|, |s|) && Trimmed(r)
  }

  /** The declarative meaning of stripping. */
  ghost predicate IsStripOf(r: string, s: string) {
    exists i :: StripAt(r, s, i)
  }

  /** `s.lstrip()`: drops the leading whitespace. */
  function TrimStart(s: string): (r: string)
    ensures |r| <= |s|
  {
    if s != [] && IsSpace(s[0]) then TrimStart(s[1..]) else s
  }

  /** `s.rstrip()`: drops the trailing whitespace. */
  function TrimEnd(s: string): (r: string)
    ensures |r| <= |s|
  {
    if s != [] && IsSpace(s[|s| - 1]) then TrimEnd(s[..|s| - 1]) else s
  }

  /** `s.strip()`. What it means is stated by StripSound and StripUnique. */
  function Strip(s: string): (r: string)
    ensures |r| <= |s|
  {
    TrimEnd(TrimStart(s))
  }

  /** TrimStart keeps a suffix and cuts exactly the leading whitespace. */
  lemma {:induction false} TrimStartSound(s: string)
    ensures TrimStart(s) == s[|s| - |TrimStart(s)|..]
    ensures SpaceBetween(s, 0, |s| - |TrimStart(s)|)
    ensures TrimStart(s) == [] || !IsSpace(TrimStart(s)[0])
  {
    if s != [] && IsSpace(s[0]) {
      TrimStartSound(s[1..]);
      forall k | 1 <= k < |s| - |TrimStart(s)| ensures IsSpace(s[k]) {
        assert s[k] == s[1..][k - 1];
      }
    }
  }

  /** TrimEnd keeps a prefix and cuts exactly the trailing whitespace. */
  lemma {:induction false} TrimEndSound(s: string)
    ensures TrimEnd(s) == s[..|TrimEnd(s)|]
    ensures SpaceBetween(s, |TrimEnd(s)|, |s|)
    ensures TrimEnd(s) == [] || !IsSpace(TrimEnd(s)[|TrimEnd(s)| - 1])
  {
    if s != [] && IsSpace(s[|s| - 1]) {
      var init := s[..|s| - 1];
      TrimEndSound(init);
      forall k | |TrimEnd(s)| <= k < |s| - 1 ensures IsSpace(s[k]) {
        assert s[k] == init[k];
      }
    }
  }

  /** A whitespace run up to a non-space is exactly what TrimStart drops. */
  lemma {:induction false} TrimStartAt(s: string, i: nat)
    requires i <= |s| && SpaceBetween(s, 0, i) && (i < |s| ==> !IsSpace(s[i]))
    ensures TrimStart(s) == s[i..]
  {
    if i > 0 {
      var tail := s[1..];
      forall k | 0 <= k < i - 1 ensures IsSpace(tail[k]) {
        assert tail[k] == s[k + 1];
      }
      TrimStartAt(tail, i - 1);
      assert tail[i - 1..] == s[i..];
    }
  }

  /** A whitespace run back to a non-space is exactly what TrimEnd drops. */
  lemma {:induction false} TrimEndAt(s: string, j: nat)
    requires j <= |s| && SpaceBetween(s, j, |s|) && (0 < j ==> !IsSpace(s[j - 1]))
    ensures TrimEnd(s) == s[..j]
  {
    if j < |s| {
      var init := s[..|s| - 1];
      forall k | j <= k < |init| ensures IsSpace(init[k]) {
        assert init[k] == s[k];
      }
      TrimEndAt(init, j);
      assert init[..j] == s[..j];
    }
  }

  /** Cutting leading whitespace off `s` to get `t`, then trailing whitespace
      off `t` to get `r`, leaves `r` stripped out of `s`. */
  lemma StripAtIntro(s: string, t: string, r: string)
    requires |t| <= |s| && t == s[|s| - |t|..] && SpaceBetween(s, 0, |s| - |t|)
    requires |r| <= |t| && r == t[..|r|] && SpaceBetween(t, |r|, |t|)
    requires t == [] || !IsSpace(t[0])
    requires r == [] || !IsSpace(r[|r| - 1])
    ensures StripAt(r, s, |s| - |t|)
  {
    var i := |s| - |t|;
    assert s[i..i + |r|] == t[..|r|];
    forall k | i + |r| <= k < |s| ensures IsSpace(s[k]) {
      assert s[k] == t[k - i];
    }
    if r != [] { assert r[0] == t[0]; }
  }

  /** Strip meets its declarative meaning. */
  lemma StripSound(s: string)
    ensures IsStripOf(Strip(s), s)
  {
    var t := TrimStart(s);
    TrimStartSound(s);
    TrimEndSound(t);
    StripAtIntro(s, t, TrimEnd(t));
    assert StripAt(Strip(s), s, |s| - |t|);
  }

  /** Strip is the only function meeting that meaning. */
  lemma StripUnique(s: string, r: string)
    requires IsStripOf(r, s)
    ensures r == Strip(s)
  {
    var i :| StripAt(r, s, i);
    var t := s[i..];
    if r == [] {
      TrimStartAt(s, |s|);
    } else {
      assert s[i] == r[0];
      TrimStartAt(s, i);
      assert t[..|r|] == r;
      forall k | |r| <= k < |t| ensures IsSpace(t[k]) {
        assert t[k] == s[i + k];
      }
      TrimEndAt(t, |r|);
    }
  }

  /** A string with no whitespace at either end strips to itself. */
  lemma StripTrimmed(s: string)
    requires s == [] || (!IsSpace(s[0]) && !IsSpace(s[|s| - 1]))
    ensures Strip(s) == s
  {
    assert s[0..0 + |s|] == s;
    assert StripAt(s, s, 0);
    StripUnique(s, s);
  }

  /** Stripping twice is stripping once. */
  lemma {:induction false} StripIdempotent(s: string)
    ensures Strip(Strip(s)) == Strip(s)
  {
    var r := Strip(s);
    StripSound(s);
    var i :| StripAt(r, s, i);
    StripTrimmed(r);
  }
}
