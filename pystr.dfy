/**
  Python's `str.strip()` with no argument, as the request handlers apply it to
  the submitted username. Characters are Unicode scalar values, as Python's
  code points are for decoded form data.
 */
module PyStr {

  /** Python's `str.isspace` for one character: the code points CPython
      classifies as whitespace. */
  predicate IsSpace(c: char) {
    var n := c as int;
    || (0x09 <= n <= 0x0D)
    || (0x1C <= n <= 0x20)
    || n == 0x85
    || n == 0xA0
    || n == 0x1680
    || (0x2000 <= n <= 0x200A)
    || n == 0x2028
    || n == 0x2029
    || n == 0x202F
    || n == 0x205F
    || n == 0x3000
  }

  ghost predicate AllSpace(s: string) {
    forall i :: 0 <= i < |s| ==> IsSpace(s[i])
  }

  /** Neither the first nor the last character is whitespace. */
  predicate Stripped(s: string) {
    s == [] || (!IsSpace(s[0]) && !IsSpace(s[|s| - 1]))
  }

  /** `s.strip()`: `s` without its leading and trailing whitespace. */
  function Strip(s: string): (r: string)
    ensures Stripped(r)
    ensures |r| <= |s|
    decreases |s|
  {
    if s == [] then s
    else if IsSpace(s[0]) then Strip(s[1..])
    else if IsSpace(s[|s| - 1]) then Strip(s[..|s| - 1])
    else s
  }

  /** `r` is `s[i..i + |r|]` and everything around it is whitespace. */
  ghost predicate TrimmedSliceAt(s: string, r: string, i: int) {
    && 0 <= i <= |s| - |r|
    && r == s[i..i + |r|]
    && AllSpace(s[..i])
    && AllSpace(s[i + |r|..])
  }

  /** A whitespace character in front of a trimmed slice stays outside it. */
  lemma GrowFront(s: string, r: string, i: int)
    requires s != [] && IsSpace(s[0])
    requires TrimmedSliceAt(s[1..], r, i)
    ensures TrimmedSliceAt(s, r, i + 1)
  {
    var t := s[1..];
    assert s[..i + 1] == [s[0]] + t[..i];
    assert s[i + 1 + |r|..] == t[i + |r|..];
  }

  /** A whitespace character behind a trimmed slice stays outside it. */
  lemma GrowBack(s: string, r: string, i: int)
    requires s != [] && IsSpace(s[|s| - 1])
    requires TrimmedSliceAt(s[..|s| - 1], r, i)
    ensures TrimmedSliceAt(s, r, i)
  {
    var t := s[..|s| - 1];
    assert s[..i] == t[..i];
    assert s[i + |r|..] == t[i + |r|..] + [s[|s| - 1]];
  }

  /** Strip keeps one contiguous run of `s` and removes only whitespace
      around it. */
  lemma {:induction false} StripIsTrimmedSlice(s: string)
    ensures exists i :: TrimmedSliceAt(s, Strip(s), i)
    decreases |s|
  {
    var r := Strip(s);
    if s == [] {
      assert TrimmedSliceAt(s, r, 0);
    } else if IsSpace(s[0]) {
      StripIsTrimmedSlice(s[1..]);
      var i :| TrimmedSliceAt(s[1..], r, i);
      GrowFront(s, r, i);
    } else if IsSpace(s[|s| - 1]) {
      StripIsTrimmedSlice(s[..|s| - 1]);
      var i :| TrimmedSliceAt(s[..|s| - 1], r, i);
      GrowBack(s, r, i);
    } else {
      assert s[..0] == [] && s[|s|..] == [];
      assert TrimmedSliceAt(s, r, 0);
    }
  }

  /** A string with no whitespace at either end is left as it is. */
  lemma StripKeepsStripped(s: string)
    requires Stripped(s)
    ensures Strip(s) == s
  {
  }

  /** Stripping twice is stripping once. */
  lemma StripIdempotent(s: string)
    ensures Strip(Strip(s)) == Strip(s)
  {
    StripKeepsStripped(Strip(s));
  }

  /** The stripped string is empty exactly when the input is all whitespace
      (in particular, when the input is empty). */
  lemma {:induction false} StripEmptyIffAllSpace(s: string)
    ensures Strip(s) == [] <==> AllSpace(s)
    decreases |s|
  {
    if s == [] {
    } else if IsSpace(s[0]) {
      StripEmptyIffAllSpace(s[1..]);
      assert AllSpace(s) <==> AllSpace(s[1..]) by {
        if AllSpace(s[1..]) {
          forall k | 0 <= k < |s| ensures IsSpace(s[k]) {
            if k > 0 { assert s[k] == s[1..][k - 1]; }
          }
        }
      }
    } else if IsSpace(s[|s| - 1]) {
      var t := s[..|s| - 1];
      StripEmptyIffAllSpace(t);
      assert t[0] == s[0];
    } else {
      assert Strip(s) == s;
    }
  }
}
