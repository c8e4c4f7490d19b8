/**
 * Whitespace trimming as the backend (Python `str.strip`) and the frontend
 * (JavaScript `String.prototype.trim`) do it, each with its own whitespace
 * set, and Python's `str.join`.
 */
module Text {

  /** Whose notion of whitespace a trim uses. */
  datatype Runtime = Python | JavaScript

  /** The characters both Python's `str.strip()` and JavaScript's `trim()` remove. */
  predicate CommonSpace(c: char) {
    var n := c as int;
    (9 <= n <= 13) || n == 0x20 || n == 0xA0 || n == 0x1680 || (0x2000 <= n <= 0x200A)
    || n == 0x2028 || n == 0x2029 || n == 0x202F || n == 0x205F || n == 0x3000
  }

  /**
   * Whitespace for `rt`: Python's `str.isspace` also holds the separators
   * U+001C-U+001F and NEXT LINE U+0085; JavaScript's `WhiteSpace` also holds
   * the byte order mark U+FEFF.
   */
  predicate IsSpace(c: char, rt: Runtime) {
    var n := c as int;
    CommonSpace(c) || (if rt.Python? then (0x1C <= n <= 0x1F) || n == 0x85 else n == 0xFEFF)
  }

  predicate AllSpace(s: string, rt: Runtime) {
    forall i :: 0 <= i < |s| ==> IsSpace(s[i], rt)
  }

  /** Drops the leading whitespace. */
  function TrimStart(s: string, rt: Runtime): (r: string)
    ensures |r| <= |s|
  {
    if s != [] && IsSpace(s[0], rt) then TrimStart(s[1..], rt) else s
  }

  /** Drops the trailing whitespace. */
  function TrimEnd(s: string, rt: Runtime): (r: string)
    ensures |r| <= |s|
  {
    if s != [] && IsSpace(s[|s| - 1], rt) then TrimEnd(s[..|s| - 1], rt) else s
  }

  /** `s.strip()` for `Python`, `s.trim()` for `JavaScript`. */
  function Strip(s: string, rt: Runtime): string {
    TrimEnd(TrimStart(s, rt), rt)
  }

  /** `TrimStart` leaves a suffix that starts with a non-space, after nothing but whitespace. */
  lemma {:induction false} TrimStartFacts(s: string, rt: Runtime)
    ensures var r := TrimStart(s, rt);
      |r| <= |s| && r == s[|s| - |r|..] && AllSpace(s[..|s| - |r|], rt) && (r == [] || !IsSpace(r[0], rt))
  {
    if s != [] && IsSpace(s[0], rt) {
      var t := s[1..];
      TrimStartFacts(t, rt);
      var r := TrimStart(t, rt);
      assert TrimStart(s, rt) == r;
      assert r == t[|t| - |r|..] && t[|t| - |r|..] == s[|s| - |r|..];
      var dropped := s[..|s| - |r|];
      forall j | 0 <= j < |dropped| ensures IsSpace(dropped[j], rt) {
        if j > 0 {
          assert dropped[j] == t[..|t| - |r|][j - 1];
        }
      }
    }
  }

  /** `TrimEnd` leaves a prefix that ends with a non-space, before nothing but whitespace. */
  lemma {:induction false} TrimEndFacts(s: string, rt: Runtime)
    ensures var r := TrimEnd(s, rt);
      |r| <= |s| && r == s[..|r|] && AllSpace(s[|r|..], rt) && (r == [] || !IsSpace(r[|r| - 1], rt))
  {
    if s != [] && IsSpace(s[|s| - 1], rt) {
      var t := s[..|s| - 1];
      TrimEndFacts(t, rt);
      var r := TrimEnd(t, rt);
      assert TrimEnd(s, rt) == r;
      assert r == t[..|r|] && t[..|r|] == s[..|r|];
      forall j | 0 <= j < |s| - |r| ensures IsSpace(s[|r|..][j], rt) {
        if j < |s| - 1 - |r| {
          assert s[|r|..][j] == t[|r|..][j];
        }
      }
    }
  }

  /** The stripped string neither starts nor ends with whitespace. */
  lemma StripEnds(s: string, rt: Runtime)
    ensures var r := Strip(s, rt); |r| <= |s| && (r == [] || (!IsSpace(r[0], rt) && !IsSpace(r[|r| - 1], rt)))
  {
    var t := TrimStart(s, rt);
    TrimStartFacts(s, rt);
    TrimEndFacts(t, rt);
    var r := TrimEnd(t, rt);
    if r != [] {
      assert r[0] == t[0];
    }
  }

  /** `Strip(s, rt)` is the segment of `s` that starts after its leading whitespace... */
  lemma StripSegment(s: string, rt: Runtime)
    ensures var a := |s| - |TrimStart(s, rt)|;
      a + |Strip(s, rt)| <= |s| && Strip(s, rt) == s[a..a + |Strip(s, rt)|]
  {
    var t := TrimStart(s, rt);
    TrimStartFacts(s, rt);
    TrimEndFacts(t, rt);
    var a := |s| - |t|;
    var r := TrimEnd(t, rt);
    assert t == s[a..] && r == t[..|r|];
    assert forall k :: 0 <= k < |r| ==> r[k] == s[a + k];
  }

  /** ... and everything outside that segment is whitespace. */
  lemma StripDropsOnlySpace(s: string, rt: Runtime)
    ensures var a := |s| - |TrimStart(s, rt)|;
      a + |Strip(s, rt)| <= |s| && AllSpace(s[..a], rt) && AllSpace(s[a + |Strip(s, rt)|..], rt)
  {
    var t := TrimStart(s, rt);
    TrimStartFacts(s, rt);
    TrimEndFacts(t, rt);
    var a := |s| - |t|;
    var r := TrimEnd(t, rt);
    assert t[|r|..] == s[a + |r|..];
  }

  /** The stripped string is empty exactly when the input is all whitespace. */
  lemma StripEmptyIff(s: string, rt: Runtime)
    ensures Strip(s, rt) == [] <==> AllSpace(s, rt)
  {
    var t := TrimStart(s, rt);
    TrimStartFacts(s, rt);
    TrimEndFacts(t, rt);
    var a := |s| - |t|;
    if Strip(s, rt) == [] {
      if t != [] {
        assert false;
      }
      assert s[..a] == s;
    } else {
      StripSegment(s, rt);
      StripEnds(s, rt);
      var r := Strip(s, rt);
      assert r[0] == s[a];
    }
  }

  /** A string that neither starts nor ends with whitespace is its own strip. */
  lemma StripUnpadded(s: string, rt: Runtime)
    requires s == [] || (!IsSpace(s[0], rt) && !IsSpace(s[|s| - 1], rt))
    ensures Strip(s, rt) == s
  {
  }

  /** A string is its own strip exactly when it neither starts nor ends with whitespace. */
  lemma StripFixedIff(s: string, rt: Runtime)
    ensures Strip(s, rt) == s <==> s == [] || (!IsSpace(s[0], rt) && !IsSpace(s[|s| - 1], rt))
  {
    if Strip(s, rt) == s {
      StripEnds(s, rt);
    }
  }

  /** Stripping twice is stripping once. */
  lemma StripIdempotent(s: string, rt: Runtime)
    ensures Strip(Strip(s, rt), rt) == Strip(s, rt)
  {
    StripEnds(s, rt);
    StripUnpadded(Strip(s, rt), rt);
  }

  /** Python's `sep.join(parts)`. */
  function Join(parts: seq<string>, sep: string): string {
    if |parts| == 0 then ""
    else if |parts| == 1 then parts[0]
    else parts[0] + sep + Join(parts[1..], sep)
  }
}
