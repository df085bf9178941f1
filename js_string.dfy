/** The part of JavaScript's `String.prototype.trim` that the watch-list relies on:
    `trim` removes every leading and trailing white-space or line-terminator
    character and keeps everything between them. */
module JsString {

  /** The characters `trim` removes: the WhiteSpace code points of section 12.2 of
      ECMA-262 (tab, vertical tab, form feed, the byte-order mark and every
      space separator of Unicode category Zs) and the LineTerminator code points
      of section 12.3 (line feed, carriage return, line and paragraph separator). */
  const WhiteSpaceCodes: set<int> :=
    {0x0009, 0x000A, 0x000B, 0x000C, 0x000D, 0x0020, 0x00A0, 0x1680,
     0x2000, 0x2001, 0x2002, 0x2003, 0x2004, 0x2005, 0x2006, 0x2007, 0x2008, 0x2009, 0x200A,
     0x2028, 0x2029, 0x202F, 0x205F, 0x3000, 0xFEFF}

  predicate IsWhiteSpace(c: char) {
    c as int in WhiteSpaceCodes
  }

  predicate AllWhiteSpace(s: string) {
    forall i :: 0 <= i < |s| ==> IsWhiteSpace(s[i])
  }

  /** `trimStart`: drops the longest all-white-space prefix
      (TrimStartDrops says what it drops). */
  function TrimStart(s: string): (r: string)
    ensures |r| <= |s|
    ensures r != [] ==> !IsWhiteSpace(r[0])
  {
    if s != [] && IsWhiteSpace(s[0]) then TrimStart(s[1..]) else s
  }

  /** `trimEnd`: drops the longest all-white-space suffix
      (TrimEndDrops says what it drops). */
  function TrimEnd(s: string): (r: string)
    ensures |r| <= |s|
    ensures r != [] ==> !IsWhiteSpace(r[|r| - 1])
  {
    if s != [] && IsWhiteSpace(s[|s| - 1]) then TrimEnd(s[..|s| - 1]) else s
  }

  /** `trimStart` keeps a suffix of `s` and drops only white space. */
  lemma {:induction false} TrimStartDrops(s: string)
    ensures TrimStart(s) == s[|s| - |TrimStart(s)|..]
    ensures AllWhiteSpace(s[..|s| - |TrimStart(s)|])
  {
    if s != [] && IsWhiteSpace(s[0]) {
      var q := s[1..];
      TrimStartDrops(q);
      assert TrimStart(s) == TrimStart(q);
      var k := |s| - |TrimStart(q)|;
      assert q[k - 1..] == s[k..];
      assert s[..k] == [s[0]] + q[..k - 1];
    }
  }

  /** `trimEnd` keeps a prefix of `s` and drops only white space. */
  lemma {:induction false} TrimEndDrops(s: string)
    ensures TrimEnd(s) == s[..|TrimEnd(s)|]
    ensures AllWhiteSpace(s[|TrimEnd(s)|..])
  {
    if s != [] && IsWhiteSpace(s[|s| - 1]) {
      var p := s[..|s| - 1];
      TrimEndDrops(p);
      assert TrimEnd(s) == TrimEnd(p);
      var n := |TrimEnd(p)|;
      assert p[..n] == s[..n];
      assert s[n..] == p[n..] + [s[|s| - 1]];
    }
  }

  /** `trim`: the result neither starts nor ends with white space, and it is
      empty exactly when `s` is all white space (the case in which App.js
      refuses to add an entry). TrimIsSlice says where the result sits in `s`. */
  function Trim(s: string): (r: string)
    ensures |r| <= |s|
    ensures r != [] ==> !IsWhiteSpace(r[0]) && !IsWhiteSpace(r[|r| - 1])
    ensures r == [] <==> AllWhiteSpace(s)
  {
    var t := TrimStart(s);
    var r := TrimEnd(t);
    TrimStartDrops(s);
    TrimEndDrops(t);
    assert r == [] ==> t == [] && s[..|s|] == s;
    assert r != [] ==> r[0] == s[|s| - |t|];
    r
  }

  /** What `trim` removes is white space on both sides: the result is a slice of
      `s` with only white space before and after it. */
  lemma TrimIsSlice(s: string)
    ensures exists k :: 0 <= k <= |s| - |Trim(s)| && Trim(s) == s[k..k + |Trim(s)|]
                        && AllWhiteSpace(s[..k]) && AllWhiteSpace(s[k + |Trim(s)|..])
  {
    var t := TrimStart(s);
    var r := TrimEnd(t);
    TrimStartDrops(s);
    TrimEndDrops(t);
    var k := |s| - |t|;
    assert t == s[k..];
    assert r == t[..|r|] == s[k..k + |r|];
    assert t[|r|..] == s[k + |r|..];
    assert Trim(s) == r;
  }

  /** `trimStart` of white space followed by text that does not start with white space. */
  lemma {:induction false} TrimStartOfPadded(a: string, m: string)
    requires AllWhiteSpace(a)
    requires m == [] || !IsWhiteSpace(m[0])
    ensures TrimStart(a + m) == m
  {
    if a == [] {
      assert a + m == m;
    } else {
      assert (a + m)[0] == a[0];
      assert (a + m)[1..] == a[1..] + m;
      TrimStartOfPadded(a[1..], m);
    }
  }

  /** `trimEnd` of text that does not end with white space followed by white space. */
  lemma {:induction false} TrimEndOfPadded(m: string, b: string)
    requires AllWhiteSpace(b)
    requires m == [] || !IsWhiteSpace(m[|m| - 1])
    ensures TrimEnd(m + b) == m
  {
    if b == [] {
      assert m + b == m;
    } else {
      var n := |m + b|;
      assert (m + b)[n - 1] == b[|b| - 1];
      assert (m + b)[..n - 1] == m + b[..|b| - 1];
      TrimEndOfPadded(m, b[..|b| - 1]);
    }
  }

  /** The converse of Trim's contract: once `s` is split into white space, a core
      that neither starts nor ends with white space, and white space, `trim`
      returns that core. Together with Trim's contract this determines `trim`. */
  lemma TrimOfPadded(a: string, m: string, b: string)
    requires AllWhiteSpace(a) && AllWhiteSpace(b)
    requires m == [] || (!IsWhiteSpace(m[0]) && !IsWhiteSpace(m[|m| - 1]))
    ensures Trim(a + m + b) == m
  {
    assert a + m + b == a + (m + b);
    if m == [] {
      assert a + m + b == a + b;
      assert AllWhiteSpace(a + b) by {
        forall i | 0 <= i < |a + b| ensures IsWhiteSpace((a + b)[i]) {
          if i >= |a| { assert (a + b)[i] == b[i - |a|]; }
        }
      }
    } else {
      assert (m + b)[0] == m[0];
      TrimStartOfPadded(a, m + b);
      TrimEndOfPadded(m, b);
    }
  }

  /** Trimming twice is trimming once (App.js trims the input twice, at lines 44
      and 48, and stores the trimmed name). */
  lemma TrimIdempotent(s: string)
    ensures Trim(Trim(s)) == Trim(s)
  {
    var t := Trim(s);
    if t != [] {
      assert TrimStart(t) == t;
      assert TrimEnd(t) == t;
    }
  }
}
