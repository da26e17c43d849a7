/** Stand-ins for the JavaScript string operations the pages call:
    `toLowerCase`, `trim` and `includes`. Strings are sequences of Unicode
    scalar values. */
module Text {
  import Seqs

  /** The upper-case letters `toLowerCase` folds in this model: ASCII `A`-`Z`
      and the Latin-1 capitals U+00C0-U+00DE, except the sign U+00D7. */
  predicate IsUpper(c: char) {
    ('A' <= c <= 'Z') || ('\U{C0}' <= c <= '\U{DE}' && c != '\U{D7}')
  }

  function LowerChar(c: char): (d: char)
    ensures !IsUpper(d)
    ensures !IsUpper(c) ==> d == c
    ensures IsUpper(c) ==> d as int == c as int + 32
  {
    if IsUpper(c) then (c as int + 32) as char else c
  }

  /** `s.toLowerCase()`, one character at a time. */
  function ToLower(s: string): (r: string)
    ensures |r| == |s|
    ensures forall i :: 0 <= i < |r| ==> !IsUpper(r[i])
    ensures forall i :: 0 <= i < |s| ==> r[i] == LowerChar(s[i])
  {
    Seqs.Map(s, LowerChar)
  }

  /** A lower-case letter appears in the lower-cased string only where the
      letter or its capital appears in the original. */
  lemma LetterNotInLower(s: string, c: char, upper: char)
    requires IsUpper(upper) && upper as int + 32 == c as int
    requires c !in s && upper !in s
    ensures c !in ToLower(s)
  {
  }

  /** Lower-casing a string twice is lower-casing it once. */
  lemma ToLowerIdempotent(s: string)
    ensures ToLower(ToLower(s)) == ToLower(s)
  {
  }

  /** `t` occurs in `s` starting at index `i`. */
  predicate OccursAt(s: string, t: string, i: int) {
    0 <= i && i + |t| <= |s| && s[i..i + |t|] == t
  }

  /** `s.includes(t)`; the empty string is included in every string. */
  predicate Includes(s: string, t: string) {
    t <= s || (s != [] && Includes(s[1..], t))
  }

  /** `Includes` holds exactly when `t` occurs somewhere in `s`. */
  lemma IncludesIff(s: string, t: string)
    ensures Includes(s, t) <==> exists i :: OccursAt(s, t, i)
  {
    if Includes(s, t) {
      IncludedOccurs(s, t);
    }
    if exists i :: OccursAt(s, t, i) {
      var i :| OccursAt(s, t, i);
      OccursIncluded(s, t, i);
    }
  }

  lemma {:induction false} IncludedOccurs(s: string, t: string)
    requires Includes(s, t)
    ensures exists i :: OccursAt(s, t, i)
  {
    if t <= s {
      assert OccursAt(s, t, 0);
    } else {
      IncludedOccurs(s[1..], t);
      var i :| OccursAt(s[1..], t, i);
      assert s[1..][i..i + |t|] == s[i + 1..i + 1 + |t|];
      assert OccursAt(s, t, i + 1);
    }
  }

  lemma {:induction false} OccursIncluded(s: string, t: string, i: int)
    requires OccursAt(s, t, i)
    ensures Includes(s, t)
  {
    if i == 0 {
      assert t <= s;
    } else {
      assert s[1..][i - 1..i - 1 + |t|] == s[i..i + |t|];
      OccursIncluded(s[1..], t, i - 1);
    }
  }

  /** A string that lacks one of the characters of `t` does not include `t`. */
  lemma MissingCharNotIncluded(s: string, t: string, k: nat)
    requires k < |t| && t[k] !in s
    ensures !Includes(s, t)
  {
    IncludesIff(s, t);
  }

  /** The characters `String.prototype.trim` removes: the ECMAScript
      WhiteSpace code points (tab, vertical tab, form feed, space, no-break
      space, byte-order mark and the Unicode space separators) and the
      LineTerminator code points. */
  predicate IsWhitespace(c: char) {
    || c == '\t' || c == '\n' || c == '\U{B}' || c == '\U{C}' || c == '\r' || c == ' '
    || c == '\U{A0}' || c == '\U{1680}' || ('\U{2000}' <= c <= '\U{200A}')
    || c == '\U{2028}' || c == '\U{2029}' || c == '\U{202F}' || c == '\U{205F}'
    || c == '\U{3000}' || c == '\U{FEFF}'
  }

  predicate AllWhitespace(s: string) {
    forall i :: 0 <= i < |s| ==> IsWhitespace(s[i])
  }

  /** Neither the first nor the last character is whitespace. */
  predicate IsTrimmed(s: string) {
    s == [] || (!IsWhitespace(s[0]) && !IsWhitespace(s[|s| - 1]))
  }

  /** Drops the leading whitespace: what is dropped is all whitespace and
      what is left does not start with whitespace. */
  function TrimStart(s: string): (r: string)
    ensures |r| <= |s| && r == s[|s| - |r|..]
    ensures AllWhitespace(s[..|s| - |r|])
    ensures r == [] || !IsWhitespace(r[0])
  {
    if s != [] && IsWhitespace(s[0]) then TrimStart(s[1..]) else s
  }

  /** Drops the trailing whitespace: what is dropped is all whitespace and
      what is left does not end with whitespace. */
  function TrimEnd(s: string): (r: string)
    ensures |r| <= |s| && r == s[..|r|]
    ensures AllWhitespace(s[|r|..])
    ensures r == [] || !IsWhitespace(r[|r| - 1])
  {
    if s != [] && IsWhitespace(s[|s| - 1]) then TrimEnd(s[..|s| - 1]) else s
  }

  /** `s.trim()`. */
  function Trim(s: string): (r: string)
    ensures |r| <= |s|
    ensures IsTrimmed(r)
    ensures r == [] <==> AllWhitespace(s)
    ensures exists a, b :: StripsTo(s, r, a, b)
  {
    TrimFacts(s);
    TrimStrips(s);
    TrimEnd(TrimStart(s))
  }

  /** `r` is the block `s[a..b]`, and everything before `a` and from `b` on
      is whitespace. */
  predicate StripsTo(s: string, r: string, a: int, b: int) {
    && 0 <= a <= b <= |s|
    && r == s[a..b]
    && AllWhitespace(s[..a])
    && AllWhitespace(s[b..])
  }

  /** What `TrimStart` and then `TrimEnd` remove is whitespace at the two
      ends, and what they keep is the block in between. */
  lemma TrimStrips(s: string)
    ensures var u := TrimStart(s);
      StripsTo(s, TrimEnd(u), |s| - |u|, |s| - |u| + |TrimEnd(u)|)
  {
    var u := TrimStart(s);
    var r := TrimEnd(u);
    var m := |s| - |u|;
    var n := m + |r|;
    assert 0 <= m <= n <= |s|;
    assert r == s[m..n] by {
      assert u == s[m..] && r == u[..|r|];
    }
    assert AllWhitespace(s[..m]);
    assert AllWhitespace(s[n..]) by {
      assert s[n..] == u[|r|..];
    }
  }

  lemma TrimFacts(s: string)
    ensures var r := TrimEnd(TrimStart(s));
      && (r != [] ==> !IsWhitespace(r[0]))
      && (r == [] <==> AllWhitespace(s))
  {
    var u := TrimStart(s);
    var r := TrimEnd(u);
    var m := |s| - |u|;
    if r != [] {
      assert r[0] == u[0] == s[m];
    } else {
      assert AllWhitespace(u[0..]);
      forall i | 0 <= i < |s|
        ensures IsWhitespace(s[i])
      {
        if i < m {
          assert s[i] == s[..m][i];
        } else {
          assert s[i] == u[i - m];
        }
      }
    }
  }

  /** Trimming an already trimmed string changes nothing; in particular
      `Trim` is idempotent. */
  lemma TrimmedIsFixed(s: string)
    requires IsTrimmed(s)
    ensures Trim(s) == s
  {
  }

  lemma TrimIdempotent(s: string)
    ensures Trim(Trim(s)) == Trim(s)
  {
    TrimmedIsFixed(Trim(s));
  }
}
