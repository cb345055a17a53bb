/** The few JavaScript string semantics the handlers depend on: truthiness, `x || ''` and `trim()`. */
module JsString {
  import opened Wrappers

  /** The code points `String.prototype.trim` removes: the WhiteSpace and
      LineTerminator code points of the ECMAScript language specification
      (tab, line feed, vertical tab, form feed, carriage return, the space
      separators of Unicode category Zs, U+2028, U+2029 and U+FEFF). */
  const TRIMMABLE: set<char> := {
    '\t', '\n', '\U{0B}', '\U{0C}', '\r', ' ', '\U{A0}', '\U{1680}',
    '\U{2000}', '\U{2001}', '\U{2002}', '\U{2003}', '\U{2004}', '\U{2005}',
    '\U{2006}', '\U{2007}', '\U{2008}', '\U{2009}', '\U{200A}',
    '\U{2028}', '\U{2029}', '\U{202F}', '\U{205F}', '\U{3000}', '\U{FEFF}'
  }

  predicate IsTrimmable(c: char)
  {
    c in TRIMMABLE
  }

  predicate AllTrimmable(s: string)
  {
    forall k :: 0 <= k < |s| ==> IsTrimmable(s[k])
  }

  /** A string, `undefined` or `null` in a boolean position: only a non-empty string is truthy. */
  predicate Truthy(v: Option<string>)
  {
    v.Some? && v.value != ""
  }

  /** `v || ''` */
  function OrEmpty(v: Option<string>): (r: string)
    ensures Truthy(v) ==> r == v.value
    ensures !Truthy(v) ==> r == ""
  {
    if v.Some? then v.value else ""
  }

  /** Drops the leading trimmable code points. */
  function TrimStart(s: string): (r: string)
  {
    if |s| > 0 && IsTrimmable(s[0]) then TrimStart(s[1..]) else s
  }

  /** Drops the trailing trimmable code points. */
  function TrimEnd(s: string): (r: string)
  {
    if |s| > 0 && IsTrimmable(s[|s| - 1]) then TrimEnd(s[..|s| - 1]) else s
  }

  /** `s.trim()` */
  function Trim(s: string): (r: string)
  {
    TrimEnd(TrimStart(s))
  }

  /** `TrimStart` removes a trimmable prefix and stops at a kept code point. */
  lemma {:induction false} TrimStartSpec(s: string)
    ensures |TrimStart(s)| <= |s| && TrimStart(s) == s[|s| - |TrimStart(s)|..]
    ensures AllTrimmable(s[..|s| - |TrimStart(s)|])
    ensures TrimStart(s) != [] ==> !IsTrimmable(TrimStart(s)[0])
  {
    if |s| > 0 && IsTrimmable(s[0]) {
      TrimStartSpec(s[1..]);
      var n := |s| - |TrimStart(s)|;
      forall k | 0 <= k < n ensures IsTrimmable(s[..n][k]) {
        if k > 0 {
          assert s[..n][k] == s[1..][..n - 1][k - 1];
        }
      }
    }
  }

  /** `TrimEnd` removes a trimmable suffix and stops at a kept code point. */
  lemma {:induction false} TrimEndSpec(s: string)
    ensures |TrimEnd(s)| <= |s| && TrimEnd(s) == s[..|TrimEnd(s)|]
    ensures AllTrimmable(s[|TrimEnd(s)|..])
    ensures TrimEnd(s) != [] ==> !IsTrimmable(TrimEnd(s)[|TrimEnd(s)| - 1])
  {
    if |s| > 0 && IsTrimmable(s[|s| - 1]) {
      var t := s[..|s| - 1];
      TrimEndSpec(t);
      var n := |TrimEnd(s)|;
      assert TrimEnd(s) == TrimEnd(t);
      forall k | 0 <= k < |s| - n ensures IsTrimmable(s[n..][k]) {
        if k < |s| - 1 - n {
          assert s[n..][k] == t[n..][k];
        }
      }
    }
  }

  /** `trim()` keeps the longest infix of `s` that neither begins nor ends with
      a trimmable code point; what it drops around that infix is trimmable.
      `a` is the number of code points dropped in front. */
  lemma TrimIsTrimmedInfix(s: string) returns (a: nat)
    ensures a + |Trim(s)| <= |s|
    ensures Trim(s) == s[a..a + |Trim(s)|]
    ensures AllTrimmable(s[..a]) && AllTrimmable(s[a + |Trim(s)|..])
    ensures Trim(s) != [] ==> !IsTrimmable(Trim(s)[0]) && !IsTrimmable(Trim(s)[|Trim(s)| - 1])
  {
    var t := TrimStart(s);
    TrimStartSpec(s);
    TrimEndSpec(t);
    var r := TrimEnd(t);
    a := |s| - |t|;
    assert Trim(s) == r;
    assert s[a..] == t;
    assert s[a..a + |r|] == t[..|r|];
    assert s[a + |r|..] == t[|r|..];
    assert r != [] ==> r[0] == t[0];
  }

  /** Trimming a second time changes nothing. */
  lemma TrimIdempotent(s: string)
    ensures Trim(Trim(s)) == Trim(s)
  {
    var _ := TrimIsTrimmedInfix(s);
    var t := Trim(s);
    assert TrimStart(t) == t;
    assert TrimEnd(t) == t;
  }

  /** `trim()` yields the empty string exactly when every code point is trimmable. */
  lemma TrimEmptyIff(s: string)
    ensures Trim(s) == "" <==> AllTrimmable(s)
  {
    var a := TrimIsTrimmedInfix(s);
    TrimStartSpec(s);
    if Trim(s) == "" {
      // A non-empty TrimStart(s) starts with a kept code point that TrimEnd keeps too.
      TrimEndSpec(TrimStart(s));
      assert TrimStart(s) == [];
      forall k | 0 <= k < |s| ensures IsTrimmable(s[k]) {
        assert s[..|s|][k] == s[k];
      }
    } else {
      var t := Trim(s);
      assert t[0] == s[a];
    }
  }
}
