/**
 * The parts of java.lang.String and java.lang.Long that the service relies on:
 * `trim()` (which strips every leading and trailing character whose code is at
 * most U+0020), the null-or-blank guard built on it, substring containment
 * (what the SQL pattern `%term%` asks of a column) and `Long.toString`.
 */
module Text {
  import opened Common

  /** The characters `String.trim()` removes from both ends. */
  predicate IsTrimmable(c: char) {
    c <= ' '
  }

  /** Every character of `s` would be removed by `trim()`. */
  predicate IsBlank(s: string) {
    forall i :: 0 <= i < |s| ==> IsTrimmable(s[i])
  }

  /** `s` without its leading trimmable characters. */
  function TrimStart(s: string): (r: string)
    ensures |r| <= |s| && r == s[|s| - |r|..]
    ensures r == [] || !IsTrimmable(r[0])
    ensures IsBlank(s[..|s| - |r|])
  {
    if s != [] && IsTrimmable(s[0]) then TrimStart(s[1..]) else s
  }

  /** `s` without its trailing trimmable characters. */
  function TrimEnd(s: string): (r: string)
    ensures |r| <= |s| && r == s[..|r|]
    ensures r == [] || !IsTrimmable(r[|r| - 1])
    ensures IsBlank(s[|r|..])
  {
    if s != [] && IsTrimmable(s[|s| - 1]) then TrimEnd(s[..|s| - 1]) else s
  }

  /** `String.trim()`. */
  function Trim(s: string): (r: string)
    ensures r == [] <==> IsBlank(s)
    ensures r == [] || (!IsTrimmable(r[0]) && !IsTrimmable(r[|r| - 1]))
    ensures |r| <= |s|
  {
    TrimEmptyOnlyWhenBlank(s);
    TrimKeepsEnds(s);
    TrimEnd(TrimStart(s))
  }

  /**
   * `trim()` removes a blank prefix and a blank suffix and keeps the rest of
   * `s` in place; with the ends of a non-empty result being kept characters,
   * those prefix and suffix are the longest blank ones.
   */
  lemma TrimIsInfix(s: string) returns (i: nat, j: nat)
    ensures i <= j <= |s| && Trim(s) == s[i..j]
    ensures IsBlank(s[..i]) && IsBlank(s[j..])
  {
    var t := TrimStart(s);
    i := |s| - |t|;
    var r := TrimEnd(t);
    j := i + |r|;
    assert r == s[i..j];
    assert t[|r|..] == s[j..];
  }

  lemma TrimKeepsEnds(s: string)
    ensures var r := TrimEnd(TrimStart(s));
      |r| <= |s| && (r == [] || (!IsTrimmable(r[0]) && !IsTrimmable(r[|r| - 1])))
  {
    var t := TrimStart(s);
    var r := TrimEnd(t);
    if r != [] {
      assert r[0] == t[0];
    }
  }

  lemma TrimEmptyOnlyWhenBlank(s: string)
    ensures TrimEnd(TrimStart(s)) == [] <==> IsBlank(s)
  {
    if TrimEnd(TrimStart(s)) == [] {
      TrimEndEmptyMeansBlank(TrimStart(s));
      BlankTrimStartIsEmpty(s);
      TrimStartEmptyMeansBlank(s);
    }
    if IsBlank(s) {
      BlankTrimStartIsEmpty(s);
    }
  }

  lemma TrimStartEmptyMeansBlank(s: string)
    ensures TrimStart(s) == [] ==> IsBlank(s)
  {
    assert s[..|s|] == s;
  }

  lemma TrimEndEmptyMeansBlank(t: string)
    requires TrimEnd(t) == []
    ensures IsBlank(t)
  {
    assert t[0..] == t;
  }

  /** What `TrimStart` leaves starts with a kept character, so it is blank only when empty. */
  lemma BlankTrimStartIsEmpty(s: string)
    requires IsBlank(TrimStart(s))
    ensures TrimStart(s) == []
  {
  }

  lemma BlankJoin(a: string, b: string)
    requires IsBlank(a) && IsBlank(b)
    ensures IsBlank(a + b)
  {
    forall i | 0 <= i < |a + b| ensures IsTrimmable((a + b)[i]) {
      if i < |a| {
        assert (a + b)[i] == a[i];
      } else {
        assert (a + b)[i] == b[i - |a|];
      }
    }
  }

  /** The guard `s == null || s.trim().isEmpty()`. */
  predicate IsNullOrBlank(s: Option<string>) {
    s.None? || Trim(s.value) == []
  }

  lemma {:induction false} TrimStartSkipsBlankPrefix(l: string, t: string)
    requires IsBlank(l)
    ensures TrimStart(l + t) == TrimStart(t)
    decreases |l|
  {
    if l != [] {
      assert (l + t)[0] == l[0] && IsTrimmable(l[0]);
      assert (l + t)[1..] == l[1..] + t;
      assert IsBlank(l[1..]) by {
        var l' := l[1..];
        forall i | 0 <= i < |l'| ensures IsTrimmable(l'[i]) {
          assert l'[i] == l[i + 1];
        }
      }
      calc {
        TrimStart(l + t);
        TrimStart((l + t)[1..]);
        TrimStart(l[1..] + t);
        { TrimStartSkipsBlankPrefix(l[1..], t); }
        TrimStart(t);
      }
    } else {
      assert l + t == t;
    }
  }

  lemma {:induction false} TrimEndSkipsBlankSuffix(t: string, r: string)
    requires IsBlank(r)
    ensures TrimEnd(t + r) == TrimEnd(t)
    decreases |r|
  {
    if r != [] {
      assert (t + r)[|t + r| - 1] == r[|r| - 1] && IsTrimmable(r[|r| - 1]);
      assert (t + r)[..|t + r| - 1] == t + r[..|r| - 1];
      assert IsBlank(r[..|r| - 1]) by {
        var r' := r[..|r| - 1];
        forall i | 0 <= i < |r'| ensures IsTrimmable(r'[i]) {
          assert r'[i] == r[i];
        }
      }
      calc {
        TrimEnd(t + r);
        TrimEnd((t + r)[..|t + r| - 1]);
        TrimEnd(t + r[..|r| - 1]);
        { TrimEndSkipsBlankSuffix(t, r[..|r| - 1]); }
        TrimEnd(t);
      }
    } else {
      assert t + r == t;
    }
  }

  /** Once a non-trimmable character has been reached, what follows is kept whole. */
  lemma {:induction false} TrimStartOfConcat(t: string, r: string)
    ensures TrimStart(t + r) == if IsBlank(t) then TrimStart(r) else TrimStart(t) + r
    decreases |t|
  {
    if t == [] {
      assert t + r == r;
    } else if IsTrimmable(t[0]) {
      assert (t + r)[0] == t[0];
      assert (t + r)[1..] == t[1..] + r;
      assert TrimStart(t + r) == TrimStart(t[1..] + r);
      assert TrimStart(t) == TrimStart(t[1..]);
      TrimStartOfConcat(t[1..], r);
      BlankTail(t);
    } else {
      assert (t + r)[0] == t[0];
      assert !IsBlank(t);
    }
  }

  lemma BlankTail(t: string)
    requires t != [] && IsTrimmable(t[0])
    ensures IsBlank(t) <==> IsBlank(t[1..])
  {
    if IsBlank(t[1..]) {
      forall i | 0 <= i < |t| ensures IsTrimmable(t[i]) {
        if i > 0 { assert t[i] == t[1..][i - 1]; }
      }
    }
  }

  /**
   * Blank padding around a term does not change what `trim()` yields: the
   * search terms "  x " and "x" are the same query.
   */
  lemma TrimIgnoresPadding(l: string, t: string, r: string)
    requires IsBlank(l) && IsBlank(r)
    ensures Trim(l + t + r) == Trim(t)
  {
    assert l + t + r == l + (t + r);
    TrimStartSkipsBlankPrefix(l, t + r);
    TrimStartOfConcat(t, r);
    if IsBlank(t) {
      assert TrimStart(r) == [];
      assert Trim(t) == [];
    } else {
      TrimEndSkipsBlankSuffix(TrimStart(t), r);
    }
  }

  /** `trim()` applied twice is `trim()` applied once. */
  lemma TrimIdempotent(s: string)
    ensures Trim(Trim(s)) == Trim(s)
  {
    var r := Trim(s);
    if r != [] {
      assert TrimStart(r) == r;
      assert TrimEnd(r) == r;
    }
  }

  /** `t` occurs in `s` starting at index `i`. */
  predicate OccursAt(s: string, t: string, i: int) {
    0 <= i && i + |t| <= |s| && s[i..i + |t|] == t
  }

  /** `s.contains(t)`, the meaning of `s LIKE '%t%'` for a term without wildcards. */
  predicate Contains(s: string, t: string) {
    exists i :: 0 <= i <= |s| && OccursAt(s, t, i)
  }

  /** A string that contains `t + u` contains `t`: a longer term never matches more. */
  lemma ContainsPrefixOfTerm(s: string, t: string, u: string)
    requires Contains(s, t + u)
    ensures Contains(s, t)
  {
    var i :| 0 <= i <= |s| && OccursAt(s, t + u, i);
    assert s[i..i + |t|] == s[i..i + |t + u|][..|t|];
    assert OccursAt(s, t, i);
  }

  /** A nullable column that contains `t` (a null column matches nothing). */
  predicate ColumnContains(column: Option<string>, t: string) {
    column.Some? && Contains(column.value, t)
  }

  // ---------------------------------------------------------------------
  // Long.toString
  // ---------------------------------------------------------------------

  predicate IsDigit(c: char) {
    '0' <= c <= '9'
  }

  function DigitChar(d: nat): (c: char)
    requires d < 10
    ensures IsDigit(c) && c as int - '0' as int == d
  {
    ('0' as int + d) as char
  }

  /** The decimal digits of `n`, without leading zeros. */
  function NatToString(n: nat): (r: string)
    ensures |r| >= 1
    ensures forall i :: 0 <= i < |r| ==> IsDigit(r[i])
    ensures |r| > 1 ==> r[0] != '0'
  {
    if n < 10 then [DigitChar(n)] else NatToString(n / 10) + [DigitChar(n % 10)]
  }

  /** `Long.toString(n)`: a minus sign for negative values, then the digits. */
  function LongToString(n: int): (r: string)
    ensures |r| >= 1
    ensures (r[0] == '-') <==> n < 0
  {
    if n < 0 then "-" + NatToString(-n) else NatToString(n)
  }

  function DigitValue(c: char): nat
    requires IsDigit(c)
  {
    c as int - '0' as int
  }

  /** The value of a string of decimal digits. */
  function ParseNat(s: string): nat
    requires forall i :: 0 <= i < |s| ==> IsDigit(s[i])
  {
    if s == [] then 0 else ParseNat(s[..|s| - 1]) * 10 + DigitValue(s[|s| - 1])
  }

  lemma {:induction false} ParseNatToString(n: nat)
    ensures ParseNat(NatToString(n)) == n
  {
    if n >= 10 {
      var s := NatToString(n);
      assert s[..|s| - 1] == NatToString(n / 10);
      ParseNatToString(n / 10);
    }
  }

  /** Different naturals have different decimal strings. */
  lemma NatToStringInjective(a: nat, b: nat)
    requires NatToString(a) == NatToString(b)
    ensures a == b
  {
    ParseNatToString(a);
    ParseNatToString(b);
  }

  /** `Long.toString` loses nothing: different values give different strings. */
  lemma LongToStringInjective(a: int, b: int)
    requires LongToString(a) == LongToString(b)
    ensures a == b
  {
    if a < 0 {
      assert b < 0;
      assert LongToString(a)[1..] == NatToString(-a);
      assert LongToString(b)[1..] == NatToString(-b);
      NatToStringInjective(-a, -b);
    } else {
      assert b >= 0;
      NatToStringInjective(a, b);
    }
  }
}
