/** String helpers with Python's meaning: ASCII `str.lower`, `in` on strings, `str.replace`, `str(int)`. */
module Strings {

  /** ASCII lower-casing of one character. */
  function LowerChar(c: char): char
  {
    if 'A' <= c <= 'Z' then (c as int + 32) as char else c
  }

  /** `s.lower()`, restricted to ASCII letters. */
  function Lower(s: string): string
  {
    seq(|s|, i requires 0 <= i < |s| => LowerChar(s[i]))
  }

  predicate IsPrefix(prefix: string, s: string)
  {
    |prefix| <= |s| && s[..|prefix|] == prefix
  }

  /** Python `needle in hay` for strings: `needle` occurs as a contiguous block of `hay`. */
  predicate IsSubstring(needle: string, hay: string)
  {
    exists i :: 0 <= i <= |hay| && IsPrefix(needle, hay[i..])
  }

  /** `s.replace(pat, '')`: a single left-to-right pass that deletes every non-overlapping occurrence of `pat`. */
  function RemoveAll(s: string, pat: string): string
    requires pat != []
    decreases |s|
  {
    if |s| < |pat| then s
    else if s[..|pat|] == pat then RemoveAll(s[|pat|..], pat)
    else [s[0]] + RemoveAll(s[1..], pat)
  }

  predicate IsDigit(c: char)
  {
    '0' <= c <= '9'
  }

  function DigitChar(d: nat): (c: char)
    requires d < 10
    ensures IsDigit(c)
  {
    ('0' as int + d) as char
  }

  /** `str(n)` for a non-negative integer: its decimal digits, most significant first. */
  function NatToString(n: nat): (r: string)
    ensures |r| >= 1
    ensures n < 10 <==> |r| == 1
    ensures forall i :: 0 <= i < |r| ==> IsDigit(r[i])
    decreases n
  {
    if n < 10 then [DigitChar(n)] else NatToString(n / 10) + [DigitChar(n % 10)]
  }

  /** `str(i)` for any integer. */
  function IntToString(i: int): (r: string)
    ensures |r| >= 1
  {
    if i < 0 then "-" + NatToString(-i) else NatToString(i)
  }

  /** Distinct numbers have distinct decimal renderings. */
  lemma {:induction false} NatToStringInjective(m: nat, n: nat)
    requires NatToString(m) == NatToString(n)
    ensures m == n
    decreases m
  {
    var sm, sn := NatToString(m), NatToString(n);
    if m < 10 || n < 10 {
      assert m < 10 && n < 10;
      assert sm[0] == DigitChar(m) && sn[0] == DigitChar(n);
    } else {
      assert sm == NatToString(m / 10) + [DigitChar(m % 10)];
      assert sn == NatToString(n / 10) + [DigitChar(n % 10)];
      assert sm[|sm| - 1] == DigitChar(m % 10) && sn[|sn| - 1] == DigitChar(n % 10);
      assert sm[..|sm| - 1] == NatToString(m / 10);
      assert sn[..|sn| - 1] == NatToString(n / 10);
      NatToStringInjective(m / 10, n / 10);
    }
  }

  /**
   * Removing `'ifc'` from a string with an occurrence of it is removing it from the pieces on either side:
   * no occurrence can straddle the one in the middle, since no proper suffix of `'ifc'` is a prefix of it.
   */
  lemma {:induction false} RemoveAllSplit(a: string, b: string)
    ensures RemoveAll(a + "ifc" + b, "ifc") == RemoveAll(a, "ifc") + RemoveAll(b, "ifc")
    decreases |a|
  {
    var s := a + "ifc" + b;
    if |a| == 0 {
      assert s == "ifc" + b;
      assert s[..3] == "ifc" && s[3..] == b;
    } else if |a| < 3 {
      assert s[|a|] == 'i';
      assert s[..3] != "ifc" by {
        if |a| == 1 { assert s[..3][1] == 'i'; } else { assert s[..3][2] == 'i'; }
      }
      assert s[1..] == a[1..] + "ifc" + b;
      RemoveAllSplit(a[1..], b);
      assert a == [a[0]] + a[1..];
    } else {
      assert s[..3] == a[..3];
      if a[..3] == "ifc" {
        assert s[3..] == a[3..] + "ifc" + b;
        RemoveAllSplit(a[3..], b);
      } else {
        assert s[1..] == a[1..] + "ifc" + b;
        RemoveAllSplit(a[1..], b);
      }
    }
  }

  /** A string with no `'ifc'` in it comes back unchanged. */
  lemma {:induction false} RemoveAllNoOccurrence(s: string)
    requires !IsSubstring("ifc", s)
    ensures RemoveAll(s, "ifc") == s
    decreases |s|
  {
    if |s| >= 3 {
      assert s[0..] == s && !IsPrefix("ifc", s[0..]);
      assert !IsSubstring("ifc", s[1..]) by {
        forall i | 0 <= i <= |s[1..]|
          ensures !IsPrefix("ifc", s[1..][i..])
        {
          assert s[1..][i..] == s[i + 1..];
        }
      }
      RemoveAllNoOccurrence(s[1..]);
      assert s == [s[0]] + s[1..];
    }
  }

  /** `'ifc'` is removed wherever it occurs, not only as a prefix. */
  lemma RemoveAllEverywhere()
    ensures RemoveAll("ifcwallifc", "ifc") == "wall"
  {
    assert "ifcwallifc"[..3] == "ifc" && "ifcwallifc"[3..] == "wallifc";
    assert "wallifc"[..3][0] != "ifc"[0] && "wallifc"[1..] == "allifc";
    assert "allifc"[..3][0] != "ifc"[0] && "allifc"[1..] == "llifc";
    assert "llifc"[..3][0] != "ifc"[0] && "llifc"[1..] == "lifc";
    assert "lifc"[..3][0] != "ifc"[0] && "lifc"[1..] == "ifc";
    assert "ifc"[..3] == "ifc" && "ifc"[3..] == "";
  }

  /** A single pass: an occurrence formed by joining the pieces around a removed one survives. */
  lemma RemoveAllSinglePass()
    ensures RemoveAll("iifcfc", "ifc") == "ifc"
  {
    assert "iifcfc"[..3][1] != "ifc"[1] && "iifcfc"[1..] == "ifcfc";
    assert "ifcfc"[..3] == "ifc" && "ifcfc"[3..] == "fc";
  }
}
