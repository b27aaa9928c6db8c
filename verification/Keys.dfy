/**
 * Composite string keys: parts joined with ':'.  Joining is only reversible when enough of
 * the parts are free of ':'.
 */
module Keys {
  predicate NoColon(s: string) {
    ':' !in s
  }

  function Colons(s: string): nat {
    if s == [] then 0 else (if s[0] == ':' then 1 else 0) + Colons(s[1..])
  }

  /** Colon-free first parts can be read back. */
  lemma SplitFirst(a: string, b: string, a': string, b': string)
    requires NoColon(a) && NoColon(a') && a + ":" + b == a' + ":" + b'
    ensures a == a' && b == b'
  {
    var s := a + ":" + b;
    assert s[|a|] == ':' && s[|a'|] == ':';
    assert forall i :: 0 <= i < |a| ==> s[i] == a[i] && s[i] != ':';
    assert forall i :: 0 <= i < |a'| ==> s[i] == a'[i] && s[i] != ':';
    assert |a| == |a'|;
    assert a == s[..|a|] && a' == s[..|a|];
    assert b == s[|a| + 1..] && b' == s[|a| + 1..];
  }

  /** The pairs are equal, or one first part continues the other after a colon and the second parts make up for it. */
  ghost predicate SameJoined(a: string, b: string, a': string, b': string) {
    || (a == a' && b == b')
    || (exists x :: a' == a + ":" + x && b == x + ":" + b')
    || (exists x :: a == a' + ":" + x && b' == x + ":" + b)
  }

  /** When two joined pairs read the same. */
  lemma JoinsClashExactly(a: string, b: string, a': string, b': string)
    ensures a + ":" + b == a' + ":" + b' <==> SameJoined(a, b, a', b')
  {
    if a + ":" + b == a' + ":" + b' {
      if |a| <= |a'| {
        LongerFirst(a, b, a', b');
      } else {
        LongerFirst(a', b', a, b);
      }
    }
    if exists x :: a' == a + ":" + x && b == x + ":" + b' {
      var x :| a' == a + ":" + x && b == x + ":" + b';
      assert (a + ":" + x) + ":" + b' == a + ":" + (x + ":" + b');
    }
    if exists x :: a == a' + ":" + x && b' == x + ":" + b {
      var x :| a == a' + ":" + x && b' == x + ":" + b;
      assert (a' + ":" + x) + ":" + b == a' + ":" + (x + ":" + b);
    }
  }

  lemma LongerFirst(a: string, b: string, a': string, b': string)
    requires a + ":" + b == a' + ":" + b' && |a| <= |a'|
    ensures (a == a' && b == b') || exists x :: a' == a + ":" + x && b == x + ":" + b'
  {
    var s := a + ":" + b;
    assert a == s[..|a|] == a'[..|a|];
    assert b == s[|a| + 1..] && b' == s[|a'| + 1..];
    if |a| < |a'| {
      var x := a'[|a| + 1..];
      assert a'[|a|] == s[|a|] == ':';
      assert a' == a + ":" + x;
      assert b == x + ":" + b';
    }
  }

  lemma {:induction false} ColonsConcat(a: string, b: string)
    ensures Colons(a + b) == Colons(a) + Colons(b)
  {
    if a == [] {
      assert a + b == b;
    } else {
      assert (a + b)[1..] == a[1..] + b;
      ColonsConcat(a[1..], b);
    }
  }

  lemma {:induction false} NoColonsCount(s: string)
    ensures Colons(s) == 0 <==> NoColon(s)
  {
    if s != [] {
      assert s == [s[0]] + s[1..];
      NoColonsCount(s[1..]);
    }
  }

  /** Last parts with the same number of colons can be read back, whatever precedes them. */
  lemma SplitLast(a: string, b: string, a': string, b': string)
    requires Colons(b) == Colons(b') && a + ":" + b == a' + ":" + b'
    ensures a == a' && b == b'
  {
    if |b| < |b'| {
      LongerHasMore(a, b, a', b');
    } else if |b'| < |b| {
      LongerHasMore(a', b', a, b);
    } else {
      var s := a + ":" + b;
      assert |a| == |a'|;
      assert a == s[..|a|] && a' == s[..|a|];
      assert b == s[|a| + 1..] && b' == s[|a| + 1..];
    }
  }

  lemma LongerHasMore(a: string, b: string, a': string, b': string)
    requires a + ":" + b == a' + ":" + b' && |b| < |b'|
    ensures Colons(b) < Colons(b')
  {
    var s := a + ":" + b;
    var mid := s[|a'| + 1..|a|];
    assert b' == s[|a'| + 1..];
    assert b' == mid + (":" + b);
    ColonsConcat(mid, ":" + b);
    ColonsConcat(":", b);
  }

  // ---------- Numbers in keys ----------

  function Digit(d: nat): char
    requires d < 10
  {
    "0123456789"[d]
  }

  function Digits(n: nat): string {
    if n < 10 then [Digit(n)] else Digits(n / 10) + [Digit(n % 10)]
  }

  function Decimal(n: int): string {
    if n < 0 then "-" + Digits(-n) else Digits(n)
  }

  lemma {:induction false} DigitsAreDigits(n: nat)
    ensures Digits(n) != [] && forall c :: c in Digits(n) ==> c in "0123456789"
  {
    if 10 <= n {
      DigitsAreDigits(n / 10);
    }
  }

  lemma {:induction false} DigitsInjective(m: nat, n: nat)
    requires Digits(m) == Digits(n)
    ensures m == n
  {
    var s := Digits(m);
    DigitsAreDigits(m / 10);
    DigitsAreDigits(n / 10);
    if 10 <= m && 10 <= n {
      assert s[..|s| - 1] == Digits(m / 10) && s[..|s| - 1] == Digits(n / 10);
      assert s[|s| - 1] == Digit(m % 10) && s[|s| - 1] == Digit(n % 10);
      DigitsInjective(m / 10, n / 10);
      assert m == m / 10 * 10 + m % 10 && n == n / 10 * 10 + n % 10;
    }
  }

  lemma DecimalInjective(m: int, n: int)
    requires Decimal(m) == Decimal(n)
    ensures m == n
  {
    DigitsAreDigits(if m < 0 then -m else m);
    DigitsAreDigits(if n < 0 then -n else n);
    assert (m < 0) == (Decimal(m)[0] == '-') by {
      assert 0 <= m ==> Decimal(m)[0] in Digits(m);
    }
    assert (n < 0) == (Decimal(n)[0] == '-') by {
      assert 0 <= n ==> Decimal(n)[0] in Digits(n);
    }
    if m < 0 {
      assert Decimal(m)[1..] == Digits(-m) && Decimal(n)[1..] == Digits(-n);
      DigitsInjective(-m, -n);
    } else {
      DigitsInjective(m, n);
    }
  }

  lemma DecimalHasNoColon(n: int)
    ensures NoColon(Decimal(n))
  {
    DigitsAreDigits(if n < 0 then -n else n);
  }

  // ---------- Reading numbers back ----------

  function DigitValue(c: char): nat {
    if '0' <= c <= '9' then (c - '0') as nat else 0
  }

  function NumberOf(s: string): nat {
    if s == [] then 0 else NumberOf(s[..|s| - 1]) * 10 + DigitValue(s[|s| - 1])
  }

  /** Numbers are written in decimal: reading the digits gives the number back. */
  lemma {:induction false} DigitsReadBack(n: nat)
    ensures NumberOf(Digits(n)) == n
  {
    if 10 <= n {
      DigitsReadBack(n / 10);
      var s := Digits(n);
      assert s[..|s| - 1] == Digits(n / 10);
    } else {
      assert Digits(n)[..0] == [];
    }
  }

  lemma DecimalReadsBack(n: int)
    ensures if n < 0 then Decimal(n) != [] && Decimal(n)[0] == '-' && NumberOf(Decimal(n)[1..]) == -n
            else NumberOf(Decimal(n)) == n
  {
    DigitsReadBack(if n < 0 then -n else n);
  }
}
