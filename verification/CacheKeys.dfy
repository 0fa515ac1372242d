/** Cache keys: a whole file is cached under its path, chunk `i` under the path, ".chunk." and `i` in decimal. */
module CacheKeys {

  predicate IsDigit(c: char) {
    '0' <= c <= '9'
  }

  function DigitChar(n: nat): char
    requires n < 10
  {
    '0' + n as char
  }

  function Decimal(n: nat): (s: string)
    ensures s != "" && forall k :: 0 <= k < |s| ==> IsDigit(s[k])
  {
    if n < 10 then [DigitChar(n)] else Decimal(n / 10) + [DigitChar(n % 10)]
  }

  lemma {:induction false} DecimalInjective(m: nat, n: nat)
    requires Decimal(m) == Decimal(n)
    ensures m == n
    decreases m
  {
    var s := Decimal(m);
    assert s[|s| - 1] == DigitChar(m % 10) && s[|s| - 1] == DigitChar(n % 10);
    if 10 <= m && 10 <= n {
      assert s[..|s| - 1] == Decimal(m / 10) && s[..|s| - 1] == Decimal(n / 10);
      DecimalInjective(m / 10, n / 10);
    }
  }

  /** The number that a string of digits stands for. */
  function ValueOf(s: string): int {
    if s == "" then 0 else 10 * ValueOf(s[..|s| - 1]) + (s[|s| - 1] as int - '0' as int)
  }

  /** The decimal stands for the number, and does not start with a zero unless it is one. */
  lemma {:induction false} DecimalStandsFor(n: nat)
    ensures ValueOf(Decimal(n)) == n
    ensures Decimal(n)[0] == '0' <==> n == 0
  {
    if 10 <= n {
      DecimalStandsFor(n / 10);
      assert Decimal(n)[..|Decimal(n)| - 1] == Decimal(n / 10);
    } else {
      assert Decimal(n)[..0] == "";
    }
  }

  const MARK := ".chunk."

  function ChunkKey(p: string, i: nat): string {
    p + MARK + Decimal(i)
  }

  /** Different chunks of different paths never share a key. */
  lemma ChunkKeyInjective(p: string, i: nat, q: string, j: nat)
    requires ChunkKey(p, i) == ChunkKey(q, j)
    ensures p == q && i == j
  {
    var key := ChunkKey(p, i);
    DigitsAtTheEnd(p, i, q, j);
    assert key[|p + MARK|..] == Decimal(i);
    assert key[|q + MARK|..] == Decimal(j);
    DecimalInjective(i, j);
    assert key[..|p|] == p && key[..|q|] == q;
  }

  lemma DigitsAtTheEnd(p: string, i: nat, q: string, j: nat)
    requires ChunkKey(p, i) == ChunkKey(q, j)
    ensures |p| == |q|
  {
    var key := ChunkKey(p, i);
    var m, n := |p| + |MARK|, |q| + |MARK|;
    assert key[m - 1] == '.' && key[n - 1] == '.';
    assert forall k :: m <= k < |key| ==> IsDigit(key[k]) by {
      assert forall k :: m <= k < |key| ==> key[k] == Decimal(i)[k - m];
    }
    assert forall k :: n <= k < |key| ==> IsDigit(key[k]) by {
      assert forall k :: n <= k < |key| ==> key[k] == Decimal(j)[k - n];
    }
    assert !IsDigit('.');
  }
}
