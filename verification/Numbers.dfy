/** Division with remainder. */
module Numbers {

  lemma SmallMultiple(k: int, d: int)
    requires -d < k * d < d
    ensures k == 0
  {
  }

  lemma DivModUnique(n: nat, d: nat, q: nat, r: nat)
    requires d > 0 && n == q * d + r && r < d
    ensures n / d == q && n % d == r
  {
    assert (n / d - q) * d == r - n % d;
    SmallMultiple(n / d - q, d);
  }

  lemma ModSplit(n: nat, m: nat)
    requires m > 0
    ensures n % (256 * m) == (n / 256) % m * 256 + n % 256
  {
    var q, r := (n / 256) / m, (n / 256) % m;
    assert n / 256 == q * m + r;
    assert n == (q * m + r) * 256 + n % 256;
    assert n == q * (256 * m) + (r * 256 + n % 256);
    assert r <= m - 1;
    assert r * 256 <= (m - 1) * 256;
    DivModUnique(n, 256 * m, q, r * 256 + n % 256);
  }

  /** Counting round a cycle. */
  lemma ModStep(n: nat, h: nat)
    requires h >= 1
    ensures n % h < h - 1 ==> (n + 1) % h == n % h + 1 && (n + 1) / h == n / h
    ensures n % h == h - 1 ==> (n + 1) % h == 0 && (n + 1) / h == n / h + 1
  {
    var q, k := n / h, n % h;
    assert n == q * h + k;
    if k < h - 1 {
      DivModUnique(n + 1, h, q, k + 1);
    } else {
      assert n + 1 == (q + 1) * h;
      DivModUnique(n + 1, h, q + 1, 0);
    }
  }
}
