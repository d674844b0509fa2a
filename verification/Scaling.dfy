/** Products and quotients by a block size or a stride, kept behind names so that proofs about
    addresses and blocks stay linear. */
module Scaling {

  function Scale(a: nat, n: nat): nat { a * n }

  function Quot(x: nat, n: nat): nat
    requires n > 0
  {
    x / n
  }

  function Rem(x: nat, n: nat): nat
    requires n > 0
  {
    x % n
  }

  function CeilDiv(x: nat, n: nat): nat
    requires n > 0
  {
    Quot(x + n - 1, n)
  }

  lemma ScaleNext(a: nat, n: nat)
    ensures Scale(a + 1, n) == Scale(a, n) + n
  {
  }

  lemma ScaleOne(n: nat)
    ensures Scale(0, n) == 0 && Scale(1, n) == n
  {
  }

  lemma ScaleMonotone(a: nat, b: nat, n: nat)
    ensures a <= b ==> Scale(a, n) <= Scale(b, n)
    ensures a < b ==> Scale(a, n) + n <= Scale(b, n)
  {
    if a < b {
      assert a * n + n == (a + 1) * n <= b * n;
    }
  }

  lemma Divide(x: nat, n: nat)
    requires n > 0
    ensures x == Scale(Quot(x, n), n) + Rem(x, n) && Rem(x, n) < n
  {
  }

  lemma QuotientUnique(x: nat, n: nat, q: nat, m: nat)
    requires m < n && x == Scale(q, n) + m
    ensures Quot(x, n) == q && Rem(x, n) == m
  {
    Divide(x, n);
    ScaleMonotone(Quot(x, n), q, n);
    ScaleMonotone(q, Quot(x, n), n);
    hide Quot, Rem, Scale;
  }

  lemma QuotientMonotone(x: nat, y: nat, n: nat)
    requires n > 0 && x <= y
    ensures Quot(x, n) <= Quot(y, n)
  {
    Divide(x, n);
    Divide(y, n);
    ScaleMonotone(Quot(y, n), Quot(x, n), n);
    hide Quot, Rem, Scale;
  }

  lemma QuotPositive(x: nat, n: nat)
    requires 0 < n <= x
    ensures Quot(x, n) > 0
  {
    ScaleOne(n);
    QuotientUnique(n, n, 1, 0);
    QuotientMonotone(n, x, n);
  }

  lemma ScaleSwap(a: nat, b: nat)
    ensures Scale(a, b) == Scale(b, a)
  {
  }
}
