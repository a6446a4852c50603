/** Division with remainder, as the address formulas use it. */
module Arith {

  function Min(a: nat, b: nat): (r: nat)
    ensures r <= a && r <= b && (r == a || r == b)
  {
    if a < b then a else b
  }

  /** Product of naturals. */
  function Times(a: nat, b: nat): nat {
    a * b
  }

  lemma MulMono(a: int, b: int, m: int)
    requires a <= b && 0 <= m
    ensures a * m <= b * m
  {
  }

  lemma MulStrict(a: int, b: int, m: int)
    requires a < b && 0 < m
    ensures a * m + m <= b * m
  {
    MulMono(a + 1, b, m);
    assert (a + 1) * m == a * m + m;
  }

  /** A quotient and a remainder below the modulus are determined by the number. */
  lemma DigitUnique(q: int, q': int, m: int, r: int, r': int)
    requires 0 <= r < m && 0 <= r' < m
    requires q * m + r == q' * m + r'
    ensures q == q' && r == r'
  {
    if q < q' { MulStrict(q, q', m); }
    if q' < q { MulStrict(q', q, m); }
  }

  lemma DivMod(q: int, m: int, r: int)
    requires 0 <= r < m
    ensures (q * m + r) / m == q && (q * m + r) % m == r
  {
    var x := q * m + r;
    assert x == x / m * m + x % m;
    DigitUnique(q, x / m, m, r, x % m);
  }

  lemma DivMod0(q: int, m: int)
    requires 0 < m
    ensures (q * m) / m == q && (q * m) % m == 0
  {
    DivMod(q, m, 0);
  }

  /** Splits w into page, cell and slot when a page is c cells of k slots. */
  lemma Digits(w: nat, k: nat, c: nat, m: nat) returns (q: nat, a: nat, b: nat)
    requires k > 0 && c > 0 && m == c * k
    ensures m > 0 && a < c && b < k
    ensures q == w / m && a == w % m / k && b == w % k
    ensures w == q * m + (a * k + b) && a * k + k <= m
  {
    MulMono(1, c, k);
    q := w / m;
    var r := w % m;
    a, b := r / k, r % k;
    assert r == a * k + b;
    if c <= a { MulMono(c, a, k); }
    MulStrict(a, c, k);
    assert w == (q * c + a) * k + b by {
      assert w == q * m + r && q * m == (q * c) * k;
      Distribute(q * c, a, k);
    }
    DivMod(q * c + a, k, b);
  }

  lemma Distribute(a: int, b: int, m: int)
    ensures (a + b) * m == a * m + b * m
  {
  }

  lemma Recompose(x: nat, q: nat, a: nat, b: nat, k: nat, m: nat)
    requires b < k && a * k + k <= m && x == q * m + (a * k + b)
    ensures m > 0 && x / m == q && x % m / k == a
  {
    DivMod(q, m, a * k + b);
    DivMod(a, k, b);
  }

  lemma SameQuotient(w: nat, i: nat, k: nat)
    requires k > 0 && w % k + i < k
    ensures (w + i) % k == w % k + i && (w + i) / k == w / k
  {
    DivMod(w / k, k, w % k + i);
  }

  /** Moving i slots inside one cell stays in the same cell and the same page. */
  lemma SameCell(w: nat, i: nat, k: nat, c: nat, m: nat)
    requires k > 0 && c > 0 && w % k + i < k && m == c * k
    ensures m > 0
    ensures (w + i) % k == w % k + i
    ensures (w + i) / m == w / m
    ensures (w + i) % m / k == w % m / k
  {
    SameQuotient(w, i, k);
    var q, a, b := Digits(w, k, c, m);
    Recompose(w + i, q, a, b + i, k, m);
  }

  lemma ExactDiv(a: nat, b: nat)
    requires b > 0 && a % b == 0
    ensures a == a / b * b
  {
  }

  /** Row-major position of index i in a dimension of the given size, inside position `outer`. */
  function Nest(outer: nat, size: nat, i: nat): nat {
    outer * size + i
  }

  lemma Associate(a: nat, b: nat, c: nat)
    ensures a * b * c == a * (b * c)
  {
  }

  /** Two inner dimensions are one of their joint size. */
  lemma NestFlat(a: nat, m: nat, i: nat, l: nat, j: nat)
    ensures Nest(Nest(a, m, i), l, j) == a * (m * l) + (i * l + j)
  {
    Distribute(a * m, i, l);
    Associate(a, m, l);
  }

  /** Page of token w, and its slot there. */
  function Page(w: nat, ntpb: nat): nat
    requires ntpb > 0
  {
    w / ntpb
  }

  function Slot(w: nat, ntpb: nat): (s: nat)
    requires ntpb > 0
    ensures s < ntpb
  {
    w % ntpb
  }

  /** Walking up to the page boundary, or short of it. */
  lemma StepTo(w: nat, tokens: nat, ntpb: nat)
    requires ntpb > 0 && Slot(w, ntpb) + tokens <= ntpb
    ensures Slot(w, ntpb) + tokens == ntpb ==> Page(w + tokens, ntpb) == Page(w, ntpb) + 1 && Slot(w + tokens, ntpb) == 0
    ensures Slot(w, ntpb) + tokens < ntpb ==> Page(w + tokens, ntpb) == Page(w, ntpb) && Slot(w + tokens, ntpb) == Slot(w, ntpb) + tokens
  {
    var q, r := w / ntpb, w % ntpb;
    if r + tokens == ntpb {
      Distribute(q, 1, ntpb);
      assert w + tokens == (q + 1) * ntpb;
      DivMod0(q + 1, ntpb);
    } else {
      assert w + tokens == q * ntpb + (r + tokens);
      DivMod(q, ntpb, r + tokens);
    }
  }

  lemma LastSlots(ntpb: nat, total: nat)
    requires ntpb > 0
    ensures Slot(total, ntpb) != 0 ==> Slot(total + (ntpb - Slot(total, ntpb)), ntpb) == 0
    ensures Slot(0, ntpb) == 0
  {
    StepTo(total, ntpb - Slot(total, ntpb), ntpb);
  }

  /** Slots left in the last page after `total` tokens; none when it is full or there is no token. */
  function Left(ntpb: nat, total: nat): (n: nat)
    requires ntpb > 0
    ensures n < ntpb && Slot(total + n, ntpb) == 0
  {
    LastSlots(ntpb, total);
    if total == 0 || Slot(total, ntpb) == 0 then 0 else ntpb - Slot(total, ntpb)
  }

  /** A table of pages with room for the tokens has room for the slots left. */
  lemma LeftCovered(ntpb: nat, total: nat, pages: nat)
    requires ntpb > 0 && total <= Times(pages, ntpb)
    ensures total + Left(ntpb, total) <= Times(pages, ntpb)
  {
    if Left(ntpb, total) > 0 {
      assert total == total / ntpb * ntpb + total % ntpb;
      if pages <= total / ntpb { MulMono(pages, total / ntpb, ntpb); }
      MulMono(total / ntpb + 1, pages, ntpb);
      Distribute(total / ntpb, 1, ntpb);
    }
  }

  lemma PageMono(a: nat, b: nat, n: nat)
    requires n > 0 && a <= b
    ensures Page(a, n) <= Page(b, n)
  {
    if b / n < a / n { MulStrict(b / n, a / n, n); }
  }
}
