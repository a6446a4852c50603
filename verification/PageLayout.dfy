/** Paged attention caches.

    A page is `cells` kernel blocks of `kernel` token slots. A kernel block is a sequence of
    units; a unit holds the `row` bytes of every slot, for one K or V half and one `sub`.
    In the TokenMajor layout `sub` is a layer packed into the page and the units run
    (kernel block, layer, K/V); a row is all heads of a token. In the HeadMajor layout `sub`
    is a head, the units run (kernel block, K/V, head), and a row is one head of a token. */
module PageLayout {
  import opened Arith
  import opened Copies
  import opened Schedule
  import opened Sequences

  datatype Layout = TokenMajor | HeadMajor

  function Bit(v: bool): nat {
    if v then 1 else 0
  }

  /** One side's page geometry and the request's block table on that side. */
  datatype Side = Side(layout: Layout, pageTokens: nat, cells: nat, kernel: nat,
                       row: nat, blockSize: nat, blocks: seq<nat>) {
    /** The divisibility the parsers assert before they use a geometry, for k subs. */
    predicate Valid(k: nat) {
      && k > 0 && kernel > 0 && cells > 0 && row > 0 && pageTokens > 0
      && pageTokens == cells * kernel
      && blockSize == Times(Times(cells, 2 * k), UnitBytes())
    }

    /** The block table has a page for each of the first `tokens` tokens. */
    predicate Holds(tokens: nat) {
      tokens <= Capacity()
    }

    /** Token slots of the whole block table. */
    function Capacity(): nat {
      Times(|blocks|, pageTokens)
    }

    function UnitBytes(): nat {
      Times(kernel, row)
    }

    function PageBase(t: nat): nat {
      if pageTokens > 0 && t / pageTokens < |blocks|
      then Times(blocks[t / pageTokens], blockSize) else 0
    }

    /** Index of the token's kernel block in its page. */
    function CellOf(t: nat): nat {
      if pageTokens > 0 && kernel > 0 then t % pageTokens / kernel else 0
    }

    function SlotOf(t: nat): nat {
      if kernel > 0 then t % kernel else 0
    }

    /** Position of a unit in its page. */
    function Unit(k: nat, cell: nat, sub: nat, v: bool): nat {
      match layout
      case TokenMajor => Times(Times(cell, k) + sub, 2) + Bit(v)
      case HeadMajor => Times(Times(cell, 2) + Bit(v), k) + sub
    }

    /** The address function of the layout: where `sub` keeps K (v false) or V (v true) of
        token t. */
    function Offset(k: nat, t: nat, sub: nat, v: bool): nat {
      PageBase(t) + Times(Unit(k, CellOf(t), sub, v), UnitBytes()) + Times(SlotOf(t), row)
    }
  }

  lemma HeldIndex(g: Side, k: nat, tokens: nat, t: nat)
    requires g.Valid(k) && g.Holds(tokens) && t < tokens
    ensures g.pageTokens > 0 && t / g.pageTokens < |g.blocks|
  {
    var q := t / g.pageTokens;
    assert q * g.pageTokens <= t;
    if |g.blocks| <= q { MulMono(|g.blocks|, q, g.pageTokens); }
  }

  lemma Positive(g: Side, k: nat)
    requires g.Valid(k)
    ensures g.pageTokens > 0 && g.kernel > 0 && g.row > 0
  {
  }

  /** Inside a kernel block the rows of consecutive tokens are adjacent. */
  lemma RowAt(g: Side, k: nat, w: nat, i: nat, sub: nat, v: bool)
    requires g.Valid(k) && g.SlotOf(w) + i < g.kernel
    ensures g.Offset(k, w + i, sub, v) == g.Offset(k, w, sub, v) + Times(i, g.row)
  {
    SameCell(w, i, g.kernel, g.cells, g.pageTokens);
    assert g.PageBase(w + i) == g.PageBase(w) && g.CellOf(w + i) == g.CellOf(w) && g.SlotOf(w + i) == g.SlotOf(w) + i;
    Distribute(g.SlotOf(w), i, g.row);
    hide Side.Unit;
  }

  // ---------------------------------------------------------------------------
  // The address function is injective
  // ---------------------------------------------------------------------------

  lemma CellBelow(g: Side, k: nat, t: nat)
    requires g.Valid(k)
    ensures g.CellOf(t) < g.cells && g.SlotOf(t) < g.kernel
    ensures t == t / g.pageTokens * g.pageTokens + (g.CellOf(t) * g.kernel + g.SlotOf(t))
  {
    var q, a, b := Digits(t, g.kernel, g.cells, g.pageTokens);
  }

  lemma TimesBelow(a: nat, n: nat, m: nat, e: nat)
    requires a < n && e < m
    ensures Times(a, m) + e < Times(n, m)
  {
    MulStrict(a, n, m);
  }

  lemma UnitBelow(g: Side, k: nat, cell: nat, sub: nat, v: bool)
    requires cell < g.cells && sub < k
    ensures g.Unit(k, cell, sub, v) < Times(g.cells, 2 * k)
  {
    match g.layout
    case TokenMajor =>
      TimesBelow(cell, g.cells, k, sub);
      TimesBelow(Times(cell, k) + sub, Times(g.cells, k), 2, Bit(v));
      assert g.cells * k * 2 == g.cells * (2 * k);
    case HeadMajor =>
      TimesBelow(cell, g.cells, 2, Bit(v));
      TimesBelow(Times(cell, 2) + Bit(v), Times(g.cells, 2), k, sub);
      assert g.cells * 2 * k == g.cells * (2 * k);
  }

  lemma UnitInjective(g: Side, k: nat, cell: nat, sub: nat, v: bool, cell': nat, sub': nat, v': bool)
    requires sub < k && sub' < k && g.Unit(k, cell, sub, v) == g.Unit(k, cell', sub', v')
    ensures cell == cell' && sub == sub' && v == v'
  {
    match g.layout
    case TokenMajor =>
      DigitUnique(Times(cell, k) + sub, Times(cell', k) + sub', 2, Bit(v), Bit(v'));
      DigitUnique(cell, cell', k, sub, sub');
    case HeadMajor =>
      DigitUnique(Times(cell, 2) + Bit(v), Times(cell', 2) + Bit(v'), k, sub, sub');
      DigitUnique(cell, cell', 2, Bit(v), Bit(v'));
  }

  /** Byte e of a row, digit by digit: offset in the page and in the unit. */
  lemma Decompose(g: Side, k: nat, t: nat, sub: nat, v: bool, e: nat) returns (y: nat, z: nat)
    requires g.Valid(k) && sub < k && e < g.row
    ensures g.Offset(k, t, sub, v) + e == g.PageBase(t) + y && y < g.blockSize
    ensures y == g.Unit(k, g.CellOf(t), sub, v) * g.UnitBytes() + z && z < g.UnitBytes()
    ensures z == g.SlotOf(t) * g.row + e
  {
    CellBelow(g, k, t);
    TimesBelow(g.SlotOf(t), g.kernel, g.row, e);
    z := Times(g.SlotOf(t), g.row) + e;
    UnitBelow(g, k, g.CellOf(t), sub, v);
    TimesBelow(g.Unit(k, g.CellOf(t), sub, v), Times(g.cells, 2 * k), g.UnitBytes(), z);
    y := Times(g.Unit(k, g.CellOf(t), sub, v), g.UnitBytes()) + z;
    hide Side.Unit;
  }

  lemma SameDigits(g: Side, k: nat, t: nat, sub: nat, v: bool, e: nat, t': nat, sub': nat, v': bool, e': nat)
    requires g.Valid(k) && t / g.pageTokens < |g.blocks| && t' / g.pageTokens < |g.blocks|
    requires sub < k && sub' < k && e < g.row && e' < g.row
    requires g.Offset(k, t, sub, v) + e == g.Offset(k, t', sub', v') + e'
    ensures g.blocks[t / g.pageTokens] == g.blocks[t' / g.pageTokens]
    ensures g.CellOf(t) == g.CellOf(t') && sub == sub' && v == v' && g.SlotOf(t) == g.SlotOf(t') && e == e'
  {
    hide Side.Offset, Side.CellOf, Side.SlotOf, Side.UnitBytes, Side.Unit;
    var y, z := Decompose(g, k, t, sub, v, e);
    var y', z' := Decompose(g, k, t', sub', v', e');
    DigitUnique(g.blocks[t / g.pageTokens], g.blocks[t' / g.pageTokens], g.blockSize, y, y');
    DigitUnique(g.Unit(k, g.CellOf(t), sub, v), g.Unit(k, g.CellOf(t'), sub', v'), g.UnitBytes(), z, z');
    UnitInjective(g, k, g.CellOf(t), sub, v, g.CellOf(t'), sub', v');
    DigitUnique(g.SlotOf(t), g.SlotOf(t'), g.row, e, e');
  }

  /** Two rows of a layout share a byte only if they are the same row. */
  lemma RowsDisjoint(g: Side, k: nat, t: nat, sub: nat, v: bool, e: nat, t': nat, sub': nat, v': bool, e': nat)
    requires g.Valid(k) && Distinct(g.blocks)
    requires t / g.pageTokens < |g.blocks| && t' / g.pageTokens < |g.blocks|
    requires sub < k && sub' < k && e < g.row && e' < g.row
    requires g.Offset(k, t, sub, v) + e == g.Offset(k, t', sub', v') + e'
    ensures t == t' && sub == sub' && v == v' && e == e'
  {
    hide *;
    Positive(g, k);
    SameDigits(g, k, t, sub, v, e, t', sub', v', e');
    SamePage(g.blocks, t / g.pageTokens, t' / g.pageTokens);
    SameToken(g, k, t, t');
  }

  lemma SamePage(blocks: seq<nat>, i: nat, j: nat)
    requires Distinct(blocks) && i < |blocks| && j < |blocks| && blocks[i] == blocks[j]
    ensures i == j
  {
  }

  lemma SameToken(g: Side, k: nat, t: nat, t': nat)
    requires g.Valid(k) && t / g.pageTokens == t' / g.pageTokens
    requires g.CellOf(t) == g.CellOf(t') && g.SlotOf(t) == g.SlotOf(t')
    ensures t == t'
  {
    hide Side.CellOf, Side.SlotOf;
    CellBelow(g, k, t);
    CellBelow(g, k, t');
  }

  // ---------------------------------------------------------------------------
  // Rows as write targets
  // ---------------------------------------------------------------------------

  /** Byte x lies in a K or V row of one of the tokens [lo, hi). */
  ghost predicate InRows(g: Side, k: nat, lo: nat, hi: nat, x: int) {
    exists t: nat, sub: nat, v: bool ::
      lo <= t < hi && sub < k && g.Offset(k, t, sub, v) <= x < g.Offset(k, t, sub, v) + g.row
  }

  function Rows(g: Side, k: nat): PacketFn {
    (t: nat, sub: nat, v: bool) => IpcBlock(0, g.Offset(k, t, sub, v), g.row)
  }

  lemma RowsOneOwner(g: Side, k: nat, lo: nat, hi: nat, x: int)
    requires g.Valid(k) && g.Holds(hi) && Distinct(g.blocks)
    ensures OneOwner(Rows(g, k), x, lo, hi, k)
  {
    hide Side.Offset;
    var f := Rows(g, k);
    forall t: nat, t': nat, sub: nat, sub': nat, v: bool, v': bool |
      lo <= t < hi && lo <= t' < hi && sub < k && sub' < k
      && Owned(f, x, t, sub, v) && Owned(f, x, t', sub', v')
      ensures t == t' && sub == sub' && v == v'
    {
      HeldIndex(g, k, hi, t);
      HeldIndex(g, k, hi, t');
      RowsDisjoint(g, k, t, sub, v, x - g.Offset(k, t, sub, v), t', sub', v', x - g.Offset(k, t', sub', v'));
    }
  }

  /** Writing the rows of a token range writes each of their bytes once, and no other. */
  lemma RowsWrites(g: Side, k: nat, lo: nat, hi: nat, x: int)
    requires g.Valid(k) && g.Holds(hi) && lo <= hi && Distinct(g.blocks)
    ensures Writes(RangePackets(Rows(g, k), lo, hi, k), x) == if InRows(g, k, lo, hi, x) then 1 else 0
  {
    hide RangePackets, WritesToCount, Side.Offset;
    var f := Rows(g, k);
    if InRows(g, k, lo, hi, x) {
      var t: nat, sub: nat, v: bool :|
        lo <= t < hi && sub < k && g.Offset(k, t, sub, v) <= x < g.Offset(k, t, sub, v) + g.row;
      RowsOneOwner(g, k, lo, hi, x);
      assert Owned(f, x, t, sub, v);
      RangeWritesOne(f, x, lo, hi, k, t, sub, v);
    } else {
      RangeWritesNone(f, x, lo, hi, k);
    }
  }

  // ---------------------------------------------------------------------------
  // Rows stay inside the tensor
  // ---------------------------------------------------------------------------

  /** Every block id of the table is one of the tensor's pages. */
  ghost predicate BlocksBelow(g: Side, pages: nat) {
    forall i :: 0 <= i < |g.blocks| ==> g.blocks[i] < pages
  }

  lemma RowEnd(g: Side, k: nat, hi: nat, t: nat, sub: nat, v: bool, pages: nat)
    requires g.Valid(k) && g.Holds(hi) && t < hi && sub < k && BlocksBelow(g, pages)
    ensures g.Offset(k, t, sub, v) + g.row <= Times(pages, g.blockSize)
  {
    HeldIndex(g, k, hi, t);
    var y, z := Decompose(g, k, t, sub, v, g.row - 1);
    hide Side.Offset, Side.Unit;
    var id := g.blocks[t / g.pageTokens];
    TimesBelow(id, pages, g.blockSize, y);
  }

  lemma PageBytesPositive(g: Side, k: nat)
    requires g.Valid(k)
    ensures g.blockSize > 0
  {
    TimesBelow(0, g.kernel, g.row, 0);
    TimesBelow(0, g.cells, 2 * k, 0);
    TimesBelow(0, Times(g.cells, 2 * k), g.UnitBytes(), 0);
  }
}
