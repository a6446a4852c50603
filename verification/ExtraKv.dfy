/** Accounting of the cache blocks that loads and saves hold beyond the engine's own use: a table
    of tracked operations and two reference-count tables, in total and per kind. */
module ExtraKv {
  datatype Kind = Load | Save

  datatype Key = Key(kind: Kind, req: string)

  /** The tracked operations that hold a block, all of them or those of one kind. */
  ghost function Holders(ids: map<Key, set<nat>>, b: nat): set<Key> {
    set k | k in ids && b in ids[k]
  }

  ghost function HoldersOf(ids: map<Key, set<nat>>, kind: Kind, b: nat): set<Key> {
    set k | k in ids && k.kind == kind && b in ids[k]
  }

  function Get(m: map<nat, nat>, b: nat): nat {
    if b in m then m[b] else 0
  }

  /** No entry is kept for a block that nobody holds. */
  ghost predicate Positive(m: map<nat, nat>) {
    forall b :: b in m ==> m[b] > 0
  }

  method RaiseAll(m: map<nat, nat>, blocks: set<nat>) returns (r: map<nat, nat>)
    requires Positive(m)
    ensures Positive(r) && Raised(m, r, blocks)
  {
    r := m;
    var todo := blocks;
    while todo != {}
      invariant todo <= blocks && Positive(r)
      invariant forall b: nat :: Get(r, b) == Get(m, b) + if b in blocks - todo then 1 else 0
      decreases |todo|
    {
      var b :| b in todo;
      r := r[b := Get(r, b) + 1];
      todo := todo - {b};
    }
  }

  /** One reference less per block; an entry that reaches zero is deleted. */
  method LowerAll(m: map<nat, nat>, blocks: set<nat>) returns (r: map<nat, nat>)
    requires Positive(m) && forall b :: b in blocks ==> Get(m, b) > 0
    ensures Positive(r) && Raised(r, m, blocks)
  {
    r := m;
    var todo := blocks;
    while todo != {}
      invariant todo <= blocks && Positive(r)
      invariant forall b: nat :: Get(r, b) == Get(m, b) - if b in blocks - todo then 1 else 0
      decreases |todo|
    {
      var b :| b in todo;
      assert Get(r, b) > 0;
      r := r[b := r[b] - 1];
      if r[b] <= 0 {
        r := r - {b};
      }
      todo := todo - {b};
    }
  }

  /** A table counts the tracked operations of each block. */
  ghost predicate Total(m: map<nat, nat>, ids: map<Key, set<nat>>) {
    Positive(m) && forall b: nat :: Get(m, b) == |Holders(ids, b)|
  }

  ghost predicate OfKind(m: map<nat, nat>, ids: map<Key, set<nat>>, kind: Kind) {
    Positive(m) && forall b: nat :: Get(m, b) == |HoldersOf(ids, kind, b)|
  }

  /** How a table changes when an operation on some blocks is added or removed. */
  ghost predicate Raised(m: map<nat, nat>, r: map<nat, nat>, blocks: set<nat>) {
    forall b: nat :: Get(r, b) == Get(m, b) + if b in blocks then 1 else 0
  }

  lemma Tracked(was: map<Key, set<nat>>, key: Key, blocks: set<nat>, m: map<nat, nat>, r: map<nat, nat>)
    requires key !in was && Raised(m, r, blocks) && Positive(m) && Positive(r)
    ensures Total(m, was) <==> Total(r, was[key := blocks])
    ensures OfKind(m, was, key.kind) <==> OfKind(r, was[key := blocks], key.kind)
  {
    hide Holders, HoldersOf, Positive, Get;
    var ids := was[key := blocks];
    assert ids - {key} == was;
    forall b: nat
      ensures Get(m, b) == |Holders(was, b)| <==> Get(r, b) == |Holders(ids, b)|
      ensures Get(m, b) == |HoldersOf(was, key.kind, b)| <==> Get(r, b) == |HoldersOf(ids, key.kind, b)|
    {
      Removed(ids, key, b);
    }
  }

  lemma Elsewhere(was: map<Key, set<nat>>, key: Key, blocks: set<nat>, m: map<nat, nat>, other: Kind)
    requires key !in was && other != key.kind
    ensures OfKind(m, was, other) <==> OfKind(m, was[key := blocks], other)
  {
    hide HoldersOf, Positive, Get;
    forall b: nat ensures HoldersOf(was, other, b) == HoldersOf(was[key := blocks], other, b) {
      OtherKind(was[key := blocks], key, other, b);
      assert was[key := blocks] - {key} == was;
    }
  }

  class ExtraBlocks {
    var ids: map<Key, set<nat>>
    var refcounts: map<nat, nat>
    var loads: map<nat, nat>
    var saves: map<nat, nat>

    ghost predicate Valid()
      reads this
    {
      Total(refcounts, ids) && OfKind(loads, ids, Load) && OfKind(saves, ids, Save)
    }

    constructor ()
      ensures Valid() && ids == map[]
    {
      ids, refcounts, loads, saves := map[], map[], map[], map[];
      new;
      assert forall b: nat :: Holders(ids, b) == {};
      assert forall kind, b: nat :: HoldersOf(ids, kind, b) == {};
    }

    /** Forgets an operation; its blocks lose one reference in each table. */
    method Untrack(kind: Kind, req: string)
      requires Valid()
      modifies this
      ensures Valid() && ids == old(ids) - {Key(kind, req)}
    {
      hide Holders, HoldersOf, Positive;
      var key := Key(kind, req);
      if key !in ids {
        assert ids == ids - {key};
        return;
      }
      var blocks := ids[key];
      ids := ids - {key};
      assert old(ids) == ids[key := blocks];
      Present(old(ids), key, refcounts, if kind.Load? then loads else saves);
      refcounts := LowerAll(refcounts, blocks);
      Tracked(ids, key, blocks, refcounts, old(refcounts));
      if kind.Load? {
        loads := LowerAll(loads, blocks);
        Tracked(ids, key, blocks, loads, old(loads));
        Elsewhere(ids, key, blocks, saves, Save);
      } else {
        saves := LowerAll(saves, blocks);
        Tracked(ids, key, blocks, saves, old(saves));
        Elsewhere(ids, key, blocks, loads, Load);
      }
    }

    /** Tracks an operation, in place of an earlier one with the same key. */
    method Track(kind: Kind, req: string, blocks: set<nat>)
      requires Valid()
      modifies this
      ensures Valid()
      ensures ids == if blocks == {} then old(ids) - {Key(kind, req)} else old(ids)[Key(kind, req) := blocks]
    {
      hide Total, OfKind, Get;
      var key := Key(kind, req);
      Untrack(kind, req);
      if blocks == {} {
        return;
      }
      ghost var was, total, l, s := ids, refcounts, loads, saves;
      AllPositive(ids, refcounts, loads, saves);
      ids := ids[key := blocks];
      refcounts := RaiseAll(refcounts, blocks);
      Tracked(was, key, blocks, total, refcounts);
      if kind.Load? {
        loads := RaiseAll(loads, blocks);
        Tracked(was, key, blocks, l, loads);
        Elsewhere(was, key, blocks, saves, Save);
      } else {
        saves := RaiseAll(saves, blocks);
        Tracked(was, key, blocks, s, saves);
        Elsewhere(was, key, blocks, loads, Load);
      }
    }
  }

  lemma AllPositive(ids: map<Key, set<nat>>, total: map<nat, nat>, loads: map<nat, nat>, saves: map<nat, nat>)
    requires Total(total, ids) && OfKind(loads, ids, Load) && OfKind(saves, ids, Save)
    ensures Positive(total) && Positive(loads) && Positive(saves)
  {
  }

  /** The blocks of a tracked operation are counted. */
  lemma Present(ids: map<Key, set<nat>>, key: Key, total: map<nat, nat>, mine: map<nat, nat>)
    requires key in ids && Total(total, ids) && OfKind(mine, ids, key.kind)
    ensures forall b :: b in ids[key] ==> Get(total, b) > 0 && Get(mine, b) > 0
  {
    forall b | b in ids[key] ensures Get(total, b) > 0 && Get(mine, b) > 0 {
      Removed(ids, key, b);
    }
  }

  lemma Removed(ids: map<Key, set<nat>>, key: Key, b: nat)
    requires key in ids
    ensures |Holders(ids, b)| == |Holders(ids - {key}, b)| + if b in ids[key] then 1 else 0
    ensures |HoldersOf(ids, key.kind, b)| == |HoldersOf(ids - {key}, key.kind, b)| + if b in ids[key] then 1 else 0
  {
    var rest := ids - {key};
    if b in ids[key] {
      assert Holders(ids, b) == Holders(rest, b) + {key};
      assert HoldersOf(ids, key.kind, b) == HoldersOf(rest, key.kind, b) + {key};
    } else {
      assert Holders(ids, b) == Holders(rest, b);
      assert HoldersOf(ids, key.kind, b) == HoldersOf(rest, key.kind, b);
    }
  }

  lemma OtherKind(ids: map<Key, set<nat>>, key: Key, other: Kind, b: nat)
    requires other != key.kind
    ensures HoldersOf(ids, other, b) == HoldersOf(ids - {key}, other, b)
  {
  }
}
