/**
 * The idle queue of the tid registration cache (ptl_ips/ips_tidcache.h):
 * a circular doubly linked list threaded through the entry array root[]
 * by 16-bit indices, with entry 0 (IHEAD) as its sentinel and nidle
 * counting its members; and END(x), the end address of an entry.
 */
module TidCache {
  import opened Words

  const IHEAD: u16 := 0
  /** A page is 4 KiB: LENGTH(x) << 12. */
  const PAGE_SIZE: nat := 4096

  /** cl_map_item_t without its tree pointers: the cached range and tid,
      the bookkeeping words, and the two idle-queue links. */
  datatype Item = Item(start: u64, tidinfo: u32, length: u16, color: u16, invalidate: u16,
                       refcount: u16, iPrev: u16, iNext: u16)

  /** END(x): the address one past the registered range. `start` is an
      unsigned long, so the sum wraps modulo 2^64; the shifted length,
      at most 0xFFFF << 12, fits the int it is computed in. */
  function End(it: Item): (e: u64)
    ensures it.start + it.length * PAGE_SIZE < 0x1_0000_0000_0000_0000 ==>
              e - it.start == it.length * PAGE_SIZE
    ensures it.start + it.length * PAGE_SIZE >= 0x1_0000_0000_0000_0000 ==> e < it.start
    ensures e % PAGE_SIZE == it.start % PAGE_SIZE
  {
    (it.start + it.length * PAGE_SIZE) % 0x1_0000_0000_0000_0000
  }

  /** Position `j` of the ring IHEAD, idle[0], ..., idle[n-1], IHEAD. */
  function At(idle: seq<u16>, j: nat): (e: u16)
    requires j <= |idle| + 1
    ensures j == 0 || j == |idle| + 1 ==> e == IHEAD
    ensures 0 < j <= |idle| ==> e == idle[j - 1]
  {
    if j == 0 || j == |idle| + 1 then IHEAD else idle[j - 1]
  }

  /** `idle` lists distinct entries of `root`, none of them the sentinel. */
  predicate Members(root: seq<Item>, idle: seq<u16>)
  {
    && 0 < |root|
    && (forall k :: 0 <= k < |idle| ==> IHEAD < idle[k] < |root|)
    && Distinct(idle)
  }

  predicate Distinct(s: seq<u16>)
  {
    forall j, k :: 0 <= j < k < |s| ==> s[j] != s[k]
  }

  /** Every link of `root` names an entry of `root`. */
  predicate InRange(root: seq<Item>)
  {
    forall i :: 0 <= i < |root| ==> root[i].iPrev < |root| && root[i].iNext < |root|
  }

  /** Following iNext from IHEAD visits idle[0], ..., idle[n-1] and comes
      back to IHEAD; iPrev walks the same ring backwards. */
  predicate Linked(root: seq<Item>, idle: seq<u16>)
    requires Members(root, idle)
  {
    NextLinked(root, idle) && PrevLinked(root, idle)
  }

  predicate NextLinked(root: seq<Item>, idle: seq<u16>)
    requires Members(root, idle)
  {
    forall j :: 0 <= j <= |idle| ==> root[At(idle, j)].iNext == At(idle, j + 1)
  }

  predicate PrevLinked(root: seq<Item>, idle: seq<u16>)
    requires Members(root, idle)
  {
    forall j :: 1 <= j <= |idle| + 1 ==> root[At(idle, j)].iPrev == At(idle, j - 1)
  }

  predicate IdleRing(root: seq<Item>, idle: seq<u16>)
  {
    Members(root, idle) && InRange(root) && Linked(root, idle)
  }

  /** The ring passes through each idle entry once. */
  lemma AtDistinct(root: seq<Item>, idle: seq<u16>, i: nat, j: nat)
    requires Members(root, idle) && i < j <= |idle| + 1 && (i, j) != (0, |idle| + 1)
    ensures At(idle, i) != At(idle, j)
  {
    if 0 < i {
      assert At(idle, i) == idle[i - 1];
    }
  }

  /** The first idle entry, or IHEAD when there is none. */
  lemma FirstIdle(root: seq<Item>, idle: seq<u16>)
    requires IdleRing(root, idle)
    ensures root[IHEAD].iNext == At(idle, 1)
    ensures root[At(idle, 1)].iPrev == IHEAD
  {
    assert At(idle, 0) == IHEAD;
  }

  /** IDLE_INSERT(x) on the entry array, write by write; each link is read
      after the writes before it, as the macro reads it. IHEAD then leads to
      `x`, and `x` sits between IHEAD and the old first entry. */
  function Inserted(root: seq<Item>, x: u16): (r: seq<Item>)
    requires x < |root| && InRange(root)
    ensures |r| == |root|
    ensures r[IHEAD].iNext == x
    ensures x != IHEAD ==> r[x].iNext == root[IHEAD].iNext && r[root[IHEAD].iNext].iPrev == x
    ensures x != IHEAD && x != root[IHEAD].iNext ==> r[x].iPrev == IHEAD
  {
    var r1 := root[x := root[x].(iNext := root[IHEAD].iNext)];
    var r2 := r1[x := r1[x].(iPrev := IHEAD)];
    var r3 := r2[r2[IHEAD].iNext := r2[r2[IHEAD].iNext].(iPrev := x)];
    r3[IHEAD := r3[IHEAD].(iNext := x)]
  }

  /** IDLE_REMOVE(x) on the entry array, write by write, reading each link
      after the write before it. Unless `x` is its own predecessor, x's
      neighbours then lead to each other. */
  function Removed(root: seq<Item>, x: u16): (r: seq<Item>)
    requires x < |root| && InRange(root)
    ensures |r| == |root|
    ensures root[x].iPrev != x ==>
              r[root[x].iPrev].iNext == root[x].iNext && r[root[x].iNext].iPrev == root[x].iPrev
  {
    var r1 := root[root[x].iPrev := root[root[x].iPrev].(iNext := root[x].iNext)];
    r1[r1[x].iNext := r1[r1[x].iNext].(iPrev := r1[x].iPrev)]
  }

  /** Two entries agree on everything but their idle-queue links. */
  predicate SameData(a: Item, b: Item)
  {
    a.(iPrev := 0, iNext := 0) == b.(iPrev := 0, iNext := 0)
  }

  /** What IDLE_INSERT writes: x's two links, the old first entry's iPrev
      and IHEAD's iNext, and nothing else. */
  lemma InsertedEntry(root: seq<Item>, x: u16, i: nat)
    requires x < |root| && InRange(root) && i < |root| && x != IHEAD
    ensures var first, r := root[IHEAD].iNext, Inserted(root, x);
            && SameData(r[i], root[i])
            && r[i].iNext == (if i == IHEAD then x else if i == x then first else root[i].iNext)
            && r[i].iPrev == (if i == first then x else if i == x then IHEAD else root[i].iPrev)
  {
  }

  /** What IDLE_REMOVE writes: its predecessor's iNext and its successor's
      iPrev, and nothing else. */
  lemma RemovedEntry(root: seq<Item>, x: u16, i: nat)
    requires x < |root| && InRange(root) && i < |root| && root[x].iPrev != x
    ensures var prev, next, r := root[x].iPrev, root[x].iNext, Removed(root, x);
            && SameData(r[i], root[i])
            && r[i].iNext == (if i == prev then next else root[i].iNext)
            && r[i].iPrev == (if i == next then prev else root[i].iPrev)
  {
  }

  /** IDLE_INSERT makes `x` the first idle entry, in front of the old
      first one, and changes only the links of IHEAD, `x` and the old first
      entry. */
  lemma InsertLinks(root: seq<Item>, idle: seq<u16>, x: u16)
    requires IdleRing(root, idle) && IHEAD < x < |root| && x !in idle
    ensures var first, r := root[IHEAD].iNext, Inserted(root, x);
            && r[IHEAD].iNext == x && r[x].iPrev == IHEAD
            && r[x].iNext == first && r[first].iPrev == x
            && first == (if idle == [] then IHEAD else idle[0])
            && (forall i :: 0 <= i < |root| ==> SameData(r[i], root[i]))
            && (forall i :: 0 <= i < |root| && i != IHEAD && i != x && i != first ==> r[i] == root[i])
  {
    FirstIdle(root, idle);
    var r := Inserted(root, x);
    forall i | 0 <= i < |root|
      ensures SameData(r[i], root[i])
      ensures i != IHEAD && i != x && i != root[IHEAD].iNext ==> r[i] == root[i]
    {
      InsertedEntry(root, x, i);
    }
  }

  /** IDLE_REMOVE joins x's predecessor to its successor, both ways, and
      changes nothing else: not x's own links, and no other entry. */
  lemma RemoveLinks(root: seq<Item>, idle: seq<u16>, k: nat)
    requires IdleRing(root, idle) && k < |idle|
    ensures var x := idle[k];
            var prev, next, r := root[x].iPrev, root[x].iNext, Removed(root, x);
            && r[prev].iNext == next && r[next].iPrev == prev
            && r[x] == root[x]
            && (forall i :: 0 <= i < |root| ==> SameData(r[i], root[i]))
            && (forall i :: 0 <= i < |root| && i != prev && i != next ==> r[i] == root[i])
  {
    var x := idle[k];
    Neighbours(root, idle, k);
    var r := Removed(root, x);
    forall i | 0 <= i < |root|
      ensures SameData(r[i], root[i])
      ensures i != root[x].iPrev && i != root[x].iNext ==> r[i] == root[i]
    {
      RemovedEntry(root, x, i);
    }
    RemovedEntry(root, x, x);
    RemovedEntry(root, x, root[x].iPrev);
    RemovedEntry(root, x, root[x].iNext);
  }

  /** IDLE_INSERT keeps the ring well linked, with `x` at its front. */
  lemma InsertKeepsRing(root: seq<Item>, idle: seq<u16>, x: u16)
    requires IdleRing(root, idle) && IHEAD < x < |root| && x !in idle
    ensures IdleRing(Inserted(root, x), [x] + idle)
  {
    var r, idle' := Inserted(root, x), [x] + idle;
    assert Members(r, idle');
    assert InRange(r) by {
      forall i | 0 <= i < |r| ensures r[i].iPrev < |r| && r[i].iNext < |r| {
        InsertedEntry(root, x, i);
      }
    }
    InsertNextLinks(root, idle, x);
    InsertPrevLinks(root, idle, x);
  }

  lemma InsertNextLinks(root: seq<Item>, idle: seq<u16>, x: u16)
    requires IdleRing(root, idle) && IHEAD < x < |root| && x !in idle
    requires Members(Inserted(root, x), [x] + idle)
    ensures NextLinked(Inserted(root, x), [x] + idle)
  {
    FirstIdle(root, idle);
    var r, idle' := Inserted(root, x), [x] + idle;
    forall j | 0 <= j <= |idle'| ensures r[At(idle', j)].iNext == At(idle', j + 1) {
      InsertedEntry(root, x, At(idle', j));
      if j >= 2 {
        assert At(idle', j) == At(idle, j - 1) && At(idle', j + 1) == At(idle, j);
        assert At(idle, j - 1) != x;
      }
    }
  }

  lemma InsertPrevLinks(root: seq<Item>, idle: seq<u16>, x: u16)
    requires IdleRing(root, idle) && IHEAD < x < |root| && x !in idle
    requires Members(Inserted(root, x), [x] + idle)
    ensures PrevLinked(Inserted(root, x), [x] + idle)
  {
    FirstIdle(root, idle);
    var r, idle' := Inserted(root, x), [x] + idle;
    forall j | 1 <= j <= |idle'| + 1 ensures r[At(idle', j)].iPrev == At(idle', j - 1) {
      InsertedEntry(root, x, At(idle', j));
      assert At(idle, 1) != x;
      if j >= 2 {
        assert At(idle', j) == At(idle, j - 1);
      }
      if j >= 3 {
        assert At(idle', j - 1) == At(idle, j - 2);
        AtDistinct(root, idle, 1, j - 1);
      }
    }
  }

  /** IDLE_REMOVE splices `x`, the k-th idle entry, out of the ring: it is
      no longer idle, and the others keep their order. */
  lemma RemoveKeepsRing(root: seq<Item>, idle: seq<u16>, k: nat)
    requires IdleRing(root, idle) && k < |idle|
    ensures IdleRing(Removed(root, idle[k]), Without(idle, k))
    ensures idle[k] !in Without(idle, k)
  {
    var x := idle[k];
    var r, idle' := Removed(root, x), Without(idle, k);
    RemoveMembers(root, idle, k);
    Neighbours(root, idle, k);
    assert InRange(r) by {
      forall i | 0 <= i < |r| ensures r[i].iPrev < |r| && r[i].iNext < |r| {
        RemovedEntry(root, x, i);
      }
    }
    RemoveNextLinks(root, idle, k);
    RemovePrevLinks(root, idle, k);
  }

  /** The idle entries without the k-th. */
  function Without(idle: seq<u16>, k: nat): (s: seq<u16>)
    requires k < |idle|
    ensures |s| == |idle| - 1
    ensures forall j :: 0 <= j < |s| ==> s[j] == if j < k then idle[j] else idle[j + 1]
  {
    idle[..k] + idle[k + 1..]
  }

  /** Dropping the k-th idle entry leaves the others, in order, and not it. */
  lemma RemoveMembers(root: seq<Item>, idle: seq<u16>, k: nat)
    requires IdleRing(root, idle) && k < |idle|
    ensures Members(Removed(root, idle[k]), Without(idle, k))
    ensures idle[k] !in Without(idle, k)
    ensures forall j :: 0 <= j <= k ==> At(Without(idle, k), j) == At(idle, j)
    ensures forall j :: k < j <= |idle| ==> At(Without(idle, k), j) == At(idle, j + 1)
  {
    WithoutDistinct(idle, k);
  }

  /** Dropping an entry keeps the others distinct and leaves it out. */
  lemma WithoutDistinct(idle: seq<u16>, k: nat)
    requires Distinct(idle) && k < |idle|
    ensures Distinct(Without(idle, k)) && idle[k] !in Without(idle, k)
  {
    var idle' := Without(idle, k);
    forall i, j | 0 <= i < j < |idle'| ensures idle'[i] != idle'[j] {
      var i0 := if i < k then i else i + 1;
      var j0 := if j < k then j else j + 1;
      assert idle'[i] == idle[i0] && idle'[j] == idle[j0];
    }
    forall j | 0 <= j < |idle'| ensures idle'[j] != idle[k] {
      if j < k {
        assert idle[j] != idle[k];
      } else {
        assert idle[k] != idle[j + 1];
      }
    }
  }

  /** Where the k-th idle entry's neighbours are. */
  lemma Neighbours(root: seq<Item>, idle: seq<u16>, k: nat)
    requires IdleRing(root, idle) && k < |idle|
    ensures root[idle[k]].iPrev == At(idle, k) && root[idle[k]].iNext == At(idle, k + 2)
    ensures root[idle[k]].iPrev != idle[k] && root[idle[k]].iNext != idle[k]
  {
    assert idle[k] == At(idle, k + 1);
    AtDistinct(root, idle, k, k + 1);
    AtDistinct(root, idle, k + 1, k + 2);
  }

  lemma RemoveNextLinks(root: seq<Item>, idle: seq<u16>, k: nat)
    requires IdleRing(root, idle) && k < |idle|
    requires Members(Removed(root, idle[k]), Without(idle, k))
    ensures NextLinked(Removed(root, idle[k]), Without(idle, k))
  {
    var x := idle[k];
    var r, idle' := Removed(root, x), Without(idle, k);
    Neighbours(root, idle, k);
    RemoveMembers(root, idle, k);
    forall j | 0 <= j <= |idle'| ensures r[At(idle', j)].iNext == At(idle', j + 1) {
      RemovedEntry(root, x, At(idle', j));
      if j < k {
        AtDistinct(root, idle, j, k);
      } else if j > k {
        AtDistinct(root, idle, k, j + 1);
      }
    }
  }

  lemma RemovePrevLinks(root: seq<Item>, idle: seq<u16>, k: nat)
    requires IdleRing(root, idle) && k < |idle|
    requires Members(Removed(root, idle[k]), Without(idle, k))
    ensures PrevLinked(Removed(root, idle[k]), Without(idle, k))
  {
    var x := idle[k];
    var r, idle' := Removed(root, x), Without(idle, k);
    Neighbours(root, idle, k);
    RemoveMembers(root, idle, k);
    forall j | 1 <= j <= |idle'| + 1 ensures r[At(idle', j)].iPrev == At(idle', j - 1) {
      RemovedEntry(root, x, At(idle', j));
      if j <= k {
        AtDistinct(root, idle, j, k + 2);
      } else if j > k + 1 {
        AtDistinct(root, idle, k + 2, j + 1);
      }
    }
  }

  /** IDLE_INSERT(x) then IDLE_REMOVE(x) gives every entry but `x` back
      exactly; `x` keeps the links the insertion gave it. */
  lemma InsertThenRemove(root: seq<Item>, idle: seq<u16>, x: u16)
    requires IdleRing(root, idle) && IHEAD < x < |root| && x !in idle
    ensures InRange(Inserted(root, x))
    ensures Removed(Inserted(root, x), x) == root[x := root[x].(iNext := root[IHEAD].iNext, iPrev := IHEAD)]
    ensures Without([x] + idle, 0) == idle
  {
    InsertKeepsRing(root, idle, x);
    FirstIdle(root, idle);
    var r := Inserted(root, x);
    var s, t := Removed(r, x), root[x := root[x].(iNext := root[IHEAD].iNext, iPrev := IHEAD)];
    forall i | 0 <= i < |root| ensures s[i] == t[i] {
      InsertedEntry(root, x, i);
      RemovedEntry(r, x, i);
    }
  }

  /** At most |root| - 1 distinct entries besides the sentinel. */
  lemma {:induction false} MembersBound(root: seq<Item>, idle: seq<u16>)
    requires Members(root, idle)
    ensures |idle| < |root|
  {
    if idle != [] {
      var top := |root| - 1;
      if top in idle {
        var k :| 0 <= k < |idle| && idle[k] == top;
        WithoutDistinct(idle, k);
        MembersBound(root[..top], Without(idle, k));
      } else {
        assert IHEAD < idle[0] < top;
        forall j | 0 <= j < |idle| ensures IHEAD < idle[j] < top {
          assert idle[j] != top;
        }
        MembersBound(root[..top], idle);
      }
    }
  }

  /** cl_qmap_t: the entry array root[] and the idle counter; `idle` is the
      ring's order, which the source keeps only in the links. */
  class IdleQueue {
    var root: array<Item>
    var nidle: u32
    ghost var idle: seq<u16>

    ghost predicate Valid()
      reads this, root
    {
      && root.Length <= 0x1_0000
      && IdleRing(root[..], idle)
      && nidle == |idle|
    }

    /** An empty idle queue over `n` entries, all linked to themselves. */
    constructor (n: nat, init: Item)
      requires 0 < n <= 0x1_0000
      ensures Valid() && fresh(root) && root.Length == n && idle == [] && nidle == 0
    {
      root := new Item[n](_ => init.(iPrev := IHEAD, iNext := IHEAD));
      nidle := 0;
      idle := [];
    }

    /** IDLE_INSERT(x): `x` becomes the first idle entry and nidle grows by
        one; NIDLE++ on a uint32_t cannot wrap, since there are fewer than
        2^16 entries. */
    method IdleInsert(x: u16)
      requires Valid() && IHEAD < x < root.Length && x !in idle
      modifies this, root
      ensures Valid() && root == old(root)
      ensures root[..] == Inserted(old(root[..]), x)
      ensures idle == [x] + old(idle) && nidle == old(nidle) + 1
    {
      ghost var r0 := root[..];
      InsertKeepsRing(r0, idle, x);
      MembersBound(Inserted(r0, x), [x] + idle);
      root[x] := root[x].(iNext := root[IHEAD].iNext);
      root[x] := root[x].(iPrev := IHEAD);
      root[root[IHEAD].iNext] := root[root[IHEAD].iNext].(iPrev := x);
      root[IHEAD] := root[IHEAD].(iNext := x);
      nidle := (nidle + 1) % 0x1_0000_0000;
      idle := [x] + idle;
    }

    /** IDLE_REMOVE(x): `x`, the k-th idle entry, is spliced out and nidle
        shrinks by one; x's own links are left as they were. */
    method IdleRemove(x: u16, ghost k: nat)
      requires Valid() && k < |idle| && idle[k] == x
      modifies this, root
      ensures Valid() && root == old(root)
      ensures root[..] == Removed(old(root[..]), x)
      ensures idle == Without(old(idle), k) && nidle == old(nidle) - 1
      ensures x !in idle
    {
      RemoveKeepsRing(root[..], idle, k);
      root[root[x].iPrev] := root[root[x].iPrev].(iNext := root[x].iNext);
      root[root[x].iNext] := root[root[x].iNext].(iPrev := root[x].iPrev);
      nidle := (nidle - 1) % 0x1_0000_0000;
      idle := Without(idle, k);
    }
  }
}
