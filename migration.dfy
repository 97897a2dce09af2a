/**
 * psmi_mq_fastpath_disable (psm_mq.c), on values: the two migrations that
 * turn a queue of the list-only fastpath into one of the hashed mode.
 */
module Migration {
  import opened Tags
  import opened Selection
  import opened Requests
  import opened QueueLists
  import opened QueueState

  /** The buckets built so far by the migration of the expected list `q`. */
  predicate MigratedBuckets(h: Hashes, reqs: Pool, etab: Htab, q: seq<ReqId>)
  {
    && Shaped(etab)
    && forall t, b :: 0 <= t < NUM_HASH_CONFIGS && 0 <= b < NUM_HASH_BUCKETS ==>
         etab[t][b] == Filter(Selecting(h, reqs, ExpectedBucket(t, b)), q)
  }

  /** One step of the migration: `x` goes to the bucket it hashes to, or
      stays on the list. */
  lemma MigratedStep(h: Hashes, reqs: Pool, before: Htab, after: Htab, q: seq<ReqId>, k: nat)
    requires k < |q| && q[k] in reqs && MigratedBuckets(h, reqs, before, q[..k])
    requires var t := Category(reqs[q[k]].tagsel);
      t < NUM_HASH_CONFIGS ==> after == Append(before, t, BucketOf(h, t, reqs[q[k]].tag), q[k])
    requires Category(reqs[q[k]].tagsel) == ANYTAG_ANYSRC ==> after == before
    ensures MigratedBuckets(h, reqs, after, q[..k + 1])
  {
    var x := q[k];
    TakeSnoc(q, k);
    forall t, b | 0 <= t < NUM_HASH_CONFIGS && 0 <= b < NUM_HASH_BUCKETS
      ensures after[t][b] == Filter(Selecting(h, reqs, ExpectedBucket(t, b)), q[..k] + [x])
    {
      FilterSnoc(Selecting(h, reqs, ExpectedBucket(t, b)), q[..k], x);
    }
  }

  /** What the migration leaves behind is a well-formed expected side of
      the hashed mode. */
  lemma MigratedHolds(h: Hashes, reqs: Pool, stamp: nat, q: seq<ReqId>, eq: seq<ReqId>, etab: Htab)
    requires ExpectedListHolds(reqs, stamp, q, false)
    requires eq == Filter(Selecting(h, reqs, Wildcard), q)
    requires MigratedBuckets(h, reqs, etab, q)
    ensures ExpectedListHolds(reqs, stamp, eq, true)
    ensures ExpectedTabHolds(h, reqs, stamp, etab)
  {
    FilterIncreasing(reqs, Selecting(h, reqs, Wildcard), q);
    forall t, b | 0 <= t < NUM_HASH_CONFIGS && 0 <= b < NUM_HASH_BUCKETS
      ensures ExpectedBucketHolds(h, reqs, stamp, etab[t][b], t, b)
    {
      FilterIncreasing(reqs, Selecting(h, reqs, ExpectedBucket(t, b)), q);
    }
  }

  /** After the migration the expected side is well formed for the hashed
      mode and every posted receive is on its home sublist. */
  lemma HashedExpectedSide(h: Hashes, reqs: Pool, stamp: nat, e0: Side, e: Side, except: set<ReqId>)
    requires ExpectedSide(h, reqs, stamp, true, e0) && AllPostedQueued(h, reqs, true, e0, except)
    requires e.list == Filter(Selecting(h, reqs, Wildcard), e0.list) && MigratedBuckets(h, reqs, e.htab, e0.list)
    requires e.listLen == |e.list| && e.hashLen == HtabSize(e.htab)
    ensures ExpectedSide(h, reqs, stamp, false, e)
    ensures AllPostedQueued(h, reqs, false, e, except)
  {
    MigratedHolds(h, reqs, stamp, e0.list, e.list, e.htab);
    forall x | x in reqs && reqs[x].typ == Recv && reqs[x].state == Posted && x !in except
      ensures x in SublistOf(h, reqs, e, HomeOf(reqs, false, x), x)
    {
      var c := Category(reqs[x].tagsel);
      assert x in e0.list;
      if c < NUM_HASH_CONFIGS {
        assert Selects(h, reqs, ExpectedBucket(c, BucketOf(h, c, reqs[x].tag)), x);
      } else {
        assert Selects(h, reqs, Wildcard, x);
      }
    }
  }

  /** The first loop of psmi_mq_fastpath_disable: every arrived message,
      in list order, is appended to its bucket in each of the three tables,
      and each one adds one to the hashed count. */
  method MigrateUnexpected(h: Hashes, reqs: Pool, uq: seq<ReqId>, tab0: Htab, hash0: int)
    returns (utab: Htab, uhash: int)
    requires Shaped(tab0) && HtabEmpty(tab0)
    requires forall y :: y in uq ==> y in reqs
    ensures UnexpectedTabMirrors(h, reqs, utab, uq)
    ensures uhash == hash0 + |uq|
  {
    utab, uhash := tab0, hash0;
    var k := 0;
    while k < |uq|
      invariant 0 <= k <= |uq|
      invariant UnexpectedTabMirrors(h, reqs, utab, uq[..k])
      invariant uhash == hash0 + k
    {
      uhash := uhash + 1;
      utab := HashIntoAll(h, reqs, utab, uq, k);
      k := k + 1;
    }
    assert uq[..k] == uq;
  }

  /** The body of that loop: `uq[k]` goes to the end of one bucket in each
      table. */
  method HashIntoAll(h: Hashes, reqs: Pool, utab: Htab, uq: seq<ReqId>, k: nat) returns (r: Htab)
    requires k < |uq| && uq[k] in reqs
    requires UnexpectedTabMirrors(h, reqs, utab, uq[..k])
    ensures UnexpectedTabMirrors(h, reqs, r, uq[..k + 1])
  {
    var x := uq[k];
    var tag := reqs[x].tag;
    var hashvals := [BucketOf(h, TAG_SRC, tag), BucketOf(h, TAG_ANYSRC, tag), BucketOf(h, ANYTAG_SRC, tag)];
    r := utab;
    var t := TAG_SRC;
    while t < ANYTAG_ANYSRC
      invariant TAG_SRC <= t <= ANYTAG_ANYSRC
      invariant Shaped(r)
      invariant forall t', b :: 0 <= t' < NUM_HASH_CONFIGS && 0 <= b < NUM_HASH_BUCKETS ==>
                  r[t'][b] == utab[t'][b] + (if t' < t && b == hashvals[t'] then [x] else [])
    {
      r := Append(r, t, hashvals[t], x);
      t := t + 1;
    }
    TakeSnoc(uq, k);
    forall t', b | 0 <= t' < NUM_HASH_CONFIGS && 0 <= b < NUM_HASH_BUCKETS
      ensures r[t'][b] == Filter(Selecting(h, reqs, UnexpectedBucket(t', b)), uq[..k + 1])
    {
      FilterSnoc(Selecting(h, reqs, UnexpectedBucket(t', b)), uq[..k], x);
    }
  }

  /** The second loop of psmi_mq_fastpath_disable: every posted receive
      whose selector can be hashed leaves the list for the end of its
      bucket, and the two counters follow. The unlinking in place is
      modelled by rebuilding the list from the receives that stay. */
  method MigrateExpected(h: Hashes, reqs: Pool, q: seq<ReqId>, tab0: Htab, list0: int, hash0: int)
    returns (eq: seq<ReqId>, etab: Htab, elist: int, ehash: int)
    requires forall y :: y in q ==> y in reqs
    requires Shaped(tab0) && HtabEmpty(tab0) && list0 == |q| && hash0 == 0
    ensures eq == Filter(Selecting(h, reqs, Wildcard), q)
    ensures MigratedBuckets(h, reqs, etab, q)
    ensures elist == |eq| && ehash == HtabSize(etab)
    ensures elist + ehash == list0 + hash0
  {
    eq, etab, elist, ehash := [], tab0, list0, hash0;
    var k := 0;
    while k < |q|
      invariant k <= |q| && MigratedPart(h, reqs, q, k, eq, etab, elist, ehash)
    {
      eq, etab, elist, ehash := MigrateOne(h, reqs, q, k, eq, etab, elist, ehash);
      k := k + 1;
    }
    assert q[..k] == q;
  }

  /** The state of that loop after the first `k` receives. */
  predicate MigratedPart(h: Hashes, reqs: Pool, q: seq<ReqId>, k: nat, eq: seq<ReqId>, etab: Htab, elist: int, ehash: int)
    requires k <= |q|
  {
    && eq == Filter(Selecting(h, reqs, Wildcard), q[..k])
    && MigratedBuckets(h, reqs, etab, q[..k])
    && elist == |eq| + (|q| - k) && ehash == HtabSize(etab)
    && elist + ehash == |q|
  }

  /** One turn of that loop. */
  method MigrateOne(h: Hashes, reqs: Pool, q: seq<ReqId>, k: nat, eq: seq<ReqId>, etab: Htab, elist: int, ehash: int)
    returns (eq': seq<ReqId>, etab': Htab, elist': int, ehash': int)
    requires k < |q| && q[k] in reqs && MigratedPart(h, reqs, q, k, eq, etab, elist, ehash)
    ensures MigratedPart(h, reqs, q, k + 1, eq', etab', elist', ehash')
  {
    var x := q[k];
    TakeSnoc(q, k);
    FilterSnoc(Selecting(h, reqs, Wildcard), q[..k], x);
    var moved;
    etab', moved := HashIntoOne(h, reqs, etab, q, k);
    if moved {
      eq', elist', ehash' := eq, elist - 1, ehash + 1;
    } else {
      eq', elist', ehash' := eq + [x], elist, ehash;
    }
  }

  /** The body of that loop on the bucket side: `q[k]` goes to the end of
      the bucket of its category when its selector can be hashed. */
  method HashIntoOne(h: Hashes, reqs: Pool, etab: Htab, q: seq<ReqId>, k: nat) returns (r: Htab, moved: bool)
    requires k < |q| && q[k] in reqs && MigratedBuckets(h, reqs, etab, q[..k])
    ensures moved <==> Category(reqs[q[k]].tagsel) < NUM_HASH_CONFIGS
    ensures moved <==> !Selecting(h, reqs, Wildcard)(q[k])
    ensures MigratedBuckets(h, reqs, r, q[..k + 1])
    ensures HtabSize(r) == HtabSize(etab) + (if moved then 1 else 0)
  {
    var x := q[k];
    var t := Category(reqs[x].tagsel);
    moved := t < NUM_HASH_CONFIGS;
    r := etab;
    if moved {
      r := Append(etab, t, BucketOf(h, t, reqs[x].tag), x);
    }
    MigratedStep(h, reqs, etab, r, q, k);
  }

  /** psmi_mq_fastpath_disable on the two sides: the unexpected list is
      mirrored into the three unexpected tables and counted once more as
      hashed; the hashable posted receives move, in order, into the
      expected buckets. The queue is then well formed in the hashed mode. */
  method Disable(h: Hashes, reqs: Pool, stamp: nat, e: Side, u: Side, ghost cq: seq<ReqId>, ghost except: set<ReqId>)
    returns (e': Side, u': Side)
    requires QueueWf(h, reqs, stamp, true, e, u, cq, except)
    ensures QueueWf(h, reqs, stamp, false, e', u', cq, except)
    ensures u'.list == u.list && u'.listLen == u.listLen && u'.hashLen == u.hashLen + |u.list|
    ensures UnexpectedTabMirrors(h, reqs, u'.htab, u.list)
    ensures e'.list == Filter(Selecting(h, reqs, Wildcard), e.list)
    ensures MigratedBuckets(h, reqs, e'.htab, e.list)
    ensures e'.listLen + e'.hashLen == e.listLen + e.hashLen
  {
    var utab, uhash := MigrateUnexpected(h, reqs, u.list, u.htab, u.hashLen);
    var eq, etab, elist, ehash := MigrateExpected(h, reqs, e.list, e.htab, e.listLen, e.hashLen);
    e' := Side(eq, etab, elist, ehash);
    u' := Side(u.list, utab, u.listLen, uhash);
    HashedExpectedSide(h, reqs, stamp, e, e', except);
  }
}
