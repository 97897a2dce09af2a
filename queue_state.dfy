/**
 * What a well-formed message queue holds (struct psm2_mq in psm_mq.c),
 * stated on values: the expected side of posted receives, the unexpected
 * side of arrived messages, the completed queue, and how each depends on
 * the list-only fastpath flag.
 */
module QueueState {
  import opened Tags
  import opened Selection
  import opened Requests
  import opened QueueLists

  /** A posted receive that is allowed on the expected side: live, posted,
      and stamped before the queue's next timestamp. */
  predicate ExpectedEntry(reqs: Pool, stamp: nat, x: ReqId)
  {
    x in reqs && reqs[x].typ == Recv && reqs[x].state == Posted && reqs[x].timestamp < stamp
  }

  /** An arrived message that is allowed on the unexpected side: it has a
      real sender and has not been matched yet. */
  predicate UnexpectedEntry(reqs: Pool, x: ReqId)
  {
    && x in reqs
    && reqs[x].typ == Recv
    && reqs[x].state in {Unexp, UnexpRv, Complete}
    && reqs[x].peer != AnyAddr
  }

  /** The expected list: posted receives in posting order; in the hashed
      mode only those whose selector cannot be hashed. */
  predicate ExpectedListHolds(reqs: Pool, stamp: nat, q: seq<ReqId>, wildOnly: bool)
  {
    && Increasing(reqs, q)
    && (forall x :: x in q ==> ExpectedEntry(reqs, stamp, x))
    && (wildOnly ==> forall x :: x in q ==> Category(reqs[x].tagsel) == ANYTAG_ANYSRC)
  }

  /** One expected bucket: posted receives of that table's category whose
      tags hash to that bucket, in posting order. */
  predicate ExpectedBucketHolds(h: Hashes, reqs: Pool, stamp: nat, q: seq<ReqId>, t: nat, b: nat)
  {
    && Increasing(reqs, q)
    && (forall x :: x in q ==> ExpectedEntry(reqs, stamp, x))
    && (forall x :: x in q ==> Selects(h, reqs, ExpectedBucket(t, b), x))
  }

  predicate ExpectedTabHolds(h: Hashes, reqs: Pool, stamp: nat, tab: Htab)
  {
    && Shaped(tab)
    && forall t, b :: 0 <= t < NUM_HASH_CONFIGS && 0 <= b < NUM_HASH_BUCKETS ==>
         ExpectedBucketHolds(h, reqs, stamp, tab[t][b], t, b)
  }

  /** Every unexpected bucket is the part of the unexpected list whose tags
      hash there, in arrival order. */
  predicate UnexpectedTabMirrors(h: Hashes, reqs: Pool, tab: Htab, uq: seq<ReqId>)
  {
    && Shaped(tab)
    && forall t, b :: 0 <= t < NUM_HASH_CONFIGS && 0 <= b < NUM_HASH_BUCKETS ==>
         tab[t][b] == Filter(Selecting(h, reqs, UnexpectedBucket(t, b)), uq)
  }

  /** One side of the queue: its list (expected_q or unexpected_q), its
      three hash tables, and the two counters kept for them. */
  datatype Side = Side(list: seq<ReqId>, htab: Htab, listLen: int, hashLen: int)

  /** A side with nothing on it. */
  function EmptySide(): (s: Side)
    ensures s.list == [] && Shaped(s.htab) && HtabEmpty(s.htab) && s.listLen == 0 && s.hashLen == 0
  {
    Side([], EmptyHtab(), 0, 0)
  }

  /** The expected side: the list and the buckets hold posted receives in
      posting order, the buckets are empty in the fastpath, and the two
      counters are the list length and the total bucket length. */
  predicate ExpectedSide(h: Hashes, reqs: Pool, stamp: nat, fastpath: bool, e: Side)
  {
    && ExpectedListHolds(reqs, stamp, e.list, !fastpath)
    && ExpectedTabHolds(h, reqs, stamp, e.htab)
    && (fastpath ==> HtabEmpty(e.htab))
    && e.listLen == |e.list|
    && e.hashLen == HtabSize(e.htab)
  }

  /** The unexpected buckets: empty in the fastpath, else each mirrors the
      part of the unexpected list that hashes to it. */
  predicate Mirrored(h: Hashes, reqs: Pool, fastpath: bool, uq: seq<ReqId>, utab: Htab)
  {
    && Shaped(utab)
    && (fastpath ==> HtabEmpty(utab))
    && (!fastpath ==> UnexpectedTabMirrors(h, reqs, utab, uq))
  }

  /** The unexpected side. In the fastpath the list alone is kept up to
      date; once hashing is on, every bucket mirrors the list. The counters
      only bound the list from above in the hashed mode: the migration
      counts every entry once more as hashed, and a removal gives back only
      one. */
  predicate UnexpectedSide(h: Hashes, reqs: Pool, fastpath: bool, u: Side)
  {
    && NoDup(u.list)
    && (forall x :: x in u.list ==> UnexpectedEntry(reqs, x))
    && Mirrored(h, reqs, fastpath, u.list, u.htab)
    && (fastpath ==> u.listLen == |u.list| && u.hashLen == 0)
    && (!fastpath ==> u.listLen >= |u.list| && u.hashLen >= |u.list|)
  }

  /** Completed requests wait once each, and are off the unexpected list. */
  predicate CompletedSide(reqs: Pool, cq: seq<ReqId>, uq: seq<ReqId>)
  {
    && NoDup(cq)
    && forall x :: x in cq ==> x in reqs && reqs[x].state == Complete && x !in uq
  }

  /** The sublist of the expected side that takes `x`: the list in the
      fastpath, else the one its selector's category names. */
  function HomeOf(reqs: Pool, fastpath: bool, x: ReqId): (i: nat)
    requires x in reqs
    ensures i < NUM_MQ_SUBLISTS
    ensures fastpath ==> i == ANYTAG_ANYSRC
    ensures !fastpath ==> i == Category(reqs[x].tagsel)
  {
    if fastpath then ANYTAG_ANYSRC else Category(reqs[x].tagsel)
  }

  /** Sublist `i` of the expected side as seen from `x`: the list for
      i == 3, else the bucket of table `i` that `x`'s tag hashes to. The
      source keeps this as the back-pointer req->q[i]. */
  function SublistOf(h: Hashes, reqs: Pool, e: Side, i: nat, x: ReqId): seq<ReqId>
    requires Shaped(e.htab) && i < NUM_MQ_SUBLISTS && x in reqs
  {
    if i == ANYTAG_ANYSRC then e.list else e.htab[i][BucketOf(h, i, reqs[x].tag)]
  }

  /** Every posted receive, except those in `except`, is linked on the
      sublist that takes it. */
  predicate AllPostedQueued(h: Hashes, reqs: Pool, fastpath: bool, e: Side, except: set<ReqId>)
    requires Shaped(e.htab)
  {
    forall x :: x in reqs && reqs[x].typ == Recv && reqs[x].state == Posted && x !in except ==>
      x in SublistOf(h, reqs, e, HomeOf(reqs, fastpath, x), x)
  }

  /** The whole queue is well formed, with the posted receives in `except`
      allowed to be off the expected side for the moment. */
  predicate QueueWf(h: Hashes, reqs: Pool, stamp: nat, fastpath: bool, e: Side, u: Side, cq: seq<ReqId>,
                    except: set<ReqId>)
  {
    && ExpectedSide(h, reqs, stamp, fastpath, e)
    && UnexpectedSide(h, reqs, fastpath, u)
    && CompletedSide(reqs, cq, u.list)
    && AllPostedQueued(h, reqs, fastpath, e, except)
  }

  /** `x` is on no list of the expected side. */
  predicate NotExpected(e: Side, x: ReqId)
  {
    && x !in e.list
    && forall t, b :: 0 <= t < |e.htab| && 0 <= b < |e.htab[t]| ==> x !in e.htab[t][b]
  }

  /** The empty queue of psmi_mq_malloc, in the fastpath. */
  lemma EmptyQueueWf(h: Hashes, stamp: nat)
    ensures QueueWf(h, map[], stamp, true, EmptySide(), EmptySide(), [], {})
  {
  }

  /** psmi_mq_fastpath_try_reenable may switch hashing off once all four
      counters are zero: both sides are empty then, so no table entry is
      left behind. */
  lemma ReenableKeeps(h: Hashes, reqs: Pool, stamp: nat, e: Side, u: Side, cq: seq<ReqId>, except: set<ReqId>)
    requires QueueWf(h, reqs, stamp, false, e, u, cq, except)
    requires e.listLen == 0 && e.hashLen == 0 && u.listLen == 0 && u.hashLen == 0
    ensures QueueWf(h, reqs, stamp, true, e, u, cq, except)
    ensures e.list == [] && HtabEmpty(e.htab) && u.list == [] && HtabEmpty(u.htab)
  {
    assert HtabEmpty(e.htab);
    forall t, b | 0 <= t < NUM_HASH_CONFIGS && 0 <= b < NUM_HASH_BUCKETS
      ensures u.htab[t][b] == []
    {
      assert u.htab[t][b] == Filter(Selecting(h, reqs, UnexpectedBucket(t, b)), u.list);
    }
  }

  /** A change to one request that is on no queue, and a later next
      timestamp, keep the expected side well formed. */
  lemma ExpectedSideFrame(h: Hashes, reqs: Pool, reqs': Pool, stamp: nat, stamp': nat, fastpath: bool,
                          e: Side, x: ReqId)
    requires ExpectedSide(h, reqs, stamp, fastpath, e) && stamp <= stamp' && NotExpected(e, x)
    requires forall y :: y != x && y in reqs ==> y in reqs' && reqs'[y] == reqs[y]
    ensures ExpectedSide(h, reqs', stamp', fastpath, e)
  {
    IncreasingFrame(reqs, reqs', e.list);
    forall t, b | 0 <= t < NUM_HASH_CONFIGS && 0 <= b < NUM_HASH_BUCKETS
      ensures ExpectedBucketHolds(h, reqs', stamp', e.htab[t][b], t, b)
    {
      assert ExpectedBucketHolds(h, reqs, stamp, e.htab[t][b], t, b);
      IncreasingFrame(reqs, reqs', e.htab[t][b]);
    }
  }

  /** The same for the unexpected side. */
  lemma UnexpectedSideFrame(h: Hashes, reqs: Pool, reqs': Pool, fastpath: bool, u: Side, x: ReqId)
    requires UnexpectedSide(h, reqs, fastpath, u) && x !in u.list
    requires forall y :: y != x && y in reqs ==> y in reqs' && reqs'[y] == reqs[y]
    ensures UnexpectedSide(h, reqs', fastpath, u)
  {
    PoolFrame(h, reqs, reqs', u.list);
    if !fastpath {
      forall t, b | 0 <= t < NUM_HASH_CONFIGS && 0 <= b < NUM_HASH_BUCKETS
        ensures u.htab[t][b] == Filter(Selecting(h, reqs', UnexpectedBucket(t, b)), u.list)
      {
        assert u.htab[t][b] == Filter(Selecting(h, reqs, UnexpectedBucket(t, b)), u.list);
      }
    }
  }

  /** A change to one request that is on neither side (its creation, an
      update of its fields, or its release) keeps the queue well formed, as long
      as it does not leave a posted receive unqueued. */
  lemma PoolChangeKeeps(h: Hashes, reqs: Pool, reqs': Pool, stamp: nat, stamp': nat, fastpath: bool,
                        e: Side, u: Side, cq: seq<ReqId>, except: set<ReqId>, x: ReqId)
    requires QueueWf(h, reqs, stamp, fastpath, e, u, cq, except) && stamp <= stamp'
    requires forall y :: y != x ==> (y in reqs <==> y in reqs')
    requires forall y :: y != x && y in reqs ==> reqs'[y] == reqs[y]
    requires NotExpected(e, x) && x !in u.list
    requires x in cq ==> x in reqs' && reqs'[x].state == Complete
    requires x in reqs' && reqs'[x].typ == Recv && reqs'[x].state == Posted ==> x in except
    ensures QueueWf(h, reqs', stamp', fastpath, e, u, cq, except)
  {
    ExpectedSideFrame(h, reqs, reqs', stamp, stamp', fastpath, e, x);
    UnexpectedSideFrame(h, reqs, reqs', fastpath, u, x);
    forall y | y in reqs' && reqs'[y].typ == Recv && reqs'[y].state == Posted && y !in except
      ensures y in SublistOf(h, reqs', e, HomeOf(reqs', fastpath, y), y)
    {
      assert y != x && y in reqs;
    }
  }

  /** A request that is not a posted receive needs no exemption. */
  lemma ReleaseExempt(h: Hashes, reqs: Pool, stamp: nat, fastpath: bool, e: Side, u: Side, cq: seq<ReqId>,
                      except: set<ReqId>, x: ReqId)
    requires QueueWf(h, reqs, stamp, fastpath, e, u, cq, except)
    requires x in reqs ==> reqs[x].typ != Recv || reqs[x].state != Posted
    ensures QueueWf(h, reqs, stamp, fastpath, e, u, cq, except - {x})
  {
  }

  /** A request that is not a posted receive, or not live, is on no
      sublist of the expected side. */
  lemma NotPostedNotExpected(h: Hashes, reqs: Pool, stamp: nat, fastpath: bool, e: Side, x: ReqId)
    requires ExpectedSide(h, reqs, stamp, fastpath, e)
    requires x in reqs ==> reqs[x].typ != Recv || reqs[x].state != Posted
    ensures NotExpected(e, x)
  {
    forall t, b | 0 <= t < |e.htab| && 0 <= b < |e.htab[t]| ensures x !in e.htab[t][b] {
      assert ExpectedBucketHolds(h, reqs, stamp, e.htab[t][b], t, b);
    }
  }

  /** The fields the queue's invariants read. */
  predicate SameQueueFields(a: Req, b: Req)
  {
    && a.typ == b.typ && a.state == b.state && a.peer == b.peer
    && a.tag == b.tag && a.tagsel == b.tagsel && a.timestamp == b.timestamp
  }

  /** Changing fields of a request that the queue does not read (the
      WAITING mark, the user context) keeps the queue well formed,
      wherever the request is linked. */
  lemma QuietChangeKeeps(h: Hashes, reqs: Pool, stamp: nat, fastpath: bool, e: Side, u: Side, cq: seq<ReqId>,
                         except: set<ReqId>, x: ReqId, r: Req)
    requires QueueWf(h, reqs, stamp, fastpath, e, u, cq, except)
    requires x in reqs && SameQueueFields(reqs[x], r)
    ensures QueueWf(h, reqs[x := r], stamp, fastpath, e, u, cq, except)
  {
    var reqs' := reqs[x := r];
    QuietExpectedSide(h, reqs, stamp, fastpath, e, x, r);
    PoolFrame(h, reqs, reqs', u.list);
    if !fastpath {
      forall t, b | 0 <= t < NUM_HASH_CONFIGS && 0 <= b < NUM_HASH_BUCKETS
        ensures u.htab[t][b] == Filter(Selecting(h, reqs', UnexpectedBucket(t, b)), u.list)
      {
        assert u.htab[t][b] == Filter(Selecting(h, reqs, UnexpectedBucket(t, b)), u.list);
      }
    }
    forall y | y in reqs' && reqs'[y].typ == Recv && reqs'[y].state == Posted && y !in except
      ensures y in SublistOf(h, reqs', e, HomeOf(reqs', fastpath, y), y)
    {
      assert y in SublistOf(h, reqs, e, HomeOf(reqs, fastpath, y), y);
    }
  }

  lemma QuietExpectedSide(h: Hashes, reqs: Pool, stamp: nat, fastpath: bool, e: Side, x: ReqId, r: Req)
    requires ExpectedSide(h, reqs, stamp, fastpath, e)
    requires x in reqs && SameQueueFields(reqs[x], r)
    ensures ExpectedSide(h, reqs[x := r], stamp, fastpath, e)
  {
    var reqs' := reqs[x := r];
    IncreasingFrame(reqs, reqs', e.list);
    forall t, b | 0 <= t < NUM_HASH_CONFIGS && 0 <= b < NUM_HASH_BUCKETS
      ensures ExpectedBucketHolds(h, reqs', stamp, e.htab[t][b], t, b)
    {
      assert ExpectedBucketHolds(h, reqs, stamp, e.htab[t][b], t, b);
      IncreasingFrame(reqs, reqs', e.htab[t][b]);
    }
  }

  /** Appending a completed request that is off the unexpected list to the
      completed queue keeps the queue well formed. */
  lemma CompletedAppendKeeps(h: Hashes, reqs: Pool, stamp: nat, fastpath: bool, e: Side, u: Side,
                             cq: seq<ReqId>, except: set<ReqId>, x: ReqId)
    requires QueueWf(h, reqs, stamp, fastpath, e, u, cq, except)
    requires x in reqs && reqs[x].state == Complete && x !in u.list && x !in cq
    ensures QueueWf(h, reqs, stamp, fastpath, e, u, cq + [x], except)
  {
    var cq' := cq + [x];
    forall i, j | 0 <= i < j < |cq'| ensures cq'[i] != cq'[j] {
      if j == |cq| {
        assert cq'[i] == cq[i] && cq[i] in cq;
      } else {
        assert cq'[i] == cq[i] && cq'[j] == cq[j];
      }
    }
  }

  /** Taking a request off the completed queue keeps the queue well formed. */
  lemma CompletedRemoveKeeps(h: Hashes, reqs: Pool, stamp: nat, fastpath: bool, e: Side, u: Side,
                             cq: seq<ReqId>, except: set<ReqId>, x: ReqId)
    requires QueueWf(h, reqs, stamp, fastpath, e, u, cq, except)
    ensures QueueWf(h, reqs, stamp, fastpath, e, u, RemoveId(cq, x), except)
  {
    RemoveIdNoDup(cq, x);
  }
}
