/**
 * The expected side of the queue on values: where mq_add_to_expected_hashes
 * links a posted receive, and what mq_req_remove_single takes back
 * (psm_mq.c).
 */
module Posting {
  import opened Tags
  import opened Selection
  import opened Requests
  import opened QueueLists
  import opened QueueState

  /** The linking part of mq_add_to_expected_hashes: `x` goes to the end of
      the queue SelectQueue names for its tag and selector, and the counter
      of that queue grows by one. */
  function Post(h: Hashes, reqs: Pool, fastpath: bool, e: Side, x: ReqId): (r: Side)
    requires Shaped(e.htab) && x in reqs
    ensures Shaped(r.htab)
    ensures r.listLen + r.hashLen == e.listLen + e.hashLen + 1
    ensures SublistOf(h, reqs, r, HomeOf(reqs, fastpath, x), x) ==
              SublistOf(h, reqs, e, HomeOf(reqs, fastpath, x), x) + [x]
    ensures HomeOf(reqs, fastpath, x) != ANYTAG_ANYSRC ==> r.list == e.list && r.listLen == e.listLen
    ensures HomeOf(reqs, fastpath, x) == ANYTAG_ANYSRC ==> r.htab == e.htab && r.hashLen == e.hashLen
    ensures forall t, b :: (0 <= t < NUM_HASH_CONFIGS && 0 <= b < NUM_HASH_BUCKETS &&
              (t != HomeOf(reqs, fastpath, x) || b != BucketOf(h, t, reqs[x].tag))) ==> r.htab[t][b] == e.htab[t][b]
  {
    match SelectQueue(h, fastpath, reqs[x].tag, reqs[x].tagsel)
    case PlainList => e.(list := e.list + [x], listLen := e.listLen + 1)
    case Bucket(t, b) => e.(htab := Append(e.htab, t, b, x), hashLen := e.hashLen + 1)
  }

  /** Posting a receive stamped with the queue's current timestamp, and
      moving the timestamp on, keeps the queue well formed and takes the
      receive off the exemption set: it is now on its home sublist. */
  lemma PostKeeps(h: Hashes, reqs: Pool, stamp: nat, fastpath: bool, e: Side, u: Side, cq: seq<ReqId>,
                  except: set<ReqId>, x: ReqId)
    requires QueueWf(h, reqs, stamp, fastpath, e, u, cq, except)
    requires x in reqs && reqs[x].typ == Recv && reqs[x].state == Posted && reqs[x].timestamp == stamp
    requires NotExpected(e, x)
    ensures QueueWf(h, reqs, stamp + 1, fastpath, Post(h, reqs, fastpath, e, x), u, cq, except - {x})
  {
    PostedSide(h, reqs, stamp, fastpath, e, x);
    PostedQueued(h, reqs, fastpath, e, except, x);
  }

  /** mq_add_to_expected_hashes before the threshold check: stamping `x`
      with the queue's timestamp and posting it keeps the queue well
      formed, with no exemption left. */
  lemma StampAndPostKeeps(h: Hashes, reqs: Pool, stamp: nat, fastpath: bool, e: Side, u: Side, cq: seq<ReqId>, x: ReqId)
    requires QueueWf(h, reqs, stamp, fastpath, e, u, cq, {x})
    requires x in reqs && reqs[x].typ == Recv && reqs[x].state == Posted && NotExpected(e, x)
    ensures var stamped := reqs[x := reqs[x].(timestamp := stamp)];
            QueueWf(h, stamped, stamp + 1, fastpath, Post(h, stamped, fastpath, e, x), u, cq, {})
  {
    var stamped := reqs[x := reqs[x].(timestamp := stamp)];
    PoolChangeKeeps(h, reqs, stamped, stamp, stamp, fastpath, e, u, cq, {x}, x);
    PostKeeps(h, stamped, stamp, fastpath, e, u, cq, {x}, x);
    assert {x} - {x} == {};
  }

  /** The expected side stays well formed: `x` is stamped after every
      entry, so its sublist stays in posting order. */
  lemma PostedSide(h: Hashes, reqs: Pool, stamp: nat, fastpath: bool, e: Side, x: ReqId)
    requires ExpectedSide(h, reqs, stamp, fastpath, e)
    requires x in reqs && reqs[x].typ == Recv && reqs[x].state == Posted && reqs[x].timestamp == stamp
    requires NotExpected(e, x)
    ensures ExpectedSide(h, reqs, stamp + 1, fastpath, Post(h, reqs, fastpath, e, x))
  {
    var home := HomeOf(reqs, fastpath, x);
    ExpectedSideFrame(h, reqs, reqs, stamp, stamp + 1, fastpath, e, x);
    if home == ANYTAG_ANYSRC {
      IncreasingSnoc(reqs, e.list, x);
    } else {
      PostedBucket(h, reqs, stamp + 1, e, home, BucketOf(h, home, reqs[x].tag), x);
    }
  }

  /** The bucket that takes `x` stays well formed. */
  lemma PostedBucket(h: Hashes, reqs: Pool, stamp: nat, e: Side, t: nat, b: nat, x: ReqId)
    requires ExpectedTabHolds(h, reqs, stamp, e.htab) && t < NUM_HASH_CONFIGS && b < NUM_HASH_BUCKETS
    requires ExpectedEntry(reqs, stamp, x) && Selects(h, reqs, ExpectedBucket(t, b), x)
    requires forall y :: y in e.htab[t][b] ==> reqs[y].timestamp < reqs[x].timestamp
    ensures ExpectedTabHolds(h, reqs, stamp, Append(e.htab, t, b, x))
  {
    var r := Append(e.htab, t, b, x);
    assert ExpectedBucketHolds(h, reqs, stamp, e.htab[t][b], t, b);
    IncreasingSnoc(reqs, e.htab[t][b], x);
    assert ExpectedBucketHolds(h, reqs, stamp, r[t][b], t, b);
  }

  /** Every posted receive is still on its home sublist, `x` included. */
  lemma PostedQueued(h: Hashes, reqs: Pool, fastpath: bool, e: Side, except: set<ReqId>, x: ReqId)
    requires Shaped(e.htab) && AllPostedQueued(h, reqs, fastpath, e, except) && x in reqs
    ensures AllPostedQueued(h, reqs, fastpath, Post(h, reqs, fastpath, e, x), except - {x})
  {
    var r := Post(h, reqs, fastpath, e, x);
    forall y | y in reqs && reqs[y].typ == Recv && reqs[y].state == Posted && y !in except - {x}
      ensures y in SublistOf(h, reqs, r, HomeOf(reqs, fastpath, y), y)
    {
      if y != x {
        assert y in SublistOf(h, reqs, e, HomeOf(reqs, fastpath, y), y);
      }
    }
  }

  /** The unlinking part of mq_req_remove_single: `x` leaves sublist `i`,
      and the counter of that sublist gives back one unit. */
  function Withdraw(h: Hashes, reqs: Pool, e: Side, i: nat, x: ReqId): (r: Side)
    requires Shaped(e.htab) && i < NUM_MQ_SUBLISTS && x in reqs
    ensures Shaped(r.htab)
    ensures SublistOf(h, reqs, r, i, x) == RemoveId(SublistOf(h, reqs, e, i, x), x)
    ensures i != ANYTAG_ANYSRC ==> r.list == e.list && r.listLen == e.listLen && r.hashLen == e.hashLen - 1
    ensures i == ANYTAG_ANYSRC ==> r.htab == e.htab && r.hashLen == e.hashLen && r.listLen == e.listLen - 1
    ensures forall t, b :: (0 <= t < NUM_HASH_CONFIGS && 0 <= b < NUM_HASH_BUCKETS &&
              (t != i || b != BucketOf(h, t, reqs[x].tag))) ==> r.htab[t][b] == e.htab[t][b]
  {
    if i == ANYTAG_ANYSRC then e.(list := RemoveId(e.list, x), listLen := e.listLen - 1)
    else e.(htab := Unlink(e.htab, i, BucketOf(h, i, reqs[x].tag), x), hashLen := e.hashLen - 1)
  }

  /** An entry of expected sublist `i` is a posted receive whose home is
      `i`: the expected side holds each request on one sublist only. */
  lemma OnlyOnHome(h: Hashes, reqs: Pool, stamp: nat, fastpath: bool, e: Side, i: nat, x: ReqId)
    requires ExpectedSide(h, reqs, stamp, fastpath, e) && i < NUM_MQ_SUBLISTS && x in reqs
    requires x in SublistOf(h, reqs, e, i, x)
    ensures ExpectedEntry(reqs, stamp, x) && i == HomeOf(reqs, fastpath, x)
  {
    if i < NUM_HASH_CONFIGS {
      var b := BucketOf(h, i, reqs[x].tag);
      assert ExpectedBucketHolds(h, reqs, stamp, e.htab[i][b], i, b);
    }
  }

  /** The search and unlinking of mq_req_remove_single, before the
      fastpath check: the four sublists are scanned for `x`, which is found
      exactly when it is a posted receive, and then only on its home
      sublist, which gives it up along with one unit of its counter. */
  method FindAndWithdraw(h: Hashes, reqs: Pool, stamp: nat, fastpath: bool, e: Side, u: Side, ghost cq: seq<ReqId>,
                         x: ReqId)
    returns (found: bool, e': Side)
    requires QueueWf(h, reqs, stamp, fastpath, e, u, cq, {}) && x in reqs
    ensures found <==> reqs[x].typ == Recv && reqs[x].state == Posted
    ensures !found ==> e' == e
    ensures found ==>
              && QueueWf(h, reqs, stamp, fastpath, e', u, cq, {x}) && NotExpected(e', x)
              && e' == Withdraw(h, reqs, e, HomeOf(reqs, fastpath, x), x)
              && e'.listLen + e'.hashLen == e.listLen + e.hashLen - 1
  {
    var i := 0;
    while i < NUM_MQ_SUBLISTS && x !in SublistOf(h, reqs, e, i, x)
      invariant i <= NUM_MQ_SUBLISTS
      invariant forall k :: 0 <= k < i ==> x !in SublistOf(h, reqs, e, k, x)
    {
      i := i + 1;
    }
    if i == NUM_MQ_SUBLISTS {
      if reqs[x].typ == Recv && reqs[x].state == Posted {
        assert false;
      }
      return false, e;
    }
    OnlyOnHome(h, reqs, stamp, fastpath, e, i, x);
    WithdrawKeeps(h, reqs, stamp, fastpath, e, u, cq, {}, x);
    assert {} + {x} == {x};
    return true, Withdraw(h, reqs, e, i, x);
  }

  /** mq_req_remove_single keeps the queue well formed, with `x` exempt
      and on no sublist any more, and one unit less on the counters. */
  lemma WithdrawKeeps(h: Hashes, reqs: Pool, stamp: nat, fastpath: bool, e: Side, u: Side, cq: seq<ReqId>,
                      except: set<ReqId>, x: ReqId)
    requires QueueWf(h, reqs, stamp, fastpath, e, u, cq, except)
    requires x in reqs && reqs[x].typ == Recv && reqs[x].state == Posted && x !in except
    ensures var r := Withdraw(h, reqs, e, HomeOf(reqs, fastpath, x), x);
            && QueueWf(h, reqs, stamp, fastpath, r, u, cq, except + {x})
            && NotExpected(r, x)
            && r.listLen + r.hashLen == e.listLen + e.hashLen - 1
  {
    var r := Withdraw(h, reqs, e, HomeOf(reqs, fastpath, x), x);
    assert x in SublistOf(h, reqs, e, HomeOf(reqs, fastpath, x), x);
    WithdrawnSide(h, reqs, stamp, fastpath, e, x);
    WithdrawnEverywhere(h, reqs, stamp, fastpath, e, r, x);
    WithdrawnQueued(h, reqs, fastpath, e, except, x);
  }

  /** The expected side stays well formed, and the counter of the home
      sublist still counts it. */
  lemma WithdrawnSide(h: Hashes, reqs: Pool, stamp: nat, fastpath: bool, e: Side, x: ReqId)
    requires ExpectedSide(h, reqs, stamp, fastpath, e) && x in reqs
    requires x in SublistOf(h, reqs, e, HomeOf(reqs, fastpath, x), x)
    ensures ExpectedSide(h, reqs, stamp, fastpath, Withdraw(h, reqs, e, HomeOf(reqs, fastpath, x), x))
  {
    var home := HomeOf(reqs, fastpath, x);
    if home == ANYTAG_ANYSRC {
      IncreasingNoDup(reqs, e.list);
      RemoveIdLength(e.list, x);
      RemoveIncreasing(reqs, e.list, x);
    } else {
      WithdrawnBucket(h, reqs, stamp, e.htab, home, BucketOf(h, home, reqs[x].tag), x);
    }
  }

  /** The bucket that gives up `x` stays well formed and one shorter. */
  lemma WithdrawnBucket(h: Hashes, reqs: Pool, stamp: nat, tab: Htab, t: nat, b: nat, x: ReqId)
    requires ExpectedTabHolds(h, reqs, stamp, tab) && t < NUM_HASH_CONFIGS && b < NUM_HASH_BUCKETS
    requires x in tab[t][b]
    ensures ExpectedTabHolds(h, reqs, stamp, Unlink(tab, t, b, x))
    ensures HtabSize(Unlink(tab, t, b, x)) == HtabSize(tab) - 1
  {
    var r := Unlink(tab, t, b, x);
    assert ExpectedBucketHolds(h, reqs, stamp, tab[t][b], t, b);
    IncreasingNoDup(reqs, tab[t][b]);
    RemoveIdLength(tab[t][b], x);
    RemoveIncreasing(reqs, tab[t][b], x);
    assert ExpectedBucketHolds(h, reqs, stamp, r[t][b], t, b);
  }

  /** Every other posted receive is still on its home sublist. */
  lemma WithdrawnQueued(h: Hashes, reqs: Pool, fastpath: bool, e: Side, except: set<ReqId>, x: ReqId)
    requires Shaped(e.htab) && AllPostedQueued(h, reqs, fastpath, e, except) && x in reqs
    ensures AllPostedQueued(h, reqs, fastpath, Withdraw(h, reqs, e, HomeOf(reqs, fastpath, x), x), except + {x})
  {
    var r := Withdraw(h, reqs, e, HomeOf(reqs, fastpath, x), x);
    forall y | y in reqs && reqs[y].typ == Recv && reqs[y].state == Posted && y !in except + {x}
      ensures y in SublistOf(h, reqs, r, HomeOf(reqs, fastpath, y), y)
    {
      assert y in SublistOf(h, reqs, e, HomeOf(reqs, fastpath, y), y);
    }
  }

  /** After the withdrawal `x` is on no sublist: it was on its home
      sublist only. */
  lemma WithdrawnEverywhere(h: Hashes, reqs: Pool, stamp: nat, fastpath: bool, e: Side, r: Side, x: ReqId)
    requires ExpectedSide(h, reqs, stamp, fastpath, e) && x in reqs
    requires r == Withdraw(h, reqs, e, HomeOf(reqs, fastpath, x), x)
    ensures NotExpected(r, x)
  {
    var home := HomeOf(reqs, fastpath, x);
    if x in r.list {
      OnlyOnHome(h, reqs, stamp, fastpath, e, ANYTAG_ANYSRC, x);
    }
  }
}
