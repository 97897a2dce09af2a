/**
 * The search and the removal of mq_req_match_with_tagsel (psm_mq.c), on
 * values: which arrived message a receive takes, and what its removal
 * does to the unexpected side.
 */
module MatchUnexpected {
  import opened Tags
  import opened Selection
  import opened Requests
  import opened QueueLists
  import opened QueueState

  /** The scan of one sublist: the first entry, in list order, that a
      receive for (src, tag, sel) takes. */
  method Search(reqs: Pool, q: seq<ReqId>, src: EpAddr, tag: Tag, sel: Tag) returns (r: Option<ReqId>)
    ensures r == FirstMatch(Matching(reqs, src, tag, sel), q)
  {
    var i := 0;
    while i < |q|
      invariant 0 <= i <= |q|
      invariant FirstMatch(Matching(reqs, src, tag, sel), q) == FirstMatch(Matching(reqs, src, tag, sel), q[i..])
    {
      assert q[i..] == [q[i]] + q[i + 1..];
      FirstMatchCons(Matching(reqs, src, tag, sel), q[i], q[i + 1..]);
      if IsMatch(reqs, src, tag, sel, q[i]) {
        return Some(q[i]);
      }
      i := i + 1;
    }
    return None;
  }

  /** The search result is the earliest arrival that matches: it matches,
      and every message that arrived before it does not. */
  lemma FoundIsEarliest(h: Hashes, reqs: Pool, fastpath: bool, u: Side, src: EpAddr, tag: Tag, sel: Tag, i: nat)
    requires UnexpectedSide(h, reqs, fastpath, u) && i < |u.list|
    ensures FirstMatch(Matching(reqs, src, tag, sel), u.list) == Some(u.list[i]) <==>
              && IsMatch(reqs, src, tag, sel, u.list[i])
              && forall k :: 0 <= k < i ==> !IsMatch(reqs, src, tag, sel, u.list[k])
  {
    FirstMatchIsFirst(Matching(reqs, src, tag, sel), u.list, i);
  }

  /** The search of the hashed mode: the bucket a hashable selector names
      is searched instead of the list, and finds the same entry. */
  lemma BucketSearchAgrees(h: Hashes, reqs: Pool, u: Side, src: EpAddr, tag: Tag, sel: Tag)
    requires UnexpectedSide(h, reqs, false, u) && Category(sel) < NUM_HASH_CONFIGS
    ensures var t := Category(sel);
            FirstMatch(Matching(reqs, src, tag, sel), u.htab[t][BucketOf(h, t, tag)]) ==
            FirstMatch(Matching(reqs, src, tag, sel), u.list)
  {
    var t := Category(sel);
    var b := BucketOf(h, t, tag);
    var keep := Selecting(h, reqs, UnexpectedBucket(t, b));
    var p := Matching(reqs, src, tag, sel);
    forall x | x in u.list && p(x) ensures keep(x) {
      MatchFoundInSearchedBucket(h, src, tag, sel, reqs[x].peer, reqs[x].tag);
    }
    FirstMatchThroughFilter(keep, p, u.list);
  }

  /** The unlinking loop of mq_req_match_with_tagsel: `x` leaves the
      sublists j0..3 of the unexpected side, where j0 is 3 in the fastpath
      and 0 once hashing is on. */
  method UnlinkFrom(h: Hashes, reqs: Pool, fastpath: bool, u: Side, x: ReqId) returns (r: Side)
    requires x in u.list && x in reqs && Mirrored(h, reqs, fastpath, u.list, u.htab)
    ensures r.list == RemoveId(u.list, x) && r.listLen == u.listLen && r.hashLen == u.hashLen
    ensures Shaped(r.htab)
    ensures forall t, b :: 0 <= t < NUM_HASH_CONFIGS && 0 <= b < NUM_HASH_BUCKETS ==>
              r.htab[t][b] == RemoveId(u.htab[t][b], x)
  {
    var uq, utab := u.list, u.htab;
    var xtag := reqs[x].tag;
    var j0 := if fastpath then ANYTAG_ANYSRC else TAG_SRC;
    var j := j0;
    while j < NUM_MQ_SUBLISTS
      invariant j0 <= j <= NUM_MQ_SUBLISTS
      invariant uq == if j == NUM_MQ_SUBLISTS then RemoveId(u.list, x) else u.list
      invariant Shaped(utab)
      invariant forall t, b :: 0 <= t < NUM_HASH_CONFIGS && 0 <= b < NUM_HASH_BUCKETS ==>
                  utab[t][b] == if j0 <= t < j && b == BucketOf(h, t, xtag)
                                then RemoveId(u.htab[t][b], x) else u.htab[t][b]
    {
      if j == ANYTAG_ANYSRC {
        uq := RemoveId(uq, x);
      } else {
        utab := Unlink(utab, j, BucketOf(h, j, xtag), x);
      }
      j := j + 1;
    }
    r := Side(uq, utab, u.listLen, u.hashLen);
    UnlinkedEverywhere(h, reqs, fastpath, u, x, utab);
  }

  /** After that loop `x` is gone from every bucket: the tables are empty
      in the fastpath, and a bucket of another hash value never held it. */
  lemma UnlinkedEverywhere(h: Hashes, reqs: Pool, fastpath: bool, u: Side, x: ReqId, utab: Htab)
    requires x in reqs && Mirrored(h, reqs, fastpath, u.list, u.htab) && Shaped(utab)
    requires forall t, b :: 0 <= t < NUM_HASH_CONFIGS && 0 <= b < NUM_HASH_BUCKETS ==>
               utab[t][b] == if (if fastpath then ANYTAG_ANYSRC else TAG_SRC) <= t && b == BucketOf(h, t, reqs[x].tag)
                             then RemoveId(u.htab[t][b], x) else u.htab[t][b]
    ensures forall t, b :: 0 <= t < NUM_HASH_CONFIGS && 0 <= b < NUM_HASH_BUCKETS ==>
              utab[t][b] == RemoveId(u.htab[t][b], x)
  {
    forall t, b | 0 <= t < NUM_HASH_CONFIGS && 0 <= b < NUM_HASH_BUCKETS
      ensures utab[t][b] == RemoveId(u.htab[t][b], x)
    {
      if fastpath {
        assert u.htab[t][b] == [];
      } else if b != BucketOf(h, t, reqs[x].tag) {
        assert u.htab[t][b] == Filter(Selecting(h, reqs, UnexpectedBucket(t, b)), u.list);
      }
    }
  }

  /** The removal branch of mq_req_match_with_tagsel, before the fastpath
      check: one unit of the counter of the sublist the entry was found on
      (the list, or a bucket) is given back, and the entry is unlinked. */
  method TakeMatch(h: Hashes, reqs: Pool, fastpath: bool, u: Side, x: ReqId, onList: bool) returns (r: Side)
    requires UnexpectedSide(h, reqs, fastpath, u) && x in u.list
    requires fastpath ==> onList
    ensures UnexpectedSide(h, reqs, fastpath, r)
    ensures r.list == RemoveId(u.list, x) && |r.list| == |u.list| - 1
    ensures forall t, b :: 0 <= t < NUM_HASH_CONFIGS && 0 <= b < NUM_HASH_BUCKETS ==>
              r.htab[t][b] == RemoveId(u.htab[t][b], x)
    ensures if onList then r.listLen == u.listLen - 1 && r.hashLen == u.hashLen
            else r.hashLen == u.hashLen - 1 && r.listLen == u.listLen
  {
    var v := if onList then u.(listLen := u.listLen - 1) else u.(hashLen := u.hashLen - 1);
    r := UnlinkFrom(h, reqs, fastpath, v, x);
    RemoveIdNoDup(u.list, x);
    RemoveIdLength(u.list, x);
    if !fastpath {
      forall t, b | 0 <= t < NUM_HASH_CONFIGS && 0 <= b < NUM_HASH_BUCKETS
        ensures r.htab[t][b] == Filter(Selecting(h, reqs, UnexpectedBucket(t, b)), r.list)
      {
        FilterRemove(Selecting(h, reqs, UnexpectedBucket(t, b)), u.list, x);
      }
    }
  }

  /** mq_req_match_with_tagsel before the fastpath check: the sublist
      SelectQueue names is searched, which finds the earliest arrival that
      matches; with `remove` that arrival is taken off the unexpected side,
      along with one unit of the counter of the sublist it was found on. */
  method MatchTagsel(h: Hashes, reqs: Pool, fastpath: bool, u: Side, src: EpAddr, tag: Tag, sel: Tag, remove: bool)
    returns (r: Option<ReqId>, u': Side)
    requires UnexpectedSide(h, reqs, fastpath, u)
    ensures UnexpectedSide(h, reqs, fastpath, u')
    ensures r == FirstMatch(Matching(reqs, src, tag, sel), u.list)
    ensures !remove || r.None? ==> u' == u
    ensures remove && r.Some? ==>
      && u'.list == RemoveId(u.list, r.value) && |u'.list| == |u.list| - 1
      && (forall t, b :: 0 <= t < NUM_HASH_CONFIGS && 0 <= b < NUM_HASH_BUCKETS ==>
            u'.htab[t][b] == RemoveId(u.htab[t][b], r.value))
      && (if fastpath || Category(sel) == ANYTAG_ANYSRC
          then u'.listLen == u.listLen - 1 && u'.hashLen == u.hashLen
          else u'.hashLen == u.hashLen - 1 && u'.listLen == u.listLen)
  {
    var i: nat, q: seq<ReqId>;
    match SelectQueue(h, fastpath, tag, sel) {
      case PlainList =>
        i, q := ANYTAG_ANYSRC, u.list;
      case Bucket(t, b) =>
        i, q := t, u.htab[t][b];
        BucketSearchAgrees(h, reqs, u, src, tag, sel);
    }
    r := Search(reqs, q, src, tag, sel);
    u' := u;
    if remove && r.Some? {
      u' := TakeMatch(h, reqs, fastpath, u, r.value, i == ANYTAG_ANYSRC);
    }
  }
}
