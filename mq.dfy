/**
 * The message queue of psm_mq.c (struct psm2_mq) and the operations of
 * its receive side: matching arrived messages, posting and cancelling
 * receives, completing requests, switching between the list-only
 * fastpath and the hashed mode, and the rendezvous options.
 */
module MatchQueue {
  import opened Tags
  import opened Selection
  import opened Requests
  import opened QueueLists
  import opened QueueState
  import opened Migration
  import opened MatchUnexpected
  import opened Posting
  import opened Delivery
  import opened Words

  /** The keys psmi_mqopt_ctl knows; UnknownKey is any other value. */
  datatype OptKey = RndvHfiSz | RndvShmSz | MaxSysbufMbytes | UnknownKey(raw: u32)

  /** mq_set_msglen as the core uses it: it settles on a length that fits
      both the receive buffer and the message sent. */
  predicate Truncates(msglen: (u32, u32) -> u32)
  {
    forall recvlen: u32, sendlen: u32 :: msglen(recvlen, sendlen) <= recvlen && msglen(recvlen, sendlen) <= sendlen
  }

  lemma UpdateTwice(reqs: Pool, x: ReqId, a: Req, b: Req)
    ensures reqs[x := a][x := b] == reqs[x := b]
  {
  }

  /** What mq_add_to_expected_hashes leaves of the two sides `e` and `u`,
      for `x` in the pool `reqs` after the call: `x` joins the sublist
      SelectQueue names; in the fastpath, once the expected list reaches
      HASH_THRESHOLD, psmi_mq_fastpath_disable mirrors the unexpected list
      into its tables, counting it once more as hashed, and spreads the
      expected list, `x` last, over the wildcard list and the buckets. */
  ghost predicate AddedExpected(h: Hashes, reqs: Pool, fastpath: bool, e: Side, u: Side, x: ReqId,
                                fastpath': bool, e': Side, u': Side)
  {
    && Shaped(e.htab) && x in reqs
    && fastpath' == (fastpath && e.listLen + 1 < HASH_THRESHOLD)
    && e'.listLen + e'.hashLen == e.listLen + e.hashLen + 1
    && (fastpath' == fastpath ==> u' == u && e' == Post(h, reqs, fastpath, e, x))
    && (fastpath' != fastpath ==>
          && u'.list == u.list && u'.listLen == u.listLen && u'.hashLen == u.hashLen + |u.list|
          && UnexpectedTabMirrors(h, reqs, u'.htab, u.list)
          && e'.list == Filter(Selecting(h, reqs, Wildcard), e.list + [x])
          && MigratedBuckets(h, reqs, e'.htab, e.list + [x]))
  }

  /** What the removal branch of mq_req_match_with_tagsel leaves of the
      unexpected side `u` once it has found `x` for selector `sel`: `x`
      is off the list and every bucket, and the counter of the sublist
      that was searched gives back one unit. */
  ghost predicate TookArrival(fastpath: bool, sel: Tag, u: Side, x: ReqId, u': Side)
  {
    && Shaped(u.htab) && Shaped(u'.htab)
    && u'.list == RemoveId(u.list, x) && |u'.list| == |u.list| - 1
    && (forall t, b :: 0 <= t < NUM_HASH_CONFIGS && 0 <= b < NUM_HASH_BUCKETS ==>
          u'.htab[t][b] == RemoveId(u.htab[t][b], x))
    && (if fastpath || Category(sel) == ANYTAG_ANYSRC
        then u'.listLen == u.listLen - 1 && u'.hashLen == u.hashLen
        else u'.hashLen == u.hashLen - 1 && u'.listLen == u.listLen)
  }

  /** The unexpected counters exceed the unexpected list by a surplus
      that a removal keeps. psmi_mq_fastpath_disable makes that surplus
      the length of the list it migrates, so once a non-empty list has
      been migrated, removals alone never bring both counters to zero. */
  lemma TookArrivalKeepsSurplus(fastpath: bool, sel: Tag, u: Side, x: ReqId, u': Side)
    requires TookArrival(fastpath, sel, u, x, u')
    ensures u'.listLen + u'.hashLen - |u'.list| == u.listLen + u.hashLen - |u.list|
    ensures u.listLen + u.hashLen > |u.list| ==> u'.listLen != 0 || u'.hashLen != 0
  {
  }

  /** Giving `x` the user's context, as __psm2_mq_irecv2 does after
      mq_add_to_expected_hashes, changes nothing the posting left: the
      sublists depend on tags and selectors only. */
  lemma ContextKeepsAdded(h: Hashes, reqs: Pool, fastpath: bool, e: Side, u: Side, x: ReqId,
                          fastpath': bool, e': Side, u': Side, context: nat)
    requires AddedExpected(h, reqs, fastpath, e, u, x, fastpath', e', u')
    ensures AddedExpected(h, reqs[x := reqs[x].(context := context)], fastpath, e, u, x, fastpath', e', u')
  {
    var reqs' := reqs[x := reqs[x].(context := context)];
    if fastpath' == fastpath {
      assert Post(h, reqs', fastpath, e, x) == Post(h, reqs, fastpath, e, x);
    } else {
      PoolFrame(h, reqs, reqs', e.list + [x]);
      PoolFrame(h, reqs, reqs', u.list);
    }
  }

  /** The branch of __psm2_mq_irecv2 that finds no arrived message: the
      new request `x` is filled in as a posted receive, linked by
      mq_add_to_expected_hashes, and given the user's context. */
  method PostNew(h: Hashes, reqs: Pool, stamp: nat, fastpath: bool, e: Side, u: Side, ghost cq: seq<ReqId>,
                 x: ReqId, src: EpAddr, tag: Tag, sel: Tag, buf: Buf, len: u32, context: nat)
    returns (reqs': Pool, stamp': nat, fastpath': bool, e': Side, u': Side)
    requires QueueWf(h, reqs, stamp, fastpath, e, u, cq, {}) && x !in reqs
    ensures QueueWf(h, reqs', stamp', fastpath', e', u', cq, {}) && stamp' == stamp + 1
    ensures reqs' == reqs[x := Req(Recv, false, Posted, src, tag, sel, buf, len, len, 0, 0, 0, stamp, false, context)]
    ensures AddedExpected(h, reqs', fastpath, e, u, x, fastpath', e', u')
  {
    var r := Req(Recv, false, Posted, src, tag, sel, buf, len, len, 0, 0, 0, 0, false, 0);
    PoolChangeKeeps(h, reqs, reqs[x := r], stamp, stamp, fastpath, e, u, cq, {x}, x);
    var reqs1: Pool;
    reqs1, stamp', fastpath', e', u' := AddExpected(h, reqs[x := r], stamp, fastpath, e, u, cq, x);
    QuietChangeKeeps(h, reqs1, stamp', fastpath', e', u', cq, {}, x, reqs1[x].(context := context));
    reqs' := reqs1[x := reqs1[x].(context := context)];
    UpdateTwice(reqs, x, r, r.(timestamp := stamp));
    UpdateTwice(reqs, x, r.(timestamp := stamp), r.(timestamp := stamp, context := context));
    ContextKeepsAdded(h, reqs1, fastpath, e, u, x, fastpath', e', u', context);
  }

  /** psm2_mq_irecv_inner on the queue's values: the matched request `x`,
      off the unexpected side, takes its new record, and a completed one is
      queued for completion; `evs` are its effects. */
  method DeliverMatched(h: Hashes, reqs: Pool, stamp: nat, fastpath: bool, e: Side, u: Side, cq: seq<ReqId>,
                        x: ReqId, buf: Buf, len: u32, copysz: u32)
    returns (reqs': Pool, cq': seq<ReqId>, evs: seq<Event>)
    requires QueueWf(h, reqs, stamp, fastpath, e, u, cq, {}) && copysz <= len
    requires x in reqs && Deliverable(reqs[x]) && x !in u.list && x !in cq
    ensures QueueWf(h, reqs', stamp, fastpath, e, u, cq', {})
    ensures var d := Deliver(x, reqs[x], buf, len, copysz);
            && reqs' == reqs[x := d.0] && evs == d.1
            && cq' == cq + (if reqs[x].state == Complete then [x] else [])
  {
    var r;
    r, evs := HandOver(x, reqs[x], buf, len, copysz);
    DeliverKeeps(h, reqs, stamp, fastpath, e, u, cq, x, r);
    reqs', cq' := reqs[x := r], if r.state == Complete then cq + [x] else cq;
  }

  /** The branch of __psm2_mq_irecv2 that finds arrived message `x`, already
      taken off the unexpected side `u`: the fastpath check of
      mq_req_match_with_tagsel, then psm2_mq_irecv_inner, then the user's
      context. */
  method DeliverFound(h: Hashes, reqs: Pool, stamp: nat, fastpath: bool, e: Side, u: Side, cq: seq<ReqId>,
                      x: ReqId, buf: Buf, len: u32, context: nat, copysz: u32)
    returns (reqs': Pool, fastpath': bool, cq': seq<ReqId>, evs: seq<Event>)
    requires QueueWf(h, reqs, stamp, fastpath, e, u, cq, {}) && copysz <= len
    requires x in reqs && Deliverable(reqs[x]) && x !in u.list && x !in cq
    ensures QueueWf(h, reqs', stamp, fastpath', e, u, cq', {})
    ensures fastpath' == (fastpath || (u.hashLen == 0 && e.hashLen == 0 && u.listLen == 0 && e.listLen == 0))
    ensures var d := Deliver(x, reqs[x], buf, len, copysz);
            && reqs' == reqs[x := d.0.(context := context)] && evs == d.1
            && cq' == cq + (if reqs[x].state == Complete then [x] else [])
  {
    fastpath' := Reenable(h, reqs, stamp, fastpath, e, u, cq, {});
    var reqs1: Pool;
    reqs1, cq', evs := DeliverMatched(h, reqs, stamp, fastpath', e, u, cq, x, buf, len, copysz);
    QuietChangeKeeps(h, reqs1, stamp, fastpath', e, u, cq', {}, x, reqs1[x].(context := context));
    reqs' := reqs1[x := reqs1[x].(context := context)];
    UpdateTwice(reqs, x, reqs1[x], reqs1[x].(context := context));
  }

  /** __psm2_mq_irecv2 on the queue's values: `evs` are the effects it
      adds. */
  method Receive(h: Hashes, reqs: Pool, stamp: nat, fastpath: bool, e: Side, u: Side, cq: seq<ReqId>,
                 src: EpAddr, tag: Tag, sel: Tag, buf: Buf, len: u32, context: nat,
                 msglen: (u32, u32) -> u32, slot: Option<ReqId>)
    returns (err: Error, req: Option<ReqId>, reqs': Pool, stamp': nat, fastpath': bool, e': Side, u': Side,
             cq': seq<ReqId>, evs: seq<Event>)
    requires QueueWf(h, reqs, stamp, fastpath, e, u, cq, {}) && Truncates(msglen)
    requires slot.Some? ==> slot.value !in reqs
    ensures QueueWf(h, reqs', stamp', fastpath', e', u', cq', {})
    ensures var m := FirstMatch(Matching(reqs, src, tag, sel), u.list);
            m.Some? ==>
              var x := m.value;
              var d := Deliver(x, reqs[x], buf, len, msglen(len, reqs[x].sendMsglen));
              && err == Ok && req == m && stamp' == stamp && e' == e
              && reqs' == reqs[x := d.0.(context := context)]
              && evs == d.1
              && TookArrival(fastpath, sel, u, x, u')
              && fastpath' == (fastpath || (u'.hashLen == 0 && e.hashLen == 0 && u'.listLen == 0 && e.listLen == 0))
              && cq' == cq + (if reqs[x].state == Complete then [x] else [])
    ensures FirstMatch(Matching(reqs, src, tag, sel), u.list).None? && slot.None? ==>
              && err == NoMemory && req == None && reqs' == reqs && stamp' == stamp && fastpath' == fastpath
              && e' == e && u' == u && cq' == cq && evs == []
    ensures FirstMatch(Matching(reqs, src, tag, sel), u.list).None? && slot.Some? ==>
              && err == Ok && req == slot && evs == [] && stamp' == stamp + 1 && cq' == cq
              && reqs' == reqs[slot.value := Req(Recv, false, Posted, src, tag, sel, buf, len, len, 0, 0, 0,
                                                 stamp, false, context)]
              && AddedExpected(h, reqs', fastpath, e, u, slot.value, fastpath', e', u')
  {
    var m, u1 := MatchTagsel(h, reqs, fastpath, u, src, tag, sel, true);
    if m.None? {
      if slot.None? {
        return NoMemory, None, reqs, stamp, fastpath, e, u, cq, [];
      }
      reqs', stamp', fastpath', e', u' := PostNew(h, reqs, stamp, fastpath, e, u, cq, slot.value, src, tag, sel, buf, len, context);
      return Ok, slot, reqs', stamp', fastpath', e', u', cq, [];
    }
    var x := m.value;
    reqs', fastpath', cq', evs := DeliverFound(h, reqs, stamp, fastpath, e, u1, cq, x, buf, len, context,
                                               msglen(len, reqs[x].sendMsglen));
    return Ok, m, reqs', stamp, fastpath', e, u1, cq', evs;
  }

  /** Cancelling: the posted receive `x`, already off the expected side,
      completes and joins the completion queue. */
  lemma CancelKeeps(h: Hashes, reqs: Pool, stamp: nat, fastpath: bool, e: Side, u: Side, cq: seq<ReqId>, x: ReqId)
    requires QueueWf(h, reqs, stamp, fastpath, e, u, cq, {x})
    requires x in reqs && reqs[x].typ == Recv && reqs[x].state == Posted && NotExpected(e, x)
    ensures QueueWf(h, reqs[x := reqs[x].(state := Complete)], stamp, fastpath, e, u, cq + [x], {})
  {
    var done := reqs[x := reqs[x].(state := Complete)];
    PoolChangeKeeps(h, reqs, done, stamp, stamp, fastpath, e, u, cq, {x}, x);
    CompletedAppendKeeps(h, done, stamp, fastpath, e, u, cq, {x}, x);
    ReleaseExempt(h, done, stamp, fastpath, e, u, cq + [x], {x}, x);
    assert {x} - {x} == {};
  }

  /** The posted branch of __psm2_mq_cancel on the queue's values:
      mq_req_remove_single takes `x` off its home sublist, after which the
      fastpath may come back, and `x` completes and is queued for
      completion. */
  method CancelPosted(h: Hashes, reqs: Pool, stamp: nat, fastpath: bool, e: Side, u: Side, cq: seq<ReqId>, x: ReqId)
    returns (reqs': Pool, fastpath': bool, e': Side, cq': seq<ReqId>)
    requires QueueWf(h, reqs, stamp, fastpath, e, u, cq, {})
    requires x in reqs && reqs[x].typ == Recv && reqs[x].state == Posted
    ensures QueueWf(h, reqs', stamp, fastpath', e', u, cq', {})
    ensures reqs' == reqs[x := reqs[x].(state := Complete)] && cq' == cq + [x]
    ensures NotExpected(e', x) && e' == Withdraw(h, reqs, e, HomeOf(reqs, fastpath, x), x)
    ensures e'.listLen + e'.hashLen == e.listLen + e.hashLen - 1
    ensures fastpath' == (fastpath || (u.hashLen == 0 && e'.hashLen == 0 && u.listLen == 0 && e'.listLen == 0))
  {
    var found;
    found, e' := FindAndWithdraw(h, reqs, stamp, fastpath, e, u, cq, x);
    fastpath' := Reenable(h, reqs, stamp, fastpath, e', u, cq, {x});
    CancelKeeps(h, reqs, stamp, fastpath', e', u, cq, x);
    reqs', cq' := reqs[x := reqs[x].(state := Complete)], cq + [x];
  }

  /** Delivering: the matched request `x`, off the unexpected side, takes
      its new record, and joins the completion queue if it is complete. */
  lemma DeliverKeeps(h: Hashes, reqs: Pool, stamp: nat, fastpath: bool, e: Side, u: Side, cq: seq<ReqId>,
                     x: ReqId, r: Req)
    requires QueueWf(h, reqs, stamp, fastpath, e, u, cq, {})
    requires x in reqs && Deliverable(reqs[x]) && x !in u.list && x !in cq
    requires r.state == Complete || r.state == Matched
    ensures QueueWf(h, reqs[x := r], stamp, fastpath, e, u, if r.state == Complete then cq + [x] else cq, {})
  {
    NotPostedNotExpected(h, reqs, stamp, fastpath, e, x);
    PoolChangeKeeps(h, reqs, reqs[x := r], stamp, stamp, fastpath, e, u, cq, {}, x);
    if r.state == Complete {
      CompletedAppendKeeps(h, reqs[x := r], stamp, fastpath, e, u, cq, {}, x);
    }
  }

  /** psmi_mq_fastpath_try_reenable on the queue's values: the fastpath
      comes back only when all four counters are zero, and then both sides
      are empty. */
  method Reenable(h: Hashes, reqs: Pool, stamp: nat, fastpath: bool, e: Side, u: Side, ghost cq: seq<ReqId>,
                  ghost except: set<ReqId>)
    returns (fastpath': bool)
    requires QueueWf(h, reqs, stamp, fastpath, e, u, cq, except)
    ensures QueueWf(h, reqs, stamp, fastpath', e, u, cq, except)
    ensures fastpath' == (fastpath || (u.hashLen == 0 && e.hashLen == 0 && u.listLen == 0 && e.listLen == 0))
    ensures fastpath' && !fastpath ==> e.list == [] && HtabEmpty(e.htab) && u.list == [] && HtabEmpty(u.htab)
  {
    fastpath' := fastpath;
    if !fastpath && u.hashLen == 0 && e.hashLen == 0 && u.listLen == 0 && e.listLen == 0 {
      ReenableKeeps(h, reqs, stamp, e, u, cq, except);
      fastpath' := true;
    }
  }

  /** mq_add_to_expected_hashes on the queue's values. */
  method AddExpected(h: Hashes, reqs: Pool, stamp: nat, fastpath: bool, e: Side, u: Side, ghost cq: seq<ReqId>, x: ReqId)
    returns (reqs': Pool, stamp': nat, fastpath': bool, e': Side, u': Side)
    requires QueueWf(h, reqs, stamp, fastpath, e, u, cq, {x})
    requires x in reqs && reqs[x].typ == Recv && reqs[x].state == Posted && NotExpected(e, x)
    ensures QueueWf(h, reqs', stamp', fastpath', e', u', cq, {}) && stamp' == stamp + 1
    ensures reqs' == reqs[x := reqs[x].(timestamp := stamp)]
    ensures AddedExpected(h, reqs', fastpath, e, u, x, fastpath', e', u')
  {
    reqs', stamp' := reqs[x := reqs[x].(timestamp := stamp)], stamp + 1;
    StampAndPostKeeps(h, reqs, stamp, fastpath, e, u, cq, x);
    e', u', fastpath' := Post(h, reqs', fastpath, e, x), u, fastpath;
    if fastpath && e'.listLen >= HASH_THRESHOLD {
      e', u' := Disable(h, reqs', stamp + 1, e', u', cq, {});
      fastpath' := false;
    }
  }

  /** The completion part of psmi_mq_test_inner and psmi_mq_wait_inner: a
      completed request, which the user holds and so is not on the
      unexpected side, leaves the completion queue and the pool. */
  lemma RetireKeeps(h: Hashes, reqs: Pool, stamp: nat, fastpath: bool, e: Side, u: Side, cq: seq<ReqId>, x: ReqId)
    requires QueueWf(h, reqs, stamp, fastpath, e, u, cq, {})
    requires x in reqs && reqs[x].state == Complete && x !in u.list
    ensures QueueWf(h, reqs - {x}, stamp, fastpath, e, u, RemoveId(cq, x), {})
  {
    CompletedRemoveKeeps(h, reqs, stamp, fastpath, e, u, cq, {}, x);
    NotPostedNotExpected(h, reqs, stamp, fastpath, e, x);
    PoolChangeKeeps(h, reqs, reqs - {x}, stamp, stamp, fastpath, e, u, RemoveId(cq, x), {}, x);
  }

  /** The matching state of struct psm2_mq: the fastpath flag, the next
      timestamp, the expected side (expected_q, expected_htab and their two
      counters), the unexpected side (likewise) and completed_q. */
  datatype MqState = MqState(nohashFastpath: bool, timestamp: nat, expected: Side, unexpected: Side,
                             completedQ: seq<ReqId>)

  /** The state psmi_mq_malloc and psmi_mq_initialize_defaults leave: the
      zeroed lists, tables and counters of the former, and the fastpath the
      latter turns on. */
  function InitialState(): (s: MqState)
    ensures s.nohashFastpath && s.timestamp == 0 && s.completedQ == []
    ensures s.expected.list == [] && HtabEmpty(s.expected.htab) && s.expected.listLen == 0 && s.expected.hashLen == 0
    ensures s.unexpected.list == [] && HtabEmpty(s.unexpected.htab) && s.unexpected.listLen == 0 && s.unexpected.hashLen == 0
  {
    MqState(true, 0, EmptySide(), EmptySide(), [])
  }

  /** The queue `s` over the request pool `reqs` is well formed, with the
      posted receives in `except` allowed off the expected side. */
  predicate Wf(h: Hashes, reqs: Pool, s: MqState, except: set<ReqId>)
  {
    QueueWf(h, reqs, s.timestamp, s.nohashFastpath, s.expected, s.unexpected, s.completedQ, except)
  }

  class MQ {
    /** hash_64 and hash_32. */
    const hashes: Hashes
    /** The matching state, replaced as a whole by each operation. */
    var state: MqState
    var hfiThreshRv: u32
    var shmThreshRv: u32

    /** The request pool: every live request by handle. */
    var reqs: Pool

    /** An empty queue in the fastpath, as psmi_mq_malloc and
        psmi_mq_initialize_defaults leave it; the two thresholds, which
        those take from the CPU model and the environment, are
        parameters. */
    constructor (h: Hashes, hfiThresh: u32, shmThresh: u32)
      ensures Wf(hashes, reqs, state, {})
      ensures hashes == h && state == InitialState() && reqs == map[]
      ensures hfiThreshRv == hfiThresh && shmThreshRv == shmThresh
    {
      hashes := h;
      state := InitialState();
      hfiThreshRv, shmThreshRv := hfiThresh, shmThresh;
      reqs := map[];
      EmptyQueueWf(h, 0);
    }

    /** psmi_mq_fastpath_try_reenable: the fastpath comes back only when
        all four counters are zero, and then both sides are empty. */
    method TryReenable(ghost except: set<ReqId>)
      requires Wf(hashes, reqs, state, except)
      modifies this`state
      ensures Wf(hashes, reqs, state, except)
      ensures state == old(state).(nohashFastpath := state.nohashFastpath)
      ensures state.nohashFastpath == (old(state.nohashFastpath) ||
                (state.unexpected.hashLen == 0 && state.expected.hashLen == 0 &&
                 state.unexpected.listLen == 0 && state.expected.listLen == 0))
      ensures state.nohashFastpath && !old(state.nohashFastpath) ==>
                && state.expected.list == [] && HtabEmpty(state.expected.htab)
                && state.unexpected.list == [] && HtabEmpty(state.unexpected.htab)
    {
      var s := state;
      var f := Reenable(hashes, reqs, s.timestamp, s.nohashFastpath, s.expected, s.unexpected, s.completedQ, except);
      state := s.(nohashFastpath := f);
    }

    /** psmi_mq_fastpath_disable: hashing goes on. Every arrived message is
        appended, in list order, to one bucket of each of the three
        unexpected tables and counted once more as hashed; every posted
        receive with a hashable selector moves, in list order, from the
        expected list to the one bucket of its category, and only the
        wildcard receives stay on the list. */
    method FastpathDisable(ghost except: set<ReqId>)
      requires Wf(hashes, reqs, state, except) && state.nohashFastpath
      modifies this`state
      ensures Wf(hashes, reqs, state, except) && !state.nohashFastpath
      ensures state.timestamp == old(state.timestamp) && state.completedQ == old(state.completedQ)
      ensures state.unexpected.list == old(state.unexpected.list)
      ensures state.unexpected.listLen == old(state.unexpected.listLen)
      ensures state.unexpected.hashLen == old(state.unexpected.hashLen) + |state.unexpected.list|
      ensures UnexpectedTabMirrors(hashes, reqs, state.unexpected.htab, state.unexpected.list)
      ensures state.expected.list == Filter(Selecting(hashes, reqs, Wildcard), old(state.expected.list))
      ensures MigratedBuckets(hashes, reqs, state.expected.htab, old(state.expected.list))
      ensures state.expected.listLen + state.expected.hashLen ==
                old(state.expected.listLen) + old(state.expected.hashLen)
    {
      var s := state;
      var e, u := Disable(hashes, reqs, s.timestamp, s.expected, s.unexpected, s.completedQ, except);
      state := s.(nohashFastpath := false, expected := e, unexpected := u);
    }

    /** mq_req_match_with_tagsel: finds the first arrived message, in
        arrival order, that a receive for (src, tag, sel) takes; with
        `remove` it also unlinks it from the unexpected sublists, gives
        back one unit of the counter of the sublist it was found on, and
        tries to go back to the fastpath. */
    method MatchWithTagsel(src: EpAddr, tag: Tag, sel: Tag, remove: bool) returns (r: Option<ReqId>)
      requires Wf(hashes, reqs, state, {})
      modifies this`state
      ensures Wf(hashes, reqs, state, {})
      ensures r == FirstMatch(Matching(reqs, src, tag, sel), old(state.unexpected.list))
      ensures state.timestamp == old(state.timestamp) && state.expected == old(state.expected)
      ensures state.completedQ == old(state.completedQ)
      ensures !remove || r.None? ==> state == old(state)
      ensures remove && r.Some? ==>
        var u, u0 := state.unexpected, old(state.unexpected);
        && u.list == RemoveId(u0.list, r.value)
        && |u.list| == |u0.list| - 1
        && (forall t, b :: 0 <= t < NUM_HASH_CONFIGS && 0 <= b < NUM_HASH_BUCKETS ==>
              u.htab[t][b] == RemoveId(u0.htab[t][b], r.value))
        && (if old(state.nohashFastpath) || Category(sel) == ANYTAG_ANYSRC
            then u.listLen == u0.listLen - 1 && u.hashLen == u0.hashLen
            else u.hashLen == u0.hashLen - 1 && u.listLen == u0.listLen)
        && state.nohashFastpath == (old(state.nohashFastpath) ||
             (u.hashLen == 0 && state.expected.hashLen == 0 && u.listLen == 0 && state.expected.listLen == 0))
    {
      var s := state;
      var u;
      r, u := MatchTagsel(hashes, reqs, s.nohashFastpath, s.unexpected, src, tag, sel, remove);
      var f := s.nohashFastpath;
      if remove && r.Some? {
        f := Reenable(hashes, reqs, s.timestamp, f, s.expected, u, s.completedQ, {});
      }
      state := s.(nohashFastpath := f, unexpected := u);
    }

    /** mq_add_to_expected_hashes: `x` takes the current timestamp, which
        moves on, and is appended to the sublist SelectQueue names; in the
        fastpath, an expected list that reaches HASH_THRESHOLD switches
        hashing on. */
    method AddToExpectedHashes(x: ReqId)
      requires Wf(hashes, reqs, state, {x}) && x in reqs && reqs[x].typ == Recv && reqs[x].state == Posted
      requires NotExpected(state.expected, x)
      modifies this`reqs, this`state
      ensures Wf(hashes, reqs, state, {})
      ensures reqs == old(reqs)[x := old(reqs[x]).(timestamp := old(state.timestamp))]
      ensures state.timestamp == old(state.timestamp) + 1 && state.completedQ == old(state.completedQ)
      ensures AddedExpected(hashes, reqs, old(state.nohashFastpath), old(state.expected), old(state.unexpected), x,
                            state.nohashFastpath, state.expected, state.unexpected)
    {
      var s := state;
      var reqs', stamp', f', e', u' :=
        AddExpected(hashes, reqs, s.timestamp, s.nohashFastpath, s.expected, s.unexpected, s.completedQ, x);
      reqs, state := reqs', MqState(f', stamp', e', u', s.completedQ);
    }

    /** mq_req_remove_single: scans the four sublists for `x`; it is found
        exactly when it is a posted receive, on its home sublist, which
        gives it up along with one unit of that sublist's counter, after
        which the fastpath may come back. The source finds `x` by its q[]
        back-pointers, which the unexpected list and completed_q set as
        well, so `x` must be on neither: its one caller passes a posted
        receive. */
    method RemoveSingle(x: ReqId) returns (found: bool)
      requires Wf(hashes, reqs, state, {}) && x in reqs
      requires x !in state.unexpected.list && x !in state.completedQ
      modifies this`state
      ensures found <==> reqs[x].typ == Recv && reqs[x].state == Posted
      ensures state.timestamp == old(state.timestamp) && state.unexpected == old(state.unexpected)
      ensures state.completedQ == old(state.completedQ)
      ensures !found ==> Wf(hashes, reqs, state, {}) && state == old(state)
      ensures found ==>
                && Wf(hashes, reqs, state, {x}) && NotExpected(state.expected, x)
                && state.expected == Withdraw(hashes, reqs, old(state.expected), HomeOf(reqs, old(state.nohashFastpath), x), x)
                && state.expected.listLen + state.expected.hashLen ==
                     old(state.expected.listLen) + old(state.expected.hashLen) - 1
                && state.nohashFastpath == (old(state.nohashFastpath) ||
                     (state.unexpected.hashLen == 0 && state.expected.hashLen == 0 &&
                      state.unexpected.listLen == 0 && state.expected.listLen == 0))
    {
      var s := state;
      var e;
      found, e := FindAndWithdraw(hashes, reqs, s.timestamp, s.nohashFastpath, s.expected, s.unexpected, s.completedQ, x);
      var f := s.nohashFastpath;
      if found {
        f := Reenable(hashes, reqs, s.timestamp, f, e, s.unexpected, s.completedQ, {x});
      }
      state := s.(nohashFastpath := f, expected := e);
    }

    /** __psm2_mq_cancel: a posted receive is taken off the expected side,
        completed and queued for completion; a receive in any other state
        cannot be cancelled, and a send is refused. */
    method Cancel(handle: Option<ReqId>) returns (err: Error)
      requires Wf(hashes, reqs, state, {}) && (handle.Some? ==> handle.value in reqs)
      modifies this`state, this`reqs
      ensures Wf(hashes, reqs, state, {})
      ensures handle.None? ==> err == MqNoCompletions && unchanged(this)
      ensures handle.Some? && old(reqs[handle.value]).typ == Send ==> err == ParamErr && unchanged(this)
      ensures handle.Some? && old(reqs[handle.value]).typ == Recv && old(reqs[handle.value]).state != Posted ==>
                err == MqNoCompletions && unchanged(this)
      ensures handle.Some? && old(reqs[handle.value]).typ == Recv && old(reqs[handle.value]).state == Posted ==>
                var x := handle.value;
                && err == Ok
                && reqs == old(reqs)[x := old(reqs[x]).(state := Complete)]
                && state.completedQ == old(state.completedQ) + [x]
                && NotExpected(state.expected, x)
                && state.expected == Withdraw(hashes, old(reqs), old(state.expected),
                                              HomeOf(old(reqs), old(state.nohashFastpath), x), x)
                && state.expected.listLen + state.expected.hashLen ==
                     old(state.expected.listLen) + old(state.expected.hashLen) - 1
                && state.unexpected == old(state.unexpected) && state.timestamp == old(state.timestamp)
                && state.nohashFastpath == (old(state.nohashFastpath) ||
                     (state.unexpected.hashLen == 0 && state.expected.hashLen == 0 &&
                      state.unexpected.listLen == 0 && state.expected.listLen == 0))
    {
      if handle.None? {
        return MqNoCompletions;
      }
      var x := handle.value;
      if reqs[x].typ == Send {
        return ParamErr;
      }
      if reqs[x].state != Posted {
        return MqNoCompletions;
      }
      var s := state;
      var reqs', f', e', cq' := CancelPosted(hashes, reqs, s.timestamp, s.nohashFastpath, s.expected, s.unexpected,
                                             s.completedQ, x);
      reqs, state := reqs', MqState(f', s.timestamp, e', s.unexpected, cq');
      return Ok;
    }

    /** psm2_mq_irecv_inner: the matched request `x`, taken off the
        unexpected side, gets the user's buffer; what has arrived is copied
        over, and a completed request is queued for completion. */
    method IrecvInner(x: ReqId, buf: Buf, len: u32, msglen: (u32, u32) -> u32) returns (err: Error, evs: seq<Event>)
      requires Wf(hashes, reqs, state, {}) && Truncates(msglen)
      requires x in reqs && Deliverable(reqs[x]) && x !in state.unexpected.list && x !in state.completedQ
      modifies this`reqs, this`state
      ensures Wf(hashes, reqs, state, {}) && err == Ok
      ensures var d := Deliver(x, old(reqs[x]), buf, len, msglen(len, old(reqs[x]).sendMsglen));
              reqs == old(reqs)[x := d.0] && evs == d.1
      ensures state == old(state).(completedQ := state.completedQ)
      ensures state.completedQ == old(state.completedQ) + (if old(reqs[x]).state == Complete then [x] else [])
    {
      var s := state;
      var reqs', cq';
      reqs', cq', evs := DeliverMatched(hashes, reqs, s.timestamp, s.nohashFastpath, s.expected, s.unexpected,
                                        s.completedQ, x, buf, len, msglen(len, reqs[x].sendMsglen));
      reqs, state := reqs', s.(completedQ := cq');
      return Ok, evs;
    }

    /** __psm2_mq_irecv2: a receive for (src, tag, sel) first takes the
        earliest arrived message that matches, which gets the user's buffer
        and context; with none, a new request from the pool (`slot`, None
        when psmi_mq_req_alloc fails) is posted on the expected side. */
    method Irecv2(src: EpAddr, tag: Tag, sel: Tag, buf: Buf, len: u32, context: nat,
                  msglen: (u32, u32) -> u32, slot: Option<ReqId>)
      returns (err: Error, req: Option<ReqId>, evs: seq<Event>)
      requires Wf(hashes, reqs, state, {}) && Truncates(msglen)
      requires slot.Some? ==> slot.value !in reqs
      modifies this`reqs, this`state
      ensures Wf(hashes, reqs, state, {})
      ensures var m := FirstMatch(Matching(old(reqs), src, tag, sel), old(state.unexpected.list));
              m.Some? ==>
                var x := m.value;
                var d := Deliver(x, old(reqs[x]), buf, len, msglen(len, old(reqs[x]).sendMsglen));
                && err == Ok && req == m
                && reqs == old(reqs)[x := d.0.(context := context)]
                && evs == d.1
                && TookArrival(old(state.nohashFastpath), sel, old(state.unexpected), x, state.unexpected)
                && state.nohashFastpath == (old(state.nohashFastpath) ||
                     (state.unexpected.hashLen == 0 && state.expected.hashLen == 0 &&
                      state.unexpected.listLen == 0 && state.expected.listLen == 0))
                && state.expected == old(state.expected) && state.timestamp == old(state.timestamp)
                && state.completedQ == old(state.completedQ) + (if old(reqs[x]).state == Complete then [x] else [])
      ensures FirstMatch(Matching(old(reqs), src, tag, sel), old(state.unexpected.list)).None? && slot.None? ==>
                err == NoMemory && req == None && reqs == old(reqs) && state == old(state) && evs == []
      ensures FirstMatch(Matching(old(reqs), src, tag, sel), old(state.unexpected.list)).None? && slot.Some? ==>
                && err == Ok && req == slot && evs == []
                && reqs == old(reqs)[slot.value := Req(Recv, false, Posted, src, tag, sel, buf, len, len, 0, 0, 0,
                                                       old(state.timestamp), false, context)]
                && state.timestamp == old(state.timestamp) + 1
                && state.completedQ == old(state.completedQ)
                && AddedExpected(hashes, reqs, old(state.nohashFastpath), old(state.expected), old(state.unexpected),
                                 slot.value, state.nohashFastpath, state.expected, state.unexpected)
    {
      var s := state;
      var reqs', stamp', f', e', u', cq';
      err, req, reqs', stamp', f', e', u', cq', evs :=
        Receive(hashes, reqs, s.timestamp, s.nohashFastpath, s.expected, s.unexpected, s.completedQ,
                src, tag, sel, buf, len, context, msglen, slot);
      reqs, state := reqs', MqState(f', stamp', e', u', cq');
    }

    /** psmi_mq_test_inner: a request that has not completed is left alone
        (its test-wait callback, if any, decides the result); a completed
        one has its status copied out, leaves the completion queue and
        returns to the pool, and the user's handle is cleared. */
    method Test(handle: Option<ReqId>, callbackErr: Error) returns (err: Error, handle': Option<ReqId>, status: Option<Req>)
      requires Wf(hashes, reqs, state, {})
      requires handle.Some? ==> handle.value in reqs && handle.value !in state.unexpected.list
      modifies this`reqs, this`state
      ensures Wf(hashes, reqs, state, {})
      ensures handle.None? ==> err == Ok && handle' == None && status == None && unchanged(this)
      ensures handle.Some? && old(reqs[handle.value]).state != Complete ==>
                && handle' == handle && unchanged(this)
                && (if old(reqs[handle.value]).hasTestwaitCallback
                    then err == callbackErr && status == Some(old(reqs[handle.value]))
                    else err == MqNoCompletions && status == None)
      ensures handle.Some? && old(reqs[handle.value]).state == Complete ==>
                var x := handle.value;
                && err == Ok && handle' == None && status == Some(old(reqs[x]))
                && reqs == old(reqs) - {x}
                && state == old(state).(completedQ := RemoveId(old(state.completedQ), x))
    {
      if handle.None? {
        return Ok, None, None;
      }
      var x := handle.value;
      if reqs[x].state != Complete {
        if reqs[x].hasTestwaitCallback {
          return callbackErr, handle, Some(reqs[x]);
        }
        return MqNoCompletions, handle, None;
      }
      var s := state;
      status := Some(reqs[x]);
      RetireKeeps(hashes, reqs, s.timestamp, s.nohashFastpath, s.expected, s.unexpected, s.completedQ, x);
      reqs, state := reqs - {x}, s.(completedQ := RemoveId(s.completedQ, x));
      return Ok, None, status;
    }

    /** psmi_mq_wait_inner: a request that has not completed is marked as
        waited on; with a test-wait callback, the callback decides the
        result, and otherwise the call blocks until the progress engine
        completes it (`blocked`). A completed request is finished as in
        Test. */
    method Wait(handle: Option<ReqId>, callbackErr: Error)
      returns (err: Error, handle': Option<ReqId>, status: Option<Req>, blocked: bool)
      requires Wf(hashes, reqs, state, {})
      requires handle.Some? ==> handle.value in reqs && handle.value !in state.unexpected.list
      modifies this`reqs, this`state
      ensures Wf(hashes, reqs, state, {})
      ensures handle.None? ==> err == Ok && handle' == None && status == None && !blocked && unchanged(this)
      ensures handle.Some? && old(reqs[handle.value]).state != Complete ==>
                var x := handle.value;
                && handle' == handle && state == old(state)
                && reqs == old(reqs)[x := old(reqs[x]).(waiting := true)]
                && (if old(reqs[x]).hasTestwaitCallback
                    then err == callbackErr && status == Some(reqs[x]) && !blocked
                    else err == Ok && status == None && blocked)
      ensures handle.Some? && old(reqs[handle.value]).state == Complete ==>
                var x := handle.value;
                && err == Ok && handle' == None && status == Some(old(reqs[x])) && !blocked
                && reqs == old(reqs) - {x}
                && state == old(state).(completedQ := RemoveId(old(state.completedQ), x))
    {
      if handle.None? {
        return Ok, None, None, false;
      }
      var x := handle.value;
      var s := state;
      if reqs[x].state != Complete {
        QuietChangeKeeps(hashes, reqs, s.timestamp, s.nohashFastpath, s.expected, s.unexpected, s.completedQ, {}, x,
                         reqs[x].(waiting := true));
        reqs := reqs[x := reqs[x].(waiting := true)];
        if reqs[x].hasTestwaitCallback {
          return callbackErr, handle, Some(reqs[x]), false;
        }
        return Ok, handle, None, true;
      }
      status := Some(reqs[x]);
      RetireKeeps(hashes, reqs, s.timestamp, s.nohashFastpath, s.expected, s.unexpected, s.completedQ, x);
      reqs, state := reqs - {x}, s.(completedQ := RemoveId(s.completedQ, x));
      return Ok, None, status, false;
    }

    /** psmi_mqopt_ctl: reads or sets one of the two rendezvous thresholds;
        MaxSysbufMbytes is accepted and does nothing, any other key is a
        parameter error. `out` is the caller's value word after the call. */
    method OptCtl(key: OptKey, value: u32, get: bool) returns (err: Error, out: u32)
      modifies this`hfiThreshRv, this`shmThreshRv
      ensures err == (if key.UnknownKey? then ParamErr else Ok)
      ensures key == RndvHfiSz && get ==> out == hfiThreshRv && unchanged(this)
      ensures key == RndvHfiSz && !get ==> out == value && hfiThreshRv == value && shmThreshRv == old(shmThreshRv)
      ensures key == RndvShmSz && get ==> out == shmThreshRv && unchanged(this)
      ensures key == RndvShmSz && !get ==> out == value && shmThreshRv == value && hfiThreshRv == old(hfiThreshRv)
      ensures key.MaxSysbufMbytes? || key.UnknownKey? ==> out == value && unchanged(this)
    {
      out := value;
      match key {
        case RndvHfiSz =>
          if get {
            out := hfiThreshRv;
          } else {
            hfiThreshRv := value;
          }
        case RndvShmSz =>
          if get {
            out := shmThreshRv;
          } else {
            shmThreshRv := value;
          }
        case MaxSysbufMbytes =>
        case UnknownKey(_) =>
          return ParamErr, out;
      }
      return Ok, out;
    }
  }
}
