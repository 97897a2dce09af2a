/**
 * What psm2_mq_irecv_inner (psm_mq.c) does to one matched request: the
 * user's buffer replaces the system buffer, the part of the message that
 * has already arrived is copied over, and a rendezvous sender is told to
 * go on.
 */
module Delivery {
  import opened Tags
  import opened Requests
  import opened Words

  function Min(a: u32, b: u32): (m: u32)
    ensures m <= a && m <= b && (m == a || m == b)
  {
    if a < b then a else b
  }

  /** The states in which an arrived message can be matched by a receive;
      any other state makes psm2_mq_irecv_inner abort. */
  predicate Deliverable(r: Req)
  {
    r.typ == Recv && r.state in {Complete, Unexp, UnexpRv}
  }

  /** The new request record and the effects, in order, of handing the
      user's buffer `buf` of `len` bytes to arrived request `id` (record
      `r`), where `copysz` is the length mq_set_msglen settles on. */
  function Deliver(id: ReqId, r: Req, buf: Buf, len: u32, copysz: u32): (d: (Req, seq<Event>))
    requires Deliverable(r) && copysz <= len
    ensures d.0.buf == buf && d.0.bufLen == len
    ensures d.0.state == if r.state == Complete then Complete else Matched
    ensures d.0.typ == r.typ && d.0.peer == r.peer && d.0.tag == r.tag && d.0.tagsel == r.tagsel
    ensures d.0.timestamp == r.timestamp && d.0.context == r.context
    ensures r.state != Complete ==> d.0.recvMsgoff <= copysz && d.0.recvMsgoff <= r.recvMsgoff
    ensures r.state != Complete ==> d.0.recvMsgoff == r.recvMsgoff || d.0.recvMsgoff == copysz
    ensures r.state == Complete ==> d.0.recvMsgoff == r.recvMsgoff
    ensures forall ev :: ev in d.1 && ev.Copied? ==> ev.dest == buf && ev.src == r.buf && ev.nbytes <= len
    ensures forall ev :: ev in d.1 && ev.SysbufFreed? ==> ev.b == r.buf
    ensures forall ev :: ev in d.1 && ev.RtsCallback? ==> ev.req == id
    ensures (RtsCallback(id) in d.1) <==> r.state == UnexpRv
    ensures r.state == Complete && r.buf != NullBuf ==> d.1 == [Copied(buf, r.buf, copysz), SysbufFreed(r.buf)]
    ensures r.state == Complete && r.buf == NullBuf ==> d.1 == []
    ensures r.state == Unexp ==> SysbufFreed(r.buf) in d.1
    ensures r.state == UnexpRv ==> (SysbufFreed(r.buf) in d.1 <==> r.sendMsgoff != 0)
  {
    match r.state
    case Complete =>
      var ev := if r.buf != NullBuf then [Copied(buf, r.buf, copysz), SysbufFreed(r.buf)] else [];
      (r.(buf := buf, bufLen := len), ev)
    case Unexp =>
      var off := Min(r.recvMsgoff, copysz);
      var copy := if off != 0 then [Copied(buf, r.buf, off)] else [];
      (r.(recvMsgoff := off, state := Matched, buf := buf, bufLen := len), copy + [SysbufFreed(r.buf)])
    case UnexpRv =>
      var off := Min(r.recvMsgoff, copysz);
      var copy := if off != 0 then [Copied(buf, r.buf, off)] else [];
      var free := if r.sendMsgoff != 0 then [SysbufFreed(r.buf)] else [];
      (r.(recvMsgoff := off, state := Matched, buf := buf, bufLen := len), copy + free + [RtsCallback(id)])
  }

  /** The switch of psm2_mq_irecv_inner on the request's state, step by
      step. */
  method HandOver(id: ReqId, r0: Req, buf: Buf, len: u32, copysz: u32) returns (r: Req, evs: seq<Event>)
    requires Deliverable(r0) && copysz <= len
    ensures r == Deliver(id, r0, buf, len, copysz).0
    ensures evs == Deliver(id, r0, buf, len, copysz).1
  {
    r, evs := r0, [];
    match r.state {
      case Complete =>
        if r.buf != NullBuf {
          evs := evs + [Copied(buf, r.buf, copysz)];
          evs := evs + [SysbufFreed(r.buf)];
        }
        r := r.(buf := buf, bufLen := len);
      case Unexp =>
        r := r.(recvMsgoff := Min(r.recvMsgoff, copysz));
        if r.recvMsgoff != 0 {
          evs := evs + [Copied(buf, r.buf, r.recvMsgoff)];
        }
        evs := evs + [SysbufFreed(r.buf)];
        r := r.(state := Matched, buf := buf, bufLen := len);
        assert evs == (if r.recvMsgoff != 0 then [Copied(buf, r0.buf, r.recvMsgoff)] else []) + [SysbufFreed(r0.buf)];
      case UnexpRv =>
        r := r.(recvMsgoff := Min(r.recvMsgoff, copysz));
        if r.recvMsgoff != 0 {
          evs := evs + [Copied(buf, r.buf, r.recvMsgoff)];
        }
        if r.sendMsgoff != 0 {
          evs := evs + [SysbufFreed(r.buf)];
        }
        r := r.(state := Matched, buf := buf, bufLen := len);
        evs := evs + [RtsCallback(id)];
        assert evs == (if r.recvMsgoff != 0 then [Copied(buf, r0.buf, r.recvMsgoff)] else []) +
                      (if r0.sendMsgoff != 0 then [SysbufFreed(r0.buf)] else []) + [RtsCallback(id)];
    }
  }

  /** How often an effect occurs in a sequence of effects. */
  function Count(evs: seq<Event>, ev: Event): (n: nat)
    ensures n <= |evs|
    ensures n == 0 <==> ev !in evs
  {
    if evs == [] then 0 else (if evs[0] == ev then 1 else 0) + Count(evs[1..], ev)
  }

  lemma {:induction false} CountConcat(a: seq<Event>, b: seq<Event>, ev: Event)
    ensures Count(a + b, ev) == Count(a, ev) + Count(b, ev)
  {
    if a == [] {
      assert a + b == b;
    } else {
      assert (a + b)[1..] == a[1..] + b;
      CountConcat(a[1..], b, ev);
    }
  }

  /** The rendezvous sender is called back exactly once, and only for a
      rendezvous message. The system buffer is released exactly once when
      there is one to release: always for an eager message that has not
      completed, for a completed one when it was given a buffer, and for a
      rendezvous message when part of it was sent eagerly (send_msgoff is
      not zero); otherwise it is not released. */
  lemma DeliverOnce(id: ReqId, r: Req, buf: Buf, len: u32, copysz: u32)
    requires Deliverable(r) && copysz <= len
    ensures var evs := Deliver(id, r, buf, len, copysz).1;
            && Count(evs, RtsCallback(id)) == (if r.state == UnexpRv then 1 else 0)
            && Count(evs, SysbufFreed(r.buf)) == (match r.state
                 case Complete => if r.buf != NullBuf then 1 else 0
                 case Unexp => 1
                 case UnexpRv => if r.sendMsgoff != 0 then 1 else 0)
  {
    var evs := Deliver(id, r, buf, len, copysz).1;
    var off := Min(r.recvMsgoff, copysz);
    var copy := if off != 0 then [Copied(buf, r.buf, off)] else [];
    var free := if r.sendMsgoff != 0 then [SysbufFreed(r.buf)] else [];
    if r.state == Complete && r.buf != NullBuf {
      CountConcat([Copied(buf, r.buf, copysz)], [SysbufFreed(r.buf)], SysbufFreed(r.buf));
      CountConcat([Copied(buf, r.buf, copysz)], [SysbufFreed(r.buf)], RtsCallback(id));
    } else if r.state == Unexp {
      CountConcat(copy, [SysbufFreed(r.buf)], RtsCallback(id));
      CountConcat(copy, [SysbufFreed(r.buf)], SysbufFreed(r.buf));
    } else if r.state == UnexpRv {
      CountConcat(copy + free, [RtsCallback(id)], RtsCallback(id));
      CountConcat(copy, free, RtsCallback(id));
      CountConcat(copy + free, [RtsCallback(id)], SysbufFreed(r.buf));
      CountConcat(copy, free, SysbufFreed(r.buf));
    }
  }

  /** What has arrived is kept, up to what the user's buffer takes: the new
      offset is exactly the bytes copied to the user's buffer. */
  lemma DeliverCopiesArrived(id: ReqId, r: Req, buf: Buf, len: u32, copysz: u32)
    requires Deliverable(r) && r.state != Complete && copysz <= len
    ensures var d := Deliver(id, r, buf, len, copysz);
            && d.0.recvMsgoff == Min(r.recvMsgoff, copysz)
            && (d.0.recvMsgoff != 0 <==> Copied(buf, r.buf, d.0.recvMsgoff) in d.1)
  {
  }
}
