/**
 * The request record of the message queue and the status codes its
 * operations return (psm_mq.c).
 */
module Requests {
  import opened Tags
  import opened Words

  /** A request handle: the request's slot in the request pool. */
  type ReqId = nat

  /** MQE_TYPE_SEND / MQE_TYPE_RECV. */
  datatype ReqType = Send | Recv

  /** MQ_STATE_POSTED, MQ_STATE_UNEXP, MQ_STATE_UNEXP_RV, MQ_STATE_MATCHED
      and MQ_STATE_COMPLETE. */
  datatype ReqState = Posted | Unexp | UnexpRv | Matched | Complete

  /** A buffer address; NullBuf is NULL. */
  datatype Buf = NullBuf | Buf(addr: nat)

  /** The fields of psm2_mq_req that the core reads or writes. `waiting` is
      the MQE_TYPE_WAITING bit of the type word, `hasTestwaitCallback`
      says whether testwait_callback is set. */
  datatype Req = Req(
    typ: ReqType,
    waiting: bool,
    state: ReqState,
    peer: EpAddr,
    tag: Tag,
    tagsel: Tag,
    buf: Buf,
    bufLen: u32,
    recvMsglen: u32,
    recvMsgoff: u32,
    sendMsglen: u32,
    sendMsgoff: u32,
    timestamp: nat,
    hasTestwaitCallback: bool,
    context: nat)

  /** psm2_error_t values the core returns; OtherError stands for any code
      produced by a callback outside the core. */
  datatype Error = Ok | OkNoProgress | ParamErr | NoMemory | MqNoCompletions | OtherError(code: nat)

  /** Effects on memory and on the transport that the core causes but does
      not own: a psmi_mq_mtucpy copy, a psmi_sysbuf_free, and a call of the
      request's rts_callback. */
  datatype Event = Copied(dest: Buf, src: Buf, nbytes: u32) | SysbufFreed(b: Buf) | RtsCallback(req: ReqId)
}
