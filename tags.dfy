/**
 * Tags, tag selectors and the match predicate of the message queue
 * (psm_mq.c, mq_req_match_with_tagsel).
 */
module Tags {

  /** A selector word with every bit set: "this word must match exactly". */
  const ONES: bv32 := 0xFFFF_FFFF

  /** psm2_mq_tag_t: three 32-bit words. Word 0 and word 1 are the ones
      whose all-ones selector makes a request hashable. */
  datatype Tag = Tag(w0: bv32, w1: bv32, w2: bv32)

  /** A peer endpoint; AnyAddr is PSM2_MQ_ANY_ADDR. */
  datatype EpAddr = AnyAddr | Ep(id: nat)

  /** One word of the match test: the bits that `sel` selects agree. */
  function WordMatches(a: bv32, b: bv32, sel: bv32): (r: bool)
    ensures r <==> a & sel == b & sel
  {
    (a ^ b) & sel == 0
  }

  /** All three tag words agree on the bits the selector selects, word by
      word as WordMatches states; a word the selector leaves out is never
      compared. */
  predicate TagMatches(tag: Tag, sel: Tag, cur: Tag): (r: bool)
    ensures sel.w0 == 0 && sel.w1 == 0 && sel.w2 == 0 ==> r
    ensures r && sel.w0 == ONES ==> tag.w0 == cur.w0
    ensures r && sel.w1 == ONES ==> tag.w1 == cur.w1
    ensures r && sel.w2 == ONES ==> tag.w2 == cur.w2
  {
    && WordMatches(tag.w0, cur.w0, sel.w0)
    && WordMatches(tag.w1, cur.w1, sel.w1)
    && WordMatches(tag.w2, cur.w2, sel.w2)
  }

  /** The test applied to a queued entry with peer `peer` and tag `cur`
      when searching for (src, tag, sel). */
  predicate Matches(src: EpAddr, tag: Tag, sel: Tag, peer: EpAddr, cur: Tag): (r: bool)
    ensures r ==> src == AnyAddr || src == peer
    ensures src == AnyAddr && sel == Tag(0, 0, 0) ==> r
    ensures sel == Tag(ONES, ONES, ONES) ==> (r <==> (src == AnyAddr || src == peer) && tag == cur)
  {
    (src == AnyAddr || src == peer) && TagMatches(tag, sel, cur)
  }

  /** The match test does not depend on which side supplies the tag. */
  lemma TagMatchesSymmetric(a: Tag, sel: Tag, b: Tag)
    ensures TagMatches(a, sel, b) <==> TagMatches(b, sel, a)
  {
    WordMatchesSymmetric(a.w0, sel.w0, b.w0);
    WordMatchesSymmetric(a.w1, sel.w1, b.w1);
    WordMatchesSymmetric(a.w2, sel.w2, b.w2);
  }

  lemma WordMatchesSymmetric(a: bv32, sel: bv32, b: bv32)
    ensures WordMatches(a, b, sel) == WordMatches(b, a, sel)
  {
  }

  /** An all-ones selector demands the exact tag. */
  lemma FullSelectorIsEquality(tag: Tag, cur: Tag)
    ensures TagMatches(tag, Tag(ONES, ONES, ONES), cur) <==> tag == cur
  {
  }

  /** An all-zero selector accepts every tag. */
  lemma EmptySelectorMatchesAll(tag: Tag, cur: Tag)
    ensures TagMatches(tag, Tag(0, 0, 0), cur)
  {
  }
}
