/**
 * The four matching sublists of the message queue and the choice of the
 * sublist and hash bucket from a tag selector (psm_mq.c).
 */
module Selection {
  import opened Tags

  /** Sublist indices (enum psm2_mq_tag_pattern): the three hashed
      categories come first, the unhashed list is last. */
  const TAG_SRC: nat := 0
  const TAG_ANYSRC: nat := 1
  const ANYTAG_SRC: nat := 2
  const ANYTAG_ANYSRC: nat := 3

  const NUM_HASH_CONFIGS: nat := 3
  const NUM_MQ_SUBLISTS: nat := 4

  /** Bucket count of every hash table and the list length at which the
      list-only fastpath is given up (both from psm_mq_internal.h). */
  const NUM_HASH_BUCKETS: nat := 64
  const HASH_THRESHOLD: nat := 65

  /** hash_64 and hash_32, arbitrary functions supplied by the caller.
      hash_64 reads tag words 0 and 1 in place as one uint64_t; since that
      reading is one-to-one, it is modelled here as a function of the two
      words. */
  datatype Hashes = Hashes(hash64: (bv32, bv32) -> nat, hash32: bv32 -> nat)

  /** The sublist a selector belongs to: bit 1 of the index says word 0
      is not fully selected, bit 0 says word 1 is not. Word 2 plays no part. */
  function Category(sel: Tag): (t: nat)
    ensures t < NUM_MQ_SUBLISTS
    ensures t == (if sel.w0 == ONES then 0 else 2) + (if sel.w1 == ONES then 0 else 1)
    ensures t < NUM_HASH_CONFIGS <==> sel.w0 == ONES || sel.w1 == ONES
  {
    if sel.w0 == ONES && sel.w1 == ONES then TAG_SRC
    else if sel.w0 == ONES then TAG_ANYSRC
    else if sel.w1 == ONES then ANYTAG_SRC
    else ANYTAG_ANYSRC
  }

  /** The bucket of hash table `t` that holds entries with tag `tag`. */
  function BucketOf(h: Hashes, t: nat, tag: Tag): (b: nat)
    requires t < NUM_HASH_CONFIGS
    ensures b < NUM_HASH_BUCKETS
  {
    if t == TAG_SRC then h.hash64(tag.w0, tag.w1) % NUM_HASH_BUCKETS
    else if t == TAG_ANYSRC then h.hash32(tag.w0) % NUM_HASH_BUCKETS
    else h.hash32(tag.w1) % NUM_HASH_BUCKETS
  }

  /** Where a search or an insertion goes: the plain list, or one bucket. */
  datatype QueueRef = PlainList | Bucket(table: nat, index: nat)

  /** The queue chosen for (tag, sel): the plain list in fastpath mode or
      for an unhashable selector, else the bucket of the selector's table. */
  function SelectQueue(h: Hashes, fastpath: bool, tag: Tag, sel: Tag): (q: QueueRef)
    ensures fastpath ==> q == PlainList
    ensures !fastpath && Category(sel) == ANYTAG_ANYSRC ==> q == PlainList
    ensures !fastpath && Category(sel) < NUM_HASH_CONFIGS ==>
              q == Bucket(Category(sel), BucketOf(h, Category(sel), tag))
    ensures q.Bucket? ==> q.table < NUM_HASH_CONFIGS && q.index < NUM_HASH_BUCKETS
  {
    if fastpath then PlainList
    else if sel.w0 == ONES && sel.w1 == ONES then
      Bucket(TAG_SRC, h.hash64(tag.w0, tag.w1) % NUM_HASH_BUCKETS)
    else if sel.w0 == ONES then
      Bucket(TAG_ANYSRC, h.hash32(tag.w0) % NUM_HASH_BUCKETS)
    else if sel.w1 == ONES then
      Bucket(ANYTAG_SRC, h.hash32(tag.w1) % NUM_HASH_BUCKETS)
    else PlainList
  }

  /** Hashing never hides a match: an entry that matches a hashable
      selector sits in the very bucket that the search for it consults.
      This holds for either side: a receive searching the unexpected
      tables, or an arriving message searching the expected ones. */
  lemma MatchFoundInSearchedBucket(h: Hashes, src: EpAddr, tag: Tag, sel: Tag, peer: EpAddr, cur: Tag)
    requires Matches(src, tag, sel, peer, cur)
    requires Category(sel) < NUM_HASH_CONFIGS
    ensures BucketOf(h, Category(sel), cur) == BucketOf(h, Category(sel), tag)
  {
    SelectedWordsAgree(src, tag, sel, peer, cur);
  }

  /** A match under an all-ones selector word forces that word to agree. */
  lemma SelectedWordsAgree(src: EpAddr, tag: Tag, sel: Tag, peer: EpAddr, cur: Tag)
    requires Matches(src, tag, sel, peer, cur)
    ensures sel.w0 == ONES ==> tag.w0 == cur.w0
    ensures sel.w1 == ONES ==> tag.w1 == cur.w1
  {
    if sel.w0 == ONES {
      FullWordMatchIsEquality(tag.w0, cur.w0);
    }
    if sel.w1 == ONES {
      FullWordMatchIsEquality(tag.w1, cur.w1);
    }
  }

  lemma FullWordMatchIsEquality(a: bv32, b: bv32)
    requires WordMatches(a, b, ONES)
    ensures a == b
  {
  }
}
