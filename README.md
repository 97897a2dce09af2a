# Tag-matching message queue of PSM2, and the tid cache's idle queue

This project models the receive side of the PSM2 matched message queue
(`psm_mq.c`) and the idle queue of the tid registration cache
(`ptl_ips/ips_tidcache.h`), and proves what they promise.

**The message queue.** Every message carries a tag of three 32-bit words.
A receive names a source (or any source), a tag and a tag selector. It
takes a queued message when the source fits and every selected tag bit
agrees.

The queue has two sides:
- the *expected* side holds posted receives;
- the *unexpected* side holds messages that arrived before a receive
  asked for them.

Each side has a plain list and three hash tables of 64 buckets, one table
per selector category. A category says which of tag words 0 and 1 are
fully selected. The queue starts in the list-only *fastpath*. When the
expected list reaches `HASH_THRESHOLD` entries, `psmi_mq_fastpath_disable`
migrates the entries:
- every arrived message goes into all three unexpected tables;
- every posted receive with a hashable selector moves into one bucket.

The fastpath comes back once all four counters are zero.

The model keeps the queue as values: `seq<ReqId>` lists and
`seq<seq<seq<ReqId>>>` tables over a request pool
`map<ReqId, Req>`. `QueueState.QueueWf` says what a well-formed queue is:
- lists and buckets are in posting or arrival order;
- expected buckets hold only their own category and hash;
- in the hashed mode, unexpected buckets mirror the unexpected list;
- the expected counters agree with the list and the buckets, and the unexpected ones bound the list from above;
- every posted receive is on the one sublist its selector names;
- completed requests wait once each.

Every operation is proved to keep that invariant. Each one is also proved
against the source's own account of it:
- the search returns the earliest match;
- the bucket search finds what a list search would;
- the migration keeps the order and the total count;
- cancel, receive, test and wait each leave the request and the
  completion queue as the code does.

The class `MatchQueue.MQ` holds the queue (`struct psm2_mq`). Its methods
are the source's functions. The matching state is one record field,
replaced by each operation. The effects the core causes but does not own
are returned as a list of `Event`s:
- copies by `psmi_mq_mtucpy`;
- `psmi_sysbuf_free` calls;
- `rts_callback` calls.

`psmi_mq_mtucpy` is modelled on byte arrays: whole words, then a tail of
zero to three bytes.

**The idle queue.** This is a circular doubly linked list threaded through
the entry array `root[]` by 16-bit indices. Entry 0 (`IHEAD`) is the
sentinel and `nidle` counts the idle entries. `TidCache.IdleQueue` keeps
the array and the counter. A ghost sequence records the ring's order. The
macros `IDLE_INSERT` and `IDLE_REMOVE` become methods that update the
array in place. Both are proved to keep the ring well formed, to touch
only the links they should, and to undo each other.

**As written: the unexpected counters.** `psmi_mq_fastpath_disable` adds
the length of the unexpected list to `unexpected_hash_len` and leaves
`unexpected_list_len` alone. A later removal in `mq_req_match_with_tagsel`
gives back only one of the two. So in the hashed mode the model only
states that each counter bounds the list from above
(`QueueState.UnexpectedSide`). `MatchQueue.TookArrivalKeepsSurplus`
shows the consequence: the amount by which the two counters exceed the
list survives every removal, so after a non-empty unexpected list has been
migrated, removals alone never bring all four counters back to zero. The
code that adds arrivals to the unexpected side (`psm_mq_recv.c`) is not part of this model, so the
intended accounting cannot be settled here. The model keeps the counters
exactly as the code updates them.

## Model

| member | source | states |
|---|---|---|
| Tags.WordMatches | psm_mq.c:192-194 | one word of the match test holds exactly when the selected bits of the two tag words agree |
| Tags.TagMatches | psm_mq.c:191-194 | the three-word tag test: an all-zero selector accepts any tag, and a fully selected word must be equal in the two tags |
| Tags.Matches | psm_mq.c:189-194 | an entry matches only when the source is PSM2_MQ_ANY_ADDR or the entry's peer; a search for any source with an all-zero selector takes every entry; under an all-ones selector, an entry matches exactly when its peer fits and its tag is equal |
| Tags.TagMatchesSymmetric | psm_mq.c:191-194 | the tag test gives the same answer whichever of the two tags is the receive's |
| Tags.FullSelectorIsEquality | psm_mq.c:191-194 | under an all-ones selector, two tags match exactly when they are equal |
| Tags.EmptySelectorMatchesAll | psm_mq.c:191-194 | under an all-zero selector, every tag matches |
| Selection.Category | psm_mq.c:170-187 | the sublist of a selector: bit 1 set when word 0 is not all ones, bit 0 set when word 1 is not; hashable exactly when word 0 or word 1 is all ones; word 2 plays no part |
| Selection.BucketOf | psm_mq.c:170-182 | every hash value reduced modulo NUM_HASH_BUCKETS lies below NUM_HASH_BUCKETS |
| Selection.SelectQueue | psm_mq.c:167-187 | the fastpath or an unhashable selector searches the plain list; otherwise the bucket of the selector's category that the tag hashes to |
| Selection.MatchFoundInSearchedBucket | psm_mq.c:167-194 | an entry that matches a hashable selector hashes to the very bucket the search consults, so hashing never hides a match |
| Selection.SelectedWordsAgree | psm_mq.c:191-194 | a match under an all-ones selector word forces that tag word to be equal |
| MatchUnexpected.Search | psm_mq.c:189-208 | the scan of one sublist returns its first matching entry in list order, or nothing |
| QueueLists.FirstMatch | psm_mq.c:189-194 | the reference for the scans: the result is an entry of the list that the test accepts, and with no result the test accepts no entry |
| MatchUnexpected.FoundIsEarliest | psm_mq.c:189-206 | the search finds the i-th arrival if and only if it matches and no earlier arrival does |
| MatchUnexpected.BucketSearchAgrees | psm_mq.c:167-194 | in the hashed mode, searching the selected bucket finds the same entry as searching the whole unexpected list |
| MatchUnexpected.UnlinkFrom | psm_mq.c:201-202 | the unlinking loop from sublist j removes the entry from the list and from every bucket of all three unexpected tables, and nothing else changes |
| MatchUnexpected.UnlinkedEverywhere | psm_mq.c:164-202 | starting the loop at 3 in the fastpath and at 0 in the hashed mode leaves the entry in no bucket at all |
| MatchUnexpected.TakeMatch | psm_mq.c:196-202 | the removal takes the entry off the unexpected side, which stays well formed one entry shorter, and gives back one unit of the list counter or of the hash counter, depending on where it was found |
| MatchUnexpected.MatchTagsel | psm_mq.c:158-209 | returns the earliest matching arrival; without remove, or with no match, nothing changes; with remove, the match leaves the list and all buckets, and the counter of the scanned sublist (the list in the fastpath or for a wildcard selector, else the hash counter) drops by one |
| QueueState.EmptyQueueWf | psm_mq.c:1212-1218 | the zeroed queue, in the fastpath, is well formed |
| QueueState.ReenableKeeps | psm_mq.c:131-140 | when all four counters are zero, both sides are empty, so turning the fastpath back on keeps the queue well formed |
| QueueState.PoolChangeKeeps | psm_mq.c:905-912 | changing, creating or releasing a request that is on neither side keeps the queue well formed |
| QueueState.NotPostedNotExpected | psm_mq.c:258-275 | a request that is not a posted receive is on no expected sublist |
| QueueState.QuietChangeKeeps | psm_mq.c:536 | changing fields the queue does not read (the WAITING mark, the user context) keeps the queue well formed |
| QueueState.CompletedAppendKeeps | psm_mq.c:489-490 | appending a completed request, off the unexpected list, to completed_q keeps the queue well formed |
| QueueState.CompletedRemoveKeeps | psm_mq.c:559 | taking a request off completed_q keeps the queue well formed |
| Migration.MigrateUnexpected | psm_mq.c:79-93 | the first loop makes every unexpected bucket exactly the part of the unexpected list, in list order, that hashes to it, and adds the list length to the hash counter |
| Migration.HashIntoAll | psm_mq.c:84-92 | one turn appends the entry to its bucket in each of the three tables |
| Migration.MigrateExpected | psm_mq.c:95-124 | the second loop leaves exactly the wildcard receives on the list, in order, puts every other receive at the end of its category's bucket, in order, and keeps the sum of the two counters |
| Migration.MigrateOne | psm_mq.c:98-123 | one turn keeps the loop invariant: the list counter moves one unit to the hash counter exactly when the receive moves |
| Migration.HashIntoOne | psm_mq.c:101-119 | a receive moves exactly when its selector is hashable, and then to the end of the bucket of its category and tag |
| Migration.MigratedHolds | psm_mq.c:95-124 | what the migration builds is an ordered list of wildcard receives and well-formed expected buckets |
| Migration.HashedExpectedSide | psm_mq.c:95-124 | after the migration, every posted receive is on the sublist its selector names in the hashed mode |
| Migration.Disable | psm_mq.c:70-125 | the whole migration turns a well-formed fastpath queue into a well-formed hashed one, with the unexpected tables mirroring the list and the expected counts preserved |
| Posting.Post | psm_mq.c:216-243 | the receive goes to the end of the sublist SelectQueue names, whose counter alone grows by one; every other sublist is unchanged |
| Posting.PostKeeps | psm_mq.c:216-243 | posting a receive stamped with the current timestamp, and moving the timestamp on, keeps the queue well formed with the receive queued |
| Posting.StampAndPostKeeps | psm_mq.c:216-243 | stamping then posting leaves a well-formed queue with no request exempt |
| Posting.PostedSide | psm_mq.c:216-243 | the new receive comes last in posting order on its sublist, which stays in order |
| Posting.PostedBucket | psm_mq.c:223-238 | the bucket that takes the receive stays well formed |
| Posting.PostedQueued | psm_mq.c:216-243 | every posted receive, the new one included, is on its home sublist |
| Posting.Withdraw | psm_mq.c:261-277 | the receive leaves sublist i, and only the counter of that sublist gives back one unit |
| Posting.OnlyOnHome | psm_mq.c:258-259 | a request on expected sublist i is a posted receive whose home is i: it sits on one sublist only |
| Posting.FindAndWithdraw | psm_mq.c:254-280 | the scan of the four sublists finds the request exactly when it is a posted receive, and then withdraws it from its home sublist only, one unit less in total |
| Posting.WithdrawKeeps | psm_mq.c:254-280 | the removal keeps the queue well formed, leaves the request on no sublist, and lowers the two counters' sum by one |
| Posting.WithdrawnSide | psm_mq.c:261-277 | the expected side stays well formed after the withdrawal |
| Posting.WithdrawnBucket | psm_mq.c:268-277 | the bucket that gives up the receive stays well formed and one shorter |
| Posting.WithdrawnQueued | psm_mq.c:254-280 | every other posted receive stays on its home sublist |
| Posting.WithdrawnEverywhere | psm_mq.c:258-259 | after the withdrawal the request is on no expected sublist |
| Delivery.Min | psm_mq.c:828 | the minimum is one of its arguments and bounded by both |
| Delivery.Deliver | psm_mq.c:811-875 | the request takes the user's buffer and length; a completed message stays complete, and one with a system buffer gives exactly a copy of copysz bytes and the release of that buffer, one without gives no effect; an arrived one becomes matched with its offset cut to the copy size, and its system buffer is released (for a rendezvous message exactly when send_msgoff is not zero); copies go from the system buffer to the user's; the rendezvous callback occurs if and only if the message was a rendezvous one |
| Delivery.HandOver | psm_mq.c:811-875 | the switch, step by step, produces exactly the record and effects Deliver describes |
| Delivery.DeliverOnce | psm_mq.c:811-866 | the rendezvous sender is called back exactly once for a rendezvous message and never otherwise; the system buffer is released exactly once for an eager arrival, exactly once for a completed message that has one, for a rendezvous message exactly once when send_msgoff is not zero, and never otherwise |
| Delivery.DeliverCopiesArrived | psm_mq.c:824-832 | the new offset is min(arrived, copy size), and a copy of that many bytes is made exactly when it is not zero |
| MatchQueue.PostNew | psm_mq.c:897-917 | with no match, the allocated request becomes a posted receive with the user's fields and the current timestamp, the queue stays well formed, and the sides are as mq_add_to_expected_hashes leaves them (AddedExpected): the fastpath flag, the sublist that takes the receive, and after a migration the expected buckets, the unexpected tables and counters |
| MatchQueue.ContextKeepsAdded | psm_mq.c:917-931 | setting the context after the posting leaves every fact of AddedExpected true, since the sublists depend on tags and selectors only |
| MatchQueue.DeliverMatched | psm_mq.c:804-878 | the matched request takes the record Deliver gives, and joins completed_q exactly when it was complete |
| MatchQueue.DeliverFound | psm_mq.c:922-931 | a found arrival is delivered and given the user's context; the fastpath comes back exactly when all four counters are zero after the removal; the queue stays well formed |
| MatchQueue.Receive | psm_mq.c:881-939 | a receive takes the earliest matching arrival, delivers it, and takes it off the list and every bucket with one unit less on the searched sublist's counter (TookArrival), and the fastpath comes back exactly when all counters are zero; with no match it posts a new request as mq_add_to_expected_hashes does (AddedExpected), or fails with NO_MEMORY and changes nothing |
| MatchQueue.TookArrivalKeepsSurplus | psm_mq.c:196-202 | a removal keeps the amount by which the unexpected counters exceed the list, so while it is positive the two counters are never both zero |
| MatchQueue.CancelKeeps | psm_mq.c:484-491 | a withdrawn posted receive that completes and joins completed_q leaves a well-formed queue |
| MatchQueue.CancelPosted | psm_mq.c:484-491 | the posted receive is withdrawn from its home sublist, completed and appended to completed_q, and the fastpath may come back |
| MatchQueue.DeliverKeeps | psm_mq.c:811-866 | giving a matched request its new record, and queueing it if complete, keeps the queue well formed |
| MatchQueue.Reenable | psm_mq.c:131-140 | the fastpath is on afterwards if and only if it was on or all four counters are zero, and when it comes back both sides are empty |
| MatchQueue.AddExpected | psm_mq.c:211-244 | the receive is stamped with the current timestamp, which moves on; the expected count grows by one; the fastpath survives exactly when the list stays below HASH_THRESHOLD, and then the receive joins the sublist SelectQueue names; otherwise the migration runs on the list with the receive last: wildcard list and expected buckets as built from it, unexpected tables mirroring the list, and the unexpected hash counter grown by the list's length |
| MatchQueue.RetireKeeps | psm_mq.c:559-568 | removing a completed request from completed_q and from the pool keeps the queue well formed |
| MatchQueue.InitialState | psm_mq.c:1212-1218 | the initial state: the fastpath on (set at psm_mq.c:1280), timestamp zero, and every list, table and counter empty |
| MatchQueue.MQ.constructor | psm_mq.c:1196-1282 | a new queue holds the initial state, an empty pool and the two thresholds given, and is well formed |
| MatchQueue.MQ.TryReenable | psm_mq.c:131-140 | only the fastpath flag may change: it turns on exactly when it was off and all four counters are zero, and then both sides are empty |
| MatchQueue.MQ.FastpathDisable | psm_mq.c:70-125 | hashing goes on; the unexpected tables mirror the list and its hash counter grows by the list length; the list keeps exactly the wildcard receives and the buckets get the rest, in order, with the total count kept |
| MatchQueue.MQ.MatchWithTagsel | psm_mq.c:158-209 | returns the earliest matching arrival; with remove, it leaves every unexpected sublist, one counter drops, and the fastpath comes back exactly when all counters are zero; the expected side is untouched |
| MatchQueue.MQ.AddToExpectedHashes | psm_mq.c:211-244 | the stamp and the whole outcome of MatchQueue.AddExpected, on the queue object: the posting in the fastpath or the hashed mode, or the posting followed by the full migration |
| MatchQueue.MQ.RemoveSingle | psm_mq.c:254-280 | for a request off the unexpected list and completed_q, returns true exactly for a posted receive, which then leaves its home sublist only, one unit less, and the fastpath comes back exactly when all counters are zero; otherwise nothing changes |
| MatchQueue.MQ.Cancel | psm_mq.c:462-505 | no request gives MQ_NO_COMPLETIONS; a send gives PARAM_ERR; an unposted receive gives MQ_NO_COMPLETIONS, each with nothing changed; a posted receive is withdrawn, completed and appended to completed_q, with OK, and the fastpath comes back exactly when all counters are zero |
| MatchQueue.MQ.IrecvInner | psm_mq.c:804-878 | the matched request takes the record Deliver gives and joins completed_q exactly when it was complete; nothing else changes; the result is OK |
| MatchQueue.MQ.Irecv2 | psm_mq.c:881-939 | the earliest matching arrival is delivered with the user's context, leaves the list and every bucket with one unit less on the searched sublist's counter, and the fastpath comes back exactly when all counters are zero; with none, a new posted receive with the current timestamp is added as mq_add_to_expected_hashes does, migration included, or NO_MEMORY when allocation fails, with nothing changed |
| MatchQueue.MQ.Test | psm_mq.c:614-655 | no request gives OK; an incomplete request is left alone, and its callback's result or MQ_NO_COMPLETIONS is returned; a completed one has its status returned, leaves completed_q and the pool, and the handle is cleared |
| MatchQueue.MQ.Wait | psm_mq.c:518-575 | an incomplete request gets the WAITING mark, and the callback decides, or the call blocks; a completed one is finished as in Test |
| MatchQueue.MQ.OptCtl | psm_mq.c:1052-1090 | get or set of either rendezvous threshold, the other untouched; MAX_SYSBUF_MBYTES does nothing and succeeds; any other key is PARAM_ERR |
| MtuCopy.CopyByte | psm_mq.c:292 | one more byte of the source is copied |
| MtuCopy.DwordCopy | psm_mq.c:286-287 | the first 4·n bytes of the source are copied, and nothing after them changes |
| MtuCopy.Mtucpy | psm_mq.c:282-298 | the first nchars bytes of the destination become those of the source, and the rest of the destination is unchanged |
| TidCache.End | ptl_ips/ips_tidcache.h:134-136 | the end lies length·4096 bytes after the start unless the sum passes 2^64, where it wraps below the start; it keeps the start's offset within its page |
| TidCache.FirstIdle | ptl_ips/ips_tidcache.h:143 | in a well-formed ring, INEXT(IHEAD) is the first idle entry, or IHEAD when none is idle |
| TidCache.Inserted | ptl_ips/ips_tidcache.h:152-156 | the four writes of IDLE_INSERT in order: IHEAD's next becomes x, x's next the old first entry, whose prev becomes x, and x's prev IHEAD |
| TidCache.Removed | ptl_ips/ips_tidcache.h:146-148 | the two writes of IDLE_REMOVE in order: x's predecessor and successor then lead to each other |
| TidCache.InsertedEntry | ptl_ips/ips_tidcache.h:152-156 | the four writes of IDLE_INSERT, entry by entry: only IHEAD's next, x's two links and the old first entry's prev change |
| TidCache.RemovedEntry | ptl_ips/ips_tidcache.h:146-148 | the two writes of IDLE_REMOVE, entry by entry: only the predecessor's next and the successor's prev change |
| TidCache.InsertLinks | ptl_ips/ips_tidcache.h:152-156 | after IDLE_INSERT(x), INEXT(IHEAD) is x, IPREV(x) is IHEAD, INEXT(x) is the old first entry and its IPREV is x; only these links change |
| TidCache.RemoveLinks | ptl_ips/ips_tidcache.h:146-148 | IDLE_REMOVE(x) joins x's predecessor and successor in both directions, and nothing else changes, not even x's own links |
| TidCache.InsertKeepsRing | ptl_ips/ips_tidcache.h:152-156 | IDLE_INSERT keeps the ring well formed, with x at its front |
| TidCache.RemoveKeepsRing | ptl_ips/ips_tidcache.h:146-148 | IDLE_REMOVE keeps the ring well formed without x, the others in order, so x can no longer be reached from IHEAD |
| TidCache.InsertThenRemove | ptl_ips/ips_tidcache.h:146-158 | IDLE_INSERT(x) then IDLE_REMOVE(x) gives back every entry but x exactly, and the same idle sequence |
| TidCache.MembersBound | ptl_ips/ips_tidcache.h:141-157 | distinct idle entries other than IHEAD are fewer than the entries of root[], so NIDLE never wraps |
| TidCache.IdleQueue.IdleInsert | ptl_ips/ips_tidcache.h:152-158 | the array becomes the write-by-write result of IDLE_INSERT, x joins the front of the ring, and nidle grows by one |
| TidCache.IdleQueue.IdleRemove | ptl_ips/ips_tidcache.h:146-150 | the array becomes the write-by-write result of IDLE_REMOVE, x leaves the ring, and nidle drops by one |

## Left out

- The probes, the sends and the other entry points of `psm_mq.c` are outside the core: `iprobe`, `improbe`, `imrecv`, `ipeek`, `isend`, `send`, `getopt`/`setopt`, `init`, `finalize` and the stats functions. `psmi_mq_mtucpy_safe` is compiled out.
- Locking (`PSMI_PLOCK`) and logging are not modelled; the core runs under one lock.
- MatchQueue.MQ.Wait: `PSMI_BLOCKUNTIL` polls the progress engine, which is not part of this model. Wait returns `blocked` instead of blocking. Its error exit is not modelled.
- MatchQueue.MQ.Test: `testwait_callback` is code outside the core. Its result is the parameter `callbackErr`, and its effect on the request is not modelled. The status returned is the request record, not the copy made by `mq_status_copy`.
- MatchQueue.Receive: `psmi_mq_req_alloc` becomes the parameter `slot` (None when allocation fails). The fields it initialises are not visible here. The model takes a new request as not waiting, with no test-wait callback and zero send length and offset.
- `psmi_mq_req_free` is the removal of the request from the pool.
- Delivery.Deliver: `mq_set_msglen` becomes a length function bounded by both lengths (`MatchQueue.Truncates`). Its writes to the request's length fields are not modelled.
- `psmi_mq_mtucpy`, `psmi_sysbuf_free` and `rts_callback` calls inside the queue operations are recorded as `Event`s, not performed.
- Delivery.Deliver: the `abort()` for any other state is a precondition (`Deliverable`), since the program stops there.
- MatchQueue.MQ.RemoveSingle: requires the request to be off the unexpected list and off completed_q. The source finds a request by its q[] back-pointers, which those lists set too, so on such a request it would unlink it from there and lower an expected counter; its one caller (`__psm2_mq_cancel`) passes a posted receive only.
- MatchQueue.MQ.Cancel: `psmi_assert_always(rc)` becomes a proof that the removal succeeds. `psmi_handle_error` becomes a plain PARAM_ERR result.
- The `mq_qq_*` intrusive lists and the `req->q[]` back-pointers are not modelled. A request's membership is its presence in a `seq`, and its bucket follows from its tag.
- Migration.MigrateExpected: the in-place unlinking from the expected list is modelled as rebuilding the list from the receives that stay. The resulting sequence is the same.
- MatchQueue.MQ: the matching fields of `struct psm2_mq` are one record field, replaced as a whole by each operation. No aliasing is lost, since the source updates them only through `mq`.
- `hash_64` and `hash_32` are arbitrary functions given to the queue. `hash_64` reads tag words 0 and 1 as one `uint64_t`, which is modelled as a function of the word pair.
- `NUM_HASH_BUCKETS` (64), `HASH_THRESHOLD` (65) and the counter and timestamp types come from `psm_mq_internal.h`, which is not part of this model.
- MatchQueue.MQ.AddToExpectedHashes: the timestamp and the four counters are unbounded integers, so their width and any wrap-around are not modelled.
- The code that adds arrived messages to the unexpected side (`psm_mq_recv.c`) and `ptl_am/ptl.c` are not part of this model.
- The default thresholds (`psmi_mq_malloc`, `psmi_mq_initialize_defaults`) come from the CPU model and the environment. They are constructor parameters.
- MtuCopy.DwordCopy: `hfi_dwordcpy` is not part of this model. It is modelled as copying four bytes per word, in order. Alignment and partly overlapping buffers are not modelled.
- The red-black tree of `ips_tidcache.h` (its node pointers, `nil_item`, `ntid`, and the functions declared at lines 164-179) is declared only, so it is not modelled.
- TidCache.IdleQueue.IdleInsert: requires x to be an entry other than IHEAD that is not idle. TidCache.IdleQueue.IdleRemove requires x to be idle. The macros check neither; their callers (`ips_tidcache.c`, not part of this model) must ensure it.
- TidCache.IdleQueue: the map's initialisation lives in `ips_tidcache.c`, not part of this model. The constructor builds an empty ring over `n` entries.
- TidCache.End: `unsigned long` is taken to be 64 bits wide.
