/**
 * The queues of the message queue as sequences of request handles, with
 * the functions that specify them: which entries a hash bucket or the
 * wildcard list holds (a filter of a list in insertion order), removal of
 * one entry, and the first entry that matches a search.
 */
module QueueLists {
  import opened Tags
  import opened Selection
  import opened Requests

  datatype Option<T> = None | Some(value: T)

  /** The request pool: every live request by handle. */
  type Pool = map<ReqId, Req>

  /** Three hash tables of NUM_HASH_BUCKETS lists each. */
  type Htab = seq<seq<seq<ReqId>>>

  /** The part of a list one sublist holds: an unexpected bucket (by the
      tag's hash alone), an expected bucket (by the selector's category
      and the tag's hash), or the wildcard list of the hashed mode. */
  datatype Key = UnexpectedBucket(table: nat, index: nat) | ExpectedBucket(table: nat, index: nat) | Wildcard

  predicate Selects(h: Hashes, reqs: Pool, key: Key, x: ReqId)
  {
    x in reqs &&
    match key
    case UnexpectedBucket(t, b) => t < NUM_HASH_CONFIGS && BucketOf(h, t, reqs[x].tag) == b
    case ExpectedBucket(t, b) =>
      t < NUM_HASH_CONFIGS && Category(reqs[x].tagsel) == t && BucketOf(h, t, reqs[x].tag) == b
    case Wildcard => Category(reqs[x].tagsel) == ANYTAG_ANYSRC
  }

  /** Selects(h, reqs, key, _) as a function value, so that the list
      functions below stay independent of how entries are hashed. */
  function Selecting(h: Hashes, reqs: Pool, key: Key): ReqId -> bool
  {
    (x: ReqId) => Selects(h, reqs, key, x)
  }

  /** Whether the live request `x` is hit by a search for (src, tag, sel). */
  predicate IsMatch(reqs: Pool, src: EpAddr, tag: Tag, sel: Tag, x: ReqId)
  {
    x in reqs && Matches(src, tag, sel, reqs[x].peer, reqs[x].tag)
  }

  function Matching(reqs: Pool, src: EpAddr, tag: Tag, sel: Tag): ReqId -> bool
  {
    (x: ReqId) => IsMatch(reqs, src, tag, sel, x)
  }

  /** The entries of `q` that `p` accepts, in the order of `q`. */
  function Filter(p: ReqId -> bool, q: seq<ReqId>): (r: seq<ReqId>)
    ensures |r| <= |q|
    ensures forall x :: x in r <==> x in q && p(x)
  {
    if q == [] then []
    else (if p(q[0]) then [q[0]] else []) + Filter(p, q[1..])
  }

  /** `q` without `x` (mq_qq_remove_which on the list that holds it). */
  function RemoveId(q: seq<ReqId>, x: ReqId): (r: seq<ReqId>)
    ensures forall y :: y in r <==> y in q && y != x
    ensures x !in q ==> r == q
  {
    if q == [] then []
    else
      assert q == [q[0]] + q[1..];
      (if q[0] == x then [] else [q[0]]) + RemoveId(q[1..], x)
  }

  predicate NoDup(q: seq<ReqId>)
  {
    forall i, j :: 0 <= i < j < |q| ==> q[i] != q[j]
  }

  /** Every entry is live and the timestamps strictly increase along `q`. */
  predicate Increasing(reqs: Pool, q: seq<ReqId>)
  {
    && (forall i :: 0 <= i < |q| ==> q[i] in reqs)
    && (forall i, j :: 0 <= i < j < |q| ==> reqs[q[i]].timestamp < reqs[q[j]].timestamp)
  }

  /** The first entry of `q` that `p` accepts, or None. */
  function FirstMatch(p: ReqId -> bool, q: seq<ReqId>): (r: Option<ReqId>)
    ensures r.Some? ==> r.value in q && p(r.value)
    ensures r.None? ==> forall x :: x in q ==> !p(x)
  {
    if q == [] then None
    else if p(q[0]) then Some(q[0])
    else FirstMatch(p, q[1..])
  }

  /** FirstMatch picks the entry at index i exactly when i is the least
      index whose entry `p` accepts. */
  lemma {:induction false} FirstMatchIsFirst(p: ReqId -> bool, q: seq<ReqId>, i: nat)
    requires i < |q| && NoDup(q)
    ensures FirstMatch(p, q) == Some(q[i]) <==> p(q[i]) && forall k :: 0 <= k < i ==> !p(q[k])
  {
    assert NoDup(q[1..]);
    if i > 0 {
      FirstMatchIsFirst(p, q[1..], i - 1);
      assert q[0] != q[i];
    } else if !p(q[0]) {
      assert q[0] !in q[1..];
    }
  }

  lemma FilterCons(p: ReqId -> bool, y: ReqId, s: seq<ReqId>)
    ensures Filter(p, [y] + s) == (if p(y) then [y] else []) + Filter(p, s)
  {
    assert ([y] + s)[1..] == s;
  }

  lemma FirstMatchCons(p: ReqId -> bool, y: ReqId, s: seq<ReqId>)
    ensures FirstMatch(p, [y] + s) == if p(y) then Some(y) else FirstMatch(p, s)
  {
    assert ([y] + s)[1..] == s;
  }

  /** Searching a filtered list finds what searching the whole list finds,
      as long as every entry the search accepts passes the filter. This is
      why the search of one hash bucket agrees with the search of the list. */
  lemma {:induction false} FirstMatchThroughFilter(keep: ReqId -> bool, p: ReqId -> bool, q: seq<ReqId>)
    requires forall x :: x in q && p(x) ==> keep(x)
    ensures FirstMatch(p, Filter(keep, q)) == FirstMatch(p, q)
  {
    if q != [] {
      var y, s := q[0], q[1..];
      assert q == [y] + s;
      FirstMatchThroughFilter(keep, p, s);
      var fs := Filter(keep, s);
      FilterCons(keep, y, s);
      FirstMatchCons(p, y, s);
      if keep(y) {
        assert Filter(keep, q) == [y] + fs;
        FirstMatchCons(p, y, fs);
      } else {
        assert !p(y);
        assert Filter(keep, q) == fs;
      }
    }
  }

  lemma {:induction false} FilterConcat(p: ReqId -> bool, a: seq<ReqId>, b: seq<ReqId>)
    ensures Filter(p, a + b) == Filter(p, a) + Filter(p, b)
  {
    if a == [] {
      assert a + b == b;
    } else {
      assert (a + b)[1..] == a[1..] + b;
      FilterConcat(p, a[1..], b);
    }
  }

  /** Appending to a list appends to a filter of it exactly when the
      filter accepts the new entry. */
  lemma FilterSnoc(p: ReqId -> bool, q: seq<ReqId>, x: ReqId)
    ensures Filter(p, q + [x]) == Filter(p, q) + (if p(x) then [x] else [])
  {
    FilterConcat(p, q, [x]);
    assert [x][1..] == [];
  }

  /** Removing an entry from a list removes it from each filter of it. */
  lemma {:induction false} FilterRemove(p: ReqId -> bool, q: seq<ReqId>, x: ReqId)
    ensures Filter(p, RemoveId(q, x)) == RemoveId(Filter(p, q), x)
  {
    if q != [] {
      var y, s := q[0], q[1..];
      assert q == [y] + s;
      FilterRemove(p, s, x);
      var fs, rs := Filter(p, s), RemoveId(s, x);
      assert Filter(p, rs) == RemoveId(fs, x);
      if y == x {
        RemoveIdGone(y, s);
        if p(y) {
          FilterKept(p, y, s);
          RemoveIdGone(y, fs);
        } else {
          FilterDropped(p, y, s);
        }
      } else {
        RemoveIdKept(y, s, x);
        if p(y) {
          FilterKept(p, y, s);
          FilterKept(p, y, rs);
          RemoveIdKept(y, fs, x);
        } else {
          FilterDropped(p, y, s);
          FilterDropped(p, y, rs);
        }
      }
    }
  }

  lemma FilterKept(p: ReqId -> bool, y: ReqId, s: seq<ReqId>)
    requires p(y)
    ensures Filter(p, [y] + s) == [y] + Filter(p, s)
  {
    assert ([y] + s)[1..] == s;
  }

  lemma FilterDropped(p: ReqId -> bool, y: ReqId, s: seq<ReqId>)
    requires !p(y)
    ensures Filter(p, [y] + s) == Filter(p, s)
  {
    assert ([y] + s)[1..] == s;
  }

  lemma RemoveIdGone(x: ReqId, s: seq<ReqId>)
    ensures RemoveId([x] + s, x) == RemoveId(s, x)
  {
    assert ([x] + s)[1..] == s;
  }

  lemma RemoveIdKept(y: ReqId, s: seq<ReqId>, x: ReqId)
    requires y != x
    ensures RemoveId([y] + s, x) == [y] + RemoveId(s, x)
  {
    assert ([y] + s)[1..] == s;
  }

  /** A filter depends only on what its predicate says of the list's entries. */
  lemma {:induction false} FilterFrame(p: ReqId -> bool, p': ReqId -> bool, q: seq<ReqId>)
    requires forall x :: x in q ==> p(x) == p'(x)
    ensures Filter(p, q) == Filter(p', q)
  {
    if q != [] {
      FilterFrame(p, p', q[1..]);
    }
  }

  /** A prefix one longer is the prefix and the next element. */
  lemma TakeSnoc(q: seq<ReqId>, k: nat)
    requires k < |q|
    ensures q[..k + 1] == q[..k] + [q[k]]
  {
  }

  /** Filtering keeps the timestamps increasing. */
  lemma {:induction false} FilterIncreasing(reqs: Pool, p: ReqId -> bool, q: seq<ReqId>)
    requires Increasing(reqs, q)
    ensures Increasing(reqs, Filter(p, q))
  {
    if q != [] {
      FilterIncreasing(reqs, p, q[1..]);
      if p(q[0]) {
        HeadBeforeTail(reqs, q, Filter(p, q[1..]));
      }
    }
  }

  /** Removal keeps the timestamps increasing. */
  lemma {:induction false} RemoveIncreasing(reqs: Pool, q: seq<ReqId>, x: ReqId)
    requires Increasing(reqs, q)
    ensures Increasing(reqs, RemoveId(q, x))
  {
    if q != [] {
      RemoveIncreasing(reqs, q[1..], x);
      if q[0] != x {
        HeadBeforeTail(reqs, q, RemoveId(q[1..], x));
      }
    }
  }

  /** Putting the head of an increasing list before any part of its tail
      keeps it increasing. */
  lemma HeadBeforeTail(reqs: Pool, q: seq<ReqId>, rest: seq<ReqId>)
    requires q != [] && Increasing(reqs, q) && Increasing(reqs, rest)
    requires forall y :: y in rest ==> y in q[1..]
    ensures Increasing(reqs, [q[0]] + rest)
  {
    var s := [q[0]] + rest;
    forall i, j | 0 <= i < j < |s|
      ensures reqs[s[i]].timestamp < reqs[s[j]].timestamp
    {
      if i == 0 {
        assert s[j] == rest[j - 1];
        assert s[j] in q[1..];
      }
    }
  }

  /** Removing an entry that occurs once shortens the list by one. */
  lemma {:induction false} RemoveIdLength(q: seq<ReqId>, x: ReqId)
    requires NoDup(q)
    ensures |RemoveId(q, x)| == if x in q then |q| - 1 else |q|
  {
    if q != [] {
      assert NoDup(q[1..]);
      RemoveIdLength(q[1..], x);
      if q[0] == x {
        assert x !in q[1..];
      }
    }
  }

  /** Removal keeps a list free of duplicates. */
  lemma {:induction false} RemoveIdNoDup(q: seq<ReqId>, x: ReqId)
    requires NoDup(q)
    ensures NoDup(RemoveId(q, x))
  {
    if q != [] {
      assert NoDup(q[1..]);
      RemoveIdNoDup(q[1..], x);
      var rest := RemoveId(q[1..], x);
      if q[0] != x {
        var s := [q[0]] + rest;
        forall i, j | 0 <= i < j < |s| ensures s[i] != s[j] {
          if i == 0 {
            assert s[j] == rest[j - 1];
            assert q[0] !in q[1..];
          } else {
            assert s[i] == rest[i - 1] && s[j] == rest[j - 1];
          }
        }
      }
    }
  }

  /** A filter selecting by hash bucket depends only on the tags and
      selectors of the list's entries. */
  lemma PoolFrame(h: Hashes, reqs: Pool, reqs': Pool, q: seq<ReqId>)
    requires forall x :: x in q ==> (x in reqs <==> x in reqs')
    requires forall x :: x in q && x in reqs && x in reqs' ==>
               reqs[x].tag == reqs'[x].tag && reqs[x].tagsel == reqs'[x].tagsel
    ensures forall key :: Filter(Selecting(h, reqs, key), q) == Filter(Selecting(h, reqs', key), q)
  {
    forall key {
      FilterFrame(Selecting(h, reqs, key), Selecting(h, reqs', key), q);
    }
  }

  /** Increasing depends only on the requests the list holds. */
  lemma IncreasingFrame(reqs: Pool, reqs': Pool, q: seq<ReqId>)
    requires Increasing(reqs, q)
    requires forall y :: y in q ==> y in reqs' && reqs'[y].timestamp == reqs[y].timestamp
    ensures Increasing(reqs', q)
  {
    forall i, j | 0 <= i < j < |q| ensures reqs'[q[i]].timestamp < reqs'[q[j]].timestamp {
      assert q[i] in q && q[j] in q;
    }
  }

  /** Appending a request stamped later than every entry keeps the list
      increasing. */
  lemma IncreasingSnoc(reqs: Pool, q: seq<ReqId>, x: ReqId)
    requires Increasing(reqs, q) && x in reqs
    requires forall y :: y in q ==> reqs[y].timestamp < reqs[x].timestamp
    ensures Increasing(reqs, q + [x])
  {
    var q' := q + [x];
    forall i, j | 0 <= i < j < |q'| ensures reqs[q'[i]].timestamp < reqs[q'[j]].timestamp {
      if j == |q| {
        assert q'[i] == q[i] && q[i] in q;
      } else {
        assert q'[i] == q[i] && q'[j] == q[j];
      }
    }
  }

  /** An increasing list holds no entry twice. */
  lemma IncreasingNoDup(reqs: Pool, q: seq<ReqId>)
    requires Increasing(reqs, q)
    ensures NoDup(q)
  {
    forall i, j | 0 <= i < j < |q| ensures q[i] != q[j] {
      assert reqs[q[i]].timestamp < reqs[q[j]].timestamp;
    }
  }

  // ---- sizes of the hash tables

  /** NUM_HASH_CONFIGS tables of NUM_HASH_BUCKETS lists. */
  predicate Shaped(tab: Htab)
  {
    |tab| == NUM_HASH_CONFIGS && forall t :: 0 <= t < NUM_HASH_CONFIGS ==> |tab[t]| == NUM_HASH_BUCKETS
  }

  function SumLens(buckets: seq<seq<ReqId>>): (n: nat)
    ensures n == 0 <==> forall b :: 0 <= b < |buckets| ==> buckets[b] == []
  {
    if buckets == [] then 0 else |buckets[0]| + SumLens(buckets[1..])
  }

  /** The number of entries in all buckets of all tables. */
  function HtabSize(tab: Htab): (n: nat)
    ensures n == 0 <==> HtabEmpty(tab)
  {
    if tab == [] then 0 else SumLens(tab[0]) + HtabSize(tab[1..])
  }

  predicate HtabEmpty(tab: Htab)
  {
    forall t, b :: 0 <= t < |tab| && 0 <= b < |tab[t]| ==> tab[t][b] == []
  }

  /** Three tables of NUM_HASH_BUCKETS empty lists. */
  function EmptyHtab(): (tab: Htab)
    ensures |tab| == NUM_HASH_CONFIGS && HtabEmpty(tab)
    ensures forall t :: 0 <= t < |tab| ==> |tab[t]| == NUM_HASH_BUCKETS
  {
    seq(NUM_HASH_CONFIGS, _ => seq(NUM_HASH_BUCKETS, _ => []))
  }

  /** mq_qq_append_which: `x` appended to bucket `b` of table `t`. */
  function Append(tab: Htab, t: nat, b: nat, x: ReqId): (r: Htab)
    requires Shaped(tab) && t < NUM_HASH_CONFIGS && b < NUM_HASH_BUCKETS
    ensures Shaped(r)
    ensures forall t', b' :: 0 <= t' < NUM_HASH_CONFIGS && 0 <= b' < NUM_HASH_BUCKETS ==>
              r[t'][b'] == if t' == t && b' == b then tab[t][b] + [x] else tab[t'][b']
    ensures HtabSize(r) == HtabSize(tab) + 1
  {
    BucketUpdateSize(tab, t, b, tab[t][b] + [x]);
    tab[t := tab[t][b := tab[t][b] + [x]]]
  }

  /** mq_qq_remove_which on bucket `b` of table `t`. */
  function Unlink(tab: Htab, t: nat, b: nat, x: ReqId): (r: Htab)
    requires Shaped(tab) && t < NUM_HASH_CONFIGS && b < NUM_HASH_BUCKETS
    ensures Shaped(r)
    ensures forall t', b' :: 0 <= t' < NUM_HASH_CONFIGS && 0 <= b' < NUM_HASH_BUCKETS ==>
              r[t'][b'] == if t' == t && b' == b then RemoveId(tab[t][b], x) else tab[t'][b']
    ensures HtabSize(r) == HtabSize(tab) - |tab[t][b]| + |RemoveId(tab[t][b], x)|
  {
    BucketUpdateSize(tab, t, b, RemoveId(tab[t][b], x));
    tab[t := tab[t][b := RemoveId(tab[t][b], x)]]
  }

  lemma {:induction false} SumLensUpdate(buckets: seq<seq<ReqId>>, b: nat, v: seq<ReqId>)
    requires b < |buckets|
    ensures SumLens(buckets[b := v]) == SumLens(buckets) - |buckets[b]| + |v|
  {
    if b > 0 {
      assert buckets[b := v][1..] == buckets[1..][b - 1 := v];
      SumLensUpdate(buckets[1..], b - 1, v);
    }
  }

  lemma {:induction false} HtabSizeUpdate(tab: Htab, t: nat, v: seq<seq<ReqId>>)
    requires t < |tab|
    ensures HtabSize(tab[t := v]) == HtabSize(tab) - SumLens(tab[t]) + SumLens(v)
  {
    if t > 0 {
      assert tab[t := v][1..] == tab[1..][t - 1 := v];
      HtabSizeUpdate(tab[1..], t - 1, v);
    }
  }

  /** Changing one bucket by `d` entries changes the table's size by `d`. */
  lemma BucketUpdateSize(tab: Htab, t: nat, b: nat, v: seq<ReqId>)
    requires t < |tab| && b < |tab[t]|
    ensures HtabSize(tab[t := tab[t][b := v]]) == HtabSize(tab) - |tab[t][b]| + |v|
  {
    SumLensUpdate(tab[t], b, v);
    HtabSizeUpdate(tab, t, tab[t][b := v]);
  }
}
