/** Canonical chain maintenance: the number-to-hash index, the transaction lookup index and the
    head markers that `reorg` and `writeHeadBlock` edit in place, proved equal to the indexes a
    walk over parents from the new head would compute. */
module BlockChain {
  import opened Common
  import opened BlockTree

  datatype Error = InvalidNewChain | UnknownAncestor

  datatype Block = Block(header: Header, txs: seq<Hash>)

  /** The transactions of each stored block, by block hash. */
  type Bodies = map<Hash, seq<Hash>>

  function TxsOf(bodies: Bodies, h: Hash): seq<Hash>
  {
    if h in bodies then bodies[h] else []
  }

  // ----- The lookup index a chain should have

  /** The lookup entries of one block. */
  ghost function Entries(txs: seq<Hash>, number: nat): (entries: map<Hash, nat>)
  {
    if txs == [] then map[] else Entries(txs[..|txs| - 1], number)[txs[|txs| - 1] := number]
  }

  lemma {:induction false} EntriesKeys(txs: seq<Hash>, number: nat)
    ensures forall tx :: tx in Entries(txs, number) <==> tx in txs
    ensures forall tx :: tx in Entries(txs, number) ==> Entries(txs, number)[tx] == number
  {
    if txs != [] {
      EntriesKeys(txs[..|txs| - 1], number);
      assert txs == txs[..|txs| - 1] + [txs[|txs| - 1]];
    }
  }

  lemma EntriesOneMore(lookup: map<Hash, nat>, txs: seq<Hash>, i: nat, number: nat)
    requires i < |txs|
    ensures (lookup + Entries(txs[..i], number))[txs[i] := number] == lookup + Entries(txs[..i + 1], number)
  {
    assert txs[..i + 1][..i] == txs[..i];
  }

  /** The entries written by indexing blocks `lo`, ..., `hi - 1` of a chain in order. */
  ghost function RangeEntries(bodies: Bodies, chain: seq<Hash>, lo: nat, hi: nat): (entries: map<Hash, nat>)
    requires lo <= hi <= |chain|
  {
    if lo == hi then map[]
    else RangeEntries(bodies, chain, lo, hi - 1) + Entries(TxsOf(bodies, chain[hi - 1]), hi - 1)
  }

  /** The index recomputed from nothing by indexing the whole chain, genesis first. */
  ghost function Recompute(bodies: Bodies, chain: seq<Hash>): (entries: map<Hash, nat>)
  {
    RangeEntries(bodies, chain, 0, |chain|)
  }

  /** Each transaction is in at most one block of the chain. */
  ghost predicate TxOnce(bodies: Bodies, chain: seq<Hash>)
  {
    forall i, j, tx :: 0 <= i < |chain| && 0 <= j < |chain| ==>
      tx in TxsOf(bodies, chain[i]) && tx in TxsOf(bodies, chain[j]) ==> i == j
  }

  /** What the recomputed index says: a transaction is looked up in the highest block that has it, and not
      found exactly if no block has it. */
  lemma {:induction false} RecomputeMeaning(bodies: Bodies, chain: seq<Hash>, hi: nat, tx: Hash, n: nat)
    requires hi <= |chain|
    requires n < hi ==> tx in TxsOf(bodies, chain[n])
    requires forall m :: n < m < hi ==> tx !in TxsOf(bodies, chain[m])
    requires n >= hi ==> forall m :: 0 <= m < hi ==> tx !in TxsOf(bodies, chain[m])
    ensures var index := RangeEntries(bodies, chain, 0, hi);
            if n < hi then tx in index && index[tx] == n else tx !in index
    decreases hi
  {
    if hi > 0 {
      EntriesKeys(TxsOf(bodies, chain[hi - 1]), hi - 1);
      if n != hi - 1 {
        RecomputeMeaning(bodies, chain, hi - 1, tx, if n < hi then n else hi - 1);
      }
    }
  }

  /** With every transaction at most once on the chain, it is looked up in the one block that has it. */
  lemma RecomputeFinds(bodies: Bodies, chain: seq<Hash>, tx: Hash, n: nat)
    requires n < |chain| && tx in TxsOf(bodies, chain[n]) && TxOnce(bodies, chain)
    ensures tx in Recompute(bodies, chain) && Recompute(bodies, chain)[tx] == n
  {
    RecomputeMeaning(bodies, chain, |chain|, tx, n);
  }

  /** Some block of the range has the transaction. */
  ghost predicate InRange(bodies: Bodies, chain: seq<Hash>, lo: nat, hi: nat, tx: Hash)
    requires lo <= hi <= |chain|
  {
    exists n :: lo <= n < hi && tx in TxsOf(bodies, chain[n])
  }

  lemma {:induction false} RangeKeys(bodies: Bodies, chain: seq<Hash>, lo: nat, hi: nat, tx: Hash)
    requires lo <= hi <= |chain|
    ensures tx in RangeEntries(bodies, chain, lo, hi) <==> InRange(bodies, chain, lo, hi, tx)
  {
    if lo < hi {
      RangeKeys(bodies, chain, lo, hi - 1, tx);
      EntriesKeys(TxsOf(bodies, chain[hi - 1]), hi - 1);
      if InRange(bodies, chain, lo, hi - 1, tx) {
        var n :| lo <= n < hi - 1 && tx in TxsOf(bodies, chain[n]);
      }
    }
  }

  /** One more block at the lower end. */
  lemma RangeDown(bodies: Bodies, chain: seq<Hash>, lo: nat, hi: nat)
    requires lo < hi <= |chain|
    ensures forall tx :: tx in RangeEntries(bodies, chain, lo, hi) <==>
                         tx in RangeEntries(bodies, chain, lo + 1, hi) || tx in TxsOf(bodies, chain[lo])
  {
    RangeSplit(bodies, chain, lo, lo + 1, hi);
    EntriesKeys(TxsOf(bodies, chain[lo]), lo);
    assert RangeEntries(bodies, chain, lo, lo) == map[];
  }

  lemma MergeAssociative(a: map<Hash, nat>, b: map<Hash, nat>, c: map<Hash, nat>)
    ensures (a + b) + c == a + (b + c)
  {
  }

  lemma {:induction false} RangeSplit(bodies: Bodies, chain: seq<Hash>, lo: nat, mid: nat, hi: nat)
    requires lo <= mid <= hi <= |chain|
    ensures RangeEntries(bodies, chain, lo, hi) ==
            RangeEntries(bodies, chain, lo, mid) + RangeEntries(bodies, chain, mid, hi)
  {
    if mid < hi {
      RangeSplit(bodies, chain, lo, mid, hi - 1);
      MergeAssociative(RangeEntries(bodies, chain, lo, mid), RangeEntries(bodies, chain, mid, hi - 1),
                       Entries(TxsOf(bodies, chain[hi - 1]), hi - 1));
    } else {
      assert RangeEntries(bodies, chain, mid, hi) == map[];
    }
  }

  /** Only the blocks in the range matter. */
  lemma {:induction false} RangeLocal(bodies: Bodies, a: seq<Hash>, b: seq<Hash>, lo: nat, hi: nat)
    requires lo <= hi <= |a| && hi <= |b| && a[..hi] == b[..hi]
    ensures RangeEntries(bodies, a, lo, hi) == RangeEntries(bodies, b, lo, hi)
  {
    if lo < hi {
      assert a[..hi - 1] == a[..hi][..hi - 1] && b[..hi - 1] == b[..hi][..hi - 1];
      assert a[hi - 1] == a[..hi][hi - 1] == b[..hi][hi - 1] == b[hi - 1];
      RangeLocal(bodies, a, b, lo, hi - 1);
    }
  }

  /** Storing another block changes no recomputed index. */
  lemma {:induction false} RangeStable(bodies: Bodies, more: Bodies, chain: seq<Hash>, lo: nat, hi: nat)
    requires lo <= hi <= |chain|
    requires forall n :: lo <= n < hi ==> TxsOf(more, chain[n]) == TxsOf(bodies, chain[n])
    ensures RangeEntries(more, chain, lo, hi) == RangeEntries(bodies, chain, lo, hi)
  {
    if lo < hi {
      RangeStable(bodies, more, chain, lo, hi - 1);
    }
  }

  /** A larger store that holds the same blocks gives a chain the same path, entries and transactions. */
  lemma StoreKeepsChain(headers: Headers, more: Headers, bodies: Bodies, moreBodies: Bodies, genesis: Hash, h: Hash)
    requires Linked(headers, genesis) && Linked(more, genesis) && Rooted(headers, genesis, h)
    requires forall k :: k in headers ==> k in more && more[k] == headers[k]
    requires forall k :: k in headers ==> TxsOf(moreBodies, k) == TxsOf(bodies, k)
    ensures Rooted(more, genesis, h)
    ensures var chain := ChainOf(headers, genesis, h);
            && ChainOf(more, genesis, h) == chain
            && Recompute(moreBodies, chain) == Recompute(bodies, chain)
            && (TxOnce(bodies, chain) ==> TxOnce(moreBodies, chain))
  {
    ChainStable(headers, more, genesis, h);
    ChainIsPath(headers, genesis, h);
    var chain := ChainOf(headers, genesis, h);
    RangeStable(bodies, moreBodies, chain, 0, |chain|);
  }

  /** Writing `added` over an index and deleting what was only `dropped` restores the rest. */
  lemma SwapBranch(prefix: map<Hash, nat>, dropped: map<Hash, nat>, added: map<Hash, nat>)
    requires prefix.Keys !! dropped.Keys
    ensures prefix + dropped + added - (dropped.Keys - added.Keys) == prefix + added
  {
  }

  /** A transaction of the common prefix is not in the dropped branch. */
  lemma PrefixDisjoint(bodies: Bodies, chain: seq<Hash>, fork: nat)
    requires fork <= |chain| && TxOnce(bodies, chain)
    ensures RangeEntries(bodies, chain, 0, fork).Keys !! RangeEntries(bodies, chain, fork, |chain|).Keys
  {
    forall tx | tx in RangeEntries(bodies, chain, 0, fork)
      ensures tx !in RangeEntries(bodies, chain, fork, |chain|)
    {
      RangeKeys(bodies, chain, 0, fork, tx);
      RangeKeys(bodies, chain, fork, |chain|, tx);
    }
  }

  /** What `reorg` leaves in the lookup index: writing the new branch over the old index and then
      deleting the transactions of the dropped branch that the new branch does not contain gives
      the index recomputed for the new chain, provided no dropped transaction is also in the
      common prefix. */
  lemma LookupAfterReorg(bodies: Bodies, oldChain: seq<Hash>, newChain: seq<Hash>, fork: nat, top: nat)
    requires fork <= |oldChain| && fork <= top <= |newChain| && oldChain[..fork] == newChain[..fork]
    requires TxOnce(bodies, oldChain)
    ensures var dropped := RangeEntries(bodies, oldChain, fork, |oldChain|);
            var added := RangeEntries(bodies, newChain, fork, top);
            Recompute(bodies, oldChain) + added - (dropped.Keys - added.Keys) == RangeEntries(bodies, newChain, 0, top)
  {
    RangeSplit(bodies, oldChain, 0, fork, |oldChain|);
    RangeSplit(bodies, newChain, 0, fork, top);
    RangeLocal(bodies, oldChain, newChain, 0, fork);
    PrefixDisjoint(bodies, oldChain, fork);
    SwapBranch(RangeEntries(bodies, oldChain, 0, fork), RangeEntries(bodies, oldChain, fork, |oldChain|),
               RangeEntries(bodies, newChain, fork, top));
  }

  /** If the lookup index was exact for the chain `a`, it is now exact for the blocks of `b` below `top`. */
  ghost predicate LookupMoved(bodies: Bodies, a: seq<Hash>, b: seq<Hash>, top: nat, before: map<Hash, nat>,
                              after: map<Hash, nat>)
    requires top <= |b|
  {
    before == Recompute(bodies, a) && TxOnce(bodies, a) ==> after == RangeEntries(bodies, b, 0, top)
  }

  // ----- Walking two branches down to their fork

  /** `header` is the stored header `i` places below the end of `chain`. */
  ghost predicate BranchAt(headers: Headers, header: Header, chain: seq<Hash>, i: nat)
  {
    && i < |chain| && chain[|chain| - 1 - i] in headers
    && header == headers[chain[|chain| - 1 - i]]
  }

  /** `list` holds the headers of `chain` above number `fork`, highest first. */
  ghost predicate IsBranch(headers: Headers, list: seq<Header>, chain: seq<Hash>, fork: nat)
  {
    && fork < |chain|
    && |list| == |chain| - 1 - fork
    && (forall i :: 0 <= i < |list| ==> BranchAt(headers, list[i], chain, i))
  }

  lemma ExtendBranch(headers: Headers, list: seq<Header>, chain: seq<Hash>, at: Header)
    requires IsBranch(headers, list, chain, at.number) && at.number > 0
    requires chain[at.number] == at.hash && at.hash in headers && headers[at.hash] == at
    ensures IsBranch(headers, list + [at], chain, at.number - 1)
  {
    var longer := list + [at];
    forall i | 0 <= i < |longer|
      ensures BranchAt(headers, longer[i], chain, i)
    {
      if i < |list| {
        assert BranchAt(headers, list[i], chain, i);
      } else {
        assert |chain| - 1 - i == at.number;
      }
    }
  }

  /** A walk over parents from `start` has reached `at`, having collected `branch`. */
  ghost predicate OnWalk(headers: Headers, genesis: Hash, start: Header, at: Header, branch: seq<Header>)
    requires Linked(headers, genesis)
  {
    && at.hash in headers && headers[at.hash] == at
    && start.hash in headers && headers[start.hash] == start
    && at.number <= start.number
    && (Rooted(headers, genesis, start.hash) <==> Rooted(headers, genesis, at.hash))
    && (Rooted(headers, genesis, start.hash) ==>
          var chain := ChainOf(headers, genesis, start.hash);
          chain[at.number] == at.hash && IsBranch(headers, branch, chain, at.number))
  }

  /** One more step down; the walk gets stuck only if an ancestor is missing. */
  lemma WalkStep(headers: Headers, genesis: Hash, start: Header, at: Header, branch: seq<Header>)
    requires Linked(headers, genesis) && OnWalk(headers, genesis, start, at, branch)
    requires at.number > 0
    ensures var next := GetHeader(headers, at.parentHash, at.number - 1);
            if next.None? then !Rooted(headers, genesis, start.hash)
            else OnWalk(headers, genesis, start, next.value, branch + [at])
  {
    if Rooted(headers, genesis, start.hash) {
      PrefixOfChain(headers, genesis, start.hash, at.number);
      ParentOnChain(headers, genesis, at.hash);
      var chain := ChainOf(headers, genesis, start.hash);
      assert ChainOf(headers, genesis, at.hash)[at.number - 1] == at.parentHash;
      assert chain[..at.number + 1][at.number - 1] == chain[at.number - 1];
      ExtendBranch(headers, branch, chain, at);
    }
  }

  /** `common` is the highest common ancestor of two rooted headers and the lists are exactly the
      two paths above it, highest first. */
  ghost predicate Forks(headers: Headers, genesis: Hash, oldHead: Header, newHead: Header,
                        oldBranch: seq<Header>, newBranch: seq<Header>, common: Header)
    requires Linked(headers, genesis)
    requires Rooted(headers, genesis, oldHead.hash) && Rooted(headers, genesis, newHead.hash)
  {
    var a, b := ChainOf(headers, genesis, oldHead.hash), ChainOf(headers, genesis, newHead.hash);
    var fork := common.number;
    && IsBranch(headers, oldBranch, a, fork) && IsBranch(headers, newBranch, b, fork)
    && a[fork] == common.hash
    && a[..fork + 1] == b[..fork + 1]
    && (fork + 1 < |a| && fork + 1 < |b| ==> a[fork + 1] != b[fork + 1])
  }

  lemma WalksMeet(headers: Headers, genesis: Hash, oldHead: Header, newHead: Header,
                  oldBranch: seq<Header>, newBranch: seq<Header>, common: Header)
    requires Linked(headers, genesis) && Rooted(headers, genesis, oldHead.hash)
    requires OnWalk(headers, genesis, oldHead, common, oldBranch)
    requires OnWalk(headers, genesis, newHead, common, newBranch)
    requires oldBranch != [] && newBranch != [] ==>
               oldBranch[|oldBranch| - 1].hash != newBranch[|newBranch| - 1].hash
    ensures Rooted(headers, genesis, newHead.hash)
    ensures Forks(headers, genesis, oldHead, newHead, oldBranch, newBranch, common)
  {
    SharedPrefix(headers, genesis, oldHead.hash, newHead.hash, common.number);
  }

  /** One past the highest number that `reorg` itself applies: the new head is left to the caller,
      unless the new head is the common ancestor. */
  ghost function Applied(chain: seq<Hash>, fork: nat): (top: nat)
    requires fork < |chain|
    ensures fork < top <= |chain|
  {
    if fork + 1 < |chain| then |chain| - 1 else |chain|
  }

  /** The canonical entries of the numbers `lo`, ..., `hi - 1` of a chain. */
  ghost function SegmentIndex(chain: seq<Hash>, lo: nat, hi: nat): (index: map<nat, Hash>)
    requires lo <= hi <= |chain|
  {
    map n: nat | lo <= n < hi :: chain[n]
  }

  /** One more block at the upper end. */
  lemma SegmentChain(index: map<nat, Hash>, before: map<nat, Hash>, chain: seq<Hash>, lo: nat, at: nat)
    requires lo <= at < |chain| && before == index + SegmentIndex(chain, lo, at)
    ensures before[at := chain[at]] == index + SegmentIndex(chain, lo, at + 1)
  {
  }

  lemma EntriesChain(start: map<Hash, nat>, before: map<Hash, nat>, bodies: Bodies, chain: seq<Hash>, lo: nat, at: nat)
    requires lo <= at < |chain| && before == start + RangeEntries(bodies, chain, lo, at)
    ensures before + Entries(TxsOf(bodies, chain[at]), at) == start + RangeEntries(bodies, chain, lo, at + 1)
  {
    MergeAssociative(start, RangeEntries(bodies, chain, lo, at), Entries(TxsOf(bodies, chain[at]), at));
  }

  /** The list holds exactly the transactions that have entries. */
  ghost predicate Lists(list: seq<Hash>, entries: map<Hash, nat>)
  {
    forall tx :: tx in list <==> tx in entries
  }

  lemma ListsChain(list: seq<Hash>, bodies: Bodies, chain: seq<Hash>, lo: nat, at: nat)
    requires lo <= at < |chain| && Lists(list, RangeEntries(bodies, chain, lo, at))
    ensures Lists(list + TxsOf(bodies, chain[at]), RangeEntries(bodies, chain, lo, at + 1))
  {
    EntriesKeys(TxsOf(bodies, chain[at]), at);
  }

  /** The blocks `lo`, ..., `at - 1` of a chain were written over a canonical index and a lookup index, and
      their transactions were collected. */
  ghost predicate Written(canonical: map<nat, Hash>, lookup: map<Hash, nat>, bodies: Bodies, chain: seq<Hash>,
                          lo: nat, at: nat, canonical': map<nat, Hash>, lookup': map<Hash, nat>, txs: seq<Hash>)
    requires lo <= at <= |chain|
  {
    && canonical' == canonical + SegmentIndex(chain, lo, at)
    && lookup' == lookup + RangeEntries(bodies, chain, lo, at)
    && Lists(txs, RangeEntries(bodies, chain, lo, at))
  }

  lemma WrittenNothing(canonical: map<nat, Hash>, lookup: map<Hash, nat>, bodies: Bodies, chain: seq<Hash>, lo: nat)
    requires lo <= |chain|
    ensures Written(canonical, lookup, bodies, chain, lo, lo, canonical, lookup, [])
  {
  }

  lemma WrittenOneMore(canonical: map<nat, Hash>, lookup: map<Hash, nat>, bodies: Bodies, chain: seq<Hash>,
                       lo: nat, at: nat, canonical': map<nat, Hash>, lookup': map<Hash, nat>, txs: seq<Hash>)
    requires lo <= at < |chain| && Written(canonical, lookup, bodies, chain, lo, at, canonical', lookup', txs)
    ensures Written(canonical, lookup, bodies, chain, lo, at + 1, canonical'[at := chain[at]],
                    lookup' + Entries(TxsOf(bodies, chain[at]), at), txs + TxsOf(bodies, chain[at]))
  {
    SegmentChain(canonical, canonical', chain, lo, at);
    EntriesChain(lookup, lookup', bodies, chain, lo, at);
    ListsChain(txs, bodies, chain, lo, at);
  }

  /** The two indexes and the collected transactions. */
  datatype Indexes = Indexes(canonical: map<nat, Hash>, lookup: map<Hash, nat>, txs: seq<Hash>)

  ghost function ApplyOne(before: Indexes, txs: seq<Hash>, hash: Hash, number: nat): (after: Indexes)
  {
    Indexes(before.canonical[number := hash], before.lookup + Entries(txs, number), before.txs + txs)
  }

  /** The blocks `lo`, ..., `hi - 1` of a chain have each been made the head in turn. */
  ghost function ApplyRange(start: Indexes, bodies: Bodies, chain: seq<Hash>, lo: nat, hi: nat): (done: Indexes)
    requires lo <= hi <= |chain|
  {
    if lo == hi then start
    else ApplyAt(ApplyRange(start, bodies, chain, lo, hi - 1), bodies, chain, hi - 1)
  }

  ghost predicate WrittenTo(start: Indexes, bodies: Bodies, chain: seq<Hash>, lo: nat, at: nat, done: Indexes)
    requires lo <= at <= |chain|
  {
    Written(start.canonical, start.lookup, bodies, chain, lo, at, done.canonical, done.lookup, done.txs)
  }

  ghost function ApplyAt(before: Indexes, bodies: Bodies, chain: seq<Hash>, at: nat): (after: Indexes)
    requires at < |chain|
  {
    ApplyOne(before, TxsOf(bodies, chain[at]), chain[at], at)
  }

  lemma ApplyAtWrites(start: Indexes, bodies: Bodies, chain: seq<Hash>, lo: nat, at: nat, done: Indexes)
    requires lo <= at < |chain| && WrittenTo(start, bodies, chain, lo, at, done)
    ensures WrittenTo(start, bodies, chain, lo, at + 1, ApplyAt(done, bodies, chain, at))
  {
    WrittenOneMore(start.canonical, start.lookup, bodies, chain, lo, at, done.canonical, done.lookup, done.txs);
  }

  /** What every block of a range keeps, the range keeps. */
  lemma {:induction false} ApplyRangeKeeps(kept: (nat, Indexes) -> bool, start: Indexes, bodies: Bodies,
                                           chain: seq<Hash>, lo: nat, hi: nat)
    requires lo <= hi <= |chain| && kept(lo, start)
    requires forall at, d :: lo <= at < |chain| && kept(at, d) ==> kept(at + 1, ApplyAt(d, bodies, chain, at))
    ensures kept(hi, ApplyRange(start, bodies, chain, lo, hi))
  {
    if lo < hi {
      ApplyRangeKeeps(kept, start, bodies, chain, lo, hi - 1);
    }
  }

  lemma ApplyRangeWrites(start: Indexes, bodies: Bodies, chain: seq<Hash>, lo: nat, hi: nat)
    requires lo <= hi <= |chain| && start.txs == []
    ensures WrittenTo(start, bodies, chain, lo, hi, ApplyRange(start, bodies, chain, lo, hi))
  {
    var kept := (at: nat, d: Indexes) => lo <= at <= |chain| && WrittenTo(start, bodies, chain, lo, at, d);
    WrittenNothing(start.canonical, start.lookup, bodies, chain, lo);
    forall at, d | lo <= at < |chain| && kept(at, d) ensures kept(at + 1, ApplyAt(d, bodies, chain, at)) {
      ApplyAtWrites(start, bodies, chain, lo, at, d);
    }
    ApplyRangeKeeps(kept, start, bodies, chain, lo, hi);
  }

  /** The number above which `reorg` deletes markers is the last one it applied. */
  lemma LastApplied(headers: Headers, newBranch: seq<Header>, chain: seq<Hash>, fork: nat)
    requires IsPath(headers, chain) && IsBranch(headers, newBranch, chain, fork)
    ensures (if |newBranch| > 1 then newBranch[1].number else fork) == Applied(chain, fork) - 1
  {
    if |newBranch| > 1 {
      assert BranchAt(headers, newBranch[1], chain, 1);
    }
  }

  /** What `reorg` leaves in the canonical index: the new branch written over the old index, less
      the markers above it up to the first gap, is the new chain below `top`. */
  lemma CanonicalAfterReorg(oldChain: seq<Hash>, newChain: seq<Hash>, fork: nat, top: nat,
                            applied: map<nat, Hash>, left: map<nat, Hash>, stop: nat)
    requires fork < |oldChain| && fork < top <= |newChain| && oldChain[..fork + 1] == newChain[..fork + 1]
    requires applied == IndexOf(oldChain) + SegmentIndex(newChain, fork + 1, top)
    requires stop > top - 1 && stop !in applied
    requires forall n :: n in left <==> n in applied && !(top - 1 < n < stop)
    requires forall n :: n in left ==> left[n] == applied[n]
    ensures left == IndexOf(newChain[..top])
  {
    forall n: nat | n < top
      ensures n in applied && applied[n] == newChain[n]
    {
      if n <= fork {
        assert oldChain[n] == oldChain[..fork + 1][n] == newChain[..fork + 1][n] == newChain[n];
      }
    }
  }

  /** The fork is below the new head exactly if the new head is not an ancestor of the old one. */
  lemma ForkPosition(headers: Headers, genesis: Hash, oldHead: Header, newHead: Header,
                     oldBranch: seq<Header>, newBranch: seq<Header>, common: Header)
    requires Linked(headers, genesis)
    requires Rooted(headers, genesis, oldHead.hash) && Rooted(headers, genesis, newHead.hash)
    requires headers[newHead.hash] == newHead
    requires Forks(headers, genesis, oldHead, newHead, oldBranch, newBranch, common)
    ensures var a, b := ChainOf(headers, genesis, oldHead.hash), ChainOf(headers, genesis, newHead.hash);
            Applied(b, common.number)
            == if newHead.number < |a| && a[newHead.number] == newHead.hash then |b| else newHead.number
  {
    var a, b := ChainOf(headers, genesis, oldHead.hash), ChainOf(headers, genesis, newHead.hash);
    var fork := common.number;
    if fork + 1 == |b| {
      assert a[fork] == a[..fork + 1][fork] == b[..fork + 1][fork] == b[fork];
    } else if newHead.number < |a| && a[newHead.number] == newHead.hash {
      SharedPrefix(headers, genesis, oldHead.hash, newHead.hash, newHead.number);
    }
  }

  /** Writing the new head over indexes that hold its ancestors, or already hold it, completes them. */
  lemma NewHeadIndexes(bodies: Bodies, chain: seq<Hash>, top: nat)
    requires |chain| > 0 && (top == |chain| - 1 || top == |chain|)
    ensures IndexOf(chain[..top])[|chain| - 1 := chain[|chain| - 1]] == IndexOf(chain)
    ensures RangeEntries(bodies, chain, 0, top) + Entries(TxsOf(bodies, chain[|chain| - 1]), |chain| - 1)
            == Recompute(bodies, chain)
  {
    if top == |chain| {
      MergeAssociative(RangeEntries(bodies, chain, 0, top - 1), Entries(TxsOf(bodies, chain[top - 1]), top - 1),
                       Entries(TxsOf(bodies, chain[top - 1]), top - 1));
    }
  }

  // ----- Helpers of `reorg`

  /** The hashes of `a` that are not in `b`. */
  method HashDifference(a: seq<Hash>, b: seq<Hash>) returns (keep: seq<Hash>)
    ensures forall h :: h in keep <==> h in a && h !in b
  {
    keep := [];
    var remove: set<Hash> := {};
    for i := 0 to |b|
      invariant forall h :: h in remove <==> h in b[..i]
    {
      remove := remove + {b[i]};
    }
    for i := 0 to |a|
      invariant forall h :: h in keep <==> h in a[..i] && h !in b
    {
      if a[i] !in remove {
        keep := keep + [a[i]];
      }
    }
  }

  /** The head markers: three in the database, three in memory. */
  datatype Markers = Markers(headHeaderHash: Hash, headFastBlockHash: Hash, headBlockHash: Hash,
                             currentHeader: Header, currentSnapBlock: Header, currentBlock: Header)

  class Chain {
    var headers: Headers
    var bodies: Bodies
    var canonical: map<nat, Hash>
    var lookup: map<Hash, nat>
    var markers: Markers
    const genesis: Hash

    /** A chain of the genesis block alone. */
    constructor (block: Block)
      requires block.header.hash != ZERO_HASH && block.header.parentHash == ZERO_HASH && block.header.number == 0
      ensures Valid() && markers.currentBlock == block.header && genesis == block.header.hash
      ensures headers == map[block.header.hash := block.header]
      ensures LookupExact(markers.currentBlock.hash)
    {
      var header := block.header;
      genesis := header.hash;
      headers := map[header.hash := header];
      bodies := map[header.hash := block.txs];
      canonical := map[0 := header.hash];
      lookup := map tx | tx in block.txs :: 0;
      markers := Markers(header.hash, header.hash, header.hash, header, header, header);
      new;
      assert Rooted(headers, genesis, header.hash);
      ghost var chain := ChainOf(headers, genesis, header.hash);
      assert chain == [header.hash];
      assert RangeEntries(bodies, chain, 0, 0) == map[];
      assert Recompute(bodies, chain) == map[] + Entries(block.txs, 0);
      EntriesKeys(block.txs, 0);
    }

    /** The store is a tree with one genesis and bodies for all its headers. */
    ghost predicate Stored()
      reads this
    {
      && Linked(headers, genesis)
      && bodies.Keys == headers.Keys
    }

    /** The chain invariant: all markers agree on a rooted head and the canonical index is
        exactly its ancestor chain. */
    ghost predicate Valid()
      reads this
    {
      && Stored()
      && IsHead(markers.currentBlock)
      && canonical == IndexOf(ChainOf(headers, genesis, markers.currentBlock.hash))
    }

    /** All markers agree on a stored header with a path to the genesis. */
    ghost predicate IsHead(header: Header)
      requires Stored()
      reads this
    {
      && markers.headHeaderHash == markers.headFastBlockHash == markers.headBlockHash == header.hash
      && markers.currentHeader == markers.currentSnapBlock == markers.currentBlock == header
      && Rooted(headers, genesis, header.hash) && headers[header.hash] == header
    }

    /** What the markers and the canonical index say when they are read back: the stored head hash leads to
        the head, the index holds its number and all below it and nothing above, the head itself at its
        number, the genesis at 0, and under every number the parent of the one above. */
    lemma ReadBack(n: nat)
      requires Valid()
      ensures markers.headBlockHash in headers && headers[markers.headBlockHash] == markers.currentBlock
      ensures n in canonical <==> n <= markers.currentBlock.number
      ensures 0 in canonical && canonical[0] == genesis
      ensures markers.currentBlock.number in canonical
      ensures canonical[markers.currentBlock.number] == markers.headBlockHash
      ensures n in canonical ==> canonical[n] in headers && headers[canonical[n]].number == n
      ensures 0 < n && n in canonical ==> n - 1 in canonical && headers[canonical[n]].parentHash == canonical[n - 1]
    {
      var h := markers.currentBlock.hash;
      ChainFollowsParents(headers, genesis, h, if n <= headers[h].number then n else 0);
    }

    /** The lookup index is exactly the one recomputed from the chain of `head`. */
    ghost predicate LookupExact(head: Hash)
      requires Stored() && Rooted(headers, genesis, head)
      reads this
    {
      lookup == Recompute(bodies, ChainOf(headers, genesis, head))
    }

    /** No transaction is twice on the canonical chain. */
    ghost predicate HeadTxOnce()
      requires Stored() && Rooted(headers, genesis, markers.currentBlock.hash)
      reads this
    {
      TxOnce(bodies, ChainOf(headers, genesis, markers.currentBlock.hash))
    }

    method WriteTxLookupEntriesByBlock(block: Block)
      modifies this`lookup
      ensures lookup == old(lookup) + Entries(block.txs, block.header.number)
    {
      for i := 0 to |block.txs|
        invariant lookup == old(lookup) + Entries(block.txs[..i], block.header.number)
      {
        lookup := lookup[block.txs[i] := block.header.number];
        EntriesOneMore(old(lookup), block.txs, i, block.header.number);
      }
      assert block.txs[..|block.txs|] == block.txs;
    }

    method WriteHeadBlock(block: Block)
      modifies this`canonical, this`lookup, this`markers
      ensures markers.headHeaderHash == markers.headFastBlockHash == markers.headBlockHash == block.header.hash
      ensures markers.currentHeader == markers.currentSnapBlock == markers.currentBlock == block.header
      ensures canonical == old(canonical)[block.header.number := block.header.hash]
      ensures lookup == old(lookup) + Entries(block.txs, block.header.number)
    {
      markers := markers.(headHeaderHash := block.header.hash, headFastBlockHash := block.header.hash);
      canonical := canonical[block.header.number := block.header.hash];
      WriteTxLookupEntriesByBlock(block);
      markers := markers.(headBlockHash := block.header.hash);
      markers := markers.(currentHeader := block.header);
      markers := markers.(currentSnapBlock := block.header);
      markers := markers.(currentBlock := block.header);
    }

    /** Collects the headers from `from` down to, and without, the one of number `target`. */
    method LowerTo(from: Header, target: nat) returns (reached: Option<Header>, branch: seq<Header>)
      requires Stored()
      requires from.hash in headers && headers[from.hash] == from && target <= from.number
      ensures Rooted(headers, genesis, from.hash) ==> reached.Some?
      ensures reached.Some? ==> reached.value.number == target && OnWalk(headers, genesis, from, reached.value, branch)
    {
      var at := from;
      branch := [];
      while at.number != target
        invariant target <= at.number && OnWalk(headers, genesis, from, at, branch)
        decreases at.number
      {
        WalkStep(headers, genesis, from, at, branch);
        branch := branch + [at];
        var next := GetHeader(headers, at.parentHash, at.number - 1);
        if next.None? {
          return None, branch;
        }
        at := next.value;
      }
      reached := Some(at);
    }

    /** Steps back on both sides, which are at the same number, until they meet. The current head is
        rooted, so only the new side can run out of headers. */
    method StepBack(oldHead: Header, newHead: Header, oldAt: Header, newAt: Header, olds: seq<Header>,
                    news: seq<Header>)
        returns (err: Option<Error>, oldBranch: seq<Header>, newBranch: seq<Header>, common: Header)
      requires Stored()
      requires Rooted(headers, genesis, oldHead.hash) && oldAt.number == newAt.number
      requires OnWalk(headers, genesis, oldHead, oldAt, olds) && OnWalk(headers, genesis, newHead, newAt, news)
      requires olds == [] || news == []
      ensures err == if Rooted(headers, genesis, newHead.hash) then None else Some(InvalidNewChain)
      ensures err.None? ==> Forks(headers, genesis, oldHead, newHead, oldBranch, newBranch, common)
    {
      var older, newer := oldAt, newAt;
      oldBranch, newBranch := olds, news;
      while older.hash != newer.hash
        invariant older.number == newer.number
        invariant OnWalk(headers, genesis, oldHead, older, oldBranch)
        invariant OnWalk(headers, genesis, newHead, newer, newBranch)
        invariant oldBranch != [] && newBranch != [] ==>
                    oldBranch[|oldBranch| - 1].hash != newBranch[|newBranch| - 1].hash
        decreases older.number
      {
        WalkStep(headers, genesis, oldHead, older, oldBranch);
        WalkStep(headers, genesis, newHead, newer, newBranch);
        oldBranch := oldBranch + [older];
        newBranch := newBranch + [newer];
        var nextOld := GetHeader(headers, older.parentHash, older.number - 1);
        older := nextOld.value;
        var nextNew := GetHeader(headers, newer.parentHash, newer.number - 1);
        if nextNew.None? {
          return Some(InvalidNewChain), oldBranch, newBranch, older;
        }
        newer := nextNew.value;
      }
      WalksMeet(headers, genesis, oldHead, newHead, oldBranch, newBranch, older);
      return None, oldBranch, newBranch, older;
    }

    /** The search of `reorg` for the highest common ancestor. */
    method FindBranches(oldHead: Header, newHead: Header)
        returns (err: Option<Error>, oldBranch: seq<Header>, newBranch: seq<Header>, common: Header)
      requires Stored()
      requires Rooted(headers, genesis, oldHead.hash) && headers[oldHead.hash] == oldHead
      requires newHead.hash in headers && headers[newHead.hash] == newHead
      ensures err == if Rooted(headers, genesis, newHead.hash) then None else Some(InvalidNewChain)
      ensures err.None? ==> Forks(headers, genesis, oldHead, newHead, oldBranch, newBranch, common)
    {
      oldBranch, newBranch, common := [], [], oldHead;
      var older, newer := oldHead, newHead;
      if oldHead.number > newHead.number {
        var reached;
        reached, oldBranch := LowerTo(oldHead, newHead.number);
        older := reached.value;
      } else {
        var reached;
        reached, newBranch := LowerTo(newHead, oldHead.number);
        if reached.None? {
          err := Some(InvalidNewChain);
          return;
        }
        newer := reached.value;
      }
      err, oldBranch, newBranch, common := StepBack(oldHead, newHead, older, newer, oldBranch, newBranch);
    }

    /** The transactions of the dropped blocks. */
    method CollectDropped(oldBranch: seq<Header>, ghost chain: seq<Hash>, ghost fork: nat)
        returns (deletedTxs: seq<Hash>)
      requires IsPath(headers, chain) && IsBranch(headers, oldBranch, chain, fork)
      ensures forall tx :: tx in deletedTxs <==> tx in RangeEntries(bodies, chain, fork + 1, |chain|)
    {
      deletedTxs := [];
      for i := 0 to |oldBranch|
        invariant forall tx :: tx in deletedTxs <==> tx in RangeEntries(bodies, chain, |chain| - i, |chain|)
      {
        assert BranchAt(headers, oldBranch[i], chain, i);
        RangeDown(bodies, chain, |chain| - 1 - i, |chain|);
        deletedTxs := deletedTxs + TxsOf(bodies, oldBranch[i].hash);
      }
    }

    /** Applies the new blocks in forward order, all but the new head itself. */
    method ApplyNewBlocks(newBranch: seq<Header>, ghost chain: seq<Hash>, ghost fork: nat)
        returns (rebirthTxs: seq<Hash>)
      requires IsPath(headers, chain) && IsBranch(headers, newBranch, chain, fork)
      modifies this`canonical, this`lookup, this`markers
      ensures Indexes(canonical, lookup, rebirthTxs) ==
              ApplyRange(Indexes(old(canonical), old(lookup), []), bodies, chain, fork + 1, Applied(chain, fork))
    {
      rebirthTxs := [];
      ghost var start := Indexes(canonical, lookup, []);
      ghost var at := fork + 1;
      var blocks := if newBranch == [] then 1 else |newBranch|;
      for i := blocks downto 1
        invariant at == fork + 1 + blocks - i
        invariant Indexes(canonical, lookup, rebirthTxs) == ApplyRange(start, bodies, chain, fork + 1, at)
      {
        var header := newBranch[i];
        assert BranchAt(headers, header, chain, i);
        var block := Block(header, TxsOf(bodies, header.hash));
        ghost var before := Indexes(canonical, lookup, rebirthTxs);
        rebirthTxs := rebirthTxs + block.txs;
        WriteHeadBlock(block);
        assert Indexes(canonical, lookup, rebirthTxs) == ApplyOne(before, block.txs, chain[at], at);
        at := at + 1;
      }
    }

    /** Deletes the canonical markers above `number` up to the first gap. The reads see the database
        as it was before the batch is written. */
    method DeleteAbove(number: nat) returns (ghost stop: nat)
      requires forall n :: n in canonical ==> canonical[n] != ZERO_HASH
      modifies this`canonical
      ensures stop > number && stop !in old(canonical)
      ensures forall n :: n in canonical <==> n in old(canonical) && !(number < n < stop)
      ensures forall n :: n in canonical ==> canonical[n] == old(canonical)[n]
    {
      var batch: set<nat> := {};
      var i := number + 1;
      while true
        invariant i > number && canonical == old(canonical)
        invariant forall n :: n in batch <==> number < n < i
        invariant batch <= canonical.Keys
        decreases |canonical.Keys - batch|
      {
        var hash := if i in canonical then canonical[i] else ZERO_HASH;
        if hash == ZERO_HASH {
          break;
        }
        assert i in canonical.Keys - batch;
        SubsetSize(canonical.Keys - (batch + {i}), canonical.Keys - batch);
        batch := batch + {i};
        i := i + 1;
      }
      canonical := canonical - batch;
      stop := i;
    }

    /** Deletes the lookup entries of the transactions that were only in the dropped branch. */
    method DropStale(deletedTxs: seq<Hash>, rebirthTxs: seq<Hash>, ghost dropped: set<Hash>, ghost added: set<Hash>)
      requires forall tx :: tx in deletedTxs <==> tx in dropped
      requires forall tx :: tx in rebirthTxs <==> tx in added
      modifies this`lookup
      ensures lookup == old(lookup) - (dropped - added)
    {
      var stale := HashDifference(deletedTxs, rebirthTxs);
      lookup := lookup - (set tx | tx in stale);
    }

    /** The transactions of both branches are moved first, with their canonical markers. */
    method SwitchLookup(oldBranch: seq<Header>, newBranch: seq<Header>,
                        ghost a: seq<Hash>, ghost b: seq<Hash>, ghost fork: nat)
      requires IsPath(headers, a) && IsPath(headers, b)
      requires IsBranch(headers, oldBranch, a, fork) && IsBranch(headers, newBranch, b, fork)
      requires a[..fork + 1] == b[..fork + 1]
      modifies this`canonical, this`lookup, this`markers
      ensures canonical == old(canonical) + SegmentIndex(b, fork + 1, Applied(b, fork))
      ensures LookupMoved(bodies, a, b, Applied(b, fork), old(lookup), lookup)
    {
      ghost var top := Applied(b, fork);
      var deletedTxs := CollectDropped(oldBranch, a, fork);
      ghost var start := Indexes(canonical, lookup, []);
      var rebirthTxs := ApplyNewBlocks(newBranch, b, fork);
      ApplyRangeWrites(start, bodies, b, fork + 1, top);
      DropStale(deletedTxs, rebirthTxs, RangeEntries(bodies, a, fork + 1, |a|).Keys,
                RangeEntries(bodies, b, fork + 1, top).Keys);
      if TxOnce(bodies, a) {
        LookupAfterReorg(bodies, a, b, fork + 1, top);
      }
    }

    /** Moves the indexes from the old branch to the new one. */
    method SwitchBranches(oldBranch: seq<Header>, newBranch: seq<Header>, common: Header,
                          ghost a: seq<Hash>, ghost b: seq<Hash>, ghost top: nat)
      requires IsPath(headers, a) && IsPath(headers, b)
      requires IsBranch(headers, oldBranch, a, common.number) && IsBranch(headers, newBranch, b, common.number)
      requires a[..common.number + 1] == b[..common.number + 1]
      requires canonical == IndexOf(a) && top == Applied(b, common.number)
      modifies this`canonical, this`lookup, this`markers
      ensures canonical == IndexOf(b[..top])
      ensures LookupMoved(bodies, a, b, top, old(lookup), lookup)
    {
      SwitchLookup(oldBranch, newBranch, a, b, common.number);
      var number := if |newBranch| > 1 then newBranch[1].number else common.number;
      LastApplied(headers, newBranch, b, common.number);
      ghost var applied := canonical;
      ghost var stop := DeleteAbove(number);
      CanonicalAfterReorg(a, b, common.number, top, applied, canonical, stop);
    }

    /** The same from the chains of two heads. */
    method SwitchHeads(oldHead: Header, newHead: Header, oldBranch: seq<Header>, newBranch: seq<Header>, common: Header,
                       ghost top: nat)
      requires Stored() && Rooted(headers, genesis, oldHead.hash) && Rooted(headers, genesis, newHead.hash)
      requires canonical == IndexOf(ChainOf(headers, genesis, oldHead.hash)) && headers[newHead.hash] == newHead
      requires Forks(headers, genesis, oldHead, newHead, oldBranch, newBranch, common)
      requires top == if newHead.number in canonical && canonical[newHead.number] == newHead.hash
                      then newHead.number + 1 else newHead.number
      modifies this`canonical, this`lookup, this`markers
      ensures top <= |ChainOf(headers, genesis, newHead.hash)|
      ensures canonical == IndexOf(ChainOf(headers, genesis, newHead.hash)[..top])
      ensures LookupMoved(bodies, ChainOf(headers, genesis, oldHead.hash), ChainOf(headers, genesis, newHead.hash),
                          top, old(lookup), lookup)
    {
      ForkPosition(headers, genesis, oldHead, newHead, oldBranch, newBranch, common);
      ChainIsPath(headers, genesis, oldHead.hash);
      ChainIsPath(headers, genesis, newHead.hash);
      SwitchBranches(oldBranch, newBranch, common,
                     ChainOf(headers, genesis, oldHead.hash), ChainOf(headers, genesis, newHead.hash), top);
    }

    /** Switches the indexes from the old branch to the new one; the new head itself is left to the
        caller, unless it was already an ancestor of the old one. Without a path from the new head
        to the genesis nothing changes. */
    method Reorg(oldHead: Header, newHead: Header) returns (err: Option<Error>, ghost top: nat)
      requires Stored()
      requires Rooted(headers, genesis, oldHead.hash) && headers[oldHead.hash] == oldHead
      requires canonical == IndexOf(ChainOf(headers, genesis, oldHead.hash))
      requires newHead.hash in headers && headers[newHead.hash] == newHead
      modifies this`canonical, this`lookup, this`markers
      ensures err == if Rooted(headers, genesis, newHead.hash) then None else Some(InvalidNewChain)
      ensures err.Some? ==> unchanged(this)
      ensures top == if newHead.number in old(canonical) && old(canonical)[newHead.number] == newHead.hash
                     then newHead.number + 1 else newHead.number
      ensures err.None? ==> canonical == IndexOf(ChainOf(headers, genesis, newHead.hash)[..top])
      ensures err.None? ==> LookupMoved(bodies, ChainOf(headers, genesis, oldHead.hash),
                                        ChainOf(headers, genesis, newHead.hash), top, old(lookup), lookup)
    {
      top := if newHead.number in canonical && canonical[newHead.number] == newHead.hash
             then newHead.number + 1 else newHead.number;
      var oldBranch, newBranch, common;
      err, oldBranch, newBranch, common := FindBranches(oldHead, newHead);
      if err.None? {
        SwitchHeads(oldHead, newHead, oldBranch, newBranch, common, top);
      }
    }

    ghost predicate Holds(block: Block)
      requires Stored()
      reads this
    {
      var h := block.header.hash;
      h in headers && headers[h] == block.header && TxsOf(bodies, h) == block.txs
    }

    /** Writes a head whose ancestors are indexed. */
    method InstallHead(block: Block, ghost top: nat)
      requires Stored() && Holds(block) && Rooted(headers, genesis, block.header.hash)
      requires top == block.header.number || top == block.header.number + 1
      requires canonical == IndexOf(ChainOf(headers, genesis, block.header.hash)[..top])
      modifies this`canonical, this`lookup, this`markers
      ensures Valid() && markers.currentBlock == block.header
      ensures old(lookup) == RangeEntries(bodies, ChainOf(headers, genesis, block.header.hash), 0, top) ==>
                LookupExact(block.header.hash)
    {
      NewHeadIndexes(bodies, ChainOf(headers, genesis, block.header.hash), top);
      WriteHeadBlock(block);
    }

    /** The indexes of the head are those of its child without the child. */
    lemma ChildOfHead(child: Header)
      requires Valid() && child.hash in headers && headers[child.hash] == child
      requires child.parentHash == markers.currentBlock.hash
      ensures Rooted(headers, genesis, child.hash)
      ensures var chain := ChainOf(headers, genesis, child.hash);
              && canonical == IndexOf(chain[..child.number])
              && (LookupExact(markers.currentBlock.hash) ==> lookup == RangeEntries(bodies, chain, 0, child.number))
    {
      ParentOnChain(headers, genesis, child.hash);
      RangeLocal(bodies, ChainOf(headers, genesis, child.parentHash), ChainOf(headers, genesis, child.hash), 0,
                 child.number);
    }

    /** Makes a stored block the head, whether it extends the head, is on another branch or is an
        ancestor of the head. */
    method WriteKnownBlock(block: Block) returns (err: Option<Error>)
      requires Valid() && Holds(block)
      modifies this`canonical, this`lookup, this`markers
      ensures Valid()
      ensures err == if Rooted(headers, genesis, block.header.hash) then None else Some(InvalidNewChain)
      ensures err.Some? ==> unchanged(this)
      ensures err.None? ==> markers.currentBlock == block.header
      ensures err.None? && old(LookupExact(markers.currentBlock.hash) && HeadTxOnce()) ==>
                LookupExact(markers.currentBlock.hash)
    {
      err := None;
      ghost var top := block.header.number;
      if block.header.parentHash != markers.currentBlock.hash {
        err, top := Reorg(markers.currentBlock, block.header);
        if err.Some? {
          return;
        }
      } else {
        ChildOfHead(block.header);
      }
      InstallHead(block, top);
    }

    /** Storing a block changes neither the head's chain nor its indexes. */
    twostate lemma StoreKeepsIndexes(new block: Block)
      requires old(Valid())
      requires headers == old(headers)[block.header.hash := block.header] && Linked(headers, genesis)
      requires bodies == old(bodies)[block.header.hash := block.txs] && bodies.Keys == headers.Keys
      requires block.header.hash in old(headers) ==> old(Holds(block))
      requires canonical == old(canonical) && lookup == old(lookup) && markers == old(markers)
      ensures Valid()
      ensures old(LookupExact(markers.currentBlock.hash)) ==> LookupExact(markers.currentBlock.hash)
      ensures old(HeadTxOnce()) ==> HeadTxOnce()
    {
      StoreKeepsChain(old(headers), headers, old(bodies), bodies, genesis, markers.currentBlock.hash);
    }

    /** Stores a block and makes it the head; a block without a stored parent of the number before is
        refused. Hashes are assumed not to collide. */
    method WriteBlockAndSetHead(block: Block) returns (err: Option<Error>)
      requires Valid() && OwnHash(headers, block.header)
      requires block.header.hash in headers ==> Holds(block)
      modifies this
      ensures Valid()
      ensures old(GetHeader(headers, block.header.parentHash, block.header.number - 1)).None? ==>
                err == Some(UnknownAncestor) && unchanged(this)
      ensures old(GetHeader(headers, block.header.parentHash, block.header.number - 1)).Some? ==>
                && headers == old(headers)[block.header.hash := block.header]
                && bodies == old(bodies)[block.header.hash := block.txs]
                && err == (if Rooted(headers, genesis, block.header.hash) then None else Some(InvalidNewChain))
                && markers.currentBlock == (if err.None? then block.header else old(markers.currentBlock))
      ensures old(LookupExact(markers.currentBlock.hash) && HeadTxOnce()) ==> LookupExact(markers.currentBlock.hash)
    {
      if GetHeader(headers, block.header.parentHash, block.header.number - 1).None? {
        return Some(UnknownAncestor);
      }
      ExtendLinked(headers, genesis, block.header);
      headers := headers[block.header.hash := block.header];
      bodies := bodies[block.header.hash := block.txs];
      StoreKeepsIndexes(block);
      err := WriteKnownBlock(block);
    }
  }
}
