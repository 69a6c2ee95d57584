/** The header chain: `Reorg`, `writeHeadersAndSetHead` and `setHead` edit the canonical index
    through a batch that is written at the end, so that every read inside them sees the database
    as it was. The index is proved to stay exactly the ancestor chain of the current header. */
module HeaderChain {
  import opened Common
  import opened BlockTree

  datatype Error = MissingParent | Aborted | UnknownAncestor

  /** Pending edits of the canonical index: a later edit of a number replaces an earlier one. */
  type Batch = map<nat, Option<Hash>>

  /** The index after the batch is written. */
  function WriteBatch(canonical: map<nat, Hash>, batch: Batch): (written: map<nat, Hash>)
    ensures forall n :: n in written <==> if n in batch then batch[n].Some? else n in canonical
    ensures forall n :: n in written ==> written[n] == if n in batch then batch[n].value else canonical[n]
  {
    map n | n in canonical.Keys + batch.Keys && (n in batch ==> batch[n].Some?) ::
      if n in batch then batch[n].value else canonical[n]
  }

  function ReadCanonical(canonical: map<nat, Hash>, number: nat): Hash
  {
    if number in canonical then canonical[number] else ZERO_HASH
  }

  // ----- What a reorg batch holds

  /** Every pending edit agrees with `chain`: what it keeps is an entry of the chain and what it
      deletes is above the chain. */
  ghost predicate Agrees(batch: Batch, chain: seq<Hash>)
  {
    forall n :: n in batch ==> batch[n] == if n < |chain| then Some(chain[n]) else None
  }

  /** A batch that agrees with the new chain, covers everything above the fork and clears everything
      above the new chain turns the old index into the new one. */
  lemma BatchSwitchesChains(oldChain: seq<Hash>, newChain: seq<Hash>, fork: nat, batch: Batch)
    requires fork < |oldChain| && fork < |newChain|
    requires forall n :: 0 <= n <= fork ==> oldChain[n] == newChain[n]
    requires Agrees(batch, newChain)
    requires forall n :: fork < n < |newChain| ==> n in batch
    requires forall n :: |newChain| <= n < |oldChain| ==> n in batch
    ensures WriteBatch(IndexOf(oldChain), batch) == IndexOf(newChain)
  {
  }

  /** A walk over parents from `first` has come to `header`, with an edit for every number it left, all
      of them right if `first` is rooted. */
  ghost predicate Overwrites(headers: Headers, genesis: Hash, first: Header, header: Header, newChain: seq<Hash>,
                             pending: Batch, batch: Batch)
    requires Linked(headers, genesis)
  {
    && header.hash in headers && headers[header.hash] == header && header.number <= first.number
    && (Rooted(headers, genesis, first.hash) <==> Rooted(headers, genesis, header.hash))
    && (Rooted(headers, genesis, first.hash) ==>
          header.number < |newChain| && newChain[header.number] == header.hash && Agrees(batch, newChain))
    && (forall n :: header.number < n <= first.number ==> n in batch)
    && (forall n :: n in pending ==> n in batch)
  }

  lemma OverwriteOne(headers: Headers, genesis: Hash, first: Header, header: Header, newChain: seq<Hash>,
                     pending: Batch, batch: Batch)
    requires Linked(headers, genesis) && Overwrites(headers, genesis, first, header, newChain, pending, batch)
    requires header.number > 0 && first.hash in headers && headers[first.hash] == first
    requires Rooted(headers, genesis, first.hash) ==>
               first.number < |newChain| && newChain[..first.number + 1] == ChainOf(headers, genesis, first.hash)
    ensures var parent := GetHeader(headers, header.parentHash, header.number - 1);
            if parent.None? then !Rooted(headers, genesis, first.hash)
            else Overwrites(headers, genesis, first, parent.value, newChain, pending,
                            batch[header.number := Some(header.hash)])
  {
    if Rooted(headers, genesis, first.hash) {
      PrefixOfChain(headers, genesis, first.hash, header.number);
      ParentOnChain(headers, genesis, header.hash);
      assert newChain[header.number - 1] == newChain[..first.number + 1][header.number - 1];
      assert newChain[header.number] == newChain[..first.number + 1][header.number];
    }
  }

  /** A list of headers, each the parent of the next. */
  ghost predicate Contiguous(list: seq<Header>)
  {
    forall i {:trigger list[i + 1]} :: 0 <= i < |list| - 1 ==>
      list[i + 1].parentHash == list[i].hash && list[i + 1].number == list[i].number + 1
  }

  lemma ContiguousAt(list: seq<Header>, i: nat)
    requires Contiguous(list) && 0 < i < |list|
    ensures list[i].parentHash == list[i - 1].hash && list[i].number == list[i - 1].number + 1
  {
    var j := i - 1;
    assert list[j + 1] == list[i];
  }

  ghost predicate AllStored(headers: Headers, list: seq<Header>)
  {
    forall i :: 0 <= i < |list| ==> list[i].hash in headers && headers[list[i].hash] == list[i]
  }

  /** The headers of a stored contiguous list are on the chains of the later ones. */
  lemma {:induction false} ListOnChain(headers: Headers, genesis: Hash, list: seq<Header>, i: nat, j: nat)
    requires Linked(headers, genesis) && Contiguous(list) && AllStored(headers, list) && j <= i < |list|
    requires Rooted(headers, genesis, list[0].hash)
    ensures list[i].number == list[0].number + i
    ensures Rooted(headers, genesis, list[i].hash)
    ensures ChainOf(headers, genesis, list[i].hash)[list[0].number + j] == list[j].hash
    decreases i
  {
    if i > 0 {
      var k := i - 1;
      ListOnChain(headers, genesis, list, k, if j < i then j else k);
      assert list[k + 1].parentHash == list[k].hash;
    }
  }

  lemma {:induction false} ListPositions(headers: Headers, genesis: Hash, list: seq<Header>)
    requires Linked(headers, genesis) && list != [] && Contiguous(list) && AllStored(headers, list)
    requires Rooted(headers, genesis, list[0].hash)
    ensures Rooted(headers, genesis, list[|list| - 1].hash)
    ensures |ChainOf(headers, genesis, list[|list| - 1].hash)| == list[0].number + |list|
    ensures forall i {:trigger list[i]} :: 0 <= i < |list| ==>
              list[i].number == list[0].number + i &&
              ChainOf(headers, genesis, list[|list| - 1].hash)[list[0].number + i] == list[i].hash
  {
    ListOnChain(headers, genesis, list, |list| - 1, 0);
    forall i {:trigger list[i]} | 0 <= i < |list|
      ensures list[i].number == list[0].number + i &&
              ChainOf(headers, genesis, list[|list| - 1].hash)[list[0].number + i] == list[i].hash
    {
      ListOnChain(headers, genesis, list, i, 0);
      ListOnChain(headers, genesis, list, |list| - 1, i);
    }
  }

  // ----- Storing a list of headers

  ghost predicate NoCollision(headers: Headers, list: seq<Header>)
  {
    && (forall i :: 0 <= i < |list| ==> list[i].hash in headers ==> headers[list[i].hash] == list[i])
    && (forall i, j :: 0 <= i < |list| && 0 <= j < |list| && list[i].hash == list[j].hash ==> list[i] == list[j])
  }

  ghost function StoreAll(headers: Headers, list: seq<Header>): (stored: Headers)
  {
    if list == [] then headers
    else
      var last := list[|list| - 1];
      StoreAll(headers, list[..|list| - 1])[last.hash := last]
  }

  /** A chain through a child of `head` agrees with the chain of `head`. */
  lemma ExtensionAgrees(headers: Headers, genesis: Hash, head: Header, child: Header, last: Hash)
    requires Linked(headers, genesis) && Rooted(headers, genesis, head.hash) && headers[head.hash] == head
    requires Rooted(headers, genesis, child.hash) && headers[child.hash] == child && child.parentHash == head.hash
    requires child.number == head.number + 1 && Rooted(headers, genesis, last)
    requires var new_ := ChainOf(headers, genesis, last);
             child.number < |new_| && new_[..child.number + 1] == ChainOf(headers, genesis, child.hash)
    ensures var old_, new_ := ChainOf(headers, genesis, head.hash), ChainOf(headers, genesis, last);
            |old_| == head.number + 1 < |new_| && forall n :: 0 <= n <= head.number ==> old_[n] == new_[n]
  {
    var old_, new_ := ChainOf(headers, genesis, head.hash), ChainOf(headers, genesis, last);
    assert ChainOf(headers, genesis, child.hash) == old_ + [child.hash];
    forall n | 0 <= n <= head.number ensures old_[n] == new_[n] {
      assert new_[n] == new_[..child.number + 1][n];
    }
  }

  /** Every header of the list has its own hash, in the store and in the list. */
  ghost predicate OwnHashes(headers: Headers, list: seq<Header>)
  {
    NoCollision(headers, list) && forall i :: 0 <= i < |list| ==> OwnHash(headers, list[i])
  }

  /** What is stored came from the store or from the list. */
  lemma {:induction false} StoreAllFrom(headers: Headers, list: seq<Header>, h: Hash)
    requires h in StoreAll(headers, list)
    ensures (h in headers && StoreAll(headers, list)[h] == headers[h])
            || exists i :: 0 <= i < |list| && list[i].hash == h && StoreAll(headers, list)[h] == list[i]
    decreases |list|
  {
    if list != [] && list[|list| - 1].hash != h {
      StoreAllFrom(headers, list[..|list| - 1], h);
    }
  }

  /** The headers that name a header of the list as their parent have the next number, also among
      those stored before it. */
  lemma ChildrenFollow(headers: Headers, list: seq<Header>, k: nat, c: Hash)
    requires Contiguous(list) && OwnHashes(headers, list) && k < |list|
    requires GetHeader(headers, list[0].parentHash, list[0].number - 1).Some?
    requires var stored := StoreAll(headers, list[..k]); c in stored && stored[c].parentHash == list[k].hash
    ensures StoreAll(headers, list[..k])[c].number == list[k].number + 1
  {
    StoreAllFrom(headers, list[..k], c);
    var child := StoreAll(headers, list[..k])[c];
    if !(c in headers && child == headers[c]) {
      var i :| 0 <= i < k && child == list[i];
      if i > 0 {
        ContiguousAt(list, i);
      }
    }
  }

  /** A contiguous list whose first parent is stored keeps the store linked. */
  lemma {:induction false} StoreAllLinked(headers: Headers, genesis: Hash, list: seq<Header>, k: nat)
    requires Linked(headers, genesis) && Contiguous(list) && OwnHashes(headers, list) && k <= |list|
    requires k > 0 ==> GetHeader(headers, list[0].parentHash, list[0].number - 1).Some?
    ensures Linked(StoreAll(headers, list[..k]), genesis)
  {
    if k > 0 {
      var before, last := list[..k - 1], list[k - 1];
      StoreAllLinked(headers, genesis, list, k - 1);
      assert list[..k][..k - 1] == before;
      var stored := StoreAll(headers, before);
      forall c | c in stored && stored[c].parentHash == last.hash ensures stored[c].number == last.number + 1 {
        ChildrenFollow(headers, list, k - 1, c);
      }
      NextHasParent(headers, list, k - 1);
      ExtendLinked(stored, genesis, last);
    }
  }

  lemma NextHasParent(headers: Headers, list: seq<Header>, k: nat)
    requires Contiguous(list) && OwnHashes(headers, list) && k < |list|
    requires GetHeader(headers, list[0].parentHash, list[0].number - 1).Some?
    ensures var stored := StoreAll(headers, list[..k]);
            && GetHeader(stored, list[k].parentHash, list[k].number - 1).Some?
            && (list[k].hash in stored ==> stored[list[k].hash] == list[k])
  {
    var before := list[..k];
    StoreAllHolds(headers, before, list[k].parentHash);
    if k > 0 {
      ContiguousAt(list, k);
      assert before[k - 1] == list[k - 1];
    }
    if list[k].hash in StoreAll(headers, before) {
      StoreAllFrom(headers, before, list[k].hash);
    }
  }

  lemma {:induction false} StoreAllHolds(headers: Headers, list: seq<Header>, h: Hash)
    requires NoCollision(headers, list)
    ensures h in headers ==> h in StoreAll(headers, list) && StoreAll(headers, list)[h] == headers[h]
    ensures forall i :: 0 <= i < |list| && list[i].hash == h ==>
              h in StoreAll(headers, list) && StoreAll(headers, list)[h] == list[i]
    decreases |list|
  {
    if list != [] {
      StoreAllHolds(headers, list[..|list| - 1], h);
    }
  }

  // ----- Rewind targets

  /** The header meets the target: a time if one is given, else a number. */
  predicate Done(header: Header, headBlock: nat, headTime: nat)
  {
    if headTime > 0 then header.time <= headTime else header.number <= headBlock
  }

  /** `header` is the ancestor of its number on a path of stored headers. */
  ghost predicate OnChain(headers: Headers, chain: seq<Hash>, header: Header)
  {
    && header.number < |chain| && chain[header.number] == header.hash
    && header.hash in headers && headers[header.hash] == header
  }

  /** What the callback answers for a header: the one it moved the block markers to, and whether the
      rewind must go on to that one. */
  type Callback = Header -> (Header, bool)

  /** A rewind target: a time if that is positive, else a number. */
  datatype Target = Target(block: nat, time: nat)

  /** A forced answer replaces the target only if it is below it; a time target then is given up. */
  function Retarget(t: Target, answer: (Header, bool)): Target
  {
    if answer.1 && ((t.time > 0 && answer.0.time < t.time) || (t.time == 0 && answer.0.number < t.block))
    then Target(answer.0.number, 0) else t
  }

  /** The target in force at the ancestor of number `n`: the given one, as changed by the answers for
      the ancestors from below the head down to `n`. */
  ghost function TargetAt(headers: Headers, chain: seq<Hash>, update: Callback, given: Target, n: nat): Target
    requires IsPath(headers, chain) && n < |chain|
    decreases |chain| - n
  {
    if n == |chain| - 1 then given
    else Retarget(TargetAt(headers, chain, update, given, n + 1), update(headers[chain[n]]))
  }

  ghost predicate Meets(headers: Headers, chain: seq<Hash>, update: Callback, given: Target, n: nat)
    requires IsPath(headers, chain) && n < |chain|
  {
    var t := TargetAt(headers, chain, update, given, n);
    Done(headers[chain[n]], t.block, t.time)
  }

  /** `at` is the highest ancestor that meets the target in force there. */
  ghost predicate StopsAt(headers: Headers, chain: seq<Hash>, update: Callback, given: Target, at: nat)
    requires IsPath(headers, chain)
  {
    && at < |chain| && Meets(headers, chain, update, given, at)
    && Missed(headers, chain, update, given, at)
  }

  ghost predicate Missed(headers: Headers, chain: seq<Hash>, update: Callback, given: Target, at: nat)
    requires IsPath(headers, chain)
  {
    forall n :: at < n < |chain| ==> !Meets(headers, chain, update, given, n)
  }

  /** A rewind that has come down to `header`: `t` is in force and nothing above met its target. */
  ghost predicate Pursues(headers: Headers, chain: seq<Hash>, update: Callback, given: Target, header: Header,
                          t: Target)
  {
    && IsPath(headers, chain) && OnChain(headers, chain, header)
    && t == TargetAt(headers, chain, update, given, header.number)
    && Missed(headers, chain, update, given, header.number)
  }

  /** A rewind that has not met its target has a stored parent to go on to. */
  lemma RewindStep(headers: Headers, genesis: Header, chain: seq<Hash>, update: Callback, given: Target, header: Header,
                   t: Target)
    requires Linked(headers, genesis.hash) && headers[genesis.hash] == genesis && chain != []
    requires Rooted(headers, genesis.hash, chain[|chain| - 1])
    requires chain == ChainOf(headers, genesis.hash, chain[|chain| - 1])
    requires Pursues(headers, chain, update, given, header, t) && !Done(header, t.block, t.time)
    requires t.time > 0 ==> genesis.time <= t.time
    ensures header.number > 0
    ensures var found := GetHeader(headers, header.parentHash, header.number - 1);
            found.Some? && Pursues(headers, chain, update, given, found.value, Retarget(t, update(found.value)))
  {
    ParentBelow(headers, genesis.hash, chain, header);
    var found := GetHeader(headers, header.parentHash, header.number - 1);
    PursuesOn(headers, chain, update, given, header, t, found.value);
  }

  lemma PursuesOn(headers: Headers, chain: seq<Hash>, update: Callback, given: Target, header: Header, t: Target,
                  parent: Header)
    requires Pursues(headers, chain, update, given, header, t) && !Done(header, t.block, t.time)
    requires OnChain(headers, chain, parent) && parent.number == header.number - 1
    ensures Pursues(headers, chain, update, given, parent, Retarget(t, update(parent)))
  {
  }

  /** The target only falls: a block target stays one and never rises, and a time target stays as it
      is until the callback forces a header of an earlier time. */
  lemma {:induction false} TargetFalls(headers: Headers, chain: seq<Hash>, update: Callback, given: Target, n: nat)
    requires IsPath(headers, chain) && n < |chain|
    ensures var t := TargetAt(headers, chain, update, given, n);
            && (given.time == 0 ==> t.time == 0 && t.block <= given.block)
            && (t == given ||
                (t.time == 0 && exists m :: n <= m < |chain| - 1 && ForcedAt(headers, chain, update, m, t.block)))
            && (given.time > 0 ==>
                  t == given ||
                  exists m :: n <= m < |chain| - 1 && ForcedEarlier(headers, chain, update, m, given.time, t.block))
    decreases |chain| - n
  {
    if n < |chain| - 1 {
      TargetFalls(headers, chain, update, given, n + 1);
      var before, answer := TargetAt(headers, chain, update, given, n + 1), update(headers[chain[n]]);
      if Retarget(before, answer) != before {
        assert ForcedAt(headers, chain, update, n, answer.0.number);
        if given.time > 0 && before == given {
          assert ForcedEarlier(headers, chain, update, n, given.time, answer.0.number);
        } else if given.time > 0 {
          var m :| n + 1 <= m < |chain| - 1 && ForcedEarlier(headers, chain, update, m, given.time, before.block);
          assert ForcedEarlier(headers, chain, update, m, given.time, answer.0.number);
        }
      }
    }
  }

  /** At the ancestor of number `m` the callback forced the rewind to go on to number `block`. */
  ghost predicate ForcedAt(headers: Headers, chain: seq<Hash>, update: Callback, m: nat, block: nat)
  {
    m < |chain| && chain[m] in headers && update(headers[chain[m]]).1 && update(headers[chain[m]]).0.number == block
  }

  /** At the ancestor of number `m` the callback forced a header earlier than `time`, of number at least `block`. */
  ghost predicate ForcedEarlier(headers: Headers, chain: seq<Hash>, update: Callback, m: nat, time: nat, block: nat)
  {
    && m < |chain| && chain[m] in headers && update(headers[chain[m]]).1
    && update(headers[chain[m]]).0.time < time && block <= update(headers[chain[m]]).0.number
  }

  /** A callback that forces nothing leaves the given target in force. */
  lemma {:induction false} TargetUnforced(headers: Headers, chain: seq<Hash>, update: Callback, given: Target, n: nat)
    requires IsPath(headers, chain) && n < |chain| && forall p :: !update(p).1
    ensures TargetAt(headers, chain, update, given, n) == given
    decreases |chain| - n
  {
    if n < |chain| - 1 {
      TargetUnforced(headers, chain, update, given, n + 1);
    }
  }

  /** The rewind reaches what was asked for. A block target is met whatever the callback does. With a
      callback that forces nothing the head is the highest ancestor that meets the given target. A
      time target is met if times do not fall along the chain and the callback answers with ancestors. */
  lemma StopMeetsTarget(headers: Headers, chain: seq<Hash>, update: Callback, given: Target, at: nat)
    requires IsPath(headers, chain) && StopsAt(headers, chain, update, given, at)
    ensures given.time == 0 ==> at <= given.block
    ensures (forall p :: !update(p).1) ==>
              && Done(headers[chain[at]], given.block, given.time)
              && forall n :: at < n < |chain| ==> !Done(headers[chain[n]], given.block, given.time)
    ensures TimesRise(headers, chain) && AnswersAncestors(headers, chain, update) && given.time > 0 ==>
              headers[chain[at]].time <= given.time
  {
    TargetFalls(headers, chain, update, given, at);
    if forall p :: !update(p).1 {
      TargetUnforced(headers, chain, update, given, at);
      forall n | at < n < |chain| ensures !Done(headers[chain[n]], given.block, given.time) {
        TargetUnforced(headers, chain, update, given, n);
        assert !Meets(headers, chain, update, given, n);
      }
    }
  }

  /** Where the rewind stops, in numbers and times: in block mode at the highest ancestor that is not above
      the block in force there, in time mode at the highest that is not later than the time. */
  lemma StopIsExact(headers: Headers, chain: seq<Hash>, update: Callback, given: Target, at: nat)
    requires IsPath(headers, chain) && StopsAt(headers, chain, update, given, at)
    ensures Reached(headers[chain[at]], TargetAt(headers, chain, update, given, at))
    ensures forall n :: at < n < |chain| ==>
              !Reached(headers[chain[n]], TargetAt(headers, chain, update, given, n))
  {
    forall n | at < n < |chain| ensures !Reached(headers[chain[n]], TargetAt(headers, chain, update, given, n)) {
      assert !Meets(headers, chain, update, given, n);
    }
  }

  /** A header is late enough: by its time, or without a time by its number. */
  predicate Reached(header: Header, t: Target)
  {
    (t.time > 0 && header.time <= t.time) || (t.time == 0 && header.number <= t.block)
  }

  /** With nothing forced: a block target stops the rewind exactly there, or leaves a lower head alone; a
      time target stops it at the highest ancestor that is not later. */
  lemma UnforcedStop(headers: Headers, chain: seq<Hash>, update: Callback, given: Target, at: nat)
    requires IsPath(headers, chain) && StopsAt(headers, chain, update, given, at) && forall p :: !update(p).1
    ensures given.time == 0 ==> at == Min(given.block, |chain| - 1)
    ensures given.time > 0 ==>
              headers[chain[at]].time <= given.time
              && forall n :: at < n < |chain| ==> given.time < headers[chain[n]].time
  {
    StopMeetsTarget(headers, chain, update, given, at);
    if at + 1 < |chain| {
      assert !Done(headers[chain[at + 1]], given.block, given.time);
    }
  }

  /** Once in block mode, the target never rises again. */
  lemma {:induction false} BlockTargetFalls(headers: Headers, chain: seq<Hash>, update: Callback, given: Target,
                                            n: nat, m: nat)
    requires IsPath(headers, chain) && n <= m < |chain| && TargetAt(headers, chain, update, given, m).time == 0
    ensures var low, high := TargetAt(headers, chain, update, given, n), TargetAt(headers, chain, update, given, m);
            low.time == 0 && low.block <= high.block
    decreases m - n
  {
    if n < m {
      BlockTargetFalls(headers, chain, update, given, n + 1, m);
    }
  }

  /** A forced answer is followed: the rewind does not stop above a number that was forced on its way, in
      block mode always, in time mode if the forced header is earlier than the time. */
  lemma ForcedIsFollowed(headers: Headers, chain: seq<Hash>, update: Callback, given: Target, at: nat, n: nat)
    requires IsPath(headers, chain) && StopsAt(headers, chain, update, given, at)
    requires at <= n < |chain| - 1 && update(headers[chain[n]]).1
    requires given.time > 0 ==> update(headers[chain[n]]).0.time < given.time
    ensures at <= update(headers[chain[n]]).0.number
  {
    TargetFalls(headers, chain, update, given, n + 1);
    BlockTargetFalls(headers, chain, update, given, at, n);
    StopIsExact(headers, chain, update, given, at);
  }

  ghost predicate TimesRise(headers: Headers, chain: seq<Hash>)
    requires IsPath(headers, chain)
  {
    forall m, n :: 0 <= m <= n < |chain| ==> headers[chain[m]].time <= headers[chain[n]].time
  }

  ghost predicate AnswersAncestors(headers: Headers, chain: seq<Hash>, update: Callback)
  {
    forall p :: OnChain(headers, chain, update(p).0)
  }

  /** The pending deletions are exactly the numbers and headers above `at` and below the first
      number above the old head that has no header. */
  ghost predicate Pruning(headers: Headers, at: nat, top: nat, stop: nat, deleted: set<Hash>, numbers: set<nat>)
  {
    && stop > top && AllHashes(headers, stop) == {}
    && (forall n :: n in numbers <==> at < n < stop)
    && (forall h :: h in deleted <==> h in headers && at < headers[h].number < stop)
  }

  /** Where a rewind from number `top` stands with its deletions: nothing yet, or all above `at`. */
  ghost predicate Pending(headers: Headers, origin: bool, at: nat, top: nat, stop: nat, deleted: set<Hash>,
                          numbers: set<nat>)
  {
    if origin then at == top && deleted == {} && numbers == {}
    else at < top && Pruning(headers, at, top, stop, deleted, numbers)
  }

  /** Writing the deletions leaves a linked store whose index is the chain of the new head. */
  lemma PrunedIndex(headers: Headers, genesis: Hash, chain: seq<Hash>, head: Header, origin: bool,
                    stop: nat, deleted: set<Hash>, numbers: set<nat>)
    requires Linked(headers, genesis) && chain != [] && Rooted(headers, genesis, chain[|chain| - 1])
    requires chain == ChainOf(headers, genesis, chain[|chain| - 1]) && OnChain(headers, chain, head)
    requires if origin then head.number == |chain| - 1 && deleted == {} && numbers == {}
             else Pruning(headers, head.number, |chain| - 1, stop, deleted, numbers)
    ensures Linked(headers - deleted, genesis) && Rooted(headers - deleted, genesis, head.hash)
    ensures IndexOf(chain) - numbers == IndexOf(ChainOf(headers - deleted, genesis, head.hash))
  {
    PrefixOfChain(headers, genesis, chain[|chain| - 1], head.number);
    PruneKeepsChain(headers, headers - deleted, genesis, head.hash);
  }

  /** The stored parent of an ancestor is the next ancestor down. */
  lemma ParentBelow(headers: Headers, genesis: Hash, chain: seq<Hash>, header: Header)
    requires Linked(headers, genesis) && chain != [] && Rooted(headers, genesis, chain[|chain| - 1])
    requires chain == ChainOf(headers, genesis, chain[|chain| - 1]) && OnChain(headers, chain, header)
    requires header.number > 0
    ensures var found := GetHeader(headers, header.parentHash, header.number - 1);
            found.Some? && OnChain(headers, chain, found.value)
  {
    PrefixOfChain(headers, genesis, chain[|chain| - 1], header.number);
    ParentOnChain(headers, genesis, header.hash);
    assert chain[header.number - 1] == chain[..header.number + 1][header.number - 1];
  }

  function AllHashes(headers: Headers, number: nat): set<Hash>
  {
    set h | h in headers && headers[h].number == number
  }

  ghost function HeadersFrom(headers: Headers, number: nat): set<Hash>
  {
    set h | h in headers && headers[h].number >= number
  }

  lemma FewerAbove(headers: Headers, number: nat)
    requires AllHashes(headers, number) != {}
    ensures |HeadersFrom(headers, number + 1)| < |HeadersFrom(headers, number)|
  {
    var h :| h in AllHashes(headers, number);
    var rest := HeadersFrom(headers, number) - {h};
    assert HeadersFrom(headers, number + 1) <= rest;
    SubsetSize(HeadersFrom(headers, number + 1), rest);
  }

  /** Deleting headers above `h` leaves its chain. */
  lemma {:induction false} PruneKeepsChain(headers: Headers, less: Headers, genesis: Hash, h: Hash)
    requires Linked(headers, genesis) && Linked(less, genesis)
    requires Rooted(headers, genesis, h)
    requires forall k :: k in headers && headers[k].number <= headers[h].number ==> k in less && less[k] == headers[k]
    ensures Rooted(less, genesis, h)
    ensures ChainOf(less, genesis, h) == ChainOf(headers, genesis, h)
    decreases headers[h].number
  {
    if headers[h].number > 0 {
      PruneKeepsChain(headers, less, genesis, headers[h].parentHash);
    }
  }

  class Chain {
    var headers: Headers
    var canonical: map<nat, Hash>
    var headHeaderHash: Hash
    var currentHeader: Header
    var currentHeaderHash: Hash
    const genesis: Header

    /** A chain of the genesis header alone. */
    constructor (header: Header)
      requires header.hash != ZERO_HASH && header.parentHash == ZERO_HASH && header.number == 0
      ensures Valid() && currentHeader == genesis == header && headers == map[header.hash := header]
    {
      genesis := header;
      headers := map[header.hash := header];
      canonical := map[0 := header.hash];
      headHeaderHash := header.hash;
      currentHeader := header;
      currentHeaderHash := header.hash;
      new;
      assert Rooted(headers, genesis.hash, header.hash);
      assert ChainOf(headers, genesis.hash, header.hash) == [header.hash];
    }

    ghost predicate Stored()
      reads this
    {
      Linked(headers, genesis.hash) && headers[genesis.hash] == genesis
    }

    /** The canonical index is exactly the ancestor chain of the current header. */
    ghost predicate Valid()
      reads this
    {
      && Stored()
      && currentHeaderHash == headHeaderHash == currentHeader.hash
      && Rooted(headers, genesis.hash, currentHeaderHash) && headers[currentHeaderHash] == currentHeader
      && canonical == IndexOf(ChainOf(headers, genesis.hash, currentHeaderHash))
    }

    /** What the markers and the index say when they are read back: the index holds the current header's
        number and all below it and nothing above, and under every number the parent of the one above. */
    lemma ReadBack(n: nat)
      requires Valid()
      ensures headHeaderHash in headers && headers[headHeaderHash] == currentHeader
      ensures n in canonical <==> n <= currentHeader.number
      ensures canonical[0] == genesis.hash && canonical[currentHeader.number] == headHeaderHash
      ensures n in canonical ==> canonical[n] in headers && headers[canonical[n]].number == n
      ensures 0 < n && n in canonical ==> n - 1 in canonical && headers[canonical[n]].parentHash == canonical[n - 1]
    {
      var h := currentHeaderHash;
      ChainFollowsParents(headers, genesis.hash, h, if n <= headers[h].number then n else 0);
    }

    /** Schedules the deletion of every canonical number from `from` up to the first gap. */
    method DeleteFrom(from: nat, ghost chain: seq<Hash>) returns (batch: Batch)
      requires canonical == IndexOf(chain) && IsPath(headers, chain)
      ensures forall n :: n in batch <==> from <= n < |chain|
      ensures forall n :: n in batch ==> batch[n] == None
    {
      batch := map[];
      var i := from;
      while true
        invariant from <= i && (i <= |chain| || i == from)
        invariant forall n :: n in batch <==> from <= n < i
        invariant forall n :: n in batch ==> batch[n] == None
        decreases |chain| - i
      {
        if ReadCanonical(canonical, i) == ZERO_HASH {
          break;
        }
        batch := batch[i := None];
        i := i + 1;
      }
    }

    /** Overwrites stale canonical numbers from `first` downwards until the chains meet. */
    method OverwriteStale(first: Header, pending: Batch, ghost oldChain: seq<Hash>, ghost newChain: seq<Hash>)
        returns (err: Option<Error>, batch: Batch, ghost fork: nat)
      requires Stored() && canonical == IndexOf(oldChain)
      requires first.hash in headers && headers[first.hash] == first
      requires oldChain != [] && oldChain[0] == genesis.hash
      requires forall n :: 0 <= n < |oldChain| ==> Rooted(headers, genesis.hash, oldChain[n])
      requires Rooted(headers, genesis.hash, first.hash) ==>
                 first.number < |newChain| && newChain[..first.number + 1] == ChainOf(headers, genesis.hash, first.hash)
      requires Rooted(headers, genesis.hash, first.hash) ==> Agrees(pending, newChain)
      ensures err == if Rooted(headers, genesis.hash, first.hash) then None else Some(MissingParent)
      ensures err.None? ==>
                && fork <= first.number && fork < |oldChain| && oldChain[fork] == newChain[fork]
                && Agrees(batch, newChain)
                && (forall n :: fork < n <= first.number ==> n in batch)
                && (forall n :: n in pending ==> n in batch)
    {
      var header := first;
      batch := pending;
      while ReadCanonical(canonical, header.number) != header.hash
        invariant Overwrites(headers, genesis.hash, first, header, newChain, pending, batch)
        decreases header.number
      {
        // The genesis header is canonical, so the number is not 0 here.
        OverwriteOne(headers, genesis.hash, first, header, newChain, pending, batch);
        batch := batch[header.number := Some(header.hash)];
        var parent := GetHeader(headers, header.parentHash, header.number - 1);
        if parent.None? {
          return Some(MissingParent), batch, 0;
        }
        header := parent.value;
      }
      assert header.hash == oldChain[header.number];
      return None, batch, header.number;
    }

    /** The chain that the list leads to, if it has one. */
    ghost function NewChain(list: seq<Header>): (chain: seq<Hash>)
      requires Stored() && list != [] && Contiguous(list) && AllStored(headers, list)
      reads this
    {
      if Rooted(headers, genesis.hash, list[0].hash) then
        ListOnChain(headers, genesis.hash, list, |list| - 1, 0);
        ChainOf(headers, genesis.hash, list[|list| - 1].hash)
      else []
    }

    /** A batch that covers the numbers between the fork of two chains and the first header of the
        list, and clears those above the last one. */
    ghost predicate Plans(batch: Batch, fork: int, oldChain: seq<Hash>, newChain: seq<Hash>, first: nat)
    {
      && 0 <= fork < |oldChain| && fork < |newChain|
      && (forall n :: 0 <= n <= fork ==> oldChain[n] == newChain[n])
      && Agrees(batch, newChain)
      && (forall n :: fork < n < first ==> n in batch)
      && (forall n :: |newChain| <= n < |oldChain| ==> n in batch)
    }

    /** A list that extends the current header needs no edits but its own. */
    lemma ExtensionPlans(list: seq<Header>)
      requires Valid() && list != [] && Contiguous(list) && AllStored(headers, list)
      requires list[0].parentHash == currentHeaderHash
      ensures Rooted(headers, genesis.hash, list[0].hash)
      ensures Plans(map[], currentHeader.number,
                    ChainOf(headers, genesis.hash, currentHeaderHash), NewChain(list), list[0].number)
    {
      ParentOnChain(headers, genesis.hash, list[0].hash);
      FirstOnNewChain(list);
      ExtensionAgrees(headers, genesis.hash, currentHeader, list[0], list[|list| - 1].hash);
    }

    lemma FirstOnNewChain(list: seq<Header>)
      requires Stored() && list != [] && Contiguous(list) && AllStored(headers, list)
      requires Rooted(headers, genesis.hash, list[0].hash)
      ensures Rooted(headers, genesis.hash, list[|list| - 1].hash)
      ensures |NewChain(list)| == list[|list| - 1].number + 1 && list[0].number < |NewChain(list)|
      ensures NewChain(list)[..list[0].number + 1] == ChainOf(headers, genesis.hash, list[0].hash)
    {
      ListOnChain(headers, genesis.hash, list, |list| - 1, 0);
      PrefixOfChain(headers, genesis.hash, list[|list| - 1].hash, list[0].number);
    }

    lemma MeetingPlans(list: seq<Header>, batch: Batch, fork: nat)
      requires Valid() && list != [] && Contiguous(list) && AllStored(headers, list)
      requires Rooted(headers, genesis.hash, list[0].hash)
      requires var oldChain, newChain := ChainOf(headers, genesis.hash, currentHeaderHash), NewChain(list);
               && fork <= list[0].number && fork < |oldChain| && fork < |newChain| && oldChain[fork] == newChain[fork]
               && Agrees(batch, newChain)
               && (forall n :: fork < n <= list[0].number ==> n in batch)
               && (forall n :: |newChain| <= n < |oldChain| ==> n in batch)
      ensures Plans(batch, fork, ChainOf(headers, genesis.hash, currentHeaderHash), NewChain(list), list[0].number)
    {
      FirstOnNewChain(list);
      SharedPrefix(headers, genesis.hash, currentHeaderHash, list[|list| - 1].hash, fork);
    }

    /** The edits below the list and above its end; none if the list extends the current header. */
    method PlanStale(list: seq<Header>) returns (err: Option<Error>, batch: Batch, ghost fork: int)
      requires Valid() && list != [] && Contiguous(list) && AllStored(headers, list)
      ensures err == if Rooted(headers, genesis.hash, list[0].hash) then None else Some(MissingParent)
      ensures err.None? ==>
                Plans(batch, fork, ChainOf(headers, genesis.hash, currentHeaderHash), NewChain(list), list[0].number)
    {
      if list[0].parentHash == currentHeaderHash {
        ExtensionPlans(list);
        return None, map[], currentHeader.number;
      }
      ghost var oldChain, newChain := ChainOf(headers, genesis.hash, currentHeaderHash), NewChain(list);
      ChainIsPath(headers, genesis.hash, currentHeaderHash);
      AncestorsRooted(oldChain);
      batch := DeleteFrom(list[|list| - 1].number + 1, oldChain);
      if Rooted(headers, genesis.hash, list[0].hash) {
        FirstOnNewChain(list);
      }
      err, batch, fork := OverwriteStale(list[0], batch, oldChain, newChain);
      if err.None? {
        MeetingPlans(list, batch, fork);
      }
    }

    lemma AncestorsRooted(chain: seq<Hash>)
      requires Valid() && chain == ChainOf(headers, genesis.hash, currentHeaderHash)
      ensures chain[0] == genesis.hash
      ensures forall n :: 0 <= n < |chain| ==> Rooted(headers, genesis.hash, chain[n])
    {
      ChainIsPath(headers, genesis.hash, currentHeaderHash);
      forall n | 0 <= n < |chain|
        ensures Rooted(headers, genesis.hash, chain[n])
      {
        PrefixOfChain(headers, genesis.hash, currentHeaderHash, n);
      }
    }

    /** Adds the canonical numbers of the list itself. All but the last hash are read off the next
        header's parent hash. */
    method ExtendCanonical(list: seq<Header>, pending: Batch, ghost chain: seq<Hash>) returns (batch: Batch)
      requires list != [] && Contiguous(list) && Agrees(pending, chain)
      requires |chain| == list[0].number + |list|
      requires forall i {:trigger list[i]} :: 0 <= i < |list| ==>
                 list[i].number == list[0].number + i && chain[list[0].number + i] == list[i].hash
      ensures Agrees(batch, chain)
      ensures forall n :: n in pending ==> n in batch
      ensures forall n :: list[0].number <= n < |chain| ==> n in batch
    {
      batch := pending;
      for i := 0 to |list| - 1
        invariant Agrees(batch, chain)
        invariant forall n :: n in pending ==> n in batch
        invariant forall n :: list[0].number <= n < list[0].number + i ==> n in batch
      {
        assert chain[list[i].number] == list[i].hash;
        batch := batch[list[i].number := Some(list[i + 1].parentHash)];
      }
      var last := list[|list| - 1];
      batch := batch[last.number := Some(last.hash)];
    }

    /** The whole batch of a reorg: written over the index, it gives the chain of the last header. */
    method PlanReorg(list: seq<Header>) returns (err: Option<Error>, batch: Batch)
      requires Valid() && list != [] && Contiguous(list) && AllStored(headers, list)
      ensures err == if Rooted(headers, genesis.hash, list[0].hash) then None else Some(MissingParent)
      ensures err.None? ==> Rooted(headers, genesis.hash, list[|list| - 1].hash)
      ensures err.None? ==> WriteBatch(canonical, batch)
                            == IndexOf(ChainOf(headers, genesis.hash, list[|list| - 1].hash))
    {
      ghost var fork;
      err, batch, fork := PlanStale(list);
      if err.None? {
        ListPositions(headers, genesis.hash, list);
        batch := ExtendCanonical(list, batch, NewChain(list));
        BatchSwitchesChains(ChainOf(headers, genesis.hash, currentHeaderHash), NewChain(list), fork, batch);
      }
    }

    /** Makes the last header of the list the current header; on a missing ancestor nothing changes. */
    method Reorg(list: seq<Header>) returns (err: Option<Error>)
      requires Valid() && Contiguous(list) && AllStored(headers, list)
      modifies this`canonical, this`headHeaderHash, this`currentHeader, this`currentHeaderHash
      ensures Valid()
      ensures list == [] ==> err == None && unchanged(this)
      ensures list != [] ==> err == if Rooted(headers, genesis.hash, list[0].hash) then None else Some(MissingParent)
      ensures err.Some? ==> unchanged(this)
      ensures err.None? && list != [] ==> currentHeader == list[|list| - 1]
    {
      if list == [] {
        return None;
      }
      var batch;
      err, batch := PlanReorg(list);
      if err.Some? {
        return;
      }
      var last := list[|list| - 1];
      canonical := WriteBatch(canonical, batch);
      headHeaderHash := last.hash;
      currentHeaderHash := last.hash;
      currentHeader := last;
    }

    /** Stores the headers of a list whose first parent is stored. A header is skipped only while
        everything before it in the list was known too. An interrupt before the batch is written aborts. */
    method WriteHeaders(list: seq<Header>, interrupted: bool) returns (err: Option<Error>)
      requires NoCollision(headers, list)
      modifies this`headers
      ensures list == [] ==> err == None
      ensures list != [] ==>
                err == if GetHeader(old(headers), list[0].parentHash, list[0].number - 1).None?
                       then Some(UnknownAncestor)
                       else if interrupted then Some(Aborted) else None
      ensures headers == if err.None? then StoreAll(old(headers), list) else old(headers)
    {
      if list == [] {
        return None;
      }
      if GetHeader(headers, list[0].parentHash, list[0].number - 1).None? {
        return Some(UnknownAncestor);
      }
      var batch := headers;
      var parentKnown := true;
      for i := 0 to |list|
        invariant headers == old(headers)
        invariant batch == StoreAll(headers, list[..i])
      {
        var alreadyKnown := parentKnown && GetHeader(headers, list[i].hash, list[i].number).Some?;
        StoreAllHolds(headers, list[..i], list[i].hash);
        if !alreadyKnown {
          batch := batch[list[i].hash := list[i]];
        }
        parentKnown := alreadyKnown;
        assert list[..i + 1][..i] == list[..i];
      }
      assert list[..|list|] == list;
      if interrupted {
        return Some(Aborted);
      }
      headers := batch;
      err := None;
    }

    /** Stores a non-empty list of headers and makes its last one current, unless it is canonical
        already. */
    method WriteHeadersAndSetHead(list: seq<Header>, interrupted: bool) returns (err: Option<Error>)
      requires Valid() && list != [] && Contiguous(list)
      requires OwnHashes(headers, list)
      modifies this
      ensures Valid()
      ensures err == Some(UnknownAncestor) <==> GetHeader(old(headers), list[0].parentHash, list[0].number - 1).None?
      ensures err == Some(Aborted) <==>
                interrupted && GetHeader(old(headers), list[0].parentHash, list[0].number - 1).Some?
      ensures err == Some(UnknownAncestor) || err == Some(Aborted) ==> unchanged(this)
      ensures err.None? || err == Some(MissingParent) ==> headers == StoreAll(old(headers), list)
      ensures err == Some(MissingParent) ==> !Rooted(headers, genesis.hash, list[0].hash)
      ensures var last := list[|list| - 1];
              if err.None? && !(last.number in old(canonical) && old(canonical)[last.number] == last.hash)
              then currentHeader == last
              else currentHeader == old(currentHeader) && canonical == old(canonical)
    {
      err := WriteHeaders(list, interrupted);
      if err.Some? {
        return;
      }
      StoreAllLinked(old(headers), genesis.hash, list, |list|);
      assert list[..|list|] == list;
      StoreKeepsIndex(list);
      var last := list[|list| - 1];
      if ReadCanonical(canonical, last.number) == last.hash && last.number <= currentHeader.number {
        return;
      }
      forall i | 0 <= i < |list|
        ensures list[i].hash in headers && headers[list[i].hash] == list[i]
      {
        StoreAllHolds(old(headers), list, list[i].hash);
      }
      err := Reorg(list);
    }

    twostate lemma StoreKeepsIndex(list: seq<Header>)
      requires old(Valid()) && NoCollision(old(headers), list)
      requires headers == StoreAll(old(headers), list) && Linked(headers, genesis.hash)
      requires unchanged(`canonical) && unchanged(`headHeaderHash) && unchanged(`currentHeader)
               && unchanged(`currentHeaderHash)
      ensures Valid()
    {
      forall h | h in old(headers)
        ensures h in headers && headers[h] == old(headers)[h]
      {
        StoreAllHolds(old(headers), list, h);
      }
      ChainStable(old(headers), headers, genesis.hash, currentHeaderHash);
    }

    // ----- Rewinding

    /** The numbers directly above `number` that have headers, highest first; `stop` is the first
        that has none. */
    method LevelsAbove(number: nat) returns (nums: seq<nat>, ghost stop: nat)
      ensures stop > number && AllHashes(headers, stop) == {}
      ensures forall n :: n in nums <==> number < n < stop
    {
      nums := [];
      var n := number + 1;
      while AllHashes(headers, n) != {}
        invariant number < n
        invariant forall k :: k in nums <==> number < k < n
        decreases |HeadersFrom(headers, n)|
      {
        FewerAbove(headers, n);
        nums := [n] + nums;
        n := n + 1;
      }
      stop := n;
    }

    /** Schedules the deletion of all headers, side chains included, of the given numbers. */
    method DeleteLevels(nums: seq<nat>, pending: set<Hash>) returns (batch: set<Hash>)
      ensures forall h :: h in batch <==> h in pending || (h in headers && headers[h].number in nums)
    {
      batch := pending;
      for i := 0 to |nums|
        invariant forall h :: h in batch <==> h in pending || (h in headers && headers[h].number in nums[..i])
      {
        batch := batch + AllHashes(headers, nums[i]);
        assert nums[..i + 1] == nums[..i] + [nums[i]];
      }
      assert nums[..|nums|] == nums;
    }

    /** Schedules the deletion of one more number and, the first time, of leftovers above it. */
    method DeleteStep(num: nat, origin: bool, deleted: set<Hash>, numbers: set<nat>, ghost top: nat, ghost stop: nat)
        returns (deleted': set<Hash>, numbers': set<nat>, ghost stop': nat)
      requires num > 0 && Pending(headers, origin, num, top, stop, deleted, numbers)
      ensures Pending(headers, false, num - 1, top, stop', deleted', numbers')
    {
      var nums: seq<nat> := [];
      stop' := stop;
      if origin {
        nums, stop' := LevelsAbove(num);
      }
      nums := nums + [num];
      deleted' := DeleteLevels(nums, deleted);
      numbers' := numbers + (set n | n in nums);
    }

    /** The loop of `SetHead`: moves the head markers down and collects the pending deletions. The
        callback `update` is told the next header and answers with the header it moved the block
        markers to and whether the rewind must continue to that one. */
    method Rewind(block: nat, time: nat, update: Callback)
        returns (origin: bool, deleted: set<Hash>, numbers: set<nat>, ghost stop: nat)
      requires Valid() && (time > 0 ==> genesis.time <= time)
      modifies this`headHeaderHash, this`currentHeader, this`currentHeaderHash
      ensures currentHeaderHash == headHeaderHash == currentHeader.hash
      ensures var chain := ChainOf(headers, genesis.hash, old(currentHeaderHash));
              && OnChain(headers, chain, currentHeader) && IsPath(headers, chain)
              && StopsAt(headers, chain, update, Target(block, time), currentHeader.number)
      ensures origin ==> currentHeader == old(currentHeader)
      ensures Pending(headers, origin, currentHeader.number, old(currentHeader.number), stop, deleted, numbers)
    {
      ghost var chain, top := ChainOf(headers, genesis.hash, currentHeaderHash), currentHeader.number;
      ghost var given := Target(block, time);
      ChainIsPath(headers, genesis.hash, currentHeaderHash);
      var target := Target(block, time);
      origin := true;
      deleted, numbers := {}, {};
      stop := top + 1;
      while !Done(currentHeader, target.block, target.time)
        invariant Pursues(headers, chain, update, given, currentHeader, target)
        invariant currentHeaderHash == headHeaderHash == currentHeader.hash
        invariant target.time > 0 ==> target.time == time
        invariant origin ==> currentHeader == old(currentHeader)
        invariant Pending(headers, origin, currentHeader.number, top, stop, deleted, numbers)
        decreases currentHeader.number
      {
        RewindStep(headers, genesis, chain, update, given, currentHeader, target);
        var found := GetHeader(headers, currentHeader.parentHash, currentHeader.number - 1);
        var parent := if found.Some? then found.value else genesis;
        target := Retarget(target, update(parent));
        deleted, numbers, stop := DeleteStep(currentHeader.number, origin, deleted, numbers, top, stop);
        origin := false;
        headHeaderHash := parent.hash;
        currentHeader := parent;
        currentHeaderHash := parent.hash;
      }
    }

    /** Rewinds the current header to the highest ancestor that meets the target in force there, and
        deletes exactly the headers and canonical numbers above it. A block target is always met; a
        callback that forces nothing leaves the target as given. */
    method SetHead(block: nat, time: nat, update: Callback)
        returns (ghost deleted: set<Hash>, ghost numbers: set<nat>, ghost stop: nat)
      requires Valid() && (time > 0 ==> genesis.time <= time)
      modifies this
      ensures Valid()
      ensures var chain := ChainOf(old(headers), genesis.hash, old(currentHeaderHash));
              && OnChain(old(headers), chain, currentHeader) && IsPath(old(headers), chain)
              && StopsAt(old(headers), chain, update, Target(block, time), currentHeader.number)
      ensures time == 0 ==> currentHeader.number <= block
      ensures (forall p :: !update(p).1) && time == 0 ==> currentHeader.number == Min(block, old(currentHeader.number))
      ensures (forall p :: !update(p).1) && time > 0 ==> currentHeader.time <= time
      ensures headers == old(headers) - deleted && canonical == old(canonical) - numbers
      ensures if currentHeader == old(currentHeader) then deleted == {} && numbers == {}
              else Pruning(old(headers), currentHeader.number, old(currentHeader.number), stop, deleted, numbers)
    {
      ghost var chain := ChainOf(headers, genesis.hash, currentHeaderHash);
      var origin, batch, nums;
      origin, batch, nums, stop := Rewind(block, time, update);
      StopMeetsTarget(headers, chain, update, Target(block, time), currentHeader.number);
      if forall p :: !update(p).1 {
        UnforcedStop(headers, chain, update, Target(block, time), currentHeader.number);
      }
      PrunedIndex(headers, genesis.hash, chain, currentHeader, origin, stop, batch, nums);
      canonical := canonical - nums;
      headers := headers - batch;
      deleted, numbers := batch, nums;
    }
  }
}
