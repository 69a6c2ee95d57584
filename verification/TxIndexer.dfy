/** The transaction indexer: which blocks have their transactions indexed, and the stored tail. */
module TxIndexer {
  import opened Common

  /** The block numbers from `a` up to, but not including, `b`. */
  function Range(a: nat, b: nat): set<nat> {
    if b <= a then {} else Range(a, b - 1) + {b - 1}
  }

  lemma {:induction false} InRange(a: nat, b: nat, n: nat)
    ensures n in Range(a, b) <==> a <= n < b
  {
    if a < b {
      InRange(a, b - 1, n);
    }
  }

  lemma {:induction false} RangeSize(a: nat, b: nat)
    ensures |Range(a, b)| == if a <= b then b - a else 0
  {
    if a < b {
      RangeSize(a, b - 1);
      InRange(a, b - 1, b - 1);
    }
  }

  lemma RangeJoin(a: nat, b: nat, c: nat)
    requires a <= b <= c
    ensures Range(a, b) + Range(b, c) == Range(a, c)
    ensures Range(a, c) - Range(a, b) == Range(b, c)
    ensures Range(a, c) - Range(b, c) == Range(a, b)
  {
    forall n ensures (n in Range(a, b) || n in Range(b, c)) == (n in Range(a, c))
      && !(n in Range(a, b) && n in Range(b, c)) {
      InRange(a, b, n);
      InRange(b, c, n);
      InRange(a, c, n);
    }
  }

  /** The first block to be indexed: the last `limit` blocks up to the head, or all of them, above the cutoff. */
  function Target(limit: nat, cutoff: nat, head: nat): nat {
    Max(cutoff, if limit == 0 || head < limit then 0 else head - limit + 1)
  }

  /** The target really is the last `limit` blocks above the cutoff: a block up to the head is in it
      exactly if it is not pruned and fewer than `limit` blocks are above it. */
  lemma TargetMeaning(limit: nat, cutoff: nat, head: nat, n: nat)
    requires n <= head
    ensures Target(limit, cutoff, head) <= n <==> cutoff <= n && (limit == 0 || |Range(n + 1, head + 1)| < limit)
  {
    RangeSize(n + 1, head + 1);
  }

  /** The blocks a tail stands for. */
  function Covered(tail: Option<nat>, head: nat): set<nat> {
    if tail.None? then {} else Range(tail.value, head + 1)
  }

  datatype Progress = Progress(indexed: nat, remaining: nat)

  /** The number of indexed blocks as reported: an unsigned 64-bit difference. */
  function CountIndexed(tail: Option<nat>, head: nat): nat {
    if tail.None? then 0 else (head - tail.value + 1) % WORD64
  }

  /** The number of blocks reported as still to be indexed. */
  function CountRemaining(target: nat, tail: Option<nat>, head: nat): nat
    requires target <= head
  {
    var total, count := head + 1 - target, CountIndexed(tail, head);
    if count < total then total - count else 0
  }

  /** On the blocks that can be read, the index is what the tail says. */
  ghost predicate Faithful(indexed: set<nat>, tail: nat, head: nat, bodies: set<nat>) {
    forall n :: n in bodies ==> (n in indexed <==> tail <= n <= head)
  }

  /** Every block from the tail to the head that can be read is indexed. */
  ghost predicate Covers(indexed: set<nat>, tail: nat, head: nat, bodies: set<nat>) {
    forall n :: n in bodies && tail <= n <= head ==> n in indexed
  }

  class TxIndexer {
    const limit: nat
    const cutoff: nat
    var tail: Option<nat>
    var indexed: set<nat>

    constructor (limit: nat, cutoff: nat, tail: Option<nat>, indexed: set<nat>)
      ensures this.limit == limit && this.cutoff == cutoff && this.tail == tail && this.indexed == indexed
    {
      this.limit, this.cutoff, this.tail, this.indexed := limit, cutoff, tail, indexed;
    }

    /** A stored tail tells which blocks are indexed; without one nothing is said. `bodies` are the
        canonical blocks whose bodies can be read. */
    ghost predicate Sound(head: nat, bodies: set<nat>)
      reads this
    {
      tail.Some? ==> Faithful(indexed, tail.value, head, bodies)
    }

    /** Indexes the blocks below `to` downwards to `from`, or fewer when interrupted after `budget`
        blocks; blocks that cannot be read are skipped, and the tail moves along. */
    method IndexTransactions(from: nat, to: nat, budget: nat, bodies: set<nat>)
      modifies this`tail, this`indexed
      ensures from >= to ==> unchanged(this)
      ensures from < to ==> tail == Some(Max(from, to - Min(to, budget)))
      ensures from < to ==> forall n :: n in indexed <==> n in old(indexed) || (tail.value <= n < to && n in bodies)
    {
      if from >= to {
        return;
      }
      var last := to;
      while last > from && to - last < budget
        invariant from <= last <= to && to - last <= budget
        invariant forall n :: n in indexed <==> n in old(indexed) || (last <= n < to && n in bodies)
      {
        last := last - 1;
        if last in bodies {
          indexed := indexed + {last};
        }
      }
      tail := Some(last);
    }

    /** Removes the index of the blocks from `from` upwards to `to`, or fewer when interrupted; blocks
        that cannot be read are skipped. */
    method UnindexTransactions(from: nat, to: nat, budget: nat, bodies: set<nat>)
      modifies this`tail, this`indexed
      ensures from >= to ==> unchanged(this)
      ensures from < to ==> tail == Some(Min(to, from + budget))
      ensures from < to ==> forall n :: n in indexed <==> n in old(indexed) && !(from <= n < tail.value && n in bodies)
    {
      if from >= to {
        return;
      }
      var next := from;
      while next < to && next - from < budget
        invariant from <= next <= to && next - from <= budget
        invariant forall n :: n in indexed <==> n in old(indexed) && !(from <= n < next && n in bodies)
      {
        if next in bodies {
          indexed := indexed - {next};
        }
        next := next + 1;
      }
      tail := Some(next);
    }

    /** One indexing task, with the canonical blocks up to the head. It starts from any tail whose
        blocks up to the head are indexed, whatever else is, and keeps that however it is interrupted;
        if nothing below the tail was indexed either, then nothing is. Not interrupted, its tail is the
        target, except that a tail below the cutoff is left alone when the whole chain is wanted.
        Blocks that cannot be read keep what they have. On a chain that is empty or below the cutoff
        nothing happens. */
    method Run(head: nat, budget: nat, bodies: set<nat>)
      requires tail.Some? ==> Covers(indexed, tail.value, head, bodies)
      requires forall n :: n in bodies ==> n <= head
      modifies this`tail, this`indexed
      ensures head == 0 || head < cutoff ==> unchanged(this)
      ensures forall n :: n !in bodies ==> (n in indexed <==> n in old(indexed))
      ensures tail.Some? ==> Covers(indexed, tail.value, head, bodies)
      ensures old(tail.Some? && Sound(head, bodies)) ==> Sound(head, bodies)
      ensures old(tail).None? && tail.Some? ==>
                forall n :: n in bodies ==> (n in indexed <==> n in old(indexed) || tail.value <= n)
      ensures head > 0 && cutoff <= head && budget > head && (old(tail).Some? ==> old(tail).value <= budget) ==>
                tail == if old(tail).Some? && old(tail).value < cutoff && (limit == 0 || head < limit) then old(tail)
                        else Some(Target(limit, cutoff, head))
    {
      if head == 0 || head < cutoff {
        return;
      }
      if tail.None? {
        var from := 0;
        if limit != 0 && head >= limit {
          from := head - limit + 1;
        }
        from := Max(from, cutoff);
        IndexTransactions(from, head + 1, budget, bodies);
        return;
      }
      var t := tail.value;
      if limit == 0 || head < limit {
        if t > 0 {
          IndexTransactions(Max(0, cutoff), t, budget, bodies);
        }
        return;
      }
      var from := head - limit + 1;
      from := Max(from, cutoff);
      if from < t {
        IndexTransactions(from, t, budget, bodies);
      } else {
        UnindexTransactions(t, from, budget, bodies);
      }
    }

    /** Brings any stored tail back into [cutoff, head], or forgets the index. */
    method Repair(head: nat, bodies: set<nat>)
      requires tail.Some? && tail.value <= head ==> Sound(head, bodies)
      modifies this`tail, this`indexed
      ensures tail.None? || cutoff <= tail.value <= head
      ensures Sound(head, bodies)
      ensures old(tail).None? ==> unchanged(this)
      ensures old(tail).Some? && tail.None? ==> indexed == {}
      ensures old(tail).Some? ==> (tail.Some? <==> old(tail).value <= head && cutoff <= head)
      ensures tail.Some? ==> tail.value == Max(old(tail).value, cutoff)
    {
      if tail.None? {
        return;
      }
      if tail.value > head {
        tail := None;
        indexed := {};
        return;
      }
      if head < cutoff {
        tail := None;
        indexed := {};
        return;
      }
      if tail.value < cutoff {
        tail := Some(cutoff);
        indexed := set n | n in indexed && !(n < cutoff);
      }
    }

    /** The start-up of the indexer: repair, then an uninterrupted run. Whatever tail was stored, the
        tail is then the target, the blocks from it on are indexed, those below are not unless they
        were indexed before any tail was stored, and nothing remains to be done. */
    method StartUp(head: nat, bodies: set<nat>) returns (progress: Progress)
      requires tail.Some? && tail.value <= head ==> Sound(head, bodies)
      requires head + 1 < WORD64 && forall n :: n in bodies ==> n <= head
      modifies this`tail, this`indexed
      ensures head > 0 && cutoff <= head ==>
                && tail == Some(Target(limit, cutoff, head))
                && forall n :: n in bodies ==>
                     (n in indexed <==> Target(limit, cutoff, head) <= n || (old(tail).None? && n in old(indexed)))
      ensures head < cutoff ==> tail.None? && indexed == if old(tail).None? then old(indexed) else {}
      ensures head > 0 ==> progress.remaining == 0
    {
      Repair(head, bodies);
      if head != 0 {
        Run(head, head + 1, bodies);
      }
      progress := Report(head, tail);
      if head > 0 && cutoff <= head {
        NothingMissing(limit, cutoff, head);
      }
    }

    /** The progress, in 64-bit arithmetic. For a tail up to the block above the head, what remains is
        exactly the number of target blocks that the tail does not cover. */
    method Report(head: nat, tail: Option<nat>) returns (r: Progress)
      requires head + 1 < WORD64 && (tail.Some? ==> tail.value < WORD64)
      ensures head < cutoff ==> r == Progress(0, 0)
      ensures cutoff <= head ==>
                r == Progress(CountIndexed(tail, head), CountRemaining(Target(limit, cutoff, head), tail, head))
      ensures cutoff <= head && (tail.Some? ==> tail.value <= head + 1) ==>
                r.indexed == |Covered(tail, head)|
                && r.remaining == |Range(Target(limit, cutoff, head), head + 1) - Covered(tail, head)|
    {
      if head < cutoff {
        return Progress(0, 0);
      }
      var total := limit;
      if limit == 0 || total > head {
        total := head + 1;
      }
      var length := head - cutoff + 1;
      if total > length {
        total := length;
      }
      assert total == head + 1 - Target(limit, cutoff, head);
      var count := 0;
      if tail.Some? {
        count := (head - tail.value + 1) % WORD64;
      }
      var remaining := 0;
      if count < total {
        remaining := total - count;
      }
      ReportMeaning(Target(limit, cutoff, head), tail, head);
      return Progress(count, remaining);
    }
  }

  /** The unsigned distance from the tail to the head. */
  lemma CountWraps(head: nat, tail: nat)
    requires tail < WORD64 && head + 1 < WORD64
    ensures (head - tail + 1) % WORD64 == if tail <= head + 1 then head + 1 - tail else WORD64 + head + 1 - tail
  {
  }

  /** The sizes behind a progress report. */
  lemma ProgressCount(target: nat, tail: Option<nat>, head: nat)
    requires target <= head
    ensures tail.None? ==> |Covered(tail, head)| == 0
                           && |Range(target, head + 1) - Covered(tail, head)| == head + 1 - target
    ensures tail.Some? && tail.value <= head + 1 ==>
              && |Covered(tail, head)| == head + 1 - tail.value
              && |Range(target, head + 1) - Covered(tail, head)|
                 == if target <= tail.value then tail.value - target else 0
  {
    RangeSize(target, head + 1);
    if tail.None? {
      assert Range(target, head + 1) - {} == Range(target, head + 1);
    } else if tail.value <= head + 1 {
      RangeSize(tail.value, head + 1);
      UncoveredSize(target, tail.value, head + 1);
    }
  }

  /** What the two reported numbers count. */
  lemma ReportMeaning(target: nat, tail: Option<nat>, head: nat)
    requires target <= head && head + 1 < WORD64 && (tail.Some? ==> tail.value <= WORD64 - 1)
    ensures (tail.Some? ==> tail.value <= head + 1) ==>
              && CountIndexed(tail, head) == |Covered(tail, head)|
              && CountRemaining(target, tail, head) == |Range(target, head + 1) - Covered(tail, head)|
  {
    if tail.Some? {
      CountWraps(head, tail.value);
    }
    ProgressCount(target, tail, head);
  }

  lemma UncoveredSize(target: nat, tail: nat, end: nat)
    requires target <= end && tail <= end
    ensures |Range(target, end) - Range(tail, end)| == if target <= tail then tail - target else 0
  {
    if target <= tail {
      RangeJoin(target, tail, end);
      RangeSize(target, tail);
    } else {
      RangeJoin(tail, target, end);
      assert Range(target, end) - Range(tail, end) == {};
    }
  }

  lemma NothingMissing(limit: nat, cutoff: nat, head: nat)
    ensures |Range(Target(limit, cutoff, head), head + 1) - Covered(Some(Target(limit, cutoff, head)), head)| == 0
  {
    var all := Range(Target(limit, cutoff, head), head + 1);
    assert all - all == {};
  }

  /** The report is right exactly for tails up to the block above the head: beyond that the unsigned
      subtraction wraps and reports nothing left, though no target block is covered. */
  lemma ReportIsRightIff(target: nat, tail: nat, head: nat)
    requires target <= head && tail < WORD64 && head + 1 < WORD64
    ensures CountRemaining(target, Some(tail), head) == |Range(target, head + 1) - Covered(Some(tail), head)| <==>
              tail <= head + 1
    ensures tail > head + 1 ==> CountRemaining(target, Some(tail), head) == 0
  {
    CountWraps(head, tail);
    ProgressCount(target, Some(tail), head);
    if tail > head + 1 {
      RangeSize(target, head + 1);
      assert Range(tail, head + 1) == {};
      assert Range(target, head + 1) - {} == Range(target, head + 1);
    }
  }

  /** A head rewound from above block 10 to block 5: nothing is reported as missing, and all six are. */
  lemma RewoundReport()
    ensures CountRemaining(0, Some(10), 5) == 0 && |Range(0, 6) - Covered(Some(10), 5)| == 6
  {
    RangeSize(0, 6);
    assert Range(10, 6) == {};
    assert Range(0, 6) - {} == Range(0, 6);
  }

  /** On a chain all of whose blocks from the cutoff on can be read, an index with nothing else in it
      that is what its tail says is exactly the range from the tail to the head. */
  lemma FaithfulIsExact(indexed: set<nat>, tail: nat, head: nat, bodies: set<nat>)
    requires Faithful(indexed, tail, head, bodies) && indexed <= bodies && Range(tail, head + 1) <= bodies
    ensures indexed == Range(tail, head + 1)
  {
    forall n: nat ensures n in indexed <==> n in Range(tail, head + 1) {
      InRange(tail, head + 1, n);
    }
  }
}
