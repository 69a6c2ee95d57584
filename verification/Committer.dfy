/** The committer's per-chain block cursor and what it commits to the audit chain. */
module Committer {
  import opened Common

  /** A block as a client returns it; `senders` says of each transaction whether its sender can be recovered. */
  datatype Block = Block(number: nat, root: Hash, senders: seq<bool>)

  /** How a submission to the audit chain ends. Unconfirmed: sent, but the wait failed or the call reverted. */
  datatype Submission = NotSent | Unconfirmed | Confirmed

  /** What the outside world answers while one block is processed. */
  datatype Answer = Answer(block: Option<Block>, parent: Option<Block>, submission: Submission)

  /** What it answers while one chain is visited: the latest block number, absent on an error or
      without a client, and an answer for each block. */
  datatype Visit = Visit(latest: Option<nat>, answers: nat -> Answer)

  /** A commit as aggregated, with the number that was requested and the block's own. */
  datatype Commit = Commit(chain: nat, requested: nat, number: nat, oldRoot: Hash, newRoot: Hash)

  /** The cursor of each chain, the blocks processed without an error, in order, the commits sent, and
      those confirmed. */
  datatype State = State(lastProcessed: map<nat, nat>, processed: seq<Commit>, sent: seq<Commit>,
                         confirmed: seq<Commit>)

  const INITIAL := State(map[], [], [], [])

  function Cursor(s: State, chain: nat): nat {
    if chain in s.lastProcessed then s.lastProcessed[chain] else 0
  }

  /** The commit for a block; with no parent to ask for, the old root is the zero hash. */
  function CommitFor(chain: nat, requested: nat, answer: Answer): Commit {
    Commit(chain, requested,
           if answer.block.Some? then answer.block.value.number else 0,
           if answer.block.Some? && answer.block.value.number > 0 && answer.parent.Some?
           then answer.parent.value.root else ZERO_HASH,
           if answer.block.Some? then answer.block.value.root else ZERO_HASH)
  }

  predicate Fetched(answer: Answer) {
    answer.block.Some? && (answer.block.value.number > 0 ==> answer.parent.Some?)
  }

  /** A block whose transactions all lack a sender counts as empty. */
  predicate IsEmpty(block: Block) {
    true !in block.senders
  }

  predicate Succeeds(answer: Answer) {
    Fetched(answer) && (IsEmpty(answer.block.value) || answer.submission.Confirmed?)
  }

  predicate Sends(answer: Answer) {
    Fetched(answer) && !IsEmpty(answer.block.value) && !answer.submission.NotSent?
  }

  function Append<T>(log: seq<T>, entry: T, more: bool): seq<T> {
    if more then log + [entry] else log
  }

  /** The state after an attempt that succeeds or not, and sends its commit or not. */
  function Record(s: State, entry: Commit, ok: bool, sends: bool): State {
    State(
      if ok then s.lastProcessed[entry.chain := entry.requested] else s.lastProcessed,
      Append(s.processed, entry, ok),
      Append(s.sent, entry, sends),
      Append(s.confirmed, entry, ok && sends))
  }

  /** The state after one attempt at one block. */
  function Attempt(s: State, chain: nat, number: nat, answer: Answer): State {
    Record(s, CommitFor(chain, number, answer), Succeeds(answer), Sends(answer))
  }

  /** An attempt at the block after the cursor. */
  function Next(s: State, chain: nat, answers: nat -> Answer): State {
    Attempt(s, chain, Cursor(s, chain) + 1, answers(Cursor(s, chain) + 1))
  }

  /** The state after a visit: block after block from the cursor, up to the head or the first error. */
  function Visited(s: State, chain: nat, latest: nat, answers: nat -> Answer): State
    decreases latest - Cursor(s, chain)
  {
    if latest <= Cursor(s, chain) then s
    else
      var next := Next(s, chain, answers);
      if Succeeds(answers(Cursor(s, chain) + 1)) then Visited(next, chain, latest, answers) else next
  }

  function AfterVisit(s: State, chain: nat, visit: Visit): State {
    if visit.latest.None? then s else Visited(s, chain, visit.latest.value, visit.answers)
  }

  /** Any schedule: visits to chains, tick after tick. */
  datatype Stop = Stop(chain: nat, visit: Visit)

  function AfterRun(s: State, run: seq<Stop>): State {
    if run == [] then s
    else AfterVisit(AfterRun(s, run[..|run| - 1]), run[|run| - 1].chain, run[|run| - 1].visit)
  }

  /** `entry`, `ok` and `sends` are what an attempt at the next block would record. */
  ghost predicate Attempted(t: State, c: nat, answers: nat -> Answer, entry: Commit, ok: bool, sends: bool) {
    var answer := answers(Cursor(t, c) + 1);
    entry == CommitFor(c, Cursor(t, c) + 1, answer) && ok == Succeeds(answer) && sends == Sends(answer)
  }

  /** What every attempt at the next block keeps, a visit keeps. */
  lemma {:induction false} VisitKeeps(kept: State -> bool, s: State, c: nat, latest: nat, answers: nat -> Answer)
    requires kept(s)
    requires forall t, entry, ok, sends ::
               kept(t) && Attempted(t, c, answers, entry, ok, sends) ==> kept(Record(t, entry, ok, sends))
    ensures kept(Visited(s, c, latest, answers))
    decreases latest - Cursor(s, c)
  {
    if Cursor(s, c) < latest {
      var answer := answers(Cursor(s, c) + 1);
      var entry := CommitFor(c, Cursor(s, c) + 1, answer);
      assert Attempted(s, c, answers, entry, Succeeds(answer), Sends(answer));
      assert Next(s, c, answers) == Record(s, entry, Succeeds(answer), Sends(answer));
      if Succeeds(answer) {
        VisitKeeps(kept, Next(s, c, answers), c, latest, answers);
      }
    }
  }

  // ---- The order of processing ----

  /** The entries of one chain, in order. */
  function Of(log: seq<Commit>, chain: nat): seq<Commit> {
    if log == [] then []
    else Of(log[..|log| - 1], chain) + if log[|log| - 1].chain == chain then [log[|log| - 1]] else []
  }

  lemma OfAppend(log: seq<Commit>, entry: Commit, more: bool, chain: nat)
    ensures Of(Append(log, entry, more), chain) == Append(Of(log, chain), entry, more && entry.chain == chain)
  {
    assert (log + [entry])[..|log|] == log;
  }

  /** The requested block numbers of a list of commits. */
  function Requests(log: seq<Commit>): seq<nat> {
    if log == [] then [] else Requests(log[..|log| - 1]) + [log[|log| - 1].requested]
  }

  /** The block numbers of one chain's entries, in order. */
  function Numbers(log: seq<Commit>, chain: nat): seq<nat> {
    Requests(Of(log, chain))
  }

  lemma RequestsAppend(log: seq<Commit>, entry: Commit, more: bool)
    ensures Requests(Append(log, entry, more)) == Append(Requests(log), entry.requested, more)
  {
    assert (log + [entry])[..|log|] == log;
  }

  lemma NumbersAppend(log: seq<Commit>, entry: Commit, more: bool, chain: nat)
    ensures Numbers(Append(log, entry, more), chain)
            == Append(Numbers(log, chain), entry.requested, more && entry.chain == chain)
  {
    OfAppend(log, entry, more, chain);
    RequestsAppend(Of(log, chain), entry, more && entry.chain == chain);
  }

  /** The numbers 1, 2, 3, … up to `n`. */
  function UpTo(n: nat): seq<nat> {
    if n == 0 then [] else UpTo(n - 1) + [n]
  }

  /** Numbers that never go back and never go beyond `top`. */
  predicate NeverBack(numbers: seq<nat>, top: nat) {
    |numbers| == 0 || (numbers[|numbers| - 1] <= top && NeverBack(numbers[..|numbers| - 1], numbers[|numbers| - 1]))
  }

  lemma {:induction false} NeverBackMeaning(numbers: seq<nat>, top: nat)
    ensures NeverBack(numbers, top) <==>
              forall i, j :: 0 <= i <= j < |numbers| ==> numbers[i] <= numbers[j] <= top
  {
    if numbers != [] {
      var init, last := numbers[..|numbers| - 1], numbers[|numbers| - 1];
      NeverBackMeaning(init, last);
      assert forall i :: 0 <= i < |init| ==> init[i] == numbers[i];
    }
  }

  lemma NotBackOneMore(numbers: seq<nat>, n: nat)
    requires NeverBack(numbers, n)
    ensures NeverBack(numbers, n + 1) && NeverBack(numbers + [n], n) && NeverBack(numbers + [n], n + 1)
  {
    assert (numbers + [n])[..|numbers|] == numbers;
  }

  ghost predicate Orderly(done: seq<nat>, sent: seq<nat>, cursor: nat) {
    done == UpTo(cursor) && NeverBack(sent, cursor + 1)
  }

  ghost predicate InOrder(s: State, chain: nat) {
    Orderly(Numbers(s.processed, chain), Numbers(s.sent, chain), Cursor(s, chain))
  }

  lemma OrderlyStep(done: seq<nat>, sent: seq<nat>, cursor: nat, ok: bool, sends: bool)
    requires Orderly(done, sent, cursor)
    ensures Orderly(Append(done, cursor + 1, ok), Append(sent, cursor + 1, sends), if ok then cursor + 1 else cursor)
  {
    NotBackOneMore(sent, cursor + 1);
  }

  /** An attempt moves its own chain by at most its next block, and no other chain. */
  lemma RecordInOrder(s: State, entry: Commit, ok: bool, sends: bool, chain: nat)
    requires InOrder(s, chain) && entry.requested == Cursor(s, entry.chain) + 1
    ensures InOrder(Record(s, entry, ok, sends), chain)
  {
    NumbersAppend(s.processed, entry, ok, chain);
    NumbersAppend(s.sent, entry, sends, chain);
    if entry.chain == chain {
      OrderlyStep(Numbers(s.processed, chain), Numbers(s.sent, chain), Cursor(s, chain), ok, sends);
    }
  }

  lemma VisitInOrder(s: State, c: nat, visit: Visit, chain: nat)
    requires InOrder(s, chain)
    ensures InOrder(AfterVisit(s, c, visit), chain)
  {
    var kept := (t: State) => InOrder(t, chain);
    forall t, entry, ok, sends | kept(t) && Attempted(t, c, visit.answers, entry, ok, sends)
      ensures kept(Record(t, entry, ok, sends))
    {
      RecordInOrder(t, entry, ok, sends, chain);
    }
    if visit.latest.Some? {
      VisitKeeps(kept, s, c, visit.latest.value, visit.answers);
    }
  }

  lemma VisitForward(s: State, c: nat, visit: Visit, chain: nat)
    ensures Cursor(s, chain) <= Cursor(AfterVisit(s, c, visit), chain)
  {
    var kept := (t: State) => Cursor(s, chain) <= Cursor(t, chain);
    if visit.latest.Some? {
      VisitKeeps(kept, s, c, visit.latest.value, visit.answers);
    }
  }

  /** In every run, whatever the heads and failures, each chain's blocks are processed as 1, 2, 3, …
      with no gap, repeat or reordering; commits are sent only for the block after the cursor, so a
      retry repeats the same block and never an earlier one. */
  lemma {:induction false} RunInOrder(run: seq<Stop>, chain: nat)
    ensures InOrder(AfterRun(INITIAL, run), chain)
    decreases |run|
  {
    if run != [] {
      var rest, stop := run[..|run| - 1], run[|run| - 1];
      RunInOrder(rest, chain);
      VisitInOrder(AfterRun(INITIAL, rest), stop.chain, stop.visit, chain);
    }
  }

  /** A longer run never moves a cursor back. */
  lemma {:induction false} CursorNeverBack(run: seq<Stop>, n: nat, chain: nat)
    requires n <= |run|
    ensures Cursor(AfterRun(INITIAL, run[..n]), chain) <= Cursor(AfterRun(INITIAL, run), chain)
    decreases |run|
  {
    if n < |run| {
      var rest, stop := run[..|run| - 1], run[|run| - 1];
      assert rest[..n] == run[..n];
      CursorNeverBack(rest, n, chain);
      VisitForward(AfterRun(INITIAL, rest), stop.chain, stop.visit, chain);
    } else {
      assert run[..n] == run;
    }
  }

  // ---- How far a visit gets ----

  /** The transactions of a block whose sender can be recovered. */
  ghost function Usable(block: Block): nat {
    multiset(block.senders)[true]
  }

  /** Nothing is left to do for a block that was fetched, with its parent if it has one, and either has no
      usable transaction or was committed and confirmed. */
  ghost predicate Settled(answer: Answer) {
    && answer.block.Some?
    && (answer.block.value.number == 0 || answer.parent.Some?)
    && (Usable(answer.block.value) == 0 || answer.submission == Confirmed)
  }

  /** An attempt succeeds exactly if it settles the block; it loses a commit exactly if it sent one for
      usable transactions and got no confirmation. */
  lemma AttemptMeaning(answer: Answer)
    ensures Succeeds(answer) <==> Settled(answer)
    ensures Succeeds(answer) && Sends(answer) <==> Settled(answer) && Usable(answer.block.value) > 0
    ensures Sends(answer) && !Succeeds(answer) <==>
            && answer.block.Some? && Usable(answer.block.value) > 0
            && (answer.block.value.number == 0 || answer.parent.Some?) && answer.submission == Unconfirmed
  {
    if answer.block.Some? {
      assert true in answer.block.value.senders <==> true in multiset(answer.block.value.senders);
    }
  }

  /** All blocks up to `to` are settled, and the next one is not unless it is beyond the head. */
  ghost predicate Reaches(from: nat, to: nat, latest: nat, answers: nat -> Answer) {
    && from <= to && (to <= latest || to == from)
    && (forall n :: from < n <= to ==> Settled(answers(n)))
    && (to >= latest || !Settled(answers(to + 1)))
  }

  lemma ReachesFurther(from: nat, to: nat, latest: nat, answers: nat -> Answer)
    requires from < latest && Settled(answers(from + 1)) && Reaches(from + 1, to, latest, answers)
    ensures Reaches(from, to, latest, answers)
  {
  }

  /** A visit settles every block it moves the cursor over, and stops only at the head or before a block it
      could not settle. */
  lemma {:induction false} VisitReaches(s: State, chain: nat, latest: nat, answers: nat -> Answer)
    ensures Reaches(Cursor(s, chain), Cursor(Visited(s, chain, latest, answers), chain), latest, answers)
    decreases latest - Cursor(s, chain)
  {
    var from := Cursor(s, chain);
    if from < latest {
      AttemptMeaning(answers(from + 1));
      var next := Next(s, chain, answers);
      if Succeeds(answers(from + 1)) {
        VisitReaches(next, chain, latest, answers);
        assert Cursor(next, chain) == from + 1;
        ReachesFurther(from, Cursor(Visited(s, chain, latest, answers), chain), latest, answers);
      }
    }
  }

  // ---- Sent and confirmed ----

  /** The attempts of a visit whose commit was sent and not confirmed; such an attempt ends the visit. */
  function LostInVisit(s: State, chain: nat, latest: nat, answers: nat -> Answer): nat
    decreases latest - Cursor(s, chain)
  {
    if latest <= Cursor(s, chain) then 0
    else
      var answer := answers(Cursor(s, chain) + 1);
      if Succeeds(answer) then LostInVisit(Next(s, chain, answers), chain, latest, answers)
      else if Sends(answer) then 1 else 0
  }

  /** All such attempts of a run at one chain. */
  function LostInRun(run: seq<Stop>, chain: nat): nat {
    if run == [] then 0
    else
      var rest, stop := run[..|run| - 1], run[|run| - 1];
      LostInRun(rest, chain)
      + if stop.chain == chain && stop.visit.latest.Some?
        then LostInVisit(AfterRun(INITIAL, rest), chain, stop.visit.latest.value, stop.visit.answers) else 0
  }

  /** `lost` commits were sent and not confirmed; with none, the two logs are the same. */
  ghost predicate Gap(sent: seq<Commit>, confirmed: seq<Commit>, lost: nat) {
    |sent| == |confirmed| + lost && (lost == 0 ==> sent == confirmed)
  }

  ghost predicate GapOf(s: State, chain: nat, lost: nat) {
    Gap(Of(s.sent, chain), Of(s.confirmed, chain), lost)
  }

  lemma RecordGap(s: State, entry: Commit, ok: bool, sends: bool, chain: nat, lost: nat)
    requires GapOf(s, chain, lost)
    ensures GapOf(Record(s, entry, ok, sends), chain, if entry.chain == chain && sends && !ok then lost + 1 else lost)
  {
    OfAppend(s.sent, entry, sends, chain);
    OfAppend(s.confirmed, entry, ok && sends, chain);
  }

  lemma NextGap(s: State, c: nat, answers: nat -> Answer, chain: nat, lost: nat)
    requires GapOf(s, chain, lost)
    ensures var answer := answers(Cursor(s, c) + 1);
            GapOf(Next(s, c, answers), chain,
                  if c == chain && Sends(answer) && !Succeeds(answer) then lost + 1 else lost)
  {
    var answer := answers(Cursor(s, c) + 1);
    RecordGap(s, CommitFor(c, Cursor(s, c) + 1, answer), Succeeds(answer), Sends(answer), chain, lost);
  }

  lemma {:induction false} VisitGap(s: State, c: nat, latest: nat, answers: nat -> Answer, chain: nat, lost: nat)
    requires GapOf(s, chain, lost)
    ensures GapOf(Visited(s, c, latest, answers), chain,
                  lost + if c == chain then LostInVisit(s, c, latest, answers) else 0)
    decreases latest - Cursor(s, c)
  {
    if Cursor(s, c) < latest {
      NextGap(s, c, answers, chain, lost);
      if Succeeds(answers(Cursor(s, c) + 1)) {
        VisitGap(Next(s, c, answers), c, latest, answers, chain, lost);
      }
    }
  }

  lemma {:induction false} RunGap(run: seq<Stop>, chain: nat)
    ensures GapOf(AfterRun(INITIAL, run), chain, LostInRun(run, chain))
    decreases |run|
  {
    if run != [] {
      var rest, stop := run[..|run| - 1], run[|run| - 1];
      RunGap(rest, chain);
      if stop.visit.latest.Some? {
        VisitGap(AfterRun(INITIAL, rest), stop.chain, stop.visit.latest.value, stop.visit.answers, chain,
                 LostInRun(rest, chain));
      }
    }
  }

  /** In every run the commits sent for a chain are exactly those confirmed, if and only if no attempt
      at that chain was sent and not confirmed; each such attempt leaves one commit more. */
  lemma SentIsConfirmedIff(run: seq<Stop>, chain: nat)
    ensures var s := AfterRun(INITIAL, run);
            && (Of(s.sent, chain) == Of(s.confirmed, chain) <==> LostInRun(run, chain) == 0)
            && |Of(s.sent, chain)| == |Of(s.confirmed, chain)| + LostInRun(run, chain)
  {
    RunGap(run, chain);
  }

  /** Numbers that strictly rise and stay below `bound`. */
  predicate Rising(numbers: seq<nat>, bound: nat) {
    |numbers| == 0 || (numbers[|numbers| - 1] < bound && Rising(numbers[..|numbers| - 1], numbers[|numbers| - 1]))
  }

  lemma {:induction false} RisingMeaning(numbers: seq<nat>, bound: nat)
    ensures Rising(numbers, bound) <==>
              && (forall i, j :: 0 <= i < j < |numbers| ==> numbers[i] < numbers[j])
              && (forall i :: 0 <= i < |numbers| ==> numbers[i] < bound)
  {
    if numbers != [] {
      var init, last := numbers[..|numbers| - 1], numbers[|numbers| - 1];
      RisingMeaning(init, last);
      assert forall i :: 0 <= i < |init| ==> init[i] == numbers[i];
    }
  }

  lemma RisingOneMore(numbers: seq<nat>, n: nat, ok: bool, more: bool)
    requires Rising(numbers, n) && (more ==> ok)
    ensures Rising(Append(numbers, n, more), if ok then n + 1 else n)
  {
    assert (numbers + [n])[..|numbers|] == numbers;
  }

  ghost predicate ConfirmedRise(s: State, chain: nat) {
    Rising(Numbers(s.confirmed, chain), Cursor(s, chain) + 1)
  }

  lemma RecordRises(s: State, entry: Commit, ok: bool, sends: bool, chain: nat)
    requires ConfirmedRise(s, chain) && entry.requested == Cursor(s, entry.chain) + 1
    ensures ConfirmedRise(Record(s, entry, ok, sends), chain)
  {
    NumbersAppend(s.confirmed, entry, ok && sends, chain);
    if entry.chain == chain {
      RisingOneMore(Numbers(s.confirmed, chain), entry.requested, ok, ok && sends);
    }
  }

  /** No block is confirmed twice, in any run; so with no lost attempt none is sent twice either. */
  lemma {:induction false} ConfirmedOnce(run: seq<Stop>, chain: nat)
    ensures ConfirmedRise(AfterRun(INITIAL, run), chain)
    ensures LostInRun(run, chain) == 0 ==>
              var s := AfterRun(INITIAL, run); Rising(Numbers(s.sent, chain), Cursor(s, chain) + 1)
    decreases |run|
  {
    if run != [] {
      var rest, stop := run[..|run| - 1], run[|run| - 1];
      ConfirmedOnce(rest, chain);
      var kept := (t: State) => ConfirmedRise(t, chain);
      forall t, entry, ok, sends | kept(t) && Attempted(t, stop.chain, stop.visit.answers, entry, ok, sends)
        ensures kept(Record(t, entry, ok, sends))
      {
        RecordRises(t, entry, ok, sends, chain);
      }
      if stop.visit.latest.Some? {
        VisitKeeps(kept, AfterRun(INITIAL, rest), stop.chain, stop.visit.latest.value, stop.visit.answers);
      }
    }
    RunGap(run, chain);
  }

  lemma RetryRun(first: Visit, second: Visit, commit: Commit)
    requires first.latest == second.latest == Some(1)
    requires commit == CommitFor(7, 1, first.answers(1)) == CommitFor(7, 1, second.answers(1))
    requires Sends(first.answers(1)) && !Succeeds(first.answers(1))
    requires Sends(second.answers(1)) && Succeeds(second.answers(1))
    ensures AfterRun(INITIAL, [Stop(7, first), Stop(7, second)])
            == State(map[7 := 1], [commit], [commit, commit], [commit])
  {
    var run := [Stop(7, first), Stop(7, second)];
    assert run[..1] == [Stop(7, first)] && run[..1][..0] == [];
    var s := AfterVisit(INITIAL, 7, first);
    assert AfterRun(INITIAL, run[..1]) == s == State(map[], [], [commit], []);
    var next := Next(s, 7, second.answers);
    assert next == State(map[7 := 1], [commit], [commit, commit], [commit]);
    assert Cursor(s, 7) == 0 && Visited(next, 7, 1, second.answers) == next;
  }

  /** A commit that is not confirmed at first is sent again, so "sent once per block" fails for this run. */
  lemma RetrySendsTwice(block: Block, parent: Block)
    requires block.number == 1 && !IsEmpty(block)
    ensures var first := Visit(Some(1), (n: nat) => Answer(Some(block), Some(parent), Unconfirmed));
            var second := Visit(Some(1), (n: nat) => Answer(Some(block), Some(parent), Confirmed));
            var s := AfterRun(INITIAL, [Stop(7, first), Stop(7, second)]);
            Numbers(s.sent, 7) == [1, 1] && Numbers(s.confirmed, 7) == [1]
  {
    var first := Visit(Some(1), (n: nat) => Answer(Some(block), Some(parent), Unconfirmed));
    var second := Visit(Some(1), (n: nat) => Answer(Some(block), Some(parent), Confirmed));
    var commit := CommitFor(7, 1, Answer(Some(block), Some(parent), Confirmed));
    RetryRun(first, second, commit);
    assert [] + [commit] == [commit] && [commit] + [commit] == [commit, commit];
    OfAppend([], commit, true, 7);
    OfAppend([commit], commit, true, 7);
    RequestsAppend([], commit, true);
    RequestsAppend([commit], commit, true);
  }

  // ---- The roots link up ----

  /** A chain that is not rewritten: block `n` is always the same one. */
  ghost predicate Answers(answer: Answer, n: nat, truth: nat -> Block) {
    && truth(n).number == n
    && (answer.block.Some? ==> answer.block.value == truth(n))
    && (answer.parent.Some? && n > 0 ==> answer.parent.value == truth(n - 1))
  }

  ghost predicate VisitAnswers(visit: Visit, truth: nat -> Block) {
    forall n :: Answers(visit.answers(n), n, truth)
  }

  ghost predicate RunAnswers(run: seq<Stop>, chain: nat, truth: nat -> Block) {
    forall stop :: stop in run && stop.chain == chain ==> VisitAnswers(stop.visit, truth)
  }

  /** Blocks without a usable transaction leave the state root as it was. */
  ghost predicate EmptyKeepsRoot(truth: nat -> Block) {
    forall n :: 1 <= n && IsEmpty(truth(n)) ==> truth(n).root == truth(n - 1).root
  }

  function TrueCommit(chain: nat, n: nat, truth: nat -> Block): Commit
    requires n > 0
  {
    Commit(chain, n, n, truth(n - 1).root, truth(n).root)
  }

  /** The commits of the first `n` blocks: one for each block that is not empty. */
  function TrueCommits(chain: nat, n: nat, truth: nat -> Block): seq<Commit> {
    if n == 0 then []
    else
      TrueCommits(chain, n - 1, truth)
      + if IsEmpty(truth(n)) then [] else [TrueCommit(chain, n, truth)]
  }

  ghost predicate Tracks(s: State, chain: nat, truth: nat -> Block) {
    Of(s.confirmed, chain) == TrueCommits(chain, Cursor(s, chain), truth)
  }

  lemma AttemptTracks(s: State, c: nat, answer: Answer, chain: nat, truth: nat -> Block)
    requires Tracks(s, chain, truth) && (c == chain ==> Answers(answer, Cursor(s, c) + 1, truth))
    ensures Tracks(Attempt(s, c, Cursor(s, c) + 1, answer), chain, truth)
  {
    OfAppend(s.confirmed, CommitFor(c, Cursor(s, c) + 1, answer), Succeeds(answer) && Sends(answer), chain);
  }

  lemma VisitTracks(s: State, c: nat, visit: Visit, chain: nat, truth: nat -> Block)
    requires Tracks(s, chain, truth) && (c == chain ==> VisitAnswers(visit, truth))
    ensures Tracks(AfterVisit(s, c, visit), chain, truth)
  {
    var kept := (t: State) => Tracks(t, chain, truth);
    forall t, entry, ok, sends | kept(t) && Attempted(t, c, visit.answers, entry, ok, sends)
      ensures kept(Record(t, entry, ok, sends))
    {
      AttemptTracks(t, c, visit.answers(Cursor(t, c) + 1), chain, truth);
    }
    if visit.latest.Some? {
      VisitKeeps(kept, s, c, visit.latest.value, visit.answers);
    }
  }

  /** On a fixed chain the confirmed commits are exactly those of its blocks up to the cursor. */
  lemma {:induction false} RunTracks(run: seq<Stop>, chain: nat, truth: nat -> Block)
    requires RunAnswers(run, chain, truth)
    ensures Tracks(AfterRun(INITIAL, run), chain, truth)
    decreases |run|
  {
    if run != [] {
      var rest, stop := run[..|run| - 1], run[|run| - 1];
      RunTracks(rest, chain, truth);
      assert stop in run;
      VisitTracks(AfterRun(INITIAL, rest), stop.chain, stop.visit, chain, truth);
    }
  }

  function RootBefore(first: Hash, commits: seq<Commit>, k: nat): Hash
    requires k <= |commits|
  {
    if k == 0 then first else commits[k - 1].newRoot
  }

  /** The root a list of commits starts from leads, commit by commit, to the root it ends in. */
  ghost predicate Links(first: Hash, commits: seq<Commit>, last: Hash) {
    && (forall k :: 0 <= k < |commits| ==> commits[k].oldRoot == RootBefore(first, commits, k))
    && last == RootBefore(first, commits, |commits|)
  }

  lemma LinkOneMore(first: Hash, commits: seq<Commit>, last: Hash, commit: Commit)
    requires Links(first, commits, last) && commit.oldRoot == last
    ensures Links(first, commits + [commit], commit.newRoot)
  {
    var all := commits + [commit];
    forall k | 0 <= k < |all| ensures all[k].oldRoot == RootBefore(first, all, k) {
      assert RootBefore(first, all, k) == RootBefore(first, commits, k);
    }
  }

  lemma {:induction false} TrueCommitsLink(chain: nat, n: nat, truth: nat -> Block)
    requires EmptyKeepsRoot(truth)
    ensures Links(truth(0).root, TrueCommits(chain, n, truth), truth(n).root)
  {
    if n > 0 {
      TrueCommitsLink(chain, n - 1, truth);
      var before := TrueCommits(chain, n - 1, truth);
      if IsEmpty(truth(n)) {
        assert before + [] == before;
      } else {
        LinkOneMore(truth(0).root, before, truth(n - 1).root, TrueCommit(chain, n, truth));
      }
    }
  }

  /** In every run over a fixed chain whose empty blocks keep the root, each confirmed commit starts at
      the root where the previous one ended, the first at the genesis root, and the last ends at the
      root of the block under the cursor. */
  lemma RunLinks(run: seq<Stop>, chain: nat, truth: nat -> Block)
    requires RunAnswers(run, chain, truth) && EmptyKeepsRoot(truth)
    ensures var s := AfterRun(INITIAL, run);
            Links(truth(0).root, Of(s.confirmed, chain), truth(Cursor(s, chain)).root)
  {
    RunTracks(run, chain, truth);
    TrueCommitsLink(chain, Cursor(AfterRun(INITIAL, run), chain), truth);
  }

  // ---- Sent once ----

  /** Whether an attempt was sent and not confirmed, and whether one was sent after such an attempt. */
  datatype Marks = Marks(lost: bool, resent: bool)

  function Mark(m: Marks, ok: bool, sends: bool): Marks {
    if sends then Marks(m.lost || !ok, m.resent || m.lost) else m
  }

  /** The marks of one chain after a visit, and after a run. */
  function MarksOfVisit(s: State, chain: nat, latest: nat, answers: nat -> Answer, m: Marks): Marks
    decreases latest - Cursor(s, chain)
  {
    if latest <= Cursor(s, chain) then m
    else
      var answer := answers(Cursor(s, chain) + 1);
      var marked := Mark(m, Succeeds(answer), Sends(answer));
      if Succeeds(answer) then MarksOfVisit(Next(s, chain, answers), chain, latest, answers, marked) else marked
  }

  function MarksOfRun(run: seq<Stop>, chain: nat): Marks {
    if run == [] then Marks(false, false)
    else
      var rest, stop := run[..|run| - 1], run[|run| - 1];
      var m := MarksOfRun(rest, chain);
      if stop.chain == chain && stop.visit.latest.Some?
      then MarksOfVisit(AfterRun(INITIAL, rest), chain, stop.visit.latest.value, stop.visit.answers, m) else m
  }

  /** Each number is above the one before it. */
  predicate NoRepeat(numbers: seq<nat>) {
    |numbers| < 2
    || (numbers[|numbers| - 2] < numbers[|numbers| - 1] && NoRepeat(numbers[..|numbers| - 1]))
  }

  lemma {:induction false} NoRepeatMeaning(numbers: seq<nat>)
    ensures NoRepeat(numbers) <==> forall i, j :: 0 <= i < j < |numbers| ==> numbers[i] < numbers[j]
  {
    if |numbers| >= 2 {
      var init := numbers[..|numbers| - 1];
      NoRepeatMeaning(init);
      assert forall i :: 0 <= i < |init| ==> init[i] == numbers[i];
    }
  }

  lemma NoRepeatOneMore(numbers: seq<nat>, n: nat)
    ensures NoRepeat(numbers + [n]) <==> NoRepeat(numbers) && (|numbers| == 0 || numbers[|numbers| - 1] < n)
  {
    assert (numbers + [n])[..|numbers|] == numbers;
  }

  /** What the marks say about the numbers sent: after a second sending they repeat; before that they do
      not, and a lost attempt is the last one sent, at the next block, which is not empty. */
  ghost predicate Marked(sent: seq<nat>, cursor: nat, m: Marks, nextFull: bool) {
    if m.resent then !NoRepeat(sent)
    else
      && NoRepeat(sent)
      && if m.lost then |sent| > 0 && sent[|sent| - 1] == cursor + 1 && nextFull
         else |sent| == 0 || sent[|sent| - 1] <= cursor
  }

  lemma MarkedOneMore(sent: seq<nat>, cursor: nat, m: Marks, nextFull: bool, ok: bool, sends: bool, afterFull: bool)
    requires Marked(sent, cursor, m, nextFull) && (sends ==> nextFull) && (nextFull && ok ==> sends)
    ensures Marked(Append(sent, cursor + 1, sends), if ok then cursor + 1 else cursor, Mark(m, ok, sends),
                   if ok then afterFull else nextFull)
  {
    NoRepeatOneMore(sent, cursor + 1);
  }

  ghost predicate MarkedState(s: State, chain: nat, truth: nat -> Block, m: Marks) {
    Marked(Numbers(s.sent, chain), Cursor(s, chain), m, !IsEmpty(truth(Cursor(s, chain) + 1)))
  }

  lemma RecordMarked(s: State, entry: Commit, ok: bool, sends: bool, chain: nat, truth: nat -> Block, m: Marks)
    requires MarkedState(s, chain, truth, m) && entry.requested == Cursor(s, entry.chain) + 1
    requires entry.chain == chain && sends ==> !IsEmpty(truth(entry.requested))
    requires entry.chain == chain && ok && !IsEmpty(truth(entry.requested)) ==> sends
    ensures MarkedState(Record(s, entry, ok, sends), chain, truth,
                        if entry.chain == chain then Mark(m, ok, sends) else m)
  {
    NumbersAppend(s.sent, entry, sends, chain);
    if entry.chain == chain {
      MarkedOneMore(Numbers(s.sent, chain), Cursor(s, chain), m, !IsEmpty(truth(entry.requested)), ok, sends,
                    !IsEmpty(truth(entry.requested + 1)));
    }
  }

  lemma AttemptMarked(t: State, c: nat, answers: nat -> Answer, entry: Commit, ok: bool, sends: bool,
                      chain: nat, truth: nat -> Block, m: Marks)
    requires MarkedState(t, chain, truth, m) && Attempted(t, c, answers, entry, ok, sends)
    requires c == chain ==> forall n :: Answers(answers(n), n, truth)
    ensures MarkedState(Record(t, entry, ok, sends), chain, truth, if c == chain then Mark(m, ok, sends) else m)
  {
    assert c == chain ==> Answers(answers(entry.requested), entry.requested, truth);
    RecordMarked(t, entry, ok, sends, chain, truth, m);
  }

  /** What every attempt keeps together with its marks, a visit keeps with its marks. */
  lemma {:induction false} VisitKeepsMarks(kept: (State, Marks) -> bool, s: State, c: nat, latest: nat,
                                           answers: nat -> Answer, m: Marks)
    requires kept(s, m)
    requires forall t, k, entry, ok, sends ::
               kept(t, k) && Attempted(t, c, answers, entry, ok, sends) ==>
                   kept(Record(t, entry, ok, sends), Mark(k, ok, sends))
    ensures kept(Visited(s, c, latest, answers), MarksOfVisit(s, c, latest, answers, m))
    decreases latest - Cursor(s, c)
  {
    if Cursor(s, c) < latest {
      var answer := answers(Cursor(s, c) + 1);
      var entry := CommitFor(c, Cursor(s, c) + 1, answer);
      assert Attempted(s, c, answers, entry, Succeeds(answer), Sends(answer));
      assert Next(s, c, answers) == Record(s, entry, Succeeds(answer), Sends(answer));
      if Succeeds(answer) {
        VisitKeepsMarks(kept, Next(s, c, answers), c, latest, answers, Mark(m, true, Sends(answer)));
      }
    }
  }

  lemma VisitMarked(s: State, latest: nat, answers: nat -> Answer, chain: nat, truth: nat -> Block, m: Marks)
    requires MarkedState(s, chain, truth, m) && forall n :: Answers(answers(n), n, truth)
    ensures MarkedState(Visited(s, chain, latest, answers), chain, truth, MarksOfVisit(s, chain, latest, answers, m))
  {
    var kept := (t: State, k: Marks) => MarkedState(t, chain, truth, k);
    forall t, k, entry, ok, sends | kept(t, k) && Attempted(t, chain, answers, entry, ok, sends)
      ensures kept(Record(t, entry, ok, sends), Mark(k, ok, sends))
    {
      AttemptMarked(t, chain, answers, entry, ok, sends, chain, truth, k);
    }
    VisitKeepsMarks(kept, s, chain, latest, answers, m);
  }

  lemma VisitElsewhere(s: State, c: nat, latest: nat, answers: nat -> Answer, chain: nat, truth: nat -> Block, m: Marks)
    requires MarkedState(s, chain, truth, m) && c != chain
    ensures MarkedState(Visited(s, c, latest, answers), chain, truth, m)
  {
    var kept := (t: State) => MarkedState(t, chain, truth, m);
    forall t, entry, ok, sends | kept(t) && Attempted(t, c, answers, entry, ok, sends)
      ensures kept(Record(t, entry, ok, sends))
    {
      AttemptMarked(t, c, answers, entry, ok, sends, chain, truth, m);
    }
    VisitKeeps(kept, s, c, latest, answers);
  }

  lemma {:induction false} RunMarked(run: seq<Stop>, chain: nat, truth: nat -> Block)
    requires RunAnswers(run, chain, truth)
    ensures MarkedState(AfterRun(INITIAL, run), chain, truth, MarksOfRun(run, chain))
    decreases |run|
  {
    if run != [] {
      var rest, stop := run[..|run| - 1], run[|run| - 1];
      RunMarked(rest, chain, truth);
      assert stop in run;
      var before, m := AfterRun(INITIAL, rest), MarksOfRun(rest, chain);
      if stop.visit.latest.Some? && stop.chain == chain {
        VisitMarked(before, stop.visit.latest.value, stop.visit.answers, chain, truth, m);
      } else if stop.visit.latest.Some? {
        VisitElsewhere(before, stop.chain, stop.visit.latest.value, stop.visit.answers, chain, truth, m);
      }
    }
  }

  /** In every run over a fixed chain, no block is sent twice if and only if no sending attempt follows
      one that was sent and not confirmed. */
  lemma SentOnceIff(run: seq<Stop>, chain: nat, truth: nat -> Block)
    requires RunAnswers(run, chain, truth)
    ensures NoRepeat(Numbers(AfterRun(INITIAL, run).sent, chain)) <==> !MarksOfRun(run, chain).resent
  {
    RunMarked(run, chain, truth);
  }

  // ---- The service ----

  class Committer {
    const chains: seq<nat>
    var lastProcessed: map<nat, nat>
    var processed: seq<Commit>
    var sent: seq<Commit>
    var confirmed: seq<Commit>

    function Abs(): State
      reads this
    {
      State(lastProcessed, processed, sent, confirmed)
    }

    constructor (chains: seq<nat>)
      ensures this.chains == chains && Abs() == INITIAL
    {
      this.chains := chains;
      lastProcessed, processed, sent, confirmed := map[], [], [], [];
    }

    /** Extracts the usable transactions; absent when the parent cannot be fetched. */
    method AggregateBlockData(chain: nat, requested: nat, block: Block, parent: Option<Block>)
        returns (r: Option<(Commit, nat)>)
      ensures r.Some? <==> (block.number > 0 ==> parent.Some?)
      ensures r.Some? ==> r.value.0 == CommitFor(chain, requested, Answer(Some(block), parent, NotSent))
      ensures r.Some? ==> r.value.0.newRoot == block.root && r.value.0.number == block.number
      ensures r.Some? ==> r.value.0.oldRoot == if block.number > 0 then parent.value.root else ZERO_HASH
      ensures r.Some? ==> r.value.1 == Usable(block) && (r.value.1 == 0 <==> IsEmpty(block))
    {
      var oldRoot := ZERO_HASH;
      if block.number > 0 {
        if parent.None? {
          return None;
        }
        oldRoot := parent.value.root;
      }
      var transactions := 0;
      for i := 0 to |block.senders|
        invariant transactions == multiset(block.senders[..i])[true]
      {
        assert block.senders[..i + 1] == block.senders[..i] + [block.senders[i]];
        if !block.senders[i] {
          continue;
        }
        transactions := transactions + 1;
      }
      assert block.senders[..|block.senders|] == block.senders;
      return Some((Commit(chain, requested, block.number, oldRoot, block.root), transactions));
    }

    /** Processes one block; all but the cursor is updated here. */
    method ProcessBlock(chain: nat, number: nat, answer: Answer) returns (ok: bool)
      modifies this
      ensures ok == Succeeds(answer)
      ensures lastProcessed == old(lastProcessed)
      ensures Abs() == Attempt(old(Abs()), chain, number, answer).(lastProcessed := lastProcessed)
    {
      if answer.block.None? {
        return false;
      }
      var data := AggregateBlockData(chain, number, answer.block.value, answer.parent);
      if data.None? {
        return false;
      }
      var commit := data.value.0;
      if data.value.1 == 0 {
        processed := processed + [commit];
        return true;
      }
      if answer.submission.NotSent? {
        return false;
      }
      sent := sent + [commit];
      if answer.submission.Unconfirmed? {
        return false;
      }
      confirmed := confirmed + [commit];
      processed := processed + [commit];
      return true;
    }

    /** One chain's part of a tick. */
    method VisitChain(chain: nat, visit: Visit)
      modifies this
      ensures Abs() == AfterVisit(old(Abs()), chain, visit)
    {
      if visit.latest.None? {
        return;
      }
      var latest := visit.latest.value;
      var last := if chain in lastProcessed then lastProcessed[chain] else 0;
      if latest <= last {
        return;
      }
      var number := last + 1;
      while number <= latest
        invariant number == Cursor(Abs(), chain) + 1 <= latest + 1
        invariant Visited(Abs(), chain, latest, visit.answers) == Visited(old(Abs()), chain, latest, visit.answers)
      {
        ghost var before := Abs();
        var ok := ProcessBlock(chain, number, visit.answers(number));
        if !ok {
          assert Abs() == Attempt(before, chain, number, visit.answers(number));
          break;
        }
        lastProcessed := lastProcessed[chain := number];
        assert Abs() == Attempt(before, chain, number, visit.answers(number));
        number := number + 1;
      }
    }

    /** One tick over all chains, refining the schedule of the laws above. */
    method ProcessNewBlocks(visits: seq<Visit>)
      requires |visits| == |chains|
      modifies this
      ensures Abs() == AfterRun(old(Abs()), seq(|chains|, i requires 0 <= i < |chains| => Stop(chains[i], visits[i])))
    {
      ghost var run := seq(|chains|, i requires 0 <= i < |chains| => Stop(chains[i], visits[i]));
      for i := 0 to |chains|
        invariant Abs() == AfterRun(old(Abs()), run[..i])
      {
        VisitChain(chains[i], visits[i]);
        assert run[..i + 1][..i] == run[..i];
      }
      assert run[..|chains|] == run;
    }
  }

  /** Ticks one after the other are one longer run, so the laws hold for any number of them. */
  lemma {:induction false} RunsCompose(s: State, first: seq<Stop>, second: seq<Stop>)
    ensures AfterRun(AfterRun(s, first), second) == AfterRun(s, first + second)
    decreases |second|
  {
    if second == [] {
      assert first + second == first;
    } else {
      var n := |second| - 1;
      assert (first + second)[..|first| + n] == first + second[..n];
      RunsCompose(s, first, second[..n]);
    }
  }
}
