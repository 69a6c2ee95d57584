/** Running the transactions of a block one after the other on one gas pool. */
module StateProcessor {
  import opened Common
  import opened Gas
  import opened Accounts
  import opened Authorizations
  import opened StateTransition
  import opened TransitionLaws

  datatype Receipt = Receipt(failed: bool, cumulativeGasUsed: nat, gasUsed: nat, blobGasUsed: nat)

  datatype ProcessResult = ProcessResult(receipts: seq<Receipt>, gasUsed: nat)

  function Msg(tx: Transaction, evm: Evm): Message
    requires tx.sender.Some?
  {
    TransactionToMessage(tx, evm.baseFee).value
  }

  /** Transactions whose sizes fit the source's integer types. */
  ghost predicate Sized(txs: seq<Transaction>, evm: Evm) {
    forall tx :: tx in txs && tx.sender.Some? ==> Derived(Msg(tx, evm), evm)
  }

  /** The state after the transactions; one with no sender changes nothing. */
  function Replay(w: World, txs: seq<Transaction>, evm: Evm): World {
    if txs == [] then w
    else
      var before, tx := Replay(w, txs[..|txs| - 1], evm), txs[|txs| - 1];
      if tx.sender.None? then before else evm.finalise(After(before, Msg(tx, evm), evm))
  }

  /** The gas charged for the transaction at the end of the list. */
  function LastUsed(w: World, txs: seq<Transaction>, evm: Evm): nat
    requires txs != []
  {
    var tx := txs[|txs| - 1];
    if tx.sender.None? then 0 else Used(Replay(w, txs[..|txs| - 1], evm), Msg(tx, evm), evm)
  }

  /** The gas it takes from the block. */
  function LastTaken(w: World, txs: seq<Transaction>, evm: Evm): nat
    requires txs != []
  {
    var tx := txs[|txs| - 1];
    if tx.sender.None? then 0 else BlockGas(Replay(w, txs[..|txs| - 1], evm), Msg(tx, evm), evm)
  }

  function GasTaken(w: World, txs: seq<Transaction>, evm: Evm): nat {
    if txs == [] then 0 else GasTaken(w, txs[..|txs| - 1], evm) + LastTaken(w, txs, evm)
  }

  /** The transaction at the end of the list is acceptable after the others, with the gas that is left. */
  predicate LastValid(w: World, txs: seq<Transaction>, evm: Evm, gasLimit: nat)
    requires txs != []
  {
    var rest, tx := txs[..|txs| - 1], txs[|txs| - 1];
    && tx.sender.Some?
    && Acceptable(Replay(w, rest, evm), Msg(tx, evm), evm)
    && GasTaken(w, rest, evm) + tx.gas <= gasLimit
  }

  /** A block of transactions each acceptable in its turn, with the gas that is then left. */
  predicate ValidBlock(w: World, txs: seq<Transaction>, evm: Evm, gasLimit: nat) {
    txs == [] || (ValidBlock(w, txs[..|txs| - 1], evm, gasLimit) && LastValid(w, txs, evm, gasLimit))
  }

  function SumGas(receipts: seq<Receipt>): nat {
    if receipts == [] then 0 else SumGas(receipts[..|receipts| - 1]) + receipts[|receipts| - 1].gasUsed
  }

  /** What a receipt says about the transaction it is for: its own gas is that of its execution in the
      state its predecessors leave, and its cumulative gas is the sum of all receipts so far. */
  ghost predicate ReceiptFor(receipts: seq<Receipt>, i: nat, w: World, txs: seq<Transaction>, evm: Evm)
    requires i < |receipts| == |txs|
  {
    && txs[i].sender.Some?
    && receipts[i].gasUsed == LastUsed(w, txs[..i + 1], evm)
    && receipts[i].cumulativeGasUsed == SumGas(receipts[..i + 1])
    && receipts[i].failed == Called(Replay(w, txs[..i], evm), Msg(txs[i], evm), evm).failed
    && receipts[i].blobGasUsed == BlobGas(Msg(txs[i], evm))
  }

  ghost predicate ReceiptsFor(receipts: seq<Receipt>, w: World, txs: seq<Transaction>, evm: Evm) {
    && |receipts| == |txs|
    && forall i :: 0 <= i < |receipts| ==> ReceiptFor(receipts, i, w, txs, evm)
  }

  // ---- Laws of a whole block ----

  /** The wei all transactions destroyed inside the interpreter and in the clean-up. */
  ghost function BurnedInBlock(w: World, txs: seq<Transaction>, evm: Evm): int {
    if txs == [] then 0
    else
      var before, tx := Replay(w, txs[..|txs| - 1], evm), txs[|txs| - 1];
      BurnedInBlock(w, txs[..|txs| - 1], evm)
      + if tx.sender.None? then 0
        else
          var after := After(before, Msg(tx, evm), evm);
          Burned(before, Msg(tx, evm), evm) + Total(after) - Total(evm.finalise(after))
  }

  /** Base fees and blob fees, which leave the world. */
  function FeesBurned(w: World, txs: seq<Transaction>, evm: Evm): nat {
    if txs == [] then 0
    else FeesBurned(w, txs[..|txs| - 1], evm) + BaseFeeOn(LastUsed(w, txs, evm), evm) + LastBlobFee(txs, evm)
  }

  function LastBlobFee(txs: seq<Transaction>, evm: Evm): nat
    requires txs != []
  {
    var tx := txs[|txs| - 1];
    if tx.sender.None? then 0 else BlobFee(Msg(tx, evm), evm)
  }

  /** Over any valid block the wei of all accounts drop by exactly the base fees and blob fees, plus
      what the interpreter destroyed; so the total never grows, and if the interpreter destroys nothing
      the fees are the whole difference. */
  lemma {:induction false} BlockConservesWei(w: World, txs: seq<Transaction>, evm: Evm, gasLimit: nat)
    requires Lawful(evm) && Sized(txs, evm) && ValidBlock(w, txs, evm, gasLimit) && Total(w) < WORD256
    ensures Total(w) == Total(Replay(w, txs, evm)) + FeesBurned(w, txs, evm) + BurnedInBlock(w, txs, evm)
    ensures BurnedInBlock(w, txs, evm) >= 0
    ensures Conserving(evm) ==> BurnedInBlock(w, txs, evm) == 0
    decreases |txs|
  {
    if txs != [] {
      var rest, tx := txs[..|txs| - 1], txs[|txs| - 1];
      BlockConservesWei(w, rest, evm, gasLimit);
      WeiIsConserved(Replay(w, rest, evm), Msg(tx, evm), evm);
    }
  }

  lemma LastGas(w: World, txs: seq<Transaction>, evm: Evm, gasLimit: nat)
    requires txs != [] && Lawful(evm) && ValidBlock(w, txs, evm, gasLimit)
    ensures LastUsed(w, txs, evm) <= LastTaken(w, txs, evm) <= txs[|txs| - 1].gas
    ensures !evm.rules.amsterdam ==> LastUsed(w, txs, evm) == LastTaken(w, txs, evm)
    ensures txs[|txs| - 1].sender.Some? && Floor(Msg(txs[|txs| - 1], evm), evm) <= LastUsed(w, txs, evm)
  {
    GasBounds(Replay(w, txs[..|txs| - 1], evm), Msg(txs[|txs| - 1], evm), evm);
  }

  /** Every transaction starts with no refund, since the clean-up before it reset the counter ... */
  lemma {:induction false} RefundIsReset(w: World, txs: seq<Transaction>, evm: Evm)
    requires Lawful(evm) && w.refund == 0
    ensures Replay(w, txs, evm).refund == 0
    decreases |txs|
  {
    if txs != [] {
      RefundIsReset(w, txs[..|txs| - 1], evm);
    }
  }

  /** ... so in a valid block no transaction gets more back for its authorizations than they cost it. */
  lemma BlockRefundsPaid(w: World, txs: seq<Transaction>, evm: Evm, gasLimit: nat, i: nat)
    requires Lawful(evm) && Sized(txs, evm) && ValidBlock(w, txs, evm, gasLimit) && w.refund == 0 && i < |txs|
    ensures txs[i].sender.Some?
    ensures var before, msg := Replay(w, txs[..i], evm), Msg(txs[i], evm);
            CallState(before, msg, evm).refund + EXISTING_REFUND * AuthCount(msg)
            <= ListCharge(None, AuthCount(msg)) <= Intrinsic(msg, evm)
  {
    EachIsValid(w, txs, evm, gasLimit, i);
    SamePrefix(txs[..i + 1], txs, i);
    RefundIsReset(w, txs[..i], evm);
    AuthorizationRefundsPaid(Replay(w, txs[..i], evm), Msg(txs[i], evm), evm);
  }

  /** The gas taken from the block is within the limit and at least the gas charged; before Amsterdam
      the two are the same. */
  lemma {:induction false} BlockGasLaw(w: World, txs: seq<Transaction>, evm: Evm, gasLimit: nat, receipts: seq<Receipt>)
    requires Lawful(evm) && ValidBlock(w, txs, evm, gasLimit) && ReceiptsFor(receipts, w, txs, evm)
    ensures SumGas(receipts) <= GasTaken(w, txs, evm) <= gasLimit
    ensures !evm.rules.amsterdam ==> SumGas(receipts) == GasTaken(w, txs, evm)
    decreases |txs|
  {
    if txs != [] {
      var n := |txs| - 1;
      ReceiptsOfPrefix(receipts, w, txs, evm);
      BlockGasLaw(w, txs[..n], evm, gasLimit, receipts[..n]);
      LastGas(w, txs, evm, gasLimit);
      assert ReceiptFor(receipts, n, w, txs, evm);
      assert txs[..n + 1] == txs;
    }
  }

  lemma SamePrefix<T>(s: seq<T>, t: seq<T>, n: nat)
    requires n <= |s| && s <= t
    ensures s[..n] == t[..n]
  {
  }

  /** A receipt depends on the lists up to it only. */
  lemma ReceiptForSame(receipts: seq<Receipt>, txs: seq<Transaction>, more: seq<Receipt>, moreTxs: seq<Transaction>,
                       i: nat, w: World, evm: Evm)
    requires i < |receipts| == |txs| && receipts <= more && txs <= moreTxs && |more| == |moreTxs|
    ensures ReceiptFor(receipts, i, w, txs, evm) <==> ReceiptFor(more, i, w, moreTxs, evm)
  {
    SamePrefix(receipts, more, i + 1);
    SamePrefix(txs, moreTxs, i + 1);
    SamePrefix(txs, moreTxs, i);
  }

  lemma ReceiptsOfPrefix(receipts: seq<Receipt>, w: World, txs: seq<Transaction>, evm: Evm)
    requires txs != [] && ReceiptsFor(receipts, w, txs, evm)
    ensures ReceiptsFor(receipts[..|txs| - 1], w, txs[..|txs| - 1], evm)
  {
    var n := |txs| - 1;
    forall i | 0 <= i < n ensures ReceiptFor(receipts[..n], i, w, txs[..n], evm) {
      ReceiptForSame(receipts[..n], txs[..n], receipts, txs, i, w, evm);
      assert ReceiptFor(receipts, i, w, txs, evm);
    }
  }

  /** A receipt's gas is within the transaction's limit, not below the data floor, and the cumulative
      gas is within the block's limit. */
  ghost predicate WithinBounds(receipt: Receipt, tx: Transaction, evm: Evm, gasLimit: nat) {
    && tx.sender.Some?
    && Floor(Msg(tx, evm), evm) <= receipt.gasUsed <= tx.gas
    && receipt.gasUsed <= receipt.cumulativeGasUsed <= gasLimit
  }

  lemma LastReceiptBounds(w: World, txs: seq<Transaction>, evm: Evm, gasLimit: nat, receipts: seq<Receipt>)
    requires Lawful(evm) && ValidBlock(w, txs, evm, gasLimit) && ReceiptsFor(receipts, w, txs, evm) && txs != []
    ensures WithinBounds(receipts[|txs| - 1], txs[|txs| - 1], evm, gasLimit)
  {
    var n := |txs| - 1;
    assert ReceiptFor(receipts, n, w, txs, evm);
    assert txs[..n + 1] == txs && receipts[..n + 1] == receipts;
    LastGas(w, txs, evm, gasLimit);
    BlockGasLaw(w, txs, evm, gasLimit, receipts);
  }

  lemma {:induction false} ReceiptBounds(w: World, txs: seq<Transaction>, evm: Evm, gasLimit: nat,
                                         receipts: seq<Receipt>, i: nat)
    requires Lawful(evm) && ValidBlock(w, txs, evm, gasLimit) && ReceiptsFor(receipts, w, txs, evm) && i < |txs|
    ensures WithinBounds(receipts[i], txs[i], evm, gasLimit)
    decreases |txs|
  {
    var n := |txs| - 1;
    if i < n {
      ReceiptsOfPrefix(receipts, w, txs, evm);
      ReceiptBounds(w, txs[..n], evm, gasLimit, receipts[..n], i);
    } else {
      LastReceiptBounds(w, txs, evm, gasLimit, receipts);
    }
  }

  lemma {:induction false} EachIsValid(w: World, txs: seq<Transaction>, evm: Evm, gasLimit: nat, i: nat)
    requires ValidBlock(w, txs, evm, gasLimit) && i < |txs|
    ensures LastValid(w, txs[..i + 1], evm, gasLimit)
    decreases |txs|
  {
    if i + 1 < |txs| {
      EachIsValid(w, txs[..|txs| - 1], evm, gasLimit, i);
      SamePrefix(txs[..|txs| - 1], txs, i + 1);
    } else {
      assert txs[..i + 1] == txs;
    }
  }

  lemma {:induction false} PrefixIsValid(w: World, txs: seq<Transaction>, evm: Evm, gasLimit: nat, n: nat)
    requires ValidBlock(w, txs, evm, gasLimit) && n <= |txs|
    ensures ValidBlock(w, txs[..n], evm, gasLimit)
    decreases |txs|
  {
    if n < |txs| {
      PrefixIsValid(w, txs[..|txs| - 1], evm, gasLimit, n);
      SamePrefix(txs[..|txs| - 1], txs, n);
    } else {
      assert txs[..n] == txs;
    }
  }

  /** One transaction of a valid block, in the state before it. */
  lemma TransactionInBlock(w: World, txs: seq<Transaction>, evm: Evm, gasLimit: nat, i: nat)
    requires Lawful(evm) && Sized(txs, evm) && ValidBlock(w, txs, evm, gasLimit) && Total(w) < WORD256 && i < |txs|
    ensures txs[i].sender.Some?
    ensures var before, msg := Replay(w, txs[..i], evm), Msg(txs[i], evm);
            && Acceptable(before, msg, evm) && Derived(msg, evm) && Total(before) < WORD256
            && Replay(w, txs[..i + 1], evm) == evm.finalise(After(before, msg, evm))
  {
    EachIsValid(w, txs, evm, gasLimit, i);
    SamePrefix(txs[..i + 1], txs, i);
    PrefixIsValid(w, txs, evm, gasLimit, i);
    BlockConservesWei(w, txs[..i], evm, gasLimit);
    assert txs[i] in txs;
  }

  /** What one transaction does to the nonces, from `before` to `after`. */
  ghost predicate UsesNonce(before: World, after: World, tx: Transaction, a: Address) {
    && tx.sender.Some?
    && Get(before, tx.sender.value).nonce == tx.nonce < Get(after, tx.sender.value).nonce
    && Get(before, a).nonce <= Get(after, a).nonce
  }

  lemma TransactionNonces(before: World, tx: Transaction, evm: Evm, a: Address)
    requires tx.sender.Some? && Lawful(evm) && KeepsNonces(evm) && Total(before) < WORD256
    requires Acceptable(before, Msg(tx, evm), evm) && Derived(Msg(tx, evm), evm)
    ensures UsesNonce(before, evm.finalise(After(before, Msg(tx, evm), evm)), tx, a)
  {
    TransactionUsesNonce(before, Msg(tx, evm), evm, a);
  }

  lemma BlockStepNonces(w: World, txs: seq<Transaction>, evm: Evm, gasLimit: nat, i: nat, a: Address)
    requires Lawful(evm) && Sized(txs, evm) && ValidBlock(w, txs, evm, gasLimit) && Total(w) < WORD256
    requires KeepsNonces(evm) && i < |txs|
    ensures UsesNonce(Replay(w, txs[..i], evm), Replay(w, txs[..i + 1], evm), txs[i], a)
  {
    TransactionInBlock(w, txs, evm, gasLimit, i);
    TransactionNonces(Replay(w, txs[..i], evm), txs[i], evm, a);
  }

  /** The nonce of an account after the first `n` transactions of a block. */
  function NonceAfter(w: World, txs: seq<Transaction>, evm: Evm, a: Address, n: nat): nat
    requires n <= |txs|
  {
    Get(Replay(w, txs[..n], evm), a).nonce
  }

  ghost predicate NonceKept(w: World, txs: seq<Transaction>, evm: Evm, a: Address, n: nat) {
    n < |txs| ==> NonceAfter(w, txs, evm, a, n) <= NonceAfter(w, txs, evm, a, n + 1)
  }

  ghost predicate StepsUp(f: nat -> nat, k: nat) {
    f(k) <= f(k + 1)
  }

  lemma {:induction false} StepsAddUp(f: nat -> nat, i: nat, j: nat)
    requires i <= j && forall k: nat :: i <= k < j ==> StepsUp(f, k)
    ensures f(i) <= f(j)
    decreases j - i
  {
    if i < j {
      StepsAddUp(f, i, j - 1);
      assert StepsUp(f, j - 1);
    }
  }

  lemma NoncesAddUp(w: World, txs: seq<Transaction>, evm: Evm, a: Address, i: nat, j: nat)
    requires i <= j <= |txs| && forall k: nat :: i <= k < j ==> NonceKept(w, txs, evm, a, k)
    ensures NonceAfter(w, txs, evm, a, i) <= NonceAfter(w, txs, evm, a, j)
  {
    var f := (n: nat) => if n <= |txs| then NonceAfter(w, txs, evm, a, n) else 0;
    forall k: nat | i <= k < j ensures StepsUp(f, k) {
      assert NonceKept(w, txs, evm, a, k);
    }
    StepsAddUp(f, i, j);
  }

  lemma NoncesRise(w: World, txs: seq<Transaction>, evm: Evm, gasLimit: nat, i: nat, j: nat, a: Address)
    requires Lawful(evm) && Sized(txs, evm) && ValidBlock(w, txs, evm, gasLimit) && Total(w) < WORD256
    requires KeepsNonces(evm) && i <= j <= |txs|
    ensures NonceAfter(w, txs, evm, a, i) <= NonceAfter(w, txs, evm, a, j)
  {
    forall k: nat | i <= k < j ensures NonceKept(w, txs, evm, a, k) {
      BlockStepNonces(w, txs, evm, gasLimit, k, a);
    }
    NoncesAddUp(w, txs, evm, a, i, j);
  }

  /** In a valid block the transactions of one sender have rising nonces, so none is there twice. */
  lemma SenderNoncesRise(w: World, txs: seq<Transaction>, evm: Evm, gasLimit: nat, i: nat, j: nat)
    requires Lawful(evm) && Sized(txs, evm) && ValidBlock(w, txs, evm, gasLimit) && Total(w) < WORD256
    requires KeepsNonces(evm) && i < j < |txs| && txs[i].sender == txs[j].sender
    ensures txs[i].nonce < txs[j].nonce
  {
    TransactionInBlock(w, txs, evm, gasLimit, i);
    var a := txs[i].sender.value;
    BlockStepNonces(w, txs, evm, gasLimit, i, a);
    BlockStepNonces(w, txs, evm, gasLimit, j, a);
    NoncesRise(w, txs, evm, gasLimit, i + 1, j, a);
  }

  // ---- The loop ----

  /** A message that can run with the gas left in the block. */
  predicate Fits(w: World, msg: Message, evm: Evm, remaining: nat) {
    Acceptable(w, msg, evm) && msg.gasLimit <= remaining
  }

  /** The gas left in the block and the gas charged so far. */
  datatype Meter = Meter(remaining: int, cumulative: nat)

  /** What one transaction leaves behind, given where it started. */
  ghost predicate Ran(w: World, msg: Message, evm: Evm, before: Meter, receipt: Receipt, world: World, after: Meter) {
    && Fits(w, msg, evm, if before.remaining >= 0 then before.remaining else 0)
    && world == evm.finalise(After(w, msg, evm))
    && after == Meter(before.remaining - BlockGas(w, msg, evm), before.cumulative + Used(w, msg, evm))
    && receipt == Receipt(Called(w, msg, evm).failed, after.cumulative, Used(w, msg, evm), BlobGas(msg))
  }

  /** Applies one transaction and writes its receipt. */
  method ApplyTransaction(msg: Message, gp: GasPool, state: StateDB, evm: Evm) returns (r: Result<Receipt, Error>)
    requires gp.Valid() && Lawful(evm) && Derived(msg, evm) && Total(state.world) < WORD256
    modifies gp, state
    ensures r.Ok? <==> Fits(old(state.world), msg, evm, old(gp.remaining))
    ensures r.Ok? ==> gp.Valid() && gp.initial == old(gp.initial)
    ensures r.Ok? ==> Ran(old(state.world), msg, evm, Meter(old(gp.remaining), old(gp.cumulativeUsed)), r.value,
                          state.world, Meter(gp.remaining, gp.cumulativeUsed))
  {
    var st := new Transition(evm, msg, gp, state);
    var result := st.Execute();
    if result.Err? {
      return Err(result.error);
    }
    state.world := evm.finalise(state.world);
    return Ok(Receipt(result.value.failed, gp.cumulativeUsed, result.value.usedGas, BlobGas(msg)));
  }

  /** Turns a transaction into a message and applies it. */
  method ProcessNext(tx: Transaction, gp: GasPool, state: StateDB, evm: Evm) returns (r: Result<Receipt, Error>)
    requires Lawful(evm) && (tx.sender.Some? ==> Derived(Msg(tx, evm), evm)) && Total(state.world) < WORD256
             && gp.Valid()
    modifies gp, state
    ensures r.Ok? <==> tx.sender.Some? && Fits(old(state.world), Msg(tx, evm), evm, old(gp.remaining))
    ensures r.Ok? ==> gp.Valid() && gp.initial == old(gp.initial)
    ensures r.Ok? ==> Ran(old(state.world), Msg(tx, evm), evm, Meter(old(gp.remaining), old(gp.cumulativeUsed)),
                          r.value, state.world, Meter(gp.remaining, gp.cumulativeUsed))
  {
    var msg := TransactionToMessage(tx, evm.baseFee);
    if msg.Err? {
      return Err(msg.error);
    }
    r := ApplyTransaction(msg.value, gp, state, evm);
  }

  /** Processes a block. It succeeds exactly on valid blocks, and then the state, the receipts and the
      gas are those of the transactions run in order. The pool never underflows. */
  method Process(txs: seq<Transaction>, gasLimit: Word64, state: StateDB, evm: Evm)
      returns (r: Result<ProcessResult, Error>)
    requires Lawful(evm) && Sized(txs, evm) && Total(state.world) < WORD256
    modifies state
    ensures r.Ok? <==> ValidBlock(old(state.world), txs, evm, gasLimit)
    ensures r.Ok? ==> state.world == Replay(old(state.world), txs, evm)
    ensures r.Ok? ==> ReceiptsFor(r.value.receipts, old(state.world), txs, evm)
    ensures r.Ok? ==> r.value.gasUsed == GasTaken(old(state.world), txs, evm)
  {
    ghost var w := state.world;
    var receipts: seq<Receipt> := [];
    var gp := new GasPool(gasLimit);
    for i := 0 to |txs|
      invariant gp.Valid() && gp.initial == gasLimit && fresh(gp)
      invariant Progress(w, txs[..i], evm, gasLimit, state.world, receipts, Meter(gp.remaining, gp.cumulativeUsed))
    {
      ghost var before, meter := state.world, Meter(gp.remaining, gp.cumulativeUsed);
      var receipt := ProcessNext(txs[i], gp, state, evm);
      if receipt.Err? {
        NotValid(w, txs, i, evm, gasLimit, before, receipts, meter);
        return Err(receipt.error);
      }
      ProgressStep(w, txs, i, evm, gasLimit, before, receipts, meter, receipt.value, state.world,
                   Meter(gp.remaining, gp.cumulativeUsed));
      receipts := receipts + [receipt.value];
    }
    assert txs[..|txs|] == txs;
    var used := gp.Used();
    return Ok(ProcessResult(receipts, used));
  }

  /** Where the loop stands after the transactions in `done`. */
  ghost predicate Progress(w: World, done: seq<Transaction>, evm: Evm, gasLimit: nat,
                           world: World, receipts: seq<Receipt>, meter: Meter)
  {
    && ValidBlock(w, done, evm, gasLimit)
    && world == Replay(w, done, evm)
    && Total(world) < WORD256
    && ReceiptsFor(receipts, w, done, evm)
    && meter == Meter(gasLimit - GasTaken(w, done, evm), SumGas(receipts))
  }

  lemma ProgressStep(w: World, txs: seq<Transaction>, i: nat, evm: Evm, gasLimit: nat,
                     world: World, receipts: seq<Receipt>, meter: Meter, receipt: Receipt, world': World, meter': Meter)
    requires Lawful(evm) && Sized(txs, evm) && Total(w) < WORD256
    requires i < |txs| && txs[i].sender.Some?
    requires Progress(w, txs[..i], evm, gasLimit, world, receipts, meter) && meter.remaining >= 0
    requires Ran(world, Msg(txs[i], evm), evm, meter, receipt, world', meter')
    ensures Progress(w, txs[..i + 1], evm, gasLimit, world', receipts + [receipt], meter')
  {
    var done := txs[..i + 1];
    SamePrefix(done, txs, i);
    AppendReceipt(receipts, receipt, w, done, evm);
    BlockConservesWei(w, done, evm, gasLimit);
  }

  /** A block whose transaction `i` fails is not valid. */
  lemma NotValid(w: World, txs: seq<Transaction>, i: nat, evm: Evm, gasLimit: nat, world: World,
                 receipts: seq<Receipt>, meter: Meter)
    requires i < |txs| && Progress(w, txs[..i], evm, gasLimit, world, receipts, meter) && meter.remaining >= 0
    requires !(txs[i].sender.Some? && Fits(world, Msg(txs[i], evm), evm, meter.remaining))
    ensures !ValidBlock(w, txs, evm, gasLimit)
  {
    if ValidBlock(w, txs, evm, gasLimit) {
      EachIsValid(w, txs, evm, gasLimit, i);
      SamePrefix(txs[..i + 1], txs, i);
    }
  }

  lemma AppendReceipt(receipts: seq<Receipt>, receipt: Receipt, w: World, txs: seq<Transaction>, evm: Evm)
    requires txs != [] && ReceiptsFor(receipts, w, txs[..|txs| - 1], evm) && txs[|txs| - 1].sender.Some?
    requires var before, msg := Replay(w, txs[..|txs| - 1], evm), Msg(txs[|txs| - 1], evm);
             receipt == Receipt(Called(before, msg, evm).failed, SumGas(receipts) + receipt.gasUsed,
                                Used(before, msg, evm), BlobGas(msg))
    ensures ReceiptsFor(receipts + [receipt], w, txs, evm)
    ensures SumGas(receipts + [receipt]) == SumGas(receipts) + receipt.gasUsed
  {
    var n, all := |txs| - 1, receipts + [receipt];
    assert all[..n] == receipts && all[..n + 1] == all && txs[..n + 1] == txs;
    forall i | 0 <= i < n ensures ReceiptFor(all, i, w, txs, evm) {
      ReceiptForSame(receipts, txs[..n], all, txs, i, w, evm);
      assert ReceiptFor(receipts, i, w, txs[..n], evm);
    }
    assert ReceiptFor(all, n, w, txs, evm);
  }
}
