/** Applying one transaction: checks, gas purchase, the EVM call, refunds and fees. */
module StateTransition {
  import opened Common
  import opened Gas
  import opened Accounts
  import opened Authorizations

  const MAX_TX_GAS: nat := 0x100_0000
  const BLOB_TX_MAX_BLOBS: nat := 6
  const BLOB_GAS_PER_BLOB: nat := 0x2_0000
  const MAX_INIT_CODE_SIZE: nat := 49152

  datatype Transaction = Transaction(
    sender: Option<Address>, nonce: Word64, gas: Word64, gasFeeCap: nat, gasTipCap: nat, to: Option<Address>,
    value: nat, data: seq<Byte>, accessList: Option<AccessList>, blobHashes: Option<seq<seq<Byte>>>,
    blobGasFeeCap: nat, authorizations: Option<seq<Authorization>>)

  datatype Message = Message(
    from: Address, to: Option<Address>, nonce: Word64, value: nat, gasLimit: Word64, gasPrice: nat,
    gasFeeCap: nat, gasTipCap: nat, data: seq<Byte>, accessList: Option<AccessList>,
    blobHashes: Option<seq<seq<Byte>>>, blobGasFeeCap: nat, authorizations: Option<seq<Authorization>>)

  datatype Rules = Rules(homestead: bool, istanbul: bool, london: bool, shanghai: bool, cancun: bool,
                         prague: bool, osaka: bool, amsterdam: bool)

  datatype Outcome = Outcome(world: World, gasLeft: nat, failed: bool)

  /** The block context, the fork rules, and the interpreter as a function of the state, the message
      and the gas it is given. `finalise` is the state clean-up after a transaction. */
  datatype Evm = Evm(rules: Rules, chainId: nat, baseFee: Option<nat>, blobBaseFee: nat, coinbase: Address,
                     run: (World, Message, nat) -> Outcome, finalise: World -> World)

  /** All that is assumed of the interpreter: it returns no more gas than it got and creates no wei;
      the clean-up creates none either and resets the refund counter. A header carries a base fee exactly
      from London on. */
  ghost predicate Lawful(evm: Evm) {
    && (evm.rules.london <==> evm.baseFee.Some?)
    && (forall w, m, g :: evm.run(w, m, g).gasLeft <= g && Total(evm.run(w, m, g).world) <= Total(w))
    && (forall w :: Total(evm.finalise(w)) <= Total(w) && evm.finalise(w).refund == 0)
  }

  /** An interpreter that destroys no wei either. */
  ghost predicate Conserving(evm: Evm) {
    && (forall w, m, g :: Total(evm.run(w, m, g).world) == Total(w))
    && (forall w :: Total(evm.finalise(w)) == Total(w))
  }

  // ---- Prices ----

  function Less(a: nat, b: nat): nat { if a >= b then a - b else 0 }

  /** The price per gas: the fee cap before London, then base fee plus tip, up to the cap. */
  function EffectivePrice(feeCap: nat, tipCap: nat, baseFee: Option<nat>): (price: nat)
    ensures price <= feeCap && (baseFee.None? ==> price == feeCap)
    ensures baseFee.Some? ==> price <= baseFee.value + tipCap && (price == feeCap || price == baseFee.value + tipCap)
  {
    if baseFee.Some? then Min(tipCap + baseFee.value, feeCap) else feeCap
  }

  /** The transaction that a message was made from. */
  function MessageToTransaction(msg: Message): Transaction {
    Transaction(Some(msg.from), msg.nonce, msg.gasLimit, msg.gasFeeCap, msg.gasTipCap, msg.to, msg.value, msg.data,
                msg.accessList, msg.blobHashes, msg.blobGasFeeCap, msg.authorizations)
  }

  function TransactionToMessage(tx: Transaction, baseFee: Option<nat>): (r: Result<Message, Error>)
    ensures r.Ok? <==> tx.sender.Some?
    ensures r.Ok? ==> MessageToTransaction(r.value) == tx
    ensures r.Ok? ==> r.value.gasPrice == EffectivePrice(r.value.gasFeeCap, r.value.gasTipCap, baseFee)
  {
    if tx.sender.None? then Err(InvalidSender)
    else Ok(Message(tx.sender.value, tx.to, tx.nonce, tx.value, tx.gas,
                    EffectivePrice(tx.gasFeeCap, tx.gasTipCap, baseFee), tx.gasFeeCap, tx.gasTipCap, tx.data,
                    tx.accessList, tx.blobHashes, tx.blobGasFeeCap, tx.authorizations))
  }

  function BlobGas(msg: Message): nat {
    if msg.blobHashes.Some? then |msg.blobHashes.value| * BLOB_GAS_PER_BLOB % WORD64 else 0
  }

  function BlobFee(msg: Message, evm: Evm): nat {
    if evm.rules.cancun then BlobGas(msg) * evm.blobBaseFee else 0
  }

  /** What the sender must own: gas and blobs at their caps, and the value. */
  function MaxCost(msg: Message, evm: Evm): nat {
    msg.gasLimit * msg.gasFeeCap + msg.value + if evm.rules.cancun then BlobGas(msg) * msg.blobGasFeeCap else 0
  }

  /** What the sender pays up front: gas and blobs at their actual prices. */
  function Upfront(msg: Message, evm: Evm): nat {
    msg.gasLimit * msg.gasPrice + BlobFee(msg, evm)
  }

  function BaseFee(evm: Evm): nat {
    if evm.baseFee.Some? then evm.baseFee.value else 0
  }

  function BaseFeeOn(gas: nat, evm: Evm): nat {
    gas * BaseFee(evm)
  }

  lemma ProductMonotone(n: nat, a: nat, b: nat)
    requires a <= b
    ensures n * a <= n * b
  {
  }

  /** Whoever can pay the caps can pay the price and still send the value. */
  lemma UpfrontIsCovered(msg: Message, evm: Evm)
    requires msg.gasPrice <= msg.gasFeeCap
    requires evm.rules.cancun && BlobGas(msg) > 0 ==> evm.blobBaseFee <= msg.blobGasFeeCap
    ensures Upfront(msg, evm) + msg.value <= MaxCost(msg, evm)
  {
    ProductMonotone(msg.gasLimit, msg.gasPrice, msg.gasFeeCap);
    if evm.rules.cancun && BlobGas(msg) > 0 {
      ProductMonotone(BlobGas(msg), evm.blobBaseFee, msg.blobGasFeeCap);
    }
  }

  // ---- Admission ----

  predicate BlobHashesValid(hashes: seq<seq<Byte>>) {
    forall h :: h in hashes ==> |h| == 32 && h[0] == 1
  }

  /** The rule an error names is really broken. */
  predicate Violates(error: Error, w: World, msg: Message, evm: Evm) {
    match error
    case NonceTooHigh => Get(w, msg.from).nonce < msg.nonce
    case NonceTooLow => Get(w, msg.from).nonce > msg.nonce
    case NonceMax => Get(w, msg.from).nonce == MAX64
    case GasLimitTooHigh => evm.rules.osaka && msg.gasLimit > MAX_TX_GAS
    case SenderNoEOA => !IsEOA(w, msg.from)
    case FeeCapVeryHigh => evm.rules.london && msg.gasFeeCap >= WORD256
    case TipVeryHigh => evm.rules.london && msg.gasTipCap >= WORD256
    case TipAboveFeeCap => evm.rules.london && msg.gasTipCap > msg.gasFeeCap
    case FeeCapTooLow => evm.rules.london && msg.gasFeeCap < BaseFee(evm)
    case BlobTxCreate => msg.blobHashes.Some? && msg.to.None?
    case MissingBlobHashes => msg.blobHashes == Some([])
    case TooManyBlobs => evm.rules.osaka && msg.blobHashes.Some? && |msg.blobHashes.value| > BLOB_TX_MAX_BLOBS
    case BlobHashVersion => msg.blobHashes.Some? && !BlobHashesValid(msg.blobHashes.value)
    case BlobFeeCapTooLow => evm.rules.cancun && BlobGas(msg) > 0 && msg.blobGasFeeCap < evm.blobBaseFee
    case SetCodeTxCreate => msg.authorizations.Some? && msg.to.None?
    case EmptyAuthList => msg.authorizations == Some([])
    case InsufficientFunds => Get(w, msg.from).balance < MaxCost(msg, evm) || MaxCost(msg, evm) >= WORD256
    case GasUintOverflow => DataGas(msg, evm) > MAX64 || (evm.rules.prague && FloorDataGas(msg.data).Err?)
    case IntrinsicGasTooLow => msg.gasLimit < Intrinsic(msg, evm)
    case FloorDataGasTooLow => evm.rules.prague && FloorDataGas(msg.data).Ok?
      && msg.gasLimit < FloorDataGas(msg.data).value
    case MaxInitCodeSizeExceeded => evm.rules.shanghai && msg.to.None? && |msg.data| > MAX_INIT_CODE_SIZE
    case _ => false
  }

  function AuthCount(msg: Message): nat {
    if msg.authorizations.Some? then |msg.authorizations.value| else 0
  }

  function DataGas(msg: Message, evm: Evm): nat {
    DataCharge(msg.data, msg.to.None?, evm.rules.homestead, evm.rules.istanbul, evm.rules.shanghai)
  }

  function Intrinsic(msg: Message, evm: Evm): nat {
    Add64(DataGas(msg, evm), ListCharge(msg.accessList, AuthCount(msg)))
  }

  function Floor(msg: Message, evm: Evm): nat {
    if evm.rules.prague && FloorDataGas(msg.data).Ok? then FloorDataGas(msg.data).value else 0
  }

  /** Every rule about the message and its sender, before any gas is bought. */
  predicate Admitted(w: World, msg: Message, evm: Evm) {
    && Get(w, msg.from).nonce == msg.nonce < MAX64
    && (evm.rules.osaka ==> msg.gasLimit <= MAX_TX_GAS)
    && IsEOA(w, msg.from)
    && (evm.rules.london ==> msg.gasTipCap <= msg.gasFeeCap < WORD256 && BaseFee(evm) <= msg.gasFeeCap)
    && (msg.blobHashes.Some? ==>
          && msg.to.Some?
          && 0 < |msg.blobHashes.value|
          && (evm.rules.osaka ==> |msg.blobHashes.value| <= BLOB_TX_MAX_BLOBS)
          && BlobHashesValid(msg.blobHashes.value))
    && (evm.rules.cancun && BlobGas(msg) > 0 ==> evm.blobBaseFee <= msg.blobGasFeeCap)
    && (msg.authorizations.Some? ==> msg.to.Some? && 0 < |msg.authorizations.value|)
  }

  predicate Funded(w: World, msg: Message, evm: Evm) {
    MaxCost(msg, evm) <= Get(w, msg.from).balance && MaxCost(msg, evm) < WORD256
  }

  /** The rules checked once the gas is bought. */
  predicate Chargeable(msg: Message, evm: Evm) {
    && DataGas(msg, evm) <= MAX64
    && Intrinsic(msg, evm) <= msg.gasLimit
    && (evm.rules.prague ==> FloorDataGas(msg.data).Ok? && FloorDataGas(msg.data).value <= msg.gasLimit)
    && (evm.rules.shanghai && msg.to.None? ==> |msg.data| <= MAX_INIT_CODE_SIZE)
  }

  /** A transaction that can be part of a block. */
  predicate Acceptable(w: World, msg: Message, evm: Evm) {
    Admitted(w, msg, evm) && Funded(w, msg, evm) && Chargeable(msg, evm)
  }

  /** No slice is longer than the 48-bit address space. */
  const MAX_LENGTH: nat := 0x1_0000_0000_0000

  /** What a message owes to its transaction: the effective price, and sizes that fit in memory. */
  ghost predicate Derived(msg: Message, evm: Evm) {
    && msg.gasPrice == EffectivePrice(msg.gasFeeCap, msg.gasTipCap, evm.baseFee)
    && |msg.data| <= MAX_LENGTH
    && AuthCount(msg) <= MAX_LENGTH
    && (msg.accessList.Some? ==> msg.accessList.value.addresses + msg.accessList.value.storageKeys <= MAX_LENGTH)
  }

  /** Then the charges are far from overflowing, so a message is charged what it owes. */
  lemma ChargesFit(msg: Message, evm: Evm)
    requires Derived(msg, evm)
    ensures DataGas(msg, evm) + ListCharge(msg.accessList, AuthCount(msg)) <= MAX64
    ensures Intrinsic(msg, evm) == DataGas(msg, evm) + ListCharge(msg.accessList, AuthCount(msg)) >= TX_GAS
  {
    WrapOnce(DataGas(msg, evm) + ListCharge(msg.accessList, AuthCount(msg)), 0);
  }

  // ---- What a transaction does ----

  function Bought(w: World, msg: Message, evm: Evm): World {
    SubBalance(w, msg.from, Upfront(msg, evm))
  }

  /** The state handed to the interpreter, once gas is bought. */
  function Prepared(bought: World, msg: Message, evm: Evm): World {
    if msg.to.None? then bought
    else AuthorizeAll(SetNonce(bought, msg.from, msg.nonce + 1), evm.chainId, AuthList(msg))
  }

  function AuthList(msg: Message): seq<Authorization> {
    if msg.authorizations.Some? then msg.authorizations.value else []
  }

  function CallState(w: World, msg: Message, evm: Evm): World {
    Prepared(Bought(w, msg, evm), msg, evm)
  }

  function Called(w: World, msg: Message, evm: Evm): Outcome {
    evm.run(CallState(w, msg, evm), msg, Less(msg.gasLimit, Intrinsic(msg, evm)))
  }

  /** The gas spent before any refund. */
  function Peak(w: World, msg: Message, evm: Evm): nat {
    Less(msg.gasLimit, Called(w, msg, evm).gasLeft)
  }

  /** Gas charged: what was spent less the capped refund, or the data floor if that is more. */
  function Charged(peak: nat, counter: nat, floor: nat, london: bool): (used: nat)
    ensures floor <= used <= Max(peak, floor)
    ensures used >= peak - peak / (if london then REFUND_QUOTIENT_EIP3529 else REFUND_QUOTIENT)
    ensures used >= peak - counter
    ensures used == floor || used == peak - counter || used == peak - peak / (if london then 5 else 2)
  {
    Max(floor, peak - Min(peak / (if london then REFUND_QUOTIENT_EIP3529 else REFUND_QUOTIENT), counter))
  }

  function Used(w: World, msg: Message, evm: Evm): nat
  {
    Charged(Peak(w, msg, evm), Called(w, msg, evm).world.refund, Floor(msg, evm), evm.rules.london)
  }

  /** The gas a transaction takes from the block: from Amsterdam on, without its refund. */
  function BlockGas(w: World, msg: Message, evm: Evm): nat
  {
    if evm.rules.amsterdam then Max(Peak(w, msg, evm), Floor(msg, evm)) else Used(w, msg, evm)
  }

  /** The state after gas is returned to the sender and the tip is paid. */
  function Settled(w: World, from: Address, back: nat, coinbase: Address, tip: nat): World {
    AddBalance(AddBalance(w, from, back), coinbase, tip)
  }

  function GasBack(msg: Message, used: nat): nat {
    Less(msg.gasLimit, used) * msg.gasPrice
  }

  function Tip(msg: Message, evm: Evm, used: nat): nat {
    used * Less(msg.gasPrice, BaseFee(evm))
  }

  // ---- The accounting laws ----

  /** A transaction that passes the checks spends at least its intrinsic gas and at most its limit,
      never less than the floor, and takes at least what it pays for out of the block. */
  lemma GasBounds(w: World, msg: Message, evm: Evm)
    requires Chargeable(msg, evm) && Lawful(evm)
    ensures Intrinsic(msg, evm) <= Peak(w, msg, evm) <= msg.gasLimit
    ensures Floor(msg, evm) <= Used(w, msg, evm) <= BlockGas(w, msg, evm) <= msg.gasLimit
    ensures Peak(w, msg, evm) + Called(w, msg, evm).gasLeft == msg.gasLimit
    ensures if evm.rules.amsterdam
            then BlockGas(w, msg, evm) >= Peak(w, msg, evm)
                 && (BlockGas(w, msg, evm) == Peak(w, msg, evm) || BlockGas(w, msg, evm) == Floor(msg, evm))
            else BlockGas(w, msg, evm) == Used(w, msg, evm)
    ensures evm.rules.london ==> 5 * Used(w, msg, evm) >= 4 * Peak(w, msg, evm)
    ensures !evm.rules.london ==> 2 * Used(w, msg, evm) >= Peak(w, msg, evm)
  {
    assert Called(w, msg, evm).gasLeft <= msg.gasLimit - Intrinsic(msg, evm);
  }

  /** The base fee never exceeds the price, so the tip is not negative. */
  lemma TipIsNotNegative(w: World, msg: Message, evm: Evm)
    requires Admitted(w, msg, evm) && Derived(msg, evm) && Lawful(evm)
    ensures BaseFee(evm) <= msg.gasPrice <= msg.gasFeeCap
  {
  }

  lemma FactorFits(n: nat, price: nat)
    requires n >= 1 && n * price < WORD256
    ensures price < WORD256
  {
    ProductMonotone(price, 1, n);
  }

  /** The gas price fits a balance word. */
  lemma PriceFits(w: World, msg: Message, evm: Evm)
    requires Acceptable(w, msg, evm) && Derived(msg, evm) && Lawful(evm)
    ensures msg.gasPrice < WORD256
  {
    if evm.rules.london {
      TipIsNotNegative(w, msg, evm);
    } else if msg.gasPrice >= WORD256 {
      ChargesFit(msg, evm);
      FactorFits(msg.gasLimit, msg.gasFeeCap);
    }
  }

  /** Buying gas takes exactly the up-front price from the sender, leaves the value, and nothing wraps. */
  lemma BuyingIsExact(w: World, msg: Message, evm: Evm)
    requires Admitted(w, msg, evm) && Funded(w, msg, evm) && Derived(msg, evm) && Lawful(evm) && Total(w) < WORD256
    ensures Upfront(msg, evm) + msg.value <= Get(w, msg.from).balance
    ensures Get(Bought(w, msg, evm), msg.from)
            == Get(w, msg.from).(balance := Get(w, msg.from).balance - Upfront(msg, evm))
    ensures Total(Bought(w, msg, evm)) == Total(w) - Upfront(msg, evm)
  {
    TipIsNotNegative(w, msg, evm);
    UpfrontIsCovered(msg, evm);
    DebitIsExact(w, msg.from, Upfront(msg, evm));
  }

  /** Up to the interpreter, every balance but the sender's stands, and the total is down by the purchase. */
  lemma CallStateExact(w: World, msg: Message, evm: Evm, a: Address)
    requires Admitted(w, msg, evm) && Funded(w, msg, evm) && Derived(msg, evm) && Lawful(evm) && Total(w) < WORD256
    ensures Get(CallState(w, msg, evm), a).balance == Get(w, a).balance - if a == msg.from then Upfront(msg, evm) else 0
    ensures Total(CallState(w, msg, evm)) == Total(w) - Upfront(msg, evm)
  {
    BuyingIsExact(w, msg, evm);
    if msg.to.Some? {
      NoWeiMoved(Bought(w, msg, evm), msg.from, msg.nonce + 1, []);
      AuthorizationsMoveNoWei(SetNonce(Bought(w, msg, evm), msg.from, msg.nonce + 1), evm.chainId, AuthList(msg), a);
    }
  }

  /** For a transaction that starts with no refund, what its authorizations add to the counter is at
      most half of what its authorization list was charged in the intrinsic gas. */
  lemma AuthorizationRefundsPaid(w: World, msg: Message, evm: Evm)
    requires Acceptable(w, msg, evm) && Derived(msg, evm) && w.refund == 0
    ensures CallState(w, msg, evm).refund + EXISTING_REFUND * AuthCount(msg) <= ListCharge(None, AuthCount(msg))
            <= Intrinsic(msg, evm)
  {
    ChargesFit(msg, evm);
    if msg.to.Some? {
      RefundsAreCovered(SetNonce(Bought(w, msg, evm), msg.from, msg.nonce + 1), evm.chainId, AuthList(msg));
    }
  }

  /** The purchase splits into the gas returned, the tip and the base fee. */
  lemma PurchaseSplits(msg: Message, evm: Evm, used: nat)
    requires used <= msg.gasLimit && BaseFee(evm) <= msg.gasPrice
    ensures GasBack(msg, used) + Tip(msg, evm, used) + used * BaseFee(evm) == msg.gasLimit * msg.gasPrice
  {
    Distributes(msg.gasLimit, used, msg.gasPrice, BaseFee(evm));
  }

  lemma Distributes(limit: nat, used: nat, price: nat, base: nat)
    ensures (limit - used) * price + used * (price - base) + used * base == limit * price
  {
  }

  /** Settling pays the sender and the coinbase exactly, with no wrap-around. */
  lemma SettlingIsExact(w: World, from: Address, back: nat, coinbase: Address, tip: nat, a: Address)
    requires Total(w) + back + tip < WORD256
    ensures var after := Settled(w, from, back, coinbase, tip);
            && Get(after, a) == Get(w, a).(balance := Get(w, a).balance + (if a == from then back else 0)
               + (if a == coinbase then tip else 0))
            && Total(after) == Total(w) + back + tip
  {
    CreditIsExact(w, from, back);
    CreditIsExact(AddBalance(w, from, back), coinbase, tip);
  }

  /** The state after a whole transaction. */
  function After(w: World, msg: Message, evm: Evm): World {
    var used := Used(w, msg, evm);
    Settled(Called(w, msg, evm).world, msg.from, GasBack(msg, used), evm.coinbase, Tip(msg, evm, used))
  }

  /** Wei the interpreter destroyed while it ran. */
  ghost function Burned(w: World, msg: Message, evm: Evm): int {
    Total(CallState(w, msg, evm)) - Total(Called(w, msg, evm).world)
  }

  /** The state `called` leaves is settled: the sender gets the unused gas back at the price it paid,
      the coinbase gets the tip, nobody else anything, and the base fee of the gas used is gone. */
  ghost predicate PaidOut(called: World, after: World, msg: Message, evm: Evm, used: nat) {
    && (forall a: Address :: Get(after, a) == Paid(Get(called, a), a, msg, evm, used))
    && Total(after) + used * BaseFee(evm) == Total(called) + msg.gasLimit * msg.gasPrice
  }

  function Paid(account: Account, a: Address, msg: Message, evm: Evm, used: nat): Account {
    account.(balance := account.balance + (if a == msg.from then GasBack(msg, used) else 0)
                                        + (if a == evm.coinbase then Tip(msg, evm, used) else 0))
  }

  lemma SettlementPaysOut(called: World, msg: Message, evm: Evm, used: nat)
    requires used <= msg.gasLimit && BaseFee(evm) <= msg.gasPrice
             && Total(called) + msg.gasLimit * msg.gasPrice < WORD256
    ensures PaidOut(called,
                    Settled(called, msg.from, GasBack(msg, used), evm.coinbase, Tip(msg, evm, used)), msg, evm, used)
  {
    var back, tip := GasBack(msg, used), Tip(msg, evm, used);
    PurchaseSplits(msg, evm, used);
    assert Total(called) + back + tip < WORD256;
    var after := Settled(called, msg.from, back, evm.coinbase, tip);
    forall a: Address ensures Get(after, a) == Paid(Get(called, a), a, msg, evm, used) {
      SettlingIsExact(called, msg.from, back, evm.coinbase, tip, a);
    }
    SettlingIsExact(called, msg.from, back, evm.coinbase, tip, msg.from);
  }

  lemma WhoIsPaid(w: World, msg: Message, evm: Evm)
    requires Acceptable(w, msg, evm) && Derived(msg, evm) && Lawful(evm) && Total(w) < WORD256
    ensures PaidOut(Called(w, msg, evm).world, After(w, msg, evm), msg, evm, Used(w, msg, evm))
  {
    GasBounds(w, msg, evm);
    TipIsNotNegative(w, msg, evm);
    CallStateExact(w, msg, evm, msg.from);
    SettlementPaysOut(Called(w, msg, evm).world, msg, evm, Used(w, msg, evm));
  }

  /** Conservation: whatever the interpreter does with its gas, the wei of all accounts drop by exactly
      the base fee of the gas charged, the blob fee, and what the interpreter itself destroyed. */
  lemma WeiIsConserved(w: World, msg: Message, evm: Evm)
    requires Acceptable(w, msg, evm) && Derived(msg, evm) && Lawful(evm) && Total(w) < WORD256
    ensures Burned(w, msg, evm) >= 0
    ensures Total(w) == Total(After(w, msg, evm)) + BaseFeeOn(Used(w, msg, evm), evm) + BlobFee(msg, evm)
            + Burned(w, msg, evm)
  {
    CallStateExact(w, msg, evm, msg.from);
    WhoIsPaid(w, msg, evm);
  }

  // ---- The transition itself ----

  class StateDB {
    var world: World

    constructor (w: World)
      ensures world == w
    {
      world := w;
    }
  }

  /** `maxUsedGas` is the gas spent before refunds. */
  datatype ExecutionResult = ExecutionResult(usedGas: nat, maxUsedGas: nat, failed: bool)

  class Transition {
    const gp: GasPool
    const msg: Message
    const evm: Evm
    const state: StateDB
    var gasRemaining: nat
    var initialGas: nat

    constructor (evm: Evm, msg: Message, gp: GasPool, state: StateDB)
      ensures this.evm == evm && this.msg == msg && this.gp == gp && this.state == state
    {
      this.evm, this.msg, this.gp, this.state := evm, msg, gp, state;
      gasRemaining, initialGas := 0, 0;
    }

    /** Every check of a message that costs nothing. */
    method CheckMessage() returns (e: Option<Error>)
      requires Lawful(evm)
      ensures e.None? <==> Admitted(state.world, msg, evm)
      ensures e.Some? ==> Violates(e.value, state.world, msg, evm)
    {
      var nonce := Get(state.world, msg.from).nonce;
      if nonce < msg.nonce {
        return Some(NonceTooHigh);
      } else if nonce > msg.nonce {
        return Some(NonceTooLow);
      } else if Add64(nonce, 1) < nonce {
        return Some(NonceMax);
      }
      if evm.rules.osaka && msg.gasLimit > MAX_TX_GAS {
        return Some(GasLimitTooHigh);
      }
      var code := Get(state.world, msg.from).code;
      if |code| > 0 && ParseDelegation(code).None? {
        return Some(SenderNoEOA);
      }
      if evm.rules.london {
        if msg.gasFeeCap >= WORD256 {
          return Some(FeeCapVeryHigh);
        }
        if msg.gasTipCap >= WORD256 {
          return Some(TipVeryHigh);
        }
        if msg.gasFeeCap < msg.gasTipCap {
          return Some(TipAboveFeeCap);
        }
        if msg.gasFeeCap < evm.baseFee.value {
          return Some(FeeCapTooLow);
        }
      }
      e := CheckLists();
    }

    /** The checks of the blobs and the authorization list. */
    method CheckLists() returns (e: Option<Error>)
      ensures e.None? <==>
              && (msg.blobHashes.Some? ==>
                    && msg.to.Some?
                    && 0 < |msg.blobHashes.value|
                    && (evm.rules.osaka ==> |msg.blobHashes.value| <= BLOB_TX_MAX_BLOBS)
                    && BlobHashesValid(msg.blobHashes.value))
              && (evm.rules.cancun && BlobGas(msg) > 0 ==> evm.blobBaseFee <= msg.blobGasFeeCap)
              && (msg.authorizations.Some? ==> msg.to.Some? && 0 < |msg.authorizations.value|)
      ensures e.Some? ==> Violates(e.value, state.world, msg, evm)
    {
      if msg.blobHashes.Some? {
        var hashes := msg.blobHashes.value;
        if msg.to.None? {
          return Some(BlobTxCreate);
        }
        if |hashes| == 0 {
          return Some(MissingBlobHashes);
        }
        if evm.rules.osaka && |hashes| > BLOB_TX_MAX_BLOBS {
          return Some(TooManyBlobs);
        }
        for i := 0 to |hashes|
          invariant BlobHashesValid(hashes[..i])
        {
          if |hashes[i]| != 32 || hashes[i][0] != 1 {
            return Some(BlobHashVersion);
          }
        }
        assert hashes == hashes[..|hashes|];
      }
      if evm.rules.cancun && BlobGas(msg) > 0 && msg.blobGasFeeCap < evm.blobBaseFee {
        return Some(BlobFeeCapTooLow);
      }
      if msg.authorizations.Some? {
        if msg.to.None? {
          return Some(SetCodeTxCreate);
        }
        if |msg.authorizations.value| == 0 {
          return Some(EmptyAuthList);
        }
      }
      return None;
    }

    /** Takes the gas from the block and its price from the sender, or changes nothing. */
    method BuyGas() returns (e: Option<Error>)
      requires gp.Valid()
      modifies this, gp`remaining, state
      ensures e == if !Funded(old(state.world), msg, evm) then Some(InsufficientFunds)
                   else if old(gp.remaining) < msg.gasLimit then Some(GasLimitReached) else None
      ensures e.Some? ==> state.world == old(state.world) && gp.remaining == old(gp.remaining)
      ensures e.None? ==> state.world == Bought(old(state.world), msg, evm)
                          && gasRemaining == initialGas == msg.gasLimit
      ensures e.None? ==> gp.Valid() && gp.remaining == old(gp.remaining) - msg.gasLimit
    {
      var mgval := msg.gasLimit * msg.gasPrice;
      var balanceCheck := msg.gasLimit * msg.gasFeeCap + msg.value;
      if evm.rules.cancun {
        var blobGas := BlobGas(msg);
        if blobGas > 0 {
          balanceCheck := balanceCheck + blobGas * msg.blobGasFeeCap;
          mgval := mgval + blobGas * evm.blobBaseFee;
        }
      }
      assert balanceCheck == MaxCost(msg, evm) && mgval == Upfront(msg, evm);
      if balanceCheck >= WORD256 {
        return Some(InsufficientFunds);
      }
      if Get(state.world, msg.from).balance < balanceCheck {
        return Some(InsufficientFunds);
      }
      var taken := gp.SubGas(msg.gasLimit);
      if !taken {
        return Some(GasLimitReached);
      }
      gasRemaining, initialGas := msg.gasLimit, msg.gasLimit;
      state.world := SubBalance(state.world, msg.from, mgval);
      return None;
    }

    /** Charges the intrinsic gas and finds the data floor. */
    method ChargeIntrinsic() returns (e: Option<Error>, floor: nat)
      requires gasRemaining == msg.gasLimit && |msg.data| <= MAX64
      modifies this`gasRemaining
      ensures e.None? <==> DataGas(msg, evm) <= MAX64 && Intrinsic(msg, evm) <= msg.gasLimit
                           && (evm.rules.prague ==>
                                FloorDataGas(msg.data).Ok? && FloorDataGas(msg.data).value <= msg.gasLimit)
      ensures e.None? ==> gasRemaining == msg.gasLimit - Intrinsic(msg, evm) && floor == Floor(msg, evm)
      ensures e.Some? ==> forall w :: Violates(e.value, w, msg, evm)
    {
      floor := 0;
      var gas := IntrinsicGas(msg.data, msg.accessList, AuthCount(msg), msg.to.None?,
                              evm.rules.homestead, evm.rules.istanbul, evm.rules.shanghai);
      if gas.Err? {
        return Some(gas.error), 0;
      }
      if gasRemaining < gas.value {
        return Some(IntrinsicGasTooLow), 0;
      }
      if evm.rules.prague {
        var tokens := FloorDataGas(msg.data);
        if tokens.Err? {
          return Some(tokens.error), 0;
        }
        floor := tokens.value;
        if msg.gasLimit < floor {
          return Some(FloorDataGasTooLow), 0;
        }
      }
      gasRemaining := gasRemaining - gas.value;
      return None, floor;
    }

    /** The top-level transfer check and the limit on init code. */
    method CheckCall() returns (e: Option<Error>)
      ensures var covered := msg.value < WORD256 && msg.value <= Get(state.world, msg.from).balance;
              var short := evm.rules.shanghai && msg.to.None? ==> |msg.data| <= MAX_INIT_CODE_SIZE;
              e == if !covered then Some(InsufficientFundsForTransfer) else if short then None
                else Some(MaxInitCodeSizeExceeded)
    {
      if msg.value >= WORD256 {
        return Some(InsufficientFundsForTransfer);
      }
      if msg.value != 0 && Get(state.world, msg.from).balance < msg.value {
        return Some(InsufficientFundsForTransfer);
      }
      if evm.rules.shanghai && msg.to.None? && |msg.data| > MAX_INIT_CODE_SIZE {
        return Some(MaxInitCodeSizeExceeded);
      }
      return None;
    }

    /** All checks up to the purchase of the gas, and the purchase. */
    method PreCheck() returns (e: Option<Error>)
      requires gp.Valid() && Lawful(evm)
      modifies this, gp`remaining, state
      ensures e.None? <==> Admitted(old(state.world), msg, evm) && Funded(old(state.world), msg, evm)
                           && msg.gasLimit <= old(gp.remaining)
      ensures e.Some? ==> Violates(e.value, old(state.world), msg, evm)
                          || (e.value == GasLimitReached && old(gp.remaining) < msg.gasLimit)
      ensures e.None? ==> state.world == Bought(old(state.world), msg, evm)
                          && gasRemaining == initialGas == msg.gasLimit
      ensures e.None? ==> gp.Valid() && gp.remaining == old(gp.remaining) - msg.gasLimit
    {
      e := CheckMessage();
      if e.None? {
        e := BuyGas();
      }
    }

    /** The charges and checks between the purchase and the call, for a sender who can send the value. */
    method Charge() returns (e: Option<Error>, floor: nat)
      requires gasRemaining == msg.gasLimit && |msg.data| <= MAX64
      requires msg.value < WORD256 && msg.value <= Get(state.world, msg.from).balance
      modifies this`gasRemaining
      ensures e.None? <==> Chargeable(msg, evm)
      ensures e.None? ==> gasRemaining == msg.gasLimit - Intrinsic(msg, evm) && floor == Floor(msg, evm)
      ensures e.Some? ==> forall w :: Violates(e.value, w, msg, evm)
    {
      e, floor := ChargeIntrinsic();
      if e.None? {
        e := CheckCall();
      }
    }

    method ValidateAuthorization(auth: Authorization) returns (r: Option<AuthError>)
      ensures r.None? <==> Accepts(state.world, evm.chainId, auth)
      ensures r.Some? ==> Breaks(r.value, state.world, evm.chainId, auth)
    {
      if auth.chainId != 0 && auth.chainId != evm.chainId {
        return Some(WrongChainID);
      }
      if Add64(auth.nonce, 1) < auth.nonce {
        return Some(NonceOverflow);
      }
      if auth.authority.None? {
        return Some(InvalidSignature);
      }
      var code := Get(state.world, auth.authority.value).code;
      if |code| != 0 && ParseDelegation(code).None? {
        return Some(DestinationHasCode);
      }
      if Get(state.world, auth.authority.value).nonce != auth.nonce {
        return Some(NonceMismatch);
      }
      return None;
    }

    /** Applies one authorization, or changes nothing and says which rule it breaks. */
    method ApplyAuthorization(auth: Authorization) returns (r: Option<AuthError>)
      modifies state
      ensures state.world == Authorize(old(state.world), evm.chainId, auth)
      ensures r.None? <==> Accepts(old(state.world), evm.chainId, auth)
      ensures r.Some? ==> Breaks(r.value, old(state.world), evm.chainId, auth)
    {
      r := ValidateAuthorization(auth);
      if r.Some? {
        return;
      }
      var authority := auth.authority.value;
      if authority in state.world.accounts {
        state.world := AddRefund(state.world, EXISTING_REFUND);
      }
      state.world := SetNonce(state.world, authority, auth.nonce + 1);
      if auth.address == ZERO_ADDRESS {
        state.world := SetCode(state.world, authority, []);
        PutTwice(old(state.world), authority, auth.nonce + 1, []);
        return;
      }
      state.world := SetCode(state.world, authority, AddressToDelegation(auth.address));
      PutTwice(old(state.world), authority, auth.nonce + 1, AddressToDelegation(auth.address));
    }

    /** Bumps the nonce, applies the authorizations and runs the message. A creation bumps the nonce
        inside the interpreter. */
    method RunMessage() returns (failed: bool)
      requires msg.to.Some? ==> Get(state.world, msg.from).nonce == msg.nonce < MAX64
      modifies this`gasRemaining, state
      ensures var o := evm.run(Prepared(old(state.world), msg, evm), msg, old(gasRemaining));
              state.world == o.world && gasRemaining == o.gasLeft && failed == o.failed
    {
      ghost var gas := gasRemaining;
      if msg.to.Some? {
        state.world := SetNonce(state.world, msg.from, Get(state.world, msg.from).nonce + 1);
        ghost var start := state.world;
        if msg.authorizations.Some? {
          var auths := msg.authorizations.value;
          for i := 0 to |auths|
            invariant state.world == AuthorizeAll(start, evm.chainId, auths[..i])
            invariant gasRemaining == gas
          {
            var skipped := ApplyAuthorization(auths[i]);
            assert auths[..i + 1][..i] == auths[..i];
          }
          assert auths[..|auths|] == auths;
        }
      }
      var o := evm.run(state.world, msg, gasRemaining);
      state.world, gasRemaining, failed := o.world, o.gasLeft, o.failed;
    }

    function GasUsed(): nat
      requires gasRemaining <= initialGas
      reads this
    {
      initialGas - gasRemaining
    }

    method CalcRefund() returns (refund: nat)
      requires gasRemaining <= initialGas
      ensures refund == Min(GasUsed() / (if evm.rules.london then REFUND_QUOTIENT_EIP3529 else REFUND_QUOTIENT),
                            state.world.refund)
      ensures refund <= GasUsed()
    {
      if !evm.rules.london {
        refund := GasUsed() / REFUND_QUOTIENT;
      } else {
        refund := GasUsed() / REFUND_QUOTIENT_EIP3529;
      }
      if refund > state.world.refund {
        refund := state.world.refund;
      }
    }

    /** Applies the capped refund and the data floor; no subtraction goes below zero. */
    method ApplyRefund(floor: nat) returns (peakGasUsed: nat)
      requires gasRemaining <= initialGas && floor <= initialGas && (!evm.rules.prague ==> floor == 0)
      modifies this`gasRemaining
      ensures gasRemaining <= initialGas
      ensures peakGasUsed == Max(old(GasUsed()), floor) <= initialGas
      ensures GasUsed() == Charged(old(GasUsed()), state.world.refund, floor, evm.rules.london)
    {
      peakGasUsed := GasUsed();
      var refund := CalcRefund();
      gasRemaining := gasRemaining + refund;
      if evm.rules.prague {
        if GasUsed() < floor {
          gasRemaining := initialGas - floor;
        }
        if peakGasUsed < floor {
          peakGasUsed := floor;
        }
      }
    }

    /** Returns the unused gas to the sender, at the price it paid. */
    method ReturnGas()
      requires msg.gasPrice < WORD256
      modifies state
      ensures state.world == AddBalance(old(state.world), msg.from, gasRemaining * msg.gasPrice)
    {
      state.world := AddBalance(state.world, msg.from, gasRemaining * msg.gasPrice);
    }

    /** Gives the gas the block did not spend back to its pool: from Amsterdam on, without the refund. */
    method ReturnToPool(peakGasUsed: nat) returns (ok: bool)
      requires gasRemaining <= initialGas && initialGas - gasRemaining <= peakGasUsed <= initialGas
      requires gp.cumulativeUsed + gp.remaining + initialGas <= gp.initial <= MAX64
      modifies gp`remaining, gp`cumulativeUsed
      ensures ok && gp.Valid()
      ensures gp.remaining == old(gp.remaining) + initialGas - (if evm.rules.amsterdam then peakGasUsed else GasUsed())
      ensures gp.cumulativeUsed == old(gp.cumulativeUsed) + GasUsed()
    {
      if evm.rules.amsterdam {
        ok := gp.ReturnGas(initialGas - peakGasUsed, GasUsed());
      } else {
        ok := gp.ReturnGas(gasRemaining, GasUsed());
      }
    }

    method PayTip()
      requires gasRemaining <= initialGas
      requires BaseFee(evm) <= msg.gasPrice < WORD256 && (evm.rules.london <==> evm.baseFee.Some?)
      modifies state
      ensures state.world == AddBalance(old(state.world), evm.coinbase, Tip(msg, evm, GasUsed()))
    {
      var effectiveTip := msg.gasPrice;
      if evm.rules.london {
        effectiveTip := msg.gasPrice - evm.baseFee.value;
      }
      state.world := AddBalance(state.world, evm.coinbase, GasUsed() * effectiveTip);
    }

    /** Settles a message after its call: refund, floor, gas back to sender and block, tip. */
    method Settle(floor: nat, failed: bool) returns (r: Result<ExecutionResult, Error>)
      requires gasRemaining <= initialGas == msg.gasLimit && floor <= initialGas && (!evm.rules.prague ==> floor == 0)
      requires BaseFee(evm) <= msg.gasPrice < WORD256 && (evm.rules.london <==> evm.baseFee.Some?)
      requires gp.cumulativeUsed + gp.remaining + initialGas <= gp.initial <= MAX64
      modifies this`gasRemaining, gp`remaining, gp`cumulativeUsed, state
      ensures var peak := old(GasUsed());
              var used := Charged(peak, old(state.world).refund, floor, evm.rules.london);
              && state.world == Settled(old(state.world),
                                        msg.from, GasBack(msg, used), evm.coinbase, Tip(msg, evm, used))
              && r == Ok(ExecutionResult(used, Max(peak, floor), failed))
              && gp.Valid()
              && gp.remaining == old(gp.remaining) + msg.gasLimit
                                 - (if evm.rules.amsterdam then Max(peak, floor) else used)
              && gp.cumulativeUsed == old(gp.cumulativeUsed) + used
    {
      var peakGasUsed := ApplyRefund(floor);
      ReturnGas();
      assert gasRemaining * msg.gasPrice == GasBack(msg, GasUsed());
      var ok := ReturnToPool(peakGasUsed);
      if ok {
        PayTip();
      }
      r := if ok then Ok(ExecutionResult(GasUsed(), peakGasUsed, failed)) else Err(GasLimitOverflow);
    }

    /** The call and the settlement of a message whose gas was bought in state `w`. */
    method CallAndSettle(ghost w: World, floor: nat) returns (r: Result<ExecutionResult, Error>)
      requires state.world == Bought(w, msg, evm) && gasRemaining == Less(msg.gasLimit, Intrinsic(msg, evm))
      requires initialGas == msg.gasLimit && floor == Floor(msg, evm) <= msg.gasLimit
      requires Called(w, msg, evm).gasLeft <= msg.gasLimit
      requires msg.to.Some? ==> Get(state.world, msg.from).nonce == msg.nonce < MAX64
      requires BaseFee(evm) <= msg.gasPrice < WORD256 && (evm.rules.london <==> evm.baseFee.Some?)
      requires gp.cumulativeUsed + gp.remaining + initialGas <= gp.initial <= MAX64
      modifies this`gasRemaining, gp`remaining, gp`cumulativeUsed, state
      ensures r.Ok? && Applied(w, state.world, msg, evm, r.value) && gp.Valid()
      ensures gp.remaining == old(gp.remaining) + msg.gasLimit - BlockGas(w, msg, evm)
      ensures gp.cumulativeUsed == old(gp.cumulativeUsed) + r.value.usedGas
    {
      var failed := RunMessage();
      assert state.world == Called(w, msg, evm).world && GasUsed() == Peak(w, msg, evm);
      r := Settle(floor, failed);
    }

    /** Applies the message. It succeeds exactly when the message is acceptable and the block has gas
        for it; then the state, the charge and the gas pool are those of the laws above. An error names
        a rule that is really broken: in particular the transfer check never fails once gas is bought,
        and the pool never overflows. */
    method Execute() returns (r: Result<ExecutionResult, Error>)
      requires gp.Valid() && Lawful(evm) && Derived(msg, evm) && Total(state.world) < WORD256
      modifies this, gp, state
      ensures r.Ok? <==> Acceptable(old(state.world), msg, evm) && msg.gasLimit <= old(gp.remaining)
      ensures r.Err? ==> Violates(r.error, old(state.world), msg, evm)
                         || (r.error == GasLimitReached && old(gp.remaining) < msg.gasLimit)
      ensures r.Ok? ==> Applied(old(state.world), state.world, msg, evm, r.value)
      ensures r.Ok? ==> gp.Valid() && gp.initial == old(gp.initial)
                        && gp.remaining == old(gp.remaining) - BlockGas(old(state.world), msg, evm)
                        && gp.cumulativeUsed == old(gp.cumulativeUsed) + r.value.usedGas
    {
      ghost var w := state.world;
      var e := PreCheck();
      if e.Some? {
        return Err(e.value);
      }
      BuyingIsExact(w, msg, evm);
      var floor;
      e, floor := Charge();
      if e.Some? {
        return Err(e.value);
      }
      TipIsNotNegative(w, msg, evm);
      PriceFits(w, msg, evm);
      GasBounds(w, msg, evm);
      r := CallAndSettle(w, floor);
    }
  }

  /** The outcome of a successful transaction. */
  ghost predicate Applied(w: World, after: World, msg: Message, evm: Evm, result: ExecutionResult) {
    && after == After(w, msg, evm)
    && result.usedGas == Used(w, msg, evm)
    && result.maxUsedGas == Max(Peak(w, msg, evm), Floor(msg, evm))
    && result.failed == Called(w, msg, evm).failed
  }
}
