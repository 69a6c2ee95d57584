/** Laws of a single transaction that tie its parts to the rules they come from: admission, nonces,
    prices and payouts. */
module TransitionLaws {
  import opened Common
  import opened Gas
  import opened Accounts
  import opened Authorizations
  import opened StateTransition

  // ---- Admission ----

  /** A transaction is acceptable exactly if it violates none of the rules that have an error. */
  lemma AcceptableIffNoViolation(w: World, msg: Message, evm: Evm)
    ensures Acceptable(w, msg, evm) <==> forall e: Error :: !Violates(e, w, msg, evm)
  {
    if forall e: Error :: !Violates(e, w, msg, evm) {
      AdmittedIfClean(w, msg, evm);
      assert !Violates(InsufficientFunds, w, msg, evm);
      assert !Violates(GasUintOverflow, w, msg, evm) && !Violates(IntrinsicGasTooLow, w, msg, evm);
      assert !Violates(FloorDataGasTooLow, w, msg, evm) && !Violates(MaxInitCodeSizeExceeded, w, msg, evm);
    }
  }

  lemma AdmittedIfClean(w: World, msg: Message, evm: Evm)
    requires forall e: Error :: !Violates(e, w, msg, evm)
    ensures Admitted(w, msg, evm)
  {
    assert !Violates(NonceTooHigh, w, msg, evm) && !Violates(NonceTooLow, w, msg, evm);
    assert !Violates(NonceMax, w, msg, evm);
    assert !Violates(GasLimitTooHigh, w, msg, evm) && !Violates(SenderNoEOA, w, msg, evm);
    assert !Violates(FeeCapVeryHigh, w, msg, evm) && !Violates(TipAboveFeeCap, w, msg, evm);
    assert !Violates(FeeCapTooLow, w, msg, evm);
    assert !Violates(BlobTxCreate, w, msg, evm) && !Violates(MissingBlobHashes, w, msg, evm);
    assert !Violates(TooManyBlobs, w, msg, evm) && !Violates(BlobHashVersion, w, msg, evm);
    assert !Violates(BlobFeeCapTooLow, w, msg, evm);
    assert !Violates(SetCodeTxCreate, w, msg, evm) && !Violates(EmptyAuthList, w, msg, evm);
  }

  /** The limits in numbers: 2^24 gas and six blobs for a transaction from Osaka on, 49152 bytes of init
      code from Shanghai on, and blob hashes of 32 bytes that start with version 1. */
  lemma LimitsInNumbers(w: World, msg: Message, evm: Evm)
    ensures Violates(GasLimitTooHigh, w, msg, evm) <==> evm.rules.osaka && msg.gasLimit > 16777216
    ensures Violates(MaxInitCodeSizeExceeded, w, msg, evm) <==>
            evm.rules.shanghai && msg.to.None? && |msg.data| > 49152
    ensures msg.blobHashes.None? ==> !Violates(TooManyBlobs, w, msg, evm) && !Violates(BlobHashVersion, w, msg, evm)
    ensures msg.blobHashes.Some? ==>
              var hashes := msg.blobHashes.value;
              && (Violates(TooManyBlobs, w, msg, evm) <==> evm.rules.osaka && |hashes| > 6)
              && (Violates(BlobHashVersion, w, msg, evm) <==>
                  exists i :: 0 <= i < |hashes| && (|hashes[i]| != 32 || hashes[i][0] != 1))
  {
  }

  /** A plain transfer costs 21000 gas, and from Prague on no less. */
  lemma PlainTransfer(msg: Message, evm: Evm)
    requires msg.to.Some? && msg.data == [] && msg.accessList.None? && msg.authorizations.None?
    ensures Intrinsic(msg, evm) == 21000 && (evm.rules.prague ==> Floor(msg, evm) == 21000)
  {
  }

  // ---- Prices ----

  /** The balance a sender must have is what it would pay at its own caps, and the value. */
  lemma MaxCostIsTight(msg: Message, evm: Evm)
    ensures MaxCost(msg, evm)
            == Upfront(msg.(gasPrice := msg.gasFeeCap), evm.(blobBaseFee := msg.blobGasFeeCap)) + msg.value
  {
  }

  /** The blob fee, blob by blob: nothing without blobs or before Cancun, and 131072 times the blob base
      fee for each. */
  lemma BlobFeeByBlob(msg: Message, evm: Evm, hashes: seq<seq<Byte>>, hash: seq<Byte>)
    requires |hashes| < 0x1_0000_0000_0000 / 0x20000
    ensures BlobFee(msg.(blobHashes := None), evm) == BlobFee(msg.(blobHashes := Some([])), evm) == 0
    ensures BlobFee(msg.(blobHashes := Some(hashes + [hash])), evm)
            == BlobFee(msg.(blobHashes := Some(hashes)), evm) + if evm.rules.cancun then 131072 * evm.blobBaseFee else 0
  {
    var few, more := msg.(blobHashes := Some(hashes)), msg.(blobHashes := Some(hashes + [hash]));
    assert BlobGas(few) == |hashes| * 131072 && BlobGas(more) == |hashes| * 131072 + 131072;
    Distribute(BlobGas(few), evm.blobBaseFee);
  }

  lemma Distribute(gas: nat, price: nat)
    ensures (gas + 131072) * price == gas * price + 131072 * price
  {
  }

  /** What is paid out after the call, in full: the unused gas at the price paid to the sender, and the
      price less the base fee for the gas used to the coinbase. */
  lemma PayoutAmounts(w: World, msg: Message, evm: Evm, a: Address)
    requires Acceptable(w, msg, evm) && Derived(msg, evm) && Lawful(evm) && Total(w) < WORD256
    ensures var used, base := Used(w, msg, evm), if evm.rules.london then evm.baseFee.value else 0;
            && used <= msg.gasLimit && base <= msg.gasPrice
            && Get(After(w, msg, evm), a).balance
               == Get(Called(w, msg, evm).world, a).balance
                  + (if a == msg.from then (msg.gasLimit - used) * msg.gasPrice else 0)
                  + (if a == evm.coinbase then used * (msg.gasPrice - base) else 0)
  {
    GasBounds(w, msg, evm);
    TipIsNotNegative(w, msg, evm);
    WhoIsPaid(w, msg, evm);
    assert Get(After(w, msg, evm), a)
        == Paid(Get(Called(w, msg, evm).world, a), a, msg, evm, Used(w, msg, evm));
  }

  // ---- Nonces ----

  /** The state in which the authorizations of a call are applied. */
  function Started(w: World, msg: Message, evm: Evm): World {
    SetNonce(Bought(w, msg, evm), msg.from, msg.nonce + 1)
  }

  lemma StartedNonces(w: World, msg: Message, evm: Evm, a: Address)
    ensures Get(Started(w, msg, evm), a).nonce == if a == msg.from then msg.nonce + 1 else Get(w, a).nonce
    ensures Get(Started(w, msg, evm), a).code == Get(w, a).code
    ensures Get(Bought(w, msg, evm), a).nonce == Get(w, a).nonce
  {
  }

  /** A call uses up the nonce of its sender before its authorizations are applied, and each accepted
      authorization uses up one of its authority; no other nonce changes. A creation leaves all nonces to
      the interpreter. */
  lemma NoncesAtCall(w: World, msg: Message, evm: Evm, a: Address)
    ensures msg.to.None? ==> Get(CallState(w, msg, evm), a).nonce == Get(w, a).nonce
    ensures msg.to.Some? ==>
              Get(CallState(w, msg, evm), a).nonce
              == (if a == msg.from then msg.nonce + 1 else Get(w, a).nonce)
                 + |AcceptedBy(Started(w, msg, evm), evm.chainId, AuthList(msg), a)|
  {
    StartedNonces(w, msg, evm, a);
    if msg.to.Some? {
      ConsecutiveNonces(Started(w, msg, evm), evm.chainId, AuthList(msg), a);
    }
  }

  /** So the interpreter gets a state in which the same call is not admitted again. */
  lemma NotAdmittedAgain(w: World, msg: Message, evm: Evm)
    requires Admitted(w, msg, evm) && msg.to.Some?
    ensures Get(CallState(w, msg, evm), msg.from).nonce >= msg.nonce + 1
    ensures !Admitted(CallState(w, msg, evm), msg, evm)
  {
    NoncesAtCall(w, msg, evm, msg.from);
  }

  ghost predicate NotLowered(before: World, after: World, a: Address) {
    Get(before, a).nonce <= Get(after, a).nonce
  }

  /** An interpreter and a clean-up that lower no nonce; a creation uses up the nonce of its sender. */
  ghost predicate KeepsNonces(evm: Evm) {
    && (forall w, m, g, a :: NotLowered(w, evm.run(w, m, g).world, a))
    && (forall w, m: Message, g :: m.to.None? ==> Get(w, m.from).nonce < Get(evm.run(w, m, g).world, m.from).nonce)
    && (forall w, a :: NotLowered(w, evm.finalise(w), a))
  }

  /** A whole transaction lowers no nonce and uses up its own: it is never admitted again. */
  lemma TransactionUsesNonce(w: World, msg: Message, evm: Evm, a: Address)
    requires Acceptable(w, msg, evm) && Derived(msg, evm) && Lawful(evm) && Total(w) < WORD256 && KeepsNonces(evm)
    ensures Get(w, a).nonce <= Get(evm.finalise(After(w, msg, evm)), a).nonce
    ensures Get(evm.finalise(After(w, msg, evm)), msg.from).nonce > msg.nonce
    ensures !Admitted(evm.finalise(After(w, msg, evm)), msg, evm)
  {
    SettledNonce(w, msg, evm, a);
    SettledNonce(w, msg, evm, msg.from);
  }

  lemma SettledNonce(w: World, msg: Message, evm: Evm, a: Address)
    requires Acceptable(w, msg, evm) && Derived(msg, evm) && Lawful(evm) && Total(w) < WORD256 && KeepsNonces(evm)
    ensures var nonce := Get(After(w, msg, evm), a).nonce;
            && Get(w, a).nonce <= nonce <= Get(evm.finalise(After(w, msg, evm)), a).nonce
            && (a == msg.from ==> nonce > msg.nonce)
  {
    NoncesAtCall(w, msg, evm, a);
    WhoIsPaid(w, msg, evm);
    assert NotLowered(CallState(w, msg, evm), Called(w, msg, evm).world, a);
    assert NotLowered(After(w, msg, evm), evm.finalise(After(w, msg, evm)), a);
    assert Get(After(w, msg, evm), a)
        == Paid(Get(Called(w, msg, evm).world, a), a, msg, evm, Used(w, msg, evm));
  }
}
