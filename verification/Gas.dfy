/** Gas arithmetic in 64-bit words: the intrinsic charge, the data floor and the block gas pool. */
module Gas {
  import opened Common

  const MAX64: nat := 0xFFFF_FFFF_FFFF_FFFF
  const WORD256: nat := 0x1_0000_0000_0000_0000_0000_0000_0000_0000_0000_0000_0000_0000_0000_0000_0000_0000

  type Word64 = n: nat | n <= MAX64

  const TX_GAS: nat := 21000
  const TX_GAS_CONTRACT_CREATION: nat := 53000
  const TX_DATA_ZERO_GAS: nat := 4
  const TX_DATA_NON_ZERO_GAS_FRONTIER: nat := 68
  const TX_DATA_NON_ZERO_GAS_EIP2028: nat := 16
  const INIT_CODE_WORD_GAS: nat := 2
  const TX_ACCESS_LIST_ADDRESS_GAS: nat := 2400
  const TX_ACCESS_LIST_STORAGE_KEY_GAS: nat := 1900
  const CALL_NEW_ACCOUNT_GAS: nat := 25000
  const TX_AUTH_TUPLE_GAS: nat := 12500
  const TX_TOKEN_PER_NON_ZERO_BYTE: nat := 4
  const TX_COST_FLOOR_PER_TOKEN: nat := 10
  const REFUND_QUOTIENT: nat := 2
  const REFUND_QUOTIENT_EIP3529: nat := 5

  datatype Error =
    | NonceTooHigh | NonceTooLow | NonceMax | GasLimitTooHigh | SenderNoEOA
    | FeeCapVeryHigh | TipVeryHigh | TipAboveFeeCap | FeeCapTooLow
    | BlobTxCreate | MissingBlobHashes | TooManyBlobs | BlobHashVersion | BlobFeeCapTooLow
    | SetCodeTxCreate | EmptyAuthList | InsufficientFunds | GasLimitReached
    | GasUintOverflow | IntrinsicGasTooLow | FloorDataGasTooLow
    | InsufficientFundsForTransfer | MaxInitCodeSizeExceeded | GasLimitOverflow | InvalidSender

  type Byte = b: nat | b < 256

  function CountZero(data: seq<Byte>): (z: nat)
    ensures z <= |data|
  {
    if data == [] then 0 else CountZero(data[..|data| - 1]) + if data[|data| - 1] == 0 then 1 else 0
  }

  /** The count is the number of occurrences of zero. */
  lemma {:induction false} CountZeroCounts(data: seq<Byte>)
    ensures CountZero(data) == multiset(data)[0]
  {
    if data != [] {
      CountZeroCounts(data[..|data| - 1]);
      assert data == data[..|data| - 1] + [data[|data| - 1]];
    }
  }

  lemma CountZeroOneMore(data: seq<Byte>, b: Byte)
    ensures CountZero(data + [b]) == CountZero(data) + if b == 0 then 1 else 0
  {
    assert (data + [b])[..|data|] == data;
  }

  /** The number of 32-byte words, rounded up, for every 64-bit size. */
  function ToWordSize(size: nat): (words: nat)
    requires size <= MAX64
    ensures 32 * words >= size && 32 * words < size + 32
  {
    if size > MAX64 - 31 then MAX64 / 32 + 1 else (size + 31) / 32
  }

  /** An addition to a 64-bit accumulator with the overflow test of the source: `quotient` compares
      the room left with the number of units. */
  method AddChecked(gas: nat, units: nat, price: nat) returns (r: Result<nat, Error>)
    requires gas <= MAX64 && price > 0
    ensures r == if gas + units * price <= MAX64 then Ok(gas + units * price) else Err(GasUintOverflow)
  {
    RoomLeft(MAX64 - gas, price, units);
    if (MAX64 - gas) / price < units {
      return Err(GasUintOverflow);
    }
    return Ok(gas + units * price);
  }

  lemma RoomLeft(room: nat, price: nat, units: nat)
    requires price > 0
    ensures room / price < units <==> room < units * price
  {
    var q, r := room / price, room % price;
    assert room == q * price + r && r < price;
    if q < units {
      assert (q + 1) * price <= units * price;
      assert (q + 1) * price == q * price + price;
    } else {
      assert units * price <= q * price;
    }
  }

  /** Addresses and storage keys of an access list. */
  datatype AccessList = AccessList(addresses: nat, storageKeys: nat)

  /** What is charged for the transaction and its data before anything runs. */
  function DataCharge(data: seq<Byte>, isContractCreation: bool, isHomestead: bool, isEIP2028: bool,
                      isEIP3860: bool): nat
  {
    var z := CountZero(data);
    (if isContractCreation && isHomestead then TX_GAS_CONTRACT_CREATION else TX_GAS)
    + (if isEIP2028 then (|data| - z) * TX_DATA_NON_ZERO_GAS_EIP2028 else (|data| - z) * TX_DATA_NON_ZERO_GAS_FRONTIER)
    + z * TX_DATA_ZERO_GAS
    + (if isContractCreation && isEIP3860 then (|data| + 31) / 32 * INIT_CODE_WORD_GAS else 0)
  }

  /** What is charged for the lists. */
  function ListCharge(accessList: Option<AccessList>, authCount: nat): nat
  {
    (if accessList.Some?
     then accessList.value.addresses * TX_ACCESS_LIST_ADDRESS_GAS
       + accessList.value.storageKeys * TX_ACCESS_LIST_STORAGE_KEY_GAS
     else 0)
    + authCount * CALL_NEW_ACCOUNT_GAS
  }

  /** The data charge, byte by byte: a transaction without data costs 21000 gas, a creation 53000 from
      Homestead on; every zero byte adds 4, every other byte 16 from EIP-2028 on and 68 before, and for
      a creation from EIP-3860 on every started word adds 2. */
  lemma DataChargeByByte(data: seq<Byte>, b: Byte, create: bool, homestead: bool, eip2028: bool, eip3860: bool)
    ensures DataCharge([], create, homestead, eip2028, eip3860) == if create && homestead then 53000 else 21000
    ensures DataCharge(data + [b], create, homestead, eip2028, eip3860)
            == DataCharge(data, create, homestead, eip2028, eip3860)
               + (if b == 0 then 4 else if eip2028 then 16 else 68)
               + (if create && eip3860 && |data| % 32 == 0 then 2 else 0)
  {
    CountZeroOneMore(data, b);
  }

  /** The list charge, entry by entry: 2400 for an address, 1900 for a storage key, 25000 for an
      authorization; no lists cost nothing. */
  lemma ListChargeByEntry(addresses: nat, keys: nat, auths: nat)
    ensures ListCharge(None, 0) == ListCharge(Some(AccessList(0, 0)), 0) == 0
    ensures ListCharge(None, auths + 1) == ListCharge(None, auths) + 25000
    ensures var charge := ListCharge(Some(AccessList(addresses, keys)), auths);
            && ListCharge(Some(AccessList(addresses + 1, keys)), auths) == charge + 2400
            && ListCharge(Some(AccessList(addresses, keys + 1)), auths) == charge + 1900
            && ListCharge(Some(AccessList(addresses, keys)), auths + 1) == charge + 25000
  {
  }

  /** The charge for the data, accumulated with three overflow tests: refused exactly when the
      mathematical charge does not fit. */
  method AddDataGas(start: nat, data: seq<Byte>, nonZeroGas: nat, perWord: bool) returns (r: Result<nat, Error>)
    requires start <= MAX64 && nonZeroGas > 0 && |data| <= MAX64
    ensures var z := CountZero(data);
            var charge := start + (|data| - z) * nonZeroGas + z * TX_DATA_ZERO_GAS
                          + (if perWord then (|data| + 31) / 32 * INIT_CODE_WORD_GAS else 0);
            r == if charge > MAX64 then Err(GasUintOverflow) else Ok(charge)
  {
    if |data| == 0 {
      return Ok(start);
    }
    var z := CountZero(data);
    var nz := |data| - z;
    var step := AddChecked(start, nz, nonZeroGas);
    if step.Err? {
      return step;
    }
    step := AddChecked(step.value, z, TX_DATA_ZERO_GAS);
    if step.Err? {
      return step;
    }
    if perWord {
      step := AddChecked(step.value, ToWordSize(|data|), INIT_CODE_WORD_GAS);
    }
    return step;
  }

  /** The charge for the lists is added without any test, so it wraps. */
  method AddListGas(start: nat, accessList: Option<AccessList>, authCount: nat) returns (gas: nat)
    requires start <= MAX64
    ensures gas == (start + ListCharge(accessList, authCount)) % WORD64
  {
    gas := start;
    var lists := 0;
    WrapOnce(start, 0);
    if accessList.Some? {
      var addresses := accessList.value.addresses * TX_ACCESS_LIST_ADDRESS_GAS;
      var keys := accessList.value.storageKeys * TX_ACCESS_LIST_STORAGE_KEY_GAS;
      gas := Add64(Add64(gas, addresses), keys);
      WrapOnce(start + addresses, keys);
      lists := addresses + keys;
    }
    WrapOnce(start + lists, authCount * CALL_NEW_ACCOUNT_GAS);
    gas := Add64(gas, authCount * CALL_NEW_ACCOUNT_GAS);
  }

  /** Unsigned 64-bit addition. */
  function Add64(a: nat, b: nat): nat {
    (a + b) % WORD64
  }

  /** Wrapping early or late makes no difference. */
  lemma WrapOnce(a: nat, b: nat)
    ensures Add64(a % WORD64, b) == Add64(a, b)
    ensures a <= MAX64 ==> a % WORD64 == a
  {
    var q := a / WORD64;
    assert a + b == (a % WORD64 + b) + q * WORD64;
    WrapMultiple(a % WORD64 + b, q);
  }

  lemma {:induction false} WrapMultiple(x: nat, q: nat)
    ensures (x + q * WORD64) % WORD64 == x % WORD64
  {
    if q > 0 {
      WrapMultiple(x, q - 1);
      assert x + q * WORD64 == x + (q - 1) * WORD64 + WORD64;
    }
  }

  /** The intrinsic gas, accumulated in 64 bits. The data part is checked for overflow exactly; the
      list part is not, so the result is the charge modulo the word, and the charge itself whenever
      that fits. */
  method IntrinsicGas(data: seq<Byte>, accessList: Option<AccessList>, authCount: nat, isContractCreation: bool,
                      isHomestead: bool, isEIP2028: bool, isEIP3860: bool) returns (r: Result<nat, Error>)
    requires |data| <= MAX64
    ensures var charge := DataCharge(data, isContractCreation, isHomestead, isEIP2028, isEIP3860);
            r == if charge > MAX64 then Err(GasUintOverflow) else Ok(Add64(charge, ListCharge(accessList, authCount)))
  {
    var gas := if isContractCreation && isHomestead then TX_GAS_CONTRACT_CREATION else TX_GAS;
    var nonZeroGas := if isEIP2028 then TX_DATA_NON_ZERO_GAS_EIP2028 else TX_DATA_NON_ZERO_GAS_FRONTIER;
    r := AddDataGas(gas, data, nonZeroGas, isContractCreation && isEIP3860);
    if r.Ok? {
      gas := AddListGas(r.value, accessList, authCount);
      r := Ok(gas);
    }
  }

  /** The data floor of EIP-7623; the token count itself is not checked for overflow. */
  function FloorDataGas(data: seq<Byte>): (r: Result<nat, Error>)
    ensures var tokens := (|data| - CountZero(data)) * TX_TOKEN_PER_NON_ZERO_BYTE + CountZero(data);
            tokens <= MAX64 ==>
              r == if TX_GAS + tokens * TX_COST_FLOOR_PER_TOKEN > MAX64 then Err(GasUintOverflow)
                   else Ok(TX_GAS + tokens * TX_COST_FLOOR_PER_TOKEN)
    ensures r.Ok? ==> r.value <= MAX64
  {
    var z := CountZero(data);
    var tokens := ((|data| - z) * TX_TOKEN_PER_NON_ZERO_BYTE + z) % WORD64;
    if (MAX64 - TX_GAS) / TX_COST_FLOOR_PER_TOKEN < tokens then Err(GasUintOverflow)
    else Ok(TX_GAS + tokens * TX_COST_FLOOR_PER_TOKEN)
  }

  /** The data floor, byte by byte: 21000 gas without data, 10 for a zero byte, 40 for any other. */
  lemma FloorByByte(data: seq<Byte>, b: Byte)
    requires |data| < 0x1_0000_0000_0000
    ensures FloorDataGas([]) == Ok(21000)
    ensures FloorDataGas(data).Ok?
    ensures FloorDataGas(data + [b]) == Ok(FloorDataGas(data).value + if b == 0 then 10 else 40)
  {
    CountZeroOneMore(data, b);
  }

  /** The gas available to the transactions of a block. */
  class GasPool {
    var remaining: nat
    var initial: nat
    var cumulativeUsed: nat

    /** All fields are 64-bit words and the pool never holds more than it started with, nor has more
        been charged than is missing. */
    ghost predicate Valid()
      reads this
    {
      remaining <= initial <= MAX64 && cumulativeUsed <= initial - remaining
    }

    constructor (amount: nat)
      requires amount <= MAX64
      ensures Valid() && remaining == initial == amount && cumulativeUsed == 0
    {
      remaining, initial, cumulativeUsed := amount, amount, 0;
    }

    method SubGas(amount: nat) returns (ok: bool)
      requires Valid()
      modifies this`remaining
      ensures Valid() && ok == (amount <= old(remaining))
      ensures remaining == if ok then old(remaining) - amount else old(remaining)
    {
      if remaining < amount {
        return false;
      }
      remaining := remaining - amount;
      return true;
    }

    /** Gives back part of a purchase. As long as no more is given back than was taken out, and the
        gas charged is at most the rest, nothing overflows. */
    method ReturnGas(returned: nat, gasUsed: nat) returns (ok: bool)
      requires remaining <= MAX64 && returned <= MAX64 && gasUsed <= MAX64 && cumulativeUsed <= MAX64
      modifies this`remaining, this`cumulativeUsed
      ensures ok == (old(remaining) + returned <= MAX64)
      ensures !ok ==> unchanged(this)
      ensures ok ==> remaining == old(remaining) + returned
                     && cumulativeUsed == (old(cumulativeUsed) + gasUsed) % WORD64
    {
      if remaining > MAX64 - returned {
        return false;
      }
      remaining := remaining + returned;
      cumulativeUsed := (cumulativeUsed + gasUsed) % WORD64;
      return true;
    }

    /** The gas consumed; the panic of the source on an underflow is the precondition, which every
        valid pool meets. */
    method Used() returns (used: nat)
      requires Valid()
      ensures used == initial - remaining && cumulativeUsed <= used
    {
      used := initial - remaining;
    }
  }
}
