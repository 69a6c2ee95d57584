/** The account state a transaction works on: balances, nonces, code and the refund counter. */
module Accounts {
  import opened Common
  import opened Gas

  type Address = a: seq<Byte> | |a| == 20 witness NO_ADDRESS

  const NO_ADDRESS: seq<Byte> := [0, 0, 0, 0, 0, 0, 0, 0, 0, 0, 0, 0, 0, 0, 0, 0, 0, 0, 0, 0]

  const ZERO_ADDRESS: Address := NO_ADDRESS

  datatype Account = Account(nonce: nat, balance: nat, code: seq<Byte>)

  const EMPTY_ACCOUNT := Account(0, 0, [])

  /** `refund` is the transaction-wide gas refund counter. */
  datatype World = World(accounts: map<Address, Account>, refund: nat)

  function Get(w: World, a: Address): Account {
    if a in w.accounts then w.accounts[a] else EMPTY_ACCOUNT
  }

  /** Overwrites one account; an absent one comes into existence. */
  function Put(w: World, a: Address, account: Account): World {
    w.(accounts := w.accounts[a := account])
  }

  /** Balances are 256-bit words, so a sum or a difference may wrap. */
  function AddBalance(w: World, a: Address, amount: nat): World {
    Put(w, a, Get(w, a).(balance := (Get(w, a).balance + amount) % WORD256))
  }

  function SubBalance(w: World, a: Address, amount: nat): World {
    Put(w, a, Get(w, a).(balance := (Get(w, a).balance - amount) % WORD256))
  }

  function SetNonce(w: World, a: Address, nonce: nat): World {
    Put(w, a, Get(w, a).(nonce := nonce))
  }

  function SetCode(w: World, a: Address, code: seq<Byte>): World {
    Put(w, a, Get(w, a).(code := code))
  }

  function AddRefund(w: World, gas: nat): World {
    w.(refund := Add64(w.refund, gas))
  }

  // ---- Total wei ----

  /** The wei held by all accounts together. */
  ghost function SumOf(m: map<Address, Account>): nat
    decreases |m|
  {
    if m == map[] then 0
    else
      var a :| a in m;
      m[a].balance + SumOf(m - {a})
  }

  ghost function Total(w: World): nat {
    SumOf(w.accounts)
  }

  /** The order in which the accounts are summed is irrelevant. */
  lemma {:induction false} SumWithout(m: map<Address, Account>, a: Address)
    requires a in m
    ensures SumOf(m) == m[a].balance + SumOf(m - {a})
    decreases |m|
  {
    var b :| b in m && SumOf(m) == m[b].balance + SumOf(m - {b});
    if a != b {
      SumWithout(m - {b}, a);
      SumWithout(m - {a}, b);
      assert m - {b} - {a} == m - {a} - {b};
    }
  }

  /** Overwriting one account changes the total by the change of its balance. */
  lemma TotalAfterPut(w: World, a: Address, account: Account)
    ensures Total(Put(w, a, account)) == Total(w) - Get(w, a).balance + account.balance
    ensures Get(w, a).balance <= Total(w)
  {
    var m := w.accounts[a := account];
    SumWithout(m, a);
    if a in w.accounts {
      SumWithout(w.accounts, a);
      assert m - {a} == w.accounts - {a};
    } else {
      assert m - {a} == w.accounts;
    }
  }

  /** Writing nonce and code one after the other writes the account. */
  lemma PutTwice(w: World, a: Address, nonce: nat, code: seq<Byte>)
    ensures SetCode(SetNonce(w, a, nonce), a, code) == Put(w, a, Account(nonce, Get(w, a).balance, code))
    ensures forall gas :: AddRefund(Put(w, a, Account(nonce, Get(w, a).balance, code)), gas)
                          == SetCode(SetNonce(AddRefund(w, gas), a, nonce), a, code)
  {
    var once := w.accounts[a := Get(w, a).(nonce := nonce)];
    assert once[a := Account(nonce, Get(w, a).balance, code)]
      == w.accounts[a := Account(nonce, Get(w, a).balance, code)];
  }

  /** As long as all wei fit one word, a credit never wraps. */
  lemma CreditIsExact(w: World, a: Address, amount: nat)
    requires Total(w) + amount < WORD256
    ensures Get(AddBalance(w, a, amount), a) == Get(w, a).(balance := Get(w, a).balance + amount)
    ensures Total(AddBalance(w, a, amount)) == Total(w) + amount
  {
    TotalAfterPut(w, a, Get(w, a).(balance := (Get(w, a).balance + amount) % WORD256));
  }

  /** A debit the account can pay never wraps. */
  lemma DebitIsExact(w: World, a: Address, amount: nat)
    requires amount <= Get(w, a).balance && Total(w) < WORD256
    ensures Get(SubBalance(w, a, amount), a) == Get(w, a).(balance := Get(w, a).balance - amount)
    ensures Total(SubBalance(w, a, amount)) == Total(w) - amount
  {
    TotalAfterPut(w, a, Get(w, a).(balance := (Get(w, a).balance - amount) % WORD256));
  }

  /** Nonces, code and the refund counter hold no wei. */
  lemma NoWeiMoved(w: World, a: Address, nonce: nat, code: seq<Byte>)
    ensures Total(SetNonce(w, a, nonce)) == Total(w)
    ensures Total(SetCode(w, a, code)) == Total(w)
  {
    TotalAfterPut(w, a, Get(w, a).(nonce := nonce));
    TotalAfterPut(w, a, Get(w, a).(code := code));
  }

  // ---- Delegations ----

  const DELEGATION_PREFIX: seq<Byte> := [0xef, 0x01, 0x00]

  function ParseDelegation(code: seq<Byte>): (r: Option<Address>)
  {
    if |code| != 23 || code[..3] != DELEGATION_PREFIX then None else Some(code[3..])
  }

  function AddressToDelegation(a: Address): (code: seq<Byte>)
    ensures ParseDelegation(code) == Some(a)
  {
    var code := DELEGATION_PREFIX + a;
    assert code[..3] == DELEGATION_PREFIX && code[3..] == a;
    code
  }

  /** A delegation is the only code that reads as one. */
  lemma DelegationRoundTrip(code: seq<Byte>)
    requires ParseDelegation(code).Some?
    ensures AddressToDelegation(ParseDelegation(code).value) == code
  {
    assert code == code[..3] + code[3..];
  }

  /** Which codes a sender or an authority may have: none, or the delegation to some address. */
  lemma EOAMeaning(w: World, a: Address)
    ensures IsEOA(w, a) <==> Get(w, a).code == [] || exists to: Address :: Get(w, a).code == AddressToDelegation(to)
  {
    var code := Get(w, a).code;
    if ParseDelegation(code).Some? {
      DelegationRoundTrip(code);
    }
  }

  /** A delegation is three fixed bytes and the address. */
  lemma DelegationBytes(a: Address)
    ensures AddressToDelegation(a) == [0xef, 0x01, 0x00] + a && |AddressToDelegation(a)| == 23
  {
  }

  /** An account may send or delegate only if it has no code but a delegation. */
  predicate IsEOA(w: World, a: Address) {
    var code := Get(w, a).code;
    |code| == 0 || ParseDelegation(code).Some?
  }
}
