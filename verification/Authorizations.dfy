/** EIP-7702 authorization lists, applied entry by entry to the account state. */
module Authorizations {
  import opened Common
  import opened Gas
  import opened Accounts

  /** `authority` is the address recovered from the signature, absent when the signature is bad. */
  datatype Authorization = Authorization(chainId: nat, address: Address, nonce: Word64, authority: Option<Address>)

  datatype AuthError = WrongChainID | NonceOverflow | InvalidSignature | DestinationHasCode | NonceMismatch

  /** The tuple is for this chain or for any, is signed, has the authority's next nonce, and the
      authority has no contract code. */
  predicate Accepts(w: World, chainId: nat, auth: Authorization) {
    (auth.chainId == 0 || auth.chainId == chainId)
    && auth.nonce < MAX64
    && auth.authority.Some?
    && IsEOA(w, auth.authority.value)
    && Get(w, auth.authority.value).nonce == auth.nonce
  }

  /** The rule an error names is really broken. */
  predicate Breaks(error: AuthError, w: World, chainId: nat, auth: Authorization) {
    match error
    case WrongChainID => auth.chainId != 0 && auth.chainId != chainId
    case NonceOverflow => auth.nonce == MAX64
    case InvalidSignature => auth.authority.None?
    case DestinationHasCode => auth.authority.Some? && !IsEOA(w, auth.authority.value)
    case NonceMismatch => auth.authority.Some? && Get(w, auth.authority.value).nonce != auth.nonce
  }

  /** A tuple is accepted exactly if it breaks none of the rules. */
  lemma AcceptsIffUnbroken(w: World, chainId: nat, auth: Authorization)
    ensures Accepts(w, chainId, auth) <==> forall e: AuthError :: !Breaks(e, w, chainId, auth)
  {
    if forall e: AuthError :: !Breaks(e, w, chainId, auth) {
      assert !Breaks(WrongChainID, w, chainId, auth) && !Breaks(NonceOverflow, w, chainId, auth);
      assert !Breaks(InvalidSignature, w, chainId, auth);
      assert !Breaks(DestinationHasCode, w, chainId, auth) && !Breaks(NonceMismatch, w, chainId, auth);
    }
  }

  const EXISTING_REFUND: nat := CALL_NEW_ACCOUNT_GAS - TX_AUTH_TUPLE_GAS

  function Delegation(address: Address): seq<Byte> {
    if address == ZERO_ADDRESS then [] else AddressToDelegation(address)
  }

  /** The state after one entry: unchanged unless the entry is accepted. */
  function Authorize(w: World, chainId: nat, auth: Authorization): World {
    if !Accepts(w, chainId, auth) then w
    else
      var a := auth.authority.value;
      var account := Account(auth.nonce + 1, Get(w, a).balance, Delegation(auth.address));
      Put(if a in w.accounts then AddRefund(w, EXISTING_REFUND) else w, a, account)
  }

  function AuthorizeAll(w: World, chainId: nat, auths: seq<Authorization>): World {
    if auths == [] then w
    else Authorize(AuthorizeAll(w, chainId, auths[..|auths| - 1]), chainId, auths[|auths| - 1])
  }

  /** The entries of one authority that are accepted, in order. */
  function AcceptedBy(w: World, chainId: nat, auths: seq<Authorization>, a: Address): seq<Authorization> {
    if auths == [] then []
    else
      var rest, auth := auths[..|auths| - 1], auths[|auths| - 1];
      AcceptedBy(w, chainId, rest, a)
      + if auth.authority == Some(a) && Accepts(AuthorizeAll(w, chainId, rest), chainId, auth) then [auth] else []
  }

  function AcceptedCount(w: World, chainId: nat, auths: seq<Authorization>): (n: nat)
    ensures n <= |auths|
  {
    if auths == [] then 0
    else
      var rest := auths[..|auths| - 1];
      AcceptedCount(w, chainId, rest)
      + if Accepts(AuthorizeAll(w, chainId, rest), chainId, auths[|auths| - 1]) then 1 else 0
  }

  /** One entry, seen from any address: only an accepted entry's authority changes, its nonce goes up
      by one, its code becomes the delegation, and its balance stays. */
  lemma AuthorizeOne(w: World, chainId: nat, auth: Authorization, b: Address)
    ensures var after := Get(Authorize(w, chainId, auth), b);
            if Accepts(w, chainId, auth) && auth.authority == Some(b)
            then after == Account(Get(w, b).nonce + 1, Get(w, b).balance, Delegation(auth.address))
                 && auth.nonce == Get(w, b).nonce
                 && IsEOA(Authorize(w, chainId, auth), b)
            else after == Get(w, b)
    ensures Total(Authorize(w, chainId, auth)) == Total(w)
  {
    if Accepts(w, chainId, auth) {
      var a := auth.authority.value;
      var account := Account(auth.nonce + 1, Get(w, a).balance, Delegation(auth.address));
      TotalAfterPut(if a in w.accounts then AddRefund(w, EXISTING_REFUND) else w, a, account);
    }
  }

  /** The accepted entries of one authority carry consecutive nonces, starting at the authority's own,
      and its nonce ends right behind the last of them. */
  lemma {:induction false} ConsecutiveNonces(w: World, chainId: nat, auths: seq<Authorization>, a: Address)
    ensures var accepted := AcceptedBy(w, chainId, auths, a);
            && Get(AuthorizeAll(w, chainId, auths), a).nonce == Get(w, a).nonce + |accepted|
            && forall k :: 0 <= k < |accepted| ==> accepted[k].nonce == Get(w, a).nonce + k
    decreases |auths|
  {
    if auths != [] {
      var rest := auths[..|auths| - 1];
      ConsecutiveNonces(w, chainId, rest, a);
      AuthorizeOne(AuthorizeAll(w, chainId, rest), chainId, auths[|auths| - 1], a);
    }
  }

  function CodeAfter(code: seq<Byte>, accepted: seq<Authorization>): seq<Byte> {
    if accepted == [] then code else Delegation(accepted[|accepted| - 1].address)
  }

  lemma CodeAfterOneMore(code: seq<Byte>, accepted: seq<Authorization>, auth: Authorization)
    ensures CodeAfter(code, accepted + [auth]) == Delegation(auth.address)
  {
  }

  /** An authority's delegation is that of its last accepted entry. */
  lemma {:induction false} LastAcceptedDelegates(w: World, chainId: nat, auths: seq<Authorization>, a: Address)
    ensures Get(AuthorizeAll(w, chainId, auths), a).code == CodeAfter(Get(w, a).code, AcceptedBy(w, chainId, auths, a))
    decreases |auths|
  {
    if auths != [] {
      var rest := auths[..|auths| - 1];
      LastAcceptedDelegates(w, chainId, rest, a);
      CodeAfterOneMore(Get(w, a).code, AcceptedBy(w, chainId, rest, a), auths[|auths| - 1]);
      AuthorizeOne(AuthorizeAll(w, chainId, rest), chainId, auths[|auths| - 1], a);
    }
  }

  /** Authorizations move no wei. */
  lemma {:induction false} AuthorizationsMoveNoWei(w: World, chainId: nat, auths: seq<Authorization>, a: Address)
    ensures Get(AuthorizeAll(w, chainId, auths), a).balance == Get(w, a).balance
    ensures Total(AuthorizeAll(w, chainId, auths)) == Total(w)
    decreases |auths|
  {
    if auths != [] {
      var rest := auths[..|auths| - 1];
      AuthorizationsMoveNoWei(w, chainId, rest, a);
      AuthorizeOne(AuthorizeAll(w, chainId, rest), chainId, auths[|auths| - 1], a);
    }
  }

  /** What an entry installs: nothing for the address of twenty zero bytes, and otherwise a delegation to
      its address. */
  lemma DelegationMeaning(address: Address)
    ensures if forall i :: 0 <= i < 20 ==> address[i] == 0 then Delegation(address) == []
            else ParseDelegation(Delegation(address)) == Some(address)
  {
    if forall i :: 0 <= i < 20 ==> address[i] == 0 {
      assert address == ZERO_ADDRESS;
    }
  }

  /** The entries that are accepted for an account that exists already. */
  function RefundedCount(w: World, chainId: nat, auths: seq<Authorization>): (n: nat)
    ensures n <= |auths|
  {
    if auths == [] then 0
    else
      var before, auth := AuthorizeAll(w, chainId, auths[..|auths| - 1]), auths[|auths| - 1];
      RefundedCount(w, chainId, auths[..|auths| - 1])
      + if Accepts(before, chainId, auth) && auth.authority.value in before.accounts then 1 else 0
  }

  /** The counter grows by exactly 12500 for each accepted entry whose account exists already. */
  lemma {:induction false} RefundsAreExact(w: World, chainId: nat, auths: seq<Authorization>)
    requires w.refund + 12500 * |auths| <= MAX64
    ensures AuthorizeAll(w, chainId, auths).refund == w.refund + 12500 * RefundedCount(w, chainId, auths)
    decreases |auths|
  {
    if auths != [] {
      RefundsAreExact(w, chainId, auths[..|auths| - 1]);
    }
  }

  /** Signed entries for one authority, for this chain or any, with its next nonces in order. */
  ghost predicate InSequence(w: World, chainId: nat, auths: seq<Authorization>, a: Address) {
    && IsEOA(w, a)
    && forall k :: 0 <= k < |auths| ==>
         && auths[k].authority == Some(a) && (auths[k].chainId == 0 || auths[k].chainId == chainId)
         && auths[k].nonce == Get(w, a).nonce + k < MAX64
  }

  /** Such entries are all accepted, so an authority can change its mind within one list. */
  lemma {:induction false} SequenceAccepted(w: World, chainId: nat, auths: seq<Authorization>, a: Address)
    requires InSequence(w, chainId, auths, a)
    ensures AcceptedBy(w, chainId, auths, a) == auths
    ensures IsEOA(AuthorizeAll(w, chainId, auths), a)
    decreases |auths|
  {
    if auths != [] {
      var rest, last := auths[..|auths| - 1], auths[|auths| - 1];
      SequenceAccepted(w, chainId, rest, a);
      ConsecutiveNonces(w, chainId, rest, a);
      AuthorizeOne(AuthorizeAll(w, chainId, rest), chainId, last, a);
      assert auths == rest + [last];
    }
  }

  /** The refunds are covered: of the 25000 gas charged per entry, an accepted entry gets back at most
      12500 and a skipped entry nothing. The 64-bit counter cannot wrap once the charge for the list
      fits a word. */
  lemma {:induction false} RefundsAreCovered(w: World, chainId: nat, auths: seq<Authorization>)
    requires w.refund + ListCharge(None, |auths|) <= MAX64
    ensures var after := AuthorizeAll(w, chainId, auths);
            && w.refund <= after.refund <= w.refund + EXISTING_REFUND * AcceptedCount(w, chainId, auths)
            && after.refund + EXISTING_REFUND * |auths| <= w.refund + ListCharge(None, |auths|)
    decreases |auths|
  {
    if auths != [] {
      RefundsAreCovered(w, chainId, auths[..|auths| - 1]);
    }
  }

  // ---- Replay ----

  /** A long run of the chain: an authorization is offered, or anything else changes the state. */
  datatype Event = Offer(auth: Authorization) | Other(after: World)

  ghost predicate NoncesKeep(before: World, after: World) {
    forall a: Address :: Get(before, a).nonce <= Get(after, a).nonce
  }

  ghost predicate Steps(chainId: nat, before: World, event: Event, after: World) {
    match event
    case Offer(auth) => after == Authorize(before, chainId, auth)
    case Other(w) => after == w && NoncesKeep(before, w)
  }

  ghost predicate History(chainId: nat, worlds: seq<World>, events: seq<Event>) {
    && |worlds| == |events| + 1
    && forall i :: 0 <= i < |events| ==> Steps(chainId, worlds[i], events[i], worlds[i + 1])
  }

  lemma {:induction false} NoncesNeverFall(chainId: nat, worlds: seq<World>, events: seq<Event>, i: nat, j: nat,
                                           a: Address)
    requires History(chainId, worlds, events) && i <= j <= |events|
    ensures Get(worlds[i], a).nonce <= Get(worlds[j], a).nonce
    decreases j - i
  {
    if i < j {
      NoncesNeverFall(chainId, worlds, events, i, j - 1, a);
      assert Steps(chainId, worlds[j - 1], events[j - 1], worlds[j]);
      if events[j - 1].Offer? {
        AuthorizeOne(worlds[j - 1], chainId, events[j - 1].auth, a);
      }
    }
  }

  /** No replay: over any run in which nothing else lowers a nonce, an authority never accepts two
      entries with the same nonce, so no tuple is accepted twice. */
  lemma NoReplay(chainId: nat, worlds: seq<World>, events: seq<Event>, i: nat, j: nat)
    requires History(chainId, worlds, events) && i < j < |events|
    requires events[i].Offer? && events[j].Offer?
    requires Accepts(worlds[i], chainId, events[i].auth) && events[j].auth.authority == events[i].auth.authority
    requires events[j].auth.nonce <= events[i].auth.nonce
    ensures !Accepts(worlds[j], chainId, events[j].auth)
  {
    var a := events[i].auth.authority.value;
    assert Steps(chainId, worlds[i], events[i], worlds[i + 1]);
    AuthorizeOne(worlds[i], chainId, events[i].auth, a);
    NoncesNeverFall(chainId, worlds, events, i + 1, j, a);
  }
}
