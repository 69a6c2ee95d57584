/** Two fast ancestor lookups that must agree with the plain walk over parents: `GetAncestor`,
    which jumps through the canonical index, and the block-hash function of the EVM, which keeps a
    growing cache. */
module AncestorLookup {
  import opened Common
  import opened BlockTree
  import opened HeaderChain

  /** The plain walk: `steps` parents up from the block `hash` of number `number`, if every header
      on the way is stored. */
  function Walk(headers: Headers, hash: Hash, number: nat, steps: nat): (r: Option<Hash>)
    decreases steps
  {
    if steps == 0 then Some(hash)
    else
      var header := GetHeader(headers, hash, number);
      if header.None? || number == 0 then None
      else Walk(headers, header.value.parentHash, number - 1, steps - 1)
  }

  /** Walking in two stages. */
  lemma {:induction false} WalkOn(headers: Headers, hash: Hash, number: nat, steps: nat)
    requires steps <= number
    ensures Walk(headers, hash, number, steps + 1) ==
            match Walk(headers, hash, number, steps)
            case None => None
            case Some(h) => Walk(headers, h, number - steps, 1)
    decreases steps
  {
    if steps > 0 {
      var header := GetHeader(headers, hash, number);
      if header.Some? {
        WalkOn(headers, header.value.parentHash, number - 1, steps - 1);
      }
    }
  }

  /** On a chain the walk reads off the chain. */
  lemma {:induction false} WalkOnChain(headers: Headers, genesis: Hash, head: Hash, number: nat, steps: nat)
    requires Linked(headers, genesis) && Rooted(headers, genesis, head)
    requires steps <= number <= headers[head].number
    ensures var chain := ChainOf(headers, genesis, head);
            Walk(headers, chain[number], number, steps) == Some(chain[number - steps])
    decreases steps
  {
    var chain := ChainOf(headers, genesis, head);
    if steps > 0 {
      ChainIsPath(headers, genesis, head);
      PrefixOfChain(headers, genesis, head, number);
      ParentOnChain(headers, genesis, chain[number]);
      assert chain[..number + 1][number - 1] == chain[number - 1];
      WalkOnChain(headers, genesis, head, number - 1, steps - 1);
    }
  }

  /** How many blocks `GetAncestor` checks one by one before it is on the canonical chain or has
      gone all the way. */
  ghost function Detour(headers: Headers, canonical: map<nat, Hash>, hash: Hash, number: nat, steps: nat): (d: nat)
    requires steps <= number
    ensures d <= steps
    decreases steps
  {
    if steps == 0 || ReadCanonical(canonical, number) == hash then 0
    else
      var header := GetHeader(headers, hash, number);
      if header.None? then 1 else 1 + Detour(headers, canonical, header.value.parentHash, number - 1, steps - 1)
  }

  /** A header has a path to the genesis exactly if the plain walk gets there. */
  lemma {:induction false} RootedIffWalk(headers: Headers, genesis: Hash, h: Hash)
    requires Linked(headers, genesis) && h in headers
    ensures Rooted(headers, genesis, h) <==>
              Walk(headers, h, headers[h].number, headers[h].number) == Some(genesis)
    decreases headers[h].number
  {
    var p := headers[h].parentHash;
    if headers[h].number > 0 && p in headers {
      RootedIffWalk(headers, genesis, p);
    } else if headers[h].number > 1 {
      assert Walk(headers, p, headers[h].number - 1, headers[h].number - 1) == None;
    }
  }

  /** What the detour counts: the blocks on the walk that are not canonical, up to the first one that is,
      the first missing one, or the end. */
  lemma {:induction false} DetourMeaning(headers: Headers, canonical: map<nat, Hash>, hash: Hash, number: nat,
                                         steps: nat, k: nat)
    requires steps <= number && k <= Detour(headers, canonical, hash, number, steps)
    ensures var d := Detour(headers, canonical, hash, number, steps);
            && (k < d ==> match Walk(headers, hash, number, k)
                          case Some(h) => ReadCanonical(canonical, number - k) != h
                          case None => false)
            && (k == d < steps ==> match Walk(headers, hash, number, k)
                                   case Some(h) => ReadCanonical(canonical, number - k) == h
                                   case None => true)
    decreases steps
  {
    if k > 0 {
      var header := GetHeader(headers, hash, number);
      if header.Some? {
        DetourMeaning(headers, canonical, header.value.parentHash, number - 1, steps - 1, k - 1);
      }
    }
  }

  /** The ancestor of `hash` that is `ancestor` blocks older, at most `budget` blocks being checked
      individually; the zero hash if it is not found. On an exact canonical index the answer is that
      of the walk, or the zero result exactly if the walk fails or the budget is too small. The zero
      hash itself passes for canonical wherever the index is empty. */
  method GetAncestor(chain: Chain, hash: Hash, number: nat, ancestor: nat, budget: nat)
      returns (r: Hash, rnum: nat, left: nat)
    requires chain.Valid()
    ensures left <= budget
    ensures ancestor > number ==> r == ZERO_HASH && rnum == 0 && left == budget
    ensures ancestor == 1 <= number ==>
              left == budget &&
              if Walk(chain.headers, hash, number, 1).Some?
              then Walk(chain.headers, hash, number, 1) == Some(r) && rnum == number - 1
              else r == ZERO_HASH && rnum == 0
    ensures hash != ZERO_HASH && ancestor <= number && ancestor != 1 ==>
              var found := Walk(chain.headers, hash, number, ancestor);
              var detour := Detour(chain.headers, chain.canonical, hash, number, ancestor);
              && left == budget - (if detour <= budget then detour else budget)
              && if found.Some? && detour <= budget then found == Some(r) && rnum == number - ancestor
                 else r == ZERO_HASH && rnum == 0
    ensures hash == ZERO_HASH && ancestor <= number && ancestor > 1
            && ReadCanonical(chain.canonical, number) == ZERO_HASH ==>
              r == ReadCanonical(chain.canonical, number - ancestor) && rnum == number - ancestor && left == budget
    ensures hash == ZERO_HASH && 1 < ancestor <= number && ReadCanonical(chain.canonical, number) != ZERO_HASH ==>
              r == ZERO_HASH && rnum == 0 && left == if budget == 0 then 0 else budget - 1
  {
    left := budget;
    if ancestor > number {
      return ZERO_HASH, 0, left;
    }
    if ancestor == 1 {
      var header := GetHeader(chain.headers, hash, number);
      if header.Some? {
        return header.value.parentHash, number - 1, left;
      }
      return ZERO_HASH, 0, left;
    }
    r, rnum := hash, number;
    var steps := ancestor;
    while steps != 0
      invariant 0 <= steps <= rnum && rnum - steps == number - ancestor && left <= budget
      invariant if steps == ancestor then r == hash && left == budget
                else ReadCanonical(chain.canonical, number) != hash
      invariant hash != ZERO_HASH ==> r != ZERO_HASH
      invariant hash == ZERO_HASH ==> steps == ancestor
      invariant hash != ZERO_HASH ==> Walk(chain.headers, hash, number, ancestor) == Walk(chain.headers, r, rnum, steps)
      invariant hash != ZERO_HASH ==>
                  Detour(chain.headers, chain.canonical, hash, number, ancestor) - budget ==
                  Detour(chain.headers, chain.canonical, r, rnum, steps) - left
      decreases steps
    {
      if ReadCanonical(chain.canonical, rnum) == r {
        if hash != ZERO_HASH {
          WalkOnChain(chain.headers, chain.genesis.hash, chain.currentHeaderHash, rnum, steps);
        }
        rnum := rnum - steps;
        return ReadCanonical(chain.canonical, rnum), rnum, left;
      }
      if left == 0 {
        return ZERO_HASH, 0, left;
      }
      left := left - 1;
      steps := steps - 1;
      var header := GetHeader(chain.headers, r, rnum);
      if header.None? {
        return ZERO_HASH, 0, left;
      }
      r, rnum := header.value.parentHash, rnum - 1;
    }
  }

  /** The closure of `GetHashFn`: a reference header, the stored headers and the cache
      [parent, grandparent, ...] of hashes it has walked so far. */
  class HashFn {
    const ref: Header
    const headers: Headers
    var cache: seq<Hash>

    constructor (ref: Header, headers: Headers)
      ensures this.ref == ref && this.headers == headers && Valid()
    {
      this.ref := ref;
      this.headers := headers;
      cache := [];
    }

    /** The cache is exactly the list of successive ancestor hashes. */
    ghost predicate Valid()
      reads this
    {
      && |cache| <= ref.number
      && forall i :: 0 <= i < |cache| ==> Walk(headers, ref.parentHash, ref.number - 1, i) == Some(cache[i])
    }

    /** The hash of the ancestor of number `n`: what the walk finds, or the zero hash. */
    method Get(n: nat) returns (r: Hash)
      requires Valid()
      modifies this`cache
      ensures Valid() && old(cache) <= cache
      ensures n >= ref.number ==> r == ZERO_HASH && cache == old(cache)
      ensures n < ref.number ==>
                match Walk(headers, ref.parentHash, ref.number - 1, ref.number - 1 - n)
                case Some(h) => r == h
                case None => r == ZERO_HASH
    {
      if ref.number <= n {
        return ZERO_HASH;
      }
      if |cache| == 0 {
        cache := [ref.parentHash];
      }
      var idx := ref.number - n - 1;
      if idx < |cache| {
        return cache[idx];
      }
      var lastKnownHash, lastKnownNumber := cache[|cache| - 1], ref.number - |cache|;
      while true
        invariant Valid() && old(cache) <= cache && 0 < |cache| <= idx
        invariant lastKnownHash == cache[|cache| - 1] && lastKnownNumber == ref.number - |cache|
        decreases lastKnownNumber
      {
        WalkOn(headers, ref.parentHash, ref.number - 1, |cache| - 1);
        var header := GetHeader(headers, lastKnownHash, lastKnownNumber);
        if header.None? {
          WalkStuck(headers, ref.parentHash, ref.number - 1, |cache|, idx);
          break;
        }
        cache := cache + [header.value.parentHash];
        lastKnownHash, lastKnownNumber := header.value.parentHash, header.value.number - 1;
        if n == lastKnownNumber {
          return lastKnownHash;
        }
      }
      return ZERO_HASH;
    }
  }

  /** A walk that is stuck stays stuck. */
  lemma {:induction false} WalkStuck(headers: Headers, hash: Hash, number: nat, fewer: nat, more: nat)
    requires fewer <= more <= number
    requires Walk(headers, hash, number, fewer) == None
    ensures Walk(headers, hash, number, more) == None
    decreases more
  {
    if fewer < more {
      WalkStuck(headers, hash, number, fewer, more - 1);
      WalkOn(headers, hash, number, more - 1);
    }
  }
}
