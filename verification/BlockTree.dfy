/** The tree of headers that both the block chain and the header chain maintain indexes over.
    A header names its parent by hash; the ancestor chain of a header is what a walk over
    parents yields. Every index in the project is compared with that walk. */
module BlockTree {
  import opened Common

  datatype Header = Header(hash: Hash, parentHash: Hash, number: nat, time: nat)

  /** The stored headers, by hash. */
  type Headers = map<Hash, Header>

  /** Stored headers carry their own non-zero hash, a header's number is one above its stored
      parent's, and the single header of number 0 is the only one without a parent hash. Ancestors
      may be missing. */
  ghost predicate Linked(headers: Headers, genesis: Hash)
  {
    && genesis in headers
    && (forall h :: h in headers ==> h != ZERO_HASH && headers[h].hash == h)
    && (forall h :: h in headers ==> (headers[h].number == 0 <==> h == genesis))
    && (forall h :: h in headers ==> (headers[h].parentHash == ZERO_HASH <==> h == genesis))
    && (forall h {:trigger headers[h].parentHash} ::
          h in headers && headers[h].number > 0 && headers[h].parentHash in headers ==>
          headers[headers[h].parentHash].number == headers[h].number - 1)
  }

  /** The database read `GetHeader(hash, number)`; callers pass `number - 1`, which for the
      genesis header finds nothing. */
  function GetHeader(headers: Headers, hash: Hash, number: int): (r: Option<Header>)
    ensures r.Some? ==> hash in headers && r.value == headers[hash] && r.value.number == number
    ensures r.None? <==> !(hash in headers && headers[hash].number == number)
  {
    if hash in headers && headers[hash].number == number then Some(headers[hash]) else None
  }

  /** The hash of `header` is its own: a stored header of that hash is the same one, and stored headers
      that name it as their parent have the next number. */
  ghost predicate OwnHash(headers: Headers, header: Header)
  {
    && header.hash != ZERO_HASH
    && (header.hash in headers ==> headers[header.hash] == header)
    && (forall c :: c in headers && headers[c].parentHash == header.hash ==> headers[c].number == header.number + 1)
  }

  /** Storing a header under a stored parent of the number before keeps the store linked. */
  lemma ExtendLinked(headers: Headers, genesis: Hash, header: Header)
    requires Linked(headers, genesis) && OwnHash(headers, header)
    requires GetHeader(headers, header.parentHash, header.number - 1).Some?
    ensures Linked(headers[header.hash := header], genesis)
  {
  }

  /** No ancestor of `h` is missing. */
  ghost predicate Rooted(headers: Headers, genesis: Hash, h: Hash)
    requires Linked(headers, genesis)
    decreases if h in headers then headers[h].number else 0
  {
    && h in headers
    && (headers[h].number == 0 ||
        (headers[h].parentHash in headers && Rooted(headers, genesis, headers[h].parentHash)))
  }

  /** The walk over parents: element `n` is the ancestor of `h` of number `n`. */
  ghost function ChainOf(headers: Headers, genesis: Hash, h: Hash): (chain: seq<Hash>)
    requires Linked(headers, genesis) && Rooted(headers, genesis, h)
    ensures |chain| == headers[h].number + 1
    ensures chain[|chain| - 1] == h
    decreases headers[h].number
  {
    if headers[h].number == 0 then [h]
    else ChainOf(headers, genesis, headers[h].parentHash) + [h]
  }

  /** The walk over parents, step by step: it starts at the genesis, each hash names its predecessor as its
      parent, and it ends at `h`. */
  lemma {:induction false} ChainFollowsParents(headers: Headers, genesis: Hash, h: Hash, n: nat)
    requires Linked(headers, genesis) && Rooted(headers, genesis, h) && n <= headers[h].number
    ensures var chain := ChainOf(headers, genesis, h);
            && chain[0] == genesis && chain[headers[h].number] == h
            && chain[n] in headers && headers[chain[n]].number == n
            && (n > 0 ==> headers[chain[n]].parentHash == chain[n - 1])
    decreases headers[h].number
  {
    if headers[h].number > 0 {
      ChainFollowsParents(headers, genesis, headers[h].parentHash, if n < headers[h].number then n else n - 1);
    }
  }

  /** The number-to-hash index that a chain should have. */
  ghost function IndexOf(chain: seq<Hash>): (index: map<nat, Hash>)
  {
    map n: nat | 0 <= n < |chain| :: chain[n]
  }

  /** `chain[n]` is a stored header of number `n`. */
  ghost predicate IsPath(headers: Headers, chain: seq<Hash>)
  {
    forall n :: 0 <= n < |chain| ==>
      chain[n] != ZERO_HASH && chain[n] in headers && headers[chain[n]].hash == chain[n]
        && headers[chain[n]].number == n
  }

  lemma {:induction false} ChainIsPath(headers: Headers, genesis: Hash, h: Hash)
    requires Linked(headers, genesis) && Rooted(headers, genesis, h)
    ensures IsPath(headers, ChainOf(headers, genesis, h))
    decreases headers[h].number
  {
    if headers[h].number > 0 {
      ChainIsPath(headers, genesis, headers[h].parentHash);
    }
  }

  /** Every ancestor is rooted and its own chain is a prefix. */
  lemma {:induction false} PrefixOfChain(headers: Headers, genesis: Hash, h: Hash, n: nat)
    requires Linked(headers, genesis) && Rooted(headers, genesis, h)
    requires n <= headers[h].number
    ensures Rooted(headers, genesis, ChainOf(headers, genesis, h)[n])
    ensures ChainOf(headers, genesis, ChainOf(headers, genesis, h)[n]) == ChainOf(headers, genesis, h)[..n + 1]
    decreases headers[h].number
  {
    var chain := ChainOf(headers, genesis, h);
    if n == headers[h].number {
      assert chain[..n + 1] == chain;
    } else {
      var p := headers[h].parentHash;
      PrefixOfChain(headers, genesis, p, n);
      assert chain[..n + 1] == ChainOf(headers, genesis, p)[..n + 1];
    }
  }

  /** A step to the parent is a step down the chain. */
  lemma ParentOnChain(headers: Headers, genesis: Hash, h: Hash)
    requires Linked(headers, genesis) && Rooted(headers, genesis, h)
    requires headers[h].number > 0
    ensures Rooted(headers, genesis, headers[h].parentHash)
    ensures ChainOf(headers, genesis, headers[h].parentHash) ==
            ChainOf(headers, genesis, h)[..headers[h].number]
  {
    var chain := ChainOf(headers, genesis, h);
    assert chain[..headers[h].number] == ChainOf(headers, genesis, headers[h].parentHash);
  }

  /** Two chains that share a hash share everything below it. */
  lemma {:induction false} SharedPrefix(headers: Headers, genesis: Hash, a: Hash, b: Hash, n: nat)
    requires Linked(headers, genesis)
    requires Rooted(headers, genesis, a) && Rooted(headers, genesis, b)
    requires n <= headers[a].number && n <= headers[b].number
    requires ChainOf(headers, genesis, a)[n] == ChainOf(headers, genesis, b)[n]
    ensures ChainOf(headers, genesis, a)[..n + 1] == ChainOf(headers, genesis, b)[..n + 1]
    ensures forall k :: 0 <= k <= n ==> ChainOf(headers, genesis, a)[k] == ChainOf(headers, genesis, b)[k]
  {
    PrefixOfChain(headers, genesis, a, n);
    PrefixOfChain(headers, genesis, b, n);
    var x, y := ChainOf(headers, genesis, a), ChainOf(headers, genesis, b);
    forall k | 0 <= k <= n
      ensures x[k] == y[k]
    {
      assert x[k] == x[..n + 1][k] && y[k] == y[..n + 1][k];
    }
  }

  /** Storing one more header changes no existing chain. */
  lemma {:induction false} ChainStable(headers: Headers, more: Headers, genesis: Hash, h: Hash)
    requires Linked(headers, genesis) && Linked(more, genesis)
    requires forall k :: k in headers ==> k in more && more[k] == headers[k]
    requires Rooted(headers, genesis, h)
    ensures Rooted(more, genesis, h)
    ensures ChainOf(more, genesis, h) == ChainOf(headers, genesis, h)
    decreases headers[h].number
  {
    if headers[h].number > 0 {
      ChainStable(headers, more, genesis, headers[h].parentHash);
    }
  }
}
