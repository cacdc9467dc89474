/** The in-memory hash chain of prescription records: an append-only list of
    blocks, each bound to its predecessor by the digest of its own fields. */
module Chain {

  type Bytes = seq<bv8>
  /** A hexadecimal digest, as hexdigest() returns it. */
  type Digest = string
  /** The text of a wall-clock reading. */
  type Timestamp = string

  /** The previous_hash of the first block. */
  const Sentinel: Digest := "0"

  /** The record that is serialised and hashed: the three fields of a block,
      in the key order 'data', 'timestamp', 'previous_hash'. */
  datatype Header<R> = Header(data: R, timestamp: Timestamp, previousHash: Digest)

  /** The serialisation of a header to bytes and the digest of those bytes.
      The model holds for every choice of the two functions. */
  datatype Hashing<!R> = Hashing(serialize: Header<R> -> Bytes, sha256: Bytes -> Digest)

  /** A block: its payload, its creation time, the digest of its predecessor
      and its own stored digest. */
  datatype Block<R> = Block(data: R, timestamp: Timestamp, previousHash: Digest, hash: Digest)

  function HeaderOf<R>(b: Block<R>): Header<R> {
    Header(b.data, b.timestamp, b.previousHash)
  }

  /** The digest of a header: serialise, then hash. */
  function ComputeHash<R>(h: Hashing<R>, hd: Header<R>): Digest {
    h.sha256(h.serialize(hd))
  }

  /** The block's stored digest is the digest of its own three fields. */
  predicate HashMatches<R>(h: Hashing<R>, b: Block<R>) {
    b.hash == ComputeHash(h, HeaderOf(b))
  }

  /** Block i points back at block i-1. */
  predicate LinkHolds<R>(chain: seq<Block<R>>, i: int)
    requires 1 <= i < |chain|
  {
    chain[i].previousHash == chain[i - 1].hash
  }

  /** Both checks that validation makes at index i. */
  predicate PassesAt<R>(h: Hashing<R>, chain: seq<Block<R>>, i: int)
    requires 1 <= i < |chain|
  {
    HashMatches(h, chain[i]) && LinkHolds(chain, i)
  }

  /** What validation accepts: every index from 1 on passes both checks.
      Block 0 is never checked on its own. */
  predicate Verified<R>(h: Hashing<R>, chain: seq<Block<R>>) {
    forall i :: 1 <= i < |chain| ==> PassesAt(h, chain, i)
  }

  /** The linkage invariant of a chain built by appending alone: block 0 points
      at the sentinel, every block (block 0 included) stores its own digest,
      and every later block points at its predecessor. */
  predicate Linked<R>(h: Hashing<R>, chain: seq<Block<R>>) {
    (|chain| > 0 ==> chain[0].previousHash == Sentinel) &&
    (forall i :: 0 <= i < |chain| ==> HashMatches(h, chain[i])) &&
    (forall i :: 1 <= i < |chain| ==> LinkHolds(chain, i))
  }

  /** The digest a new block links to: the last block's, or the sentinel. */
  function LastHash<R>(chain: seq<Block<R>>): Digest {
    if chain == [] then Sentinel else chain[|chain| - 1].hash
  }

  /** The chain after appending one block with the given payload and time. */
  function Append<R>(h: Hashing<R>, chain: seq<Block<R>>, data: R, timestamp: Timestamp): (r: seq<Block<R>>)
    ensures |r| == |chain| + 1 && r[..|chain|] == chain
    ensures r[|chain|].data == data && r[|chain|].timestamp == timestamp
    ensures chain == [] ==> r[0].previousHash == Sentinel
    ensures chain != [] ==> r[|chain|].previousHash == chain[|chain| - 1].hash
    ensures HashMatches(h, r[|chain|])
  {
    var prev := LastHash(chain);
    chain + [Block(data, timestamp, prev, ComputeHash(h, Header(data, timestamp, prev)))]
  }

  /** Appending keeps the linkage invariant. */
  lemma AppendLinked<R>(h: Hashing<R>, chain: seq<Block<R>>, data: R, timestamp: Timestamp)
    requires Linked(h, chain)
    ensures Linked(h, Append(h, chain, data, timestamp))
  {
    var r := Append(h, chain, data, timestamp);
    forall k | 0 <= k < |chain|
      ensures r[k] == chain[k]
    {
      assert r[..|chain|][k] == chain[k];
    }
    forall k | 1 <= k < |r|
      ensures LinkHolds(r, k)
    {
      if k < |chain| {
        assert LinkHolds(chain, k);
      }
    }
  }

  /** Appending to a chain that passes validation gives one that passes too:
      the new block stores its own digest and points at the old last block. */
  lemma AppendVerified<R>(h: Hashing<R>, chain: seq<Block<R>>, data: R, timestamp: Timestamp)
    requires Verified(h, chain)
    ensures Verified(h, Append(h, chain, data, timestamp))
  {
    var r := Append(h, chain, data, timestamp);
    forall k | 1 <= k < |r|
      ensures PassesAt(h, r, k)
    {
      if k < |chain| {
        assert r[..|chain|][k] == chain[k] && r[..|chain|][k - 1] == chain[k - 1];
        assert PassesAt(h, chain, k);
      }
    }
  }

  /** A payload with the time at which it is appended. */
  datatype Entry<R> = Entry(data: R, timestamp: Timestamp)

  /** The chain obtained from the empty chain by appending the entries in order. */
  function Build<R>(h: Hashing<R>, entries: seq<Entry<R>>): seq<Block<R>>
    decreases |entries|
  {
    if entries == [] then []
    else
      var last := entries[|entries| - 1];
      Append(h, Build(h, entries[..|entries| - 1]), last.data, last.timestamp)
  }

  /** A chain built by appending alone keeps the linkage invariant, has one
      block per entry, and holds the entries in order. */
  lemma {:induction false} BuildLinked<R>(h: Hashing<R>, entries: seq<Entry<R>>)
    ensures Linked(h, Build(h, entries))
    ensures |Build(h, entries)| == |entries|
    ensures forall k :: 0 <= k < |entries| ==>
      Build(h, entries)[k].data == entries[k].data &&
      Build(h, entries)[k].timestamp == entries[k].timestamp
    decreases |entries|
  {
    if entries != [] {
      var init := entries[..|entries| - 1];
      BuildLinked(h, init);
      var b := Build(h, init);
      assert Build(h, entries) == Append(h, b, entries[|entries| - 1].data, entries[|entries| - 1].timestamp);
      AppendLinked(h, b, entries[|entries| - 1].data, entries[|entries| - 1].timestamp);
      forall k | 0 <= k < |init|
        ensures Build(h, entries)[k] == b[k]
      {
        assert Build(h, entries)[..|b|][k] == b[k];
      }
    }
  }

  /** The linkage invariant implies that validation succeeds. */
  lemma LinkedIsVerified<R>(h: Hashing<R>, chain: seq<Block<R>>)
    requires Linked(h, chain)
    ensures Verified(h, chain)
  {
  }

  /** Every chain built by appending alone passes validation. */
  lemma BuiltChainIsVerified<R>(h: Hashing<R>, entries: seq<Entry<R>>)
    ensures Verified(h, Build(h, entries))
  {
    BuildLinked(h, entries);
    LinkedIsVerified(h, Build(h, entries));
  }

  /** A chain of one block passes validation whatever that block holds. */
  lemma SingleBlockIsVerified<R>(h: Hashing<R>, b: Block<R>)
    ensures Verified(h, [b])
  {
  }

  /** Replacing block i of a chain that passes validation: the result passes
      exactly when the new block passes the checks at i (none when i is 0)
      and block i+1 (if any) still points at the new block's stored digest. */
  lemma ReplaceBlock<R>(h: Hashing<R>, chain: seq<Block<R>>, i: nat, b: Block<R>)
    requires Verified(h, chain)
    requires i < |chain|
    ensures Verified(h, chain[i := b]) <==>
      (i == 0 || (HashMatches(h, b) && b.previousHash == chain[i - 1].hash)) &&
      (i + 1 == |chain| || chain[i + 1].previousHash == b.hash)
  {
    var t := chain[i := b];
    if Verified(h, t) {
      if i > 0 {
        assert PassesAt(h, t, i);
        assert t[i - 1] == chain[i - 1];
      }
      if i + 1 < |chain| {
        assert PassesAt(h, t, i + 1);
      }
    } else {
      var j :| 1 <= j < |t| && !PassesAt(h, t, j);
      if j == i {
        assert t[i - 1] == chain[i - 1];
      } else {
        assert PassesAt(h, chain, j);
      }
    }
  }

  /** Changing the payload, the time or the back-link of block 0 while it
      keeps its stored digest is not detected. */
  lemma FirstBlockHeaderUnchecked<R>(h: Hashing<R>, chain: seq<Block<R>>, hd: Header<R>)
    requires Verified(h, chain)
    requires |chain| > 0
    ensures Verified(h, chain[0 := Block(hd.data, hd.timestamp, hd.previousHash, chain[0].hash)])
  {
    if |chain| > 1 {
      assert PassesAt(h, chain, 1);
    }
    ReplaceBlock(h, chain, 0, Block(hd.data, hd.timestamp, hd.previousHash, chain[0].hash));
  }

  /** Changing the stored digest of any block that has a successor, or of any
      block after the first, is detected. */
  lemma TamperedHashDetected<R>(h: Hashing<R>, chain: seq<Block<R>>, i: nat, d: Digest)
    requires Verified(h, chain)
    requires i < |chain| && (i >= 1 || i + 1 < |chain|)
    requires d != chain[i].hash
    ensures !Verified(h, chain[i := chain[i].(hash := d)])
  {
    if i >= 1 {
      assert PassesAt(h, chain, i);
    } else {
      assert PassesAt(h, chain, 1);
    }
    ReplaceBlock(h, chain, i, chain[i].(hash := d));
  }

  /** Changing the payload, the time or the back-link of a block after the
      first, while it keeps its stored digest, is detected whenever the digest
      of the altered fields differs from the digest of the original ones. */
  lemma TamperedHeaderDetected<R>(h: Hashing<R>, chain: seq<Block<R>>, i: nat, hd: Header<R>)
    requires Verified(h, chain)
    requires 1 <= i < |chain|
    requires ComputeHash(h, hd) != ComputeHash(h, HeaderOf(chain[i]))
    ensures !Verified(h, chain[i := Block(hd.data, hd.timestamp, hd.previousHash, chain[i].hash)])
  {
    assert PassesAt(h, chain, i);
    ReplaceBlock(h, chain, i, Block(hd.data, hd.timestamp, hd.previousHash, chain[i].hash));
  }

  /** Changing the back-link of a block after the first is always detected,
      whatever the hash functions are. */
  lemma TamperedLinkDetected<R>(h: Hashing<R>, chain: seq<Block<R>>, i: nat, p: Digest)
    requires Verified(h, chain)
    requires 1 <= i < |chain|
    requires p != chain[i].previousHash
    ensures !Verified(h, chain[i := chain[i].(previousHash := p)])
  {
    assert PassesAt(h, chain, i);
    ReplaceBlock(h, chain, i, chain[i].(previousHash := p));
  }

  /** The chain object; `chain` is the list that appending extends in place. */
  class Blockchain<R> {
    const hashing: Hashing<R>
    var chain: seq<Block<R>>

    /** An empty chain. */
    constructor (hashing: Hashing<R>)
      ensures this.hashing == hashing
      ensures chain == []
      ensures Linked(hashing, chain)
    {
      this.hashing := hashing;
      chain := [];
    }

    /** Links a new block to the last one (or to the sentinel), stores the
        digest of its three fields on it and appends it. */
    method AddBlock(data: R, timestamp: Timestamp)
      modifies this
      ensures chain == Append(hashing, old(chain), data, timestamp)
      ensures |chain| == |old(chain)| + 1 && chain[..|old(chain)|] == old(chain)
      ensures old(chain) == [] ==> chain[0].previousHash == Sentinel
      ensures old(chain) != [] ==> chain[|old(chain)|].previousHash == old(chain)[|old(chain)| - 1].hash
      ensures chain[|old(chain)|].hash == ComputeHash(hashing, Header(data, timestamp, chain[|old(chain)|].previousHash))
      ensures Linked(hashing, old(chain)) ==> Linked(hashing, chain)
      ensures Verified(hashing, old(chain)) ==> Verified(hashing, chain)
    {
      ghost var before := chain;
      var previousHash: Digest;
      if chain == [] {
        previousHash := Sentinel;
      } else {
        previousHash := chain[|chain| - 1].hash;
      }
      var header := Header(data, timestamp, previousHash);
      var blockHash := hashing.sha256(hashing.serialize(header));
      chain := chain + [Block(data, timestamp, previousHash, blockHash)];
      if Linked(hashing, before) {
        AppendLinked(hashing, before, data, timestamp);
      }
      if Verified(hashing, before) {
        AppendVerified(hashing, before, data, timestamp);
      }
    }

    /** Walks the chain from index 1, recomputing each block's digest and
        comparing its back-link, and stops at the first failure. */
    method IsValid() returns (valid: bool)
      ensures valid <==> Verified(hashing, chain)
      ensures !valid <==> (exists i {:trigger LinkHolds(chain, i)} :: 1 <= i < |chain| &&
                             (!HashMatches(hashing, chain[i]) || !LinkHolds(chain, i)))
    {
      var i := 1;
      while i < |chain|
        invariant 1 <= i
        invariant forall k :: 1 <= k < i && k < |chain| ==> PassesAt(hashing, chain, k)
      {
        var current := chain[i];
        var previous := chain[i - 1];
        var currentHash := hashing.sha256(hashing.serialize(Header(current.data, current.timestamp, current.previousHash)));
        if current.hash != currentHash {
          assert !PassesAt(hashing, chain, i);
          return false;
        }
        if current.previousHash != previous.hash {
          assert !PassesAt(hashing, chain, i);
          return false;
        }
        i := i + 1;
      }
      forall k | 1 <= k < |chain|
        ensures HashMatches(hashing, chain[k]) && LinkHolds(chain, k)
      {
        assert PassesAt(hashing, chain, k);
      }
      return true;
    }
  }

  /** A freshly constructed chain is empty and passes validation. */
  method NewChainIsValid<R>(h: Hashing<R>) returns (length: nat, valid: bool)
    ensures length == 0 && valid
  {
    var blockchain := new Blockchain(h);
    length := |blockchain.chain|;
    valid := blockchain.IsValid();
  }
}
