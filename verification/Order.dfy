/** The block's transaction order: sender bytes, then nonce (src/lib.rs:650-655), and sums over maps. */
module Order {
  import opened Machine
  import opened Transaction

  /** The mempool's key. */
  datatype Key = Key(sender: Bytes, nonce: u64)

  function KeyOf(tx: SignedTransaction): Key {
    Key(tx.payload.from_, tx.payload.nonce)
  }

  lemma SameSenderKeys(k: Key, k': Key)
    requires k.sender == k'.sender && k != k'
    ensures k.nonce != k'.nonce
  {
  }

  /** `str` comparison: lexicographic on bytes. */
  predicate Less(a: seq<byte>, b: seq<byte>) {
    if b == [] then false
    else if a == [] then true
    else a[0] < b[0] || (a[0] == b[0] && Less(a[1..], b[1..]))
  }

  predicate KeyLess(a: Key, b: Key) {
    Less(a.sender, b.sender) || (a.sender == b.sender && a.nonce < b.nonce)
  }

  lemma {:induction false} LessTotal(a: seq<byte>, b: seq<byte>)
    ensures Less(a, b) || Less(b, a) || a == b
    ensures !(Less(a, b) && Less(b, a))
    ensures !Less(a, a)
  {
    if a != [] {
      LessTotal(a[1..], a[1..]);
      if b != [] {
        LessTotal(a[1..], b[1..]);
        assert a == [a[0]] + a[1..];
        assert b == [b[0]] + b[1..];
      }
    }
  }

  lemma {:induction false} LessTransitive(a: seq<byte>, b: seq<byte>, c: seq<byte>)
    requires Less(a, b) && Less(b, c)
    ensures Less(a, c)
  {
    if a != [] && a[0] == b[0] && b[0] == c[0] {
      LessTransitive(a[1..], b[1..], c[1..]);
    }
  }

  lemma KeyLessTotal(a: Key, b: Key)
    ensures KeyLess(a, b) || KeyLess(b, a) || a == b
    ensures !(KeyLess(a, b) && KeyLess(b, a))
    ensures !KeyLess(a, a)
  {
    LessTotal(a.sender, b.sender);
    LessTotal(a.sender, a.sender);
  }

  lemma KeyLessTransitive(a: Key, b: Key, c: Key)
    requires KeyLess(a, b) && KeyLess(b, c)
    ensures KeyLess(a, c)
  {
    if a.sender != b.sender && b.sender != c.sender {
      LessTransitive(a.sender, b.sender, c.sender);
    }
  }

  ghost predicate StrictlySorted(txs: seq<SignedTransaction>) {
    forall i, j | 0 <= i < j < |txs| :: KeyLess(KeyOf(txs[i]), KeyOf(txs[j]))
  }

  type Pool = map<Key, SignedTransaction>

  ghost predicate Keyed(pool: Pool) {
    forall k | k in pool :: KeyOf(pool[k]) == k
  }

  ghost predicate IsLeast(k: Key, keys: set<Key>) {
    k in keys && forall k' | k' in keys && k' != k :: KeyLess(k, k')
  }

  ghost function LeastKey(keys: set<Key>): (k: Key)
    requires keys != {}
    ensures IsLeast(k, keys)
  {
    var some :| some in keys;
    if keys == {some} then some
    else
      var least := LeastKey(keys - {some});
      KeyLessTotal(some, least);
      if KeyLess(some, least) then
        assert forall k' | k' in keys && k' != some && k' != least :: KeyLess(some, k') by {
          forall k' | k' in keys && k' != some && k' != least
            ensures KeyLess(some, k')
          {
            KeyLessTransitive(some, least, k');
          }
        }
        some
      else least
  }

  /** The pool's transactions in block order. */
  ghost function SortedPool(pool: Pool): (txs: seq<SignedTransaction>)
    ensures |txs| == |pool|
    decreases |pool|
  {
    if pool == map[] then []
    else
      var k := LeastKey(pool.Keys);
      assert (pool - {k}).Keys == pool.Keys - {k};
      [pool[k]] + SortedPool(pool - {k})
  }

  /** `txs` lists `pool` without repetition, in any order. */
  ghost predicate Lists(txs: seq<SignedTransaction>, pool: Pool) {
    && (forall k | k in pool :: pool[k] in txs)
    && (forall tx | tx in txs :: KeyOf(tx) in pool && pool[KeyOf(tx)] == tx)
  }

  lemma ConsLists(k: Key, pool: Pool, tail: seq<SignedTransaction>)
    requires k in pool && KeyOf(pool[k]) == k
    requires Lists(tail, pool - {k})
    ensures Lists([pool[k]] + tail, pool)
  {
    var txs := [pool[k]] + tail;
    assert forall tx :: tx in txs <==> tx == pool[k] || tx in tail;
    forall k' | k' in pool
      ensures pool[k'] in txs
    {
      if k' != k {
        assert k' in pool - {k};
      }
    }
  }

  lemma {:induction false} SortedPoolLists(pool: Pool)
    requires Keyed(pool)
    ensures Lists(SortedPool(pool), pool)
    decreases |pool|
  {
    if pool != map[] {
      var k := LeastKey(pool.Keys);
      assert (pool - {k}).Keys == pool.Keys - {k};
      SortedPoolLists(pool - {k});
      ConsLists(k, pool, SortedPool(pool - {k}));
    }
  }

  lemma ConsSorted(tx: SignedTransaction, tail: seq<SignedTransaction>)
    requires StrictlySorted(tail)
    requires forall j | 0 <= j < |tail| :: KeyLess(KeyOf(tx), KeyOf(tail[j]))
    ensures StrictlySorted([tx] + tail)
  {
  }

  lemma LeastBelowListing(k: Key, pool: Pool, tail: seq<SignedTransaction>)
    requires IsLeast(k, pool.Keys) && Lists(tail, pool - {k})
    ensures forall j | 0 <= j < |tail| :: KeyLess(k, KeyOf(tail[j]))
  {
  }

  lemma {:induction false} SortedPoolSorted(pool: Pool)
    requires Keyed(pool)
    ensures StrictlySorted(SortedPool(pool))
    decreases |pool|
  {
    if pool != map[] {
      var k := LeastKey(pool.Keys);
      assert (pool - {k}).Keys == pool.Keys - {k};
      SortedPoolSorted(pool - {k});
      SortedPoolLists(pool - {k});
      LeastBelowListing(k, pool, SortedPool(pool - {k}));
      ConsSorted(pool[k], SortedPool(pool - {k}));
    }
  }

  /** The head of a sorted listing is the least entry, and the tail lists the rest. */
  lemma SortedListingHead(txs: seq<SignedTransaction>, pool: Pool, k: Key)
    requires Keyed(pool) && StrictlySorted(txs) && Lists(txs, pool) && IsLeast(k, pool.Keys)
    ensures txs != [] && txs[0] == pool[k]
  {
    assert pool[k] in txs;
    var i :| 0 <= i < |txs| && txs[i] == pool[k];
    if i > 0 {
      assert txs[0] in txs;
      assert KeyLess(KeyOf(txs[0]), k);
      KeyLessTotal(k, KeyOf(txs[0]));
    }
  }

  lemma SortedListingTail(txs: seq<SignedTransaction>, pool: Pool)
    requires Keyed(pool) && StrictlySorted(txs) && Lists(txs, pool) && txs != []
    ensures Lists(txs[1..], pool - {KeyOf(txs[0])})
  {
    var k := KeyOf(txs[0]);
    var rest := pool - {k};
    assert forall tx :: tx in txs <==> tx == txs[0] || tx in txs[1..];
    forall tx | tx in txs[1..]
      ensures KeyOf(tx) in rest && rest[KeyOf(tx)] == tx
    {
      var j :| 0 <= j < |txs[1..]| && txs[1..][j] == tx;
      assert tx == txs[j + 1] && KeyLess(k, KeyOf(tx));
      KeyLessTotal(k, k);
    }
    forall k' | k' in rest
      ensures rest[k'] in txs[1..]
    {
      assert pool[k'] in txs && KeyOf(pool[k']) == k';
    }
  }

  /** `txs` is the pool in block order. */
  ghost predicate SortedListing(txs: seq<SignedTransaction>, pool: Pool) {
    Keyed(pool) && StrictlySorted(txs) && Lists(txs, pool)
  }

  lemma SortedListingStep(txs: seq<SignedTransaction>, pool: Pool, k: Key)
    requires SortedListing(txs, pool) && IsLeast(k, pool.Keys)
    ensures txs != [] && txs[0] == pool[k] && SortedListing(txs[1..], pool - {k})
  {
    SortedListingHead(txs, pool, k);
    SortedListingTail(txs, pool);
  }

  lemma ListedPoolIsNonempty(txs: seq<SignedTransaction>, pool: Pool)
    requires SortedListing(txs, pool) && txs != []
    ensures pool != map[]
  {
    assert txs[0] in txs;
  }

  /** A sorted listing of the pool is unique, whatever order a hash map yields its entries in. */
  lemma {:induction false} SortedListingIsUnique(txs: seq<SignedTransaction>, pool: Pool)
    requires SortedListing(txs, pool)
    ensures txs == SortedPool(pool)
    decreases |pool|
  {
    hide SortedListing, LeastKey;
    if txs != [] {
      ListedPoolIsNonempty(txs, pool);
    }
    if pool != map[] {
      var k := LeastKey(pool.Keys);
      assert (pool - {k}).Keys == pool.Keys - {k};
      SortedListingStep(txs, pool, k);
      SortedListingIsUnique(txs[1..], pool - {k});
      assert txs == [txs[0]] + txs[1..];
    }
  }

  lemma SinglePool(pool: Pool, tx: SignedTransaction)
    requires pool == map[KeyOf(tx) := tx]
    ensures SortedPool(pool) == [tx]
  {
    assert pool.Keys == {KeyOf(tx)};
    var k := LeastKey(pool.Keys);
    assert pool - {k} == map[];
  }
}
