/** Bucketed hash maps: nodes with a stored hash, chained in the bucket the hash selects.
    Insertion puts a node at the head of its chain and does not look for duplicates. */
module Hmap {
  import opened Options

  datatype Node<K, V> = Node(hash: nat, key: K, value: V)

  type Buckets<K, V> = seq<seq<Node<K, V>>>

  ghost predicate Placed<K, V>(bs: Buckets<K, V>) {
    |bs| > 0 && forall b, i :: 0 <= b < |bs| && 0 <= i < |bs[b]| ==> bs[b][i].hash % |bs| == b
  }

  /** Every stored hash is the hash of the node's key. */
  ghost predicate Hashed<K, V>(bs: Buckets<K, V>, hash: K -> nat) {
    forall b, i :: 0 <= b < |bs| && 0 <= i < |bs[b]| ==> bs[b][i].hash == hash(bs[b][i].key)
  }

  ghost function Contents<K, V>(bs: Buckets<K, V>): multiset<Node<K, V>> {
    if bs == [] then multiset{} else multiset(bs[0]) + Contents(bs[1..])
  }

  lemma {:induction false} ContentsUpdate<K, V>(bs: Buckets<K, V>, b: nat, s: seq<Node<K, V>>)
    requires b < |bs|
    ensures Contents(bs[b := s]) + multiset(bs[b]) == Contents(bs) + multiset(s)
  {
    if b == 0 {
      assert bs[0 := s][1..] == bs[1..];
    } else {
      ContentsUpdate(bs[1..], b - 1, s);
      assert bs[b := s][1..] == bs[1..][b - 1 := s];
      var first, rest, rest' := multiset(bs[0]), Contents(bs[1..]), Contents(bs[1..][b - 1 := s]);
      assert (first + rest') + multiset(bs[b]) == first + (rest' + multiset(bs[b]));
      assert (first + rest) + multiset(s) == first + (rest + multiset(s));
    }
  }

  lemma {:induction false} ContentsMember<K, V>(bs: Buckets<K, V>, n: Node<K, V>)
    ensures n in Contents(bs) <==> exists b, i :: 0 <= b < |bs| && 0 <= i < |bs[b]| && bs[b][i] == n
  {
    if bs != [] {
      ContentsMember(bs[1..], n);
      if n in multiset(bs[0]) {
        var i :| 0 <= i < |bs[0]| && bs[0][i] == n;
      } else if n in Contents(bs[1..]) {
        var b, i :| 0 <= b < |bs[1..]| && 0 <= i < |bs[1..][b]| && bs[1..][b][i] == n;
        assert bs[b + 1][i] == n;
      }
      if b, i :| 0 <= b < |bs| && 0 <= i < |bs[b]| && bs[b][i] == n {
        if b > 0 {
          assert bs[1..][b - 1][i] == n;
        }
      }
    }
  }

  lemma {:induction false} NoContents<K, V>(bs: Buckets<K, V>)
    requires forall b :: 0 <= b < |bs| ==> bs[b] == []
    ensures Contents(bs) == multiset{}
  {
    if bs != [] {
      NoContents(bs[1..]);
    }
  }

  // ----- lookup by hash and by scanning -----

  function First<K(==), V>(s: seq<Node<K, V>>, key: K): Option<Node<K, V>> {
    if s == [] then None else if s[0].key == key then Some(s[0]) else First(s[1..], key)
  }

  function FirstWithHash<K(==), V>(s: seq<Node<K, V>>, h: nat, key: K): Option<Node<K, V>> {
    if s == [] then None
    else if s[0].hash == h && s[0].key == key then Some(s[0])
    else FirstWithHash(s[1..], h, key)
  }

  function Find<K(==), V>(bs: Buckets<K, V>, h: nat, key: K): Option<Node<K, V>>
    requires |bs| > 0
  {
    FirstWithHash(bs[h % |bs|], h, key)
  }

  function Scan<K(==), V>(bs: Buckets<K, V>, key: K): Option<Node<K, V>> {
    if bs == [] then None
    else match First(bs[0], key)
         case Some(n) => Some(n)
         case None => Scan(bs[1..], key)
  }

  /** The hash index and the full scan return the same node, or both nothing. */
  lemma IndexAgreesWithScan<K, V>(bs: Buckets<K, V>, hash: K -> nat, key: K)
    requires Placed(bs) && Hashed(bs, hash)
    ensures Find(bs, hash(key), key) == Scan(bs, key)
  {
    var b := hash(key) % |bs|;
    FirstIgnoresHash(bs[b], hash, key);
    ScanOneBucket(bs, b, key);
  }

  lemma {:induction false} FirstIgnoresHash<K, V>(s: seq<Node<K, V>>, hash: K -> nat, key: K)
    requires forall i :: 0 <= i < |s| ==> s[i].hash == hash(s[i].key)
    ensures FirstWithHash(s, hash(key), key) == First(s, key)
  {
    if s != [] {
      FirstIgnoresHash(s[1..], hash, key);
    }
  }

  lemma {:induction false} ScanOneBucket<K, V>(bs: Buckets<K, V>, b: nat, key: K)
    requires b < |bs|
    requires forall c, i :: 0 <= c < |bs| && 0 <= i < |bs[c]| && bs[c][i].key == key ==> c == b
    ensures Scan(bs, key) == First(bs[b], key)
  {
    FirstIs(bs[0], key);
    if b == 0 {
      if First(bs[0], key).None? {
        ScanNone(bs[1..], key);
      }
    } else {
      forall c, i | 0 <= c < |bs[1..]| && 0 <= i < |bs[1..][c]| && bs[1..][c][i].key == key
        ensures c == b - 1
      {
        assert bs[c + 1][i].key == key;
      }
      ScanOneBucket(bs[1..], b - 1, key);
    }
  }

  lemma {:induction false} FirstIs<K, V>(s: seq<Node<K, V>>, key: K)
    ensures First(s, key).None? <==> forall i :: 0 <= i < |s| ==> s[i].key != key
    ensures First(s, key).Some? ==> First(s, key).value in s && First(s, key).value.key == key
  {
    if s != [] && s[0].key != key {
      FirstIs(s[1..], key);
      assert forall i :: 0 < i < |s| ==> s[i] == s[1..][i - 1];
    }
  }

  lemma {:induction false} ScanNone<K, V>(bs: Buckets<K, V>, key: K)
    requires forall c, i :: 0 <= c < |bs| && 0 <= i < |bs[c]| ==> bs[c][i].key != key
    ensures Scan(bs, key) == None
  {
    if bs != [] {
      FirstIs(bs[0], key);
      ScanNone(bs[1..], key);
    }
  }

  /** A scan misses nothing and invents nothing. */
  lemma {:induction false} ScanIs<K, V>(bs: Buckets<K, V>, key: K)
    ensures Scan(bs, key).None? <==> forall n :: n in Contents(bs) ==> n.key != key
    ensures Scan(bs, key).Some? ==> Scan(bs, key).value in Contents(bs) && Scan(bs, key).value.key == key
  {
    if bs != [] {
      FirstIs(bs[0], key);
      ScanIs(bs[1..], key);
      assert forall n :: n in multiset(bs[0]) <==> exists i :: 0 <= i < |bs[0]| && bs[0][i] == n;
      if First(bs[0], key).Some? {
        assert First(bs[0], key).value in multiset(bs[0]);
      }
    }
  }

  /** Changing one chain to nodes that belong there keeps every node in its place. */
  lemma ChainChanged<K, V>(bs: Buckets<K, V>, hash: K -> nat, b: nat, s: seq<Node<K, V>>)
    requires Placed(bs) && Hashed(bs, hash) && b < |bs|
    requires forall n :: n in s ==> n in bs[b] || (n.hash % |bs| == b && n.hash == hash(n.key))
    ensures Placed(bs[b := s]) && Hashed(bs[b := s], hash)
  {
  }

  lemma HeadInserted<K, V>(bs: Buckets<K, V>, b: nat, n: Node<K, V>)
    requires b < |bs|
    ensures Contents(bs[b := [n] + bs[b]]) == Contents(bs) + multiset{n}
  {
    ContentsUpdate(bs, b, [n] + bs[b]);
    Cancel(Contents(bs[b := [n] + bs[b]]), Contents(bs) + multiset{n}, multiset(bs[b]));
  }

  lemma NodeRemoved<K, V>(bs: Buckets<K, V>, b: nat, i: nat)
    requires b < |bs| && i < |bs[b]|
    ensures Contents(bs[b := bs[b][..i] + bs[b][i + 1..]]) == Contents(bs) - multiset{bs[b][i]}
  {
    var s, r := bs[b], bs[b][..i] + bs[b][i + 1..];
    assert s == s[..i] + [s[i]] + s[i + 1..];
    assert multiset(s) == multiset(r) + multiset{s[i]};
    ContentsUpdate(bs, b, r);
    Cancel(Contents(bs[b := r]) + multiset{s[i]}, Contents(bs), multiset(r));
    assert Contents(bs[b := r]) == Contents(bs[b := r]) + multiset{s[i]} - multiset{s[i]};
  }

  lemma Cancel<T>(x: multiset<T>, y: multiset<T>, z: multiset<T>)
    requires x + z == y + z
    ensures x == y
  {
    assert x == x + z - z;
    assert y == y + z - z;
  }

  class Map<K(==), V(==)> {
    const hash: K -> nat
    var buckets: Buckets<K, V>

    ghost predicate Valid()
      reads this
    {
      Placed(buckets) && Hashed(buckets, hash)
    }

    ghost function Nodes(): multiset<Node<K, V>>
      reads this
    {
      Contents(buckets)
    }

    constructor (hash: K -> nat, n: nat)
      requires n > 0
      ensures Valid() && Nodes() == multiset{} && this.hash == hash
    {
      this.hash := hash;
      buckets := seq(n, _ => []);
      new;
      NoContents(buckets);
    }

    method Insert(key: K, value: V)
      requires Valid()
      modifies this
      ensures Valid() && Nodes() == old(Nodes()) + multiset{Node(hash(key), key, value)}
    {
      var n := Node(hash(key), key, value);
      var b := n.hash % |buckets|;
      HeadInserted(buckets, b, n);
      ChainChanged(buckets, hash, b, [n] + buckets[b]);
      buckets := buckets[b := [n] + buckets[b]];
    }

    method FindNode(h: nat, key: K) returns (r: Option<Node<K, V>>)
      requires Valid()
      ensures r == Find(buckets, h, key)
    {
      var chain := buckets[h % |buckets|];
      var i := 0;
      while i < |chain|
        invariant i <= |chain|
        invariant FirstWithHash(chain[i..], h, key) == FirstWithHash(chain, h, key)
      {
        if chain[i].hash == h && chain[i].key == key {
          return Some(chain[i]);
        }
        assert chain[i..][1..] == chain[i + 1..];
        i := i + 1;
      }
      return None;
    }

    method ScanNodes(key: K) returns (r: Option<Node<K, V>>)
      ensures r == Scan(buckets, key)
    {
      var b := 0;
      while b < |buckets|
        invariant b <= |buckets|
        invariant Scan(buckets[b..], key) == Scan(buckets, key)
      {
        var i := 0;
        while i < |buckets[b]|
          invariant i <= |buckets[b]|
          invariant First(buckets[b][i..], key) == First(buckets[b], key)
        {
          if buckets[b][i].key == key {
            return Some(buckets[b][i]);
          }
          assert buckets[b][i..][1..] == buckets[b][i + 1..];
          i := i + 1;
        }
        assert buckets[b..][1..] == buckets[b + 1..];
        b := b + 1;
      }
      return None;
    }

    method Remove(n: Node<K, V>)
      requires Valid() && n in Nodes()
      modifies this
      ensures Valid() && Nodes() == old(Nodes()) - multiset{n}
    {
      ContentsMember(buckets, n);
      var b := n.hash % |buckets|;
      var i := 0;
      while buckets[b][i] != n
        invariant 0 <= i < |buckets[b]| && n in buckets[b][i..]
        decreases |buckets[b]| - i
      {
        i := i + 1;
      }
      NodeRemoved(buckets, b, i);
      ChainChanged(buckets, hash, b, buckets[b][..i] + buckets[b][i + 1..]);
      buckets := buckets[b := buckets[b][..i] + buckets[b][i + 1..]];
    }

    /** The nodes in iteration order. */
    method Snapshot() returns (order: seq<Node<K, V>>)
      ensures multiset(order) == Nodes()
    {
      order := [];
      var b := |buckets|;
      while b > 0
        invariant 0 <= b <= |buckets|
        invariant multiset(order) == Contents(buckets[b..])
      {
        b := b - 1;
        assert buckets[b..][1..] == buckets[b + 1..];
        order := buckets[b] + order;
      }
      assert buckets[0..] == buckets;
    }
  }
}
