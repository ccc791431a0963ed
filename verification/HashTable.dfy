/**
The two chained hash tables, `vtm_map` (map.c) and the macros of smap.h, as one class: both keep an array of singly
linked chains, and differ in where a new entry goes and in how they walk a chain.
*/
module HashTable {
  import opened Wrappers
  import opened Hash
  import Buffer

  class Node<V> {
    const key: Key
    const value: V
    var next: Node?<V>

    constructor (key: Key, value: V)
      ensures this.key == key && this.value == value && next == null
    {
      this.key := key;
      this.value := value;
      next := null;
    }
  }

  /** The number of elements of a sequence of sequences. */
  function Total<T>(s: seq<seq<T>>): nat {
    if s == [] then 0 else |s[0]| + Total(s[1..])
  }

  lemma {:induction false} TotalUpdate<T>(s: seq<seq<T>>, i: nat, x: seq<T>)
    requires i < |s|
    ensures Total(s[i := x]) + |s[i]| == Total(s) + |x|
  {
    if i == 0 {
      assert s[0 := x][1..] == s[1..];
    } else {
      assert s[i := x][1..] == s[1..][i - 1 := x];
      TotalUpdate(s[1..], i - 1, x);
    }
  }

  lemma {:induction false} TotalEmpty<T>(s: seq<seq<T>>)
    requires forall i | 0 <= i < |s| :: s[i] == []
    ensures Total(s) == 0
  {
    if s != [] { TotalEmpty(s[1..]); }
  }

  lemma {:induction false} TotalNext<T>(s: seq<seq<T>>, i: nat)
    requires i < |s|
    ensures Total(s[..i + 1]) == Total(s[..i]) + |s[i]|
  {
    if i == 0 {
      assert s[..1][1..] == [] && s[..0] == [];
    } else {
      assert s[..i + 1][1..] == s[1..][..i] && s[..i][1..] == s[1..][..i - 1];
      TotalNext(s[1..], i - 1);
    }
  }

  /** The elements of a sequence of sequences. */
  function Flat<T>(s: seq<seq<T>>): seq<T> {
    if s == [] then [] else s[0] + Flat(s[1..])
  }

  lemma {:induction false} FlatLength<T>(s: seq<seq<T>>)
    ensures |Flat(s)| == Total(s)
  {
    if s != [] { FlatLength(s[1..]); }
  }

  lemma {:induction false} FlatNext<T>(s: seq<seq<T>>, i: nat)
    requires i < |s|
    ensures Flat(s[..i + 1]) == Flat(s[..i]) + s[i]
  {
    if i == 0 {
      assert s[..1][1..] == [] && s[..0] == [];
    } else {
      assert s[..i + 1][1..] == s[1..][..i] && s[..i][1..] == s[1..][..i - 1];
      FlatNext(s[1..], i - 1);
    }
  }

  lemma {:induction false} InFlat<T>(s: seq<seq<T>>, x: T) returns (i: nat, j: nat)
    requires x in Flat(s)
    ensures i < |s| && j < |s[i]| && s[i][j] == x
  {
    if x in s[0] {
      i := 0;
      j :| 0 <= j < |s[0]| && s[0][j] == x;
    } else {
      i, j := InFlat(s[1..], x);
      i := i + 1;
    }
  }

  lemma {:induction false} ElementInFlat<T>(s: seq<seq<T>>, i: nat, j: nat)
    requires i < |s| && j < |s[i]|
    ensures s[i][j] in Flat(s)
  {
    if i > 0 { ElementInFlat(s[1..], i - 1, j); }
  }

  /** A pointer leads through the nodes of a chain and then ends. */
  ghost predicate Leads<V>(head: Node?<V>, chain: seq<Node<V>>)
    reads chain
  {
    head == NodeAt(chain, 0) && forall j | 0 <= j < |chain| :: chain[j].next == NodeAt(chain, j + 1)
  }

  ghost predicate Distinct<T>(s: seq<T>) { forall j, k | 0 <= j < k < |s| :: s[j] != s[k] }

  /** Stores a pointer where a chain led to a node: in the node before it or in the bucket. */
  method SetLink<V>(buckets: array<Node?<V>>, i: nat, prev: Node?<V>, next: Node?<V>)
    requires i < buckets.Length
    modifies prev, buckets
    ensures prev == null ==> buckets[i] == next
    ensures prev != null ==> prev.next == next && buckets[i] == old(buckets[i])
    ensures forall k | 0 <= k < buckets.Length && k != i :: buckets[k] == old(buckets[k])
  {
    if prev != null {
      prev.next := next;
    } else {
      buckets[i] := next;
    }
  }

  /** The node at position `j` makes way for another one. */
  method LinkInPlace<V>(buckets: array<Node?<V>>, i: nat, prev: Node?<V>, cur: Node<V>, node: Node<V>,
                        ghost chain: seq<Node<V>>, ghost j: nat)
    requires i < buckets.Length && Leads(buckets[i], chain) && Distinct(chain) && node !in chain
    requires j < |chain| && cur == chain[j] && prev == if j == 0 then null else chain[j - 1]
    modifies prev, node, buckets
    ensures Leads(buckets[i], chain[j := node])
    ensures forall k | 0 <= k < buckets.Length && k != i :: buckets[k] == old(buckets[k])
  {
    node.next := cur.next;
    SetLink(buckets, i, prev, node);
    ghost var r := chain[j := node];
    forall k | 0 <= k < |r| ensures r[k].next == NodeAt(r, k + 1) {
      if k != j && k + 1 != j { assert old(chain[k].next) == NodeAt(chain, k + 1); }
    }
  }

  /** The node at position `j` is taken out. */
  method Unlink<V>(buckets: array<Node?<V>>, i: nat, prev: Node?<V>, cur: Node<V>, ghost chain: seq<Node<V>>, ghost j: nat)
    requires i < buckets.Length && Leads(buckets[i], chain) && Distinct(chain)
    requires j < |chain| && cur == chain[j] && prev == if j == 0 then null else chain[j - 1]
    modifies prev, buckets
    ensures Leads(buckets[i], chain[..j] + chain[j + 1..])
    ensures forall k | 0 <= k < buckets.Length && k != i :: buckets[k] == old(buckets[k])
  {
    SetLink(buckets, i, prev, cur.next);
    ghost var r := chain[..j] + chain[j + 1..];
    forall k | 0 <= k < |r| ensures r[k].next == NodeAt(r, k + 1) {
      ghost var b := if k < j then k else k + 1;
      assert r[k] == chain[b] && old(chain[b].next) == NodeAt(chain, b + 1);
    }
  }

  /** A node in front of the chain. */
  method LinkFront<V>(buckets: array<Node?<V>>, i: nat, node: Node<V>, ghost chain: seq<Node<V>>)
    requires i < buckets.Length && Leads(buckets[i], chain) && node !in chain
    modifies node, buckets
    ensures Leads(buckets[i], [node] + chain)
    ensures forall k | 0 <= k < buckets.Length && k != i :: buckets[k] == old(buckets[k])
  {
    node.next := buckets[i];
    buckets[i] := node;
    ghost var r := [node] + chain;
    forall k | 0 <= k < |r| ensures r[k].next == NodeAt(r, k + 1) {
      if k > 0 { assert r[k] == chain[k - 1]; }
    }
  }

  /** A node behind the last one of a chain. */
  method LinkBack<V>(last: Node<V>, node: Node<V>, ghost head: Node<V>, ghost chain: seq<Node<V>>)
    requires Leads(head, chain) && Distinct(chain) && node !in chain && node.next == null
    requires chain != [] && last == chain[|chain| - 1]
    modifies last
    ensures Leads(head, chain + [node])
  {
    last.next := node;
    ghost var r := chain + [node];
    forall k | 0 <= k < |r| ensures r[k].next == NodeAt(r, k + 1) {
      if k < |chain| { assert r[k] == chain[k]; }
    }
  }

  /** Every bucket leads through its chain. */
  ghost predicate AllLead<V>(buckets: array<Node?<V>>, chains: seq<seq<Node<V>>>, nodes: set<Node<V>>)
    reads buckets, nodes
  {
    && |chains| == buckets.Length
    && (forall k {:trigger Within(chains[k], nodes)} {:trigger Leads(buckets[k], chains[k])} | 0 <= k < |chains| ::
          Within(chains[k], nodes) && Leads(buckets[k], chains[k]))
  }

  ghost predicate Within<V>(chain: seq<Node<V>>, nodes: set<Node<V>>) {
    forall j | 0 <= j < |chain| :: chain[j] in nodes
  }

  lemma LeadsAt<V>(buckets: array<Node?<V>>, chains: seq<seq<Node<V>>>, nodes: set<Node<V>>, k: nat)
    requires AllLead(buckets, chains, nodes) && k < |chains|
    ensures Within(chains[k], nodes) && Leads(buckets[k], chains[k])
  {
    var wanted := Leads(buckets[k], chains[k]);
  }

  /** The node is in no chain but `i`. */
  ghost predicate OnlyIn<V>(n: Node?<V>, chains: seq<seq<Node<V>>>, i: nat) {
    n != null ==> forall k | 0 <= k < |chains| && k != i :: n !in chains[k]
  }

  method LinkAllInPlace<V>(buckets: array<Node?<V>>, i: nat, prev: Node?<V>, cur: Node<V>, node: Node<V>,
                           ghost chains: seq<seq<Node<V>>>, ghost nodes: set<Node<V>>, ghost j: nat)
    requires AllLead(buckets, chains, nodes) && i < buckets.Length && Distinct(chains[i]) && node !in chains[i]
    requires j < |chains[i]| && cur == chains[i][j] && prev == if j == 0 then null else chains[i][j - 1]
    requires OnlyIn(prev, chains, i) && OnlyIn(node, chains, i)
    modifies prev, node, buckets
    ensures AllLead(buckets, chains[i := chains[i][j := node]], nodes + {node})
  {
    LinkInPlace(buckets, i, prev, cur, node, chains[i], j);
    forall k | 0 <= k < |chains| && k != i ensures Leads(buckets[k], chains[k]) {
      assert old(Leads(buckets[k], chains[k])) && Within(chains[k], nodes);
    }
  }

  method UnlinkAll<V>(buckets: array<Node?<V>>, i: nat, prev: Node?<V>, cur: Node<V>, ghost chains: seq<seq<Node<V>>>,
                      ghost nodes: set<Node<V>>, ghost j: nat)
    requires AllLead(buckets, chains, nodes) && i < buckets.Length && Distinct(chains[i])
    requires j < |chains[i]| && cur == chains[i][j] && prev == if j == 0 then null else chains[i][j - 1]
    requires OnlyIn(prev, chains, i)
    modifies prev, buckets
    ensures AllLead(buckets, chains[i := chains[i][..j] + chains[i][j + 1..]], nodes)
  {
    Unlink(buckets, i, prev, cur, chains[i], j);
    forall k | 0 <= k < |chains| && k != i ensures Leads(buckets[k], chains[k]) {
      assert old(Leads(buckets[k], chains[k])) && Within(chains[k], nodes);
    }
  }

  method LinkAllFront<V>(buckets: array<Node?<V>>, i: nat, node: Node<V>, ghost chains: seq<seq<Node<V>>>,
                         ghost nodes: set<Node<V>>)
    requires AllLead(buckets, chains, nodes) && i < buckets.Length && node !in chains[i] && OnlyIn(node, chains, i)
    modifies node, buckets
    ensures AllLead(buckets, chains[i := [node] + chains[i]], nodes + {node})
  {
    LinkFront(buckets, i, node, chains[i]);
    forall k | 0 <= k < |chains| && k != i ensures Leads(buckets[k], chains[k]) {
      assert old(Leads(buckets[k], chains[k])) && Within(chains[k], nodes);
    }
  }

  /** A node behind the last one of a chain, or as the only one. */
  method LinkAllBack<V>(buckets: array<Node?<V>>, i: nat, last: Node?<V>, node: Node<V>, ghost chains: seq<seq<Node<V>>>,
                        ghost nodes: set<Node<V>>)
    requires AllLead(buckets, chains, nodes) && i < buckets.Length && Distinct(chains[i])
    requires node !in chains[i] && OnlyIn(node, chains, i) && OnlyIn(last, chains, i) && node.next == null
    requires last == if chains[i] == [] then null else chains[i][|chains[i]| - 1]
    modifies last, buckets
    ensures AllLead(buckets, chains[i := chains[i] + [node]], nodes + {node})
  {
    LeadsAt(buckets, chains, nodes, i);
    if last == null {
      buckets[i] := node;
    } else {
      LinkBack(last, node, chains[i][0], chains[i]);
    }
    forall k | 0 <= k < |chains| && k != i ensures Leads(buckets[k], chains[k]) {
      assert old(Leads(buckets[k], chains[k])) && Within(chains[k], nodes);
    }
  }

  /** The node at a position of a chain, or null behind its end. */
  ghost function NodeAt<V>(chain: seq<Node<V>>, j: nat): Node?<V> {
    if j < |chain| then chain[j] else null
  }

  function IndexOf(t: KeyType, n: nat, key: Key): nat
    requires n > 0
  {
    HashOf(t, key) % n
  }

  lemma SameIndex(t: KeyType, n: nat, a: Key, b: Key)
    requires Canonical(t, a) == Canonical(t, b) && n > 0
    ensures IndexOf(t, n, a) == IndexOf(t, n, b) && IndexOf(t, n, Canonical(t, a)) == IndexOf(t, n, a)
  {
    SameIsCanonical(t, a, b);
    HashCongruent(t, a, b);
    HashCanonical(t, a);
  }

  /** The nodes of chain `i` are in the bucket of their keys, hold what the abstract map holds, and have pairwise different
      keys. */
  ghost predicate Sound<V>(t: KeyType, n: nat, chain: seq<Node<V>>, i: nat, model: map<Key, V>)
    requires n > 0
  {
    && (forall j {:trigger Holds(t, n, chain[j], i, model)} | 0 <= j < |chain| :: Holds(t, n, chain[j], i, model))
    && (forall j, k {:trigger Apart(t, chain, j, k)} | 0 <= j < k < |chain| :: Apart(t, chain, j, k))
  }

  ghost predicate Apart<V>(t: KeyType, chain: seq<Node<V>>, j: nat, k: nat)
    requires j < |chain| && k < |chain|
  {
    Canonical(t, chain[j].key) != Canonical(t, chain[k].key)
  }

  ghost predicate Holds<V>(t: KeyType, n: nat, node: Node<V>, i: nat, model: map<Key, V>)
    requires n > 0
  {
    var c := Canonical(t, node.key);
    IndexOf(t, n, node.key) == i && c in model && model[c] == node.value
  }

  /** Some node of the chain has a key represented by `c`. */
  ghost predicate Has<V>(t: KeyType, chain: seq<Node<V>>, c: Key) {
    exists j :: 0 <= j < |chain| && Canonical(t, chain[j].key) == c
  }

  ghost predicate Listed<V>(t: KeyType, chains: seq<seq<Node<V>>>, c: Key)
    requires |chains| > 0
  {
    Canonical(t, c) == c && Has(t, chains[IndexOf(t, |chains|, c)], c)
  }

  /** The chains hold exactly the abstract map, each entry once. */
  ghost predicate Represents<V>(t: KeyType, chains: seq<seq<Node<V>>>, model: map<Key, V>) {
    && |chains| > 0
    && (forall i {:trigger Sound(t, |chains|, chains[i], i, model)} | 0 <= i < |chains| ::
          Sound(t, |chains|, chains[i], i, model))
    && (forall c {:trigger Listed(t, chains, c)} | c in model :: Listed(t, chains, c))
    && |model| == Total(chains)
  }

  // The quantifiers of the predicates above carry triggers that keep them quiet; the next lemmas wake them up.

  lemma SoundAt<V>(t: KeyType, chains: seq<seq<Node<V>>>, model: map<Key, V>, i: nat)
    requires Represents(t, chains, model) && i < |chains|
    ensures Sound(t, |chains|, chains[i], i, model)
  {
    var wanted := Sound(t, |chains|, chains[i], i, model);
  }

  lemma HoldsAt<V>(t: KeyType, n: nat, chain: seq<Node<V>>, i: nat, model: map<Key, V>, j: nat)
    requires n > 0 && Sound(t, n, chain, i, model) && j < |chain|
    ensures Holds(t, n, chain[j], i, model)
  {
    var wanted := Holds(t, n, chain[j], i, model);
  }

  lemma ApartAt<V>(t: KeyType, n: nat, chain: seq<Node<V>>, i: nat, model: map<Key, V>, j: nat, k: nat)
    requires n > 0 && Sound(t, n, chain, i, model) && j < k < |chain|
    ensures Canonical(t, chain[j].key) != Canonical(t, chain[k].key)
  {
    var wanted := Apart(t, chain, j, k);
  }

  lemma ListedAt<V>(t: KeyType, chains: seq<seq<Node<V>>>, model: map<Key, V>, c: Key)
    requires Represents(t, chains, model) && c in model
    ensures Listed(t, chains, c)
  {
    var wanted := Listed(t, chains, c);
  }

  /** A chain that does not contain the key is not affected by its value. */
  lemma SoundUnaffected<V>(t: KeyType, n: nat, chain: seq<Node<V>>, i: nat, model: map<Key, V>, model': map<Key, V>, key: Key)
    requires n > 0 && Sound(t, n, chain, i, model) && !Has(t, chain, Canonical(t, key))
    requires forall c | c in model && c != Canonical(t, key) :: c in model' && model'[c] == model[c]
    ensures Sound(t, n, chain, i, model')
  {
    forall j | 0 <= j < |chain| ensures Holds(t, n, chain[j], i, model') { HoldsAt(t, n, chain, i, model, j); }
    forall j, k | 0 <= j < k < |chain| ensures Apart(t, chain, j, k) { ApartAt(t, n, chain, i, model, j, k); }
  }

  /** The key of a node tells its chain. */
  lemma ChainOf<V>(t: KeyType, chains: seq<seq<Node<V>>>, model: map<Key, V>, i: nat, j: nat)
    requires Represents(t, chains, model) && i < |chains| && j < |chains[i]|
    ensures Holds(t, |chains|, chains[i][j], i, model)
  {
    SoundAt(t, chains, model, i);
    HoldsAt(t, |chains|, chains[i], i, model, j);
  }

  lemma OtherChain<V>(t: KeyType, chains: seq<seq<Node<V>>>, model: map<Key, V>, i: nat, key: Key)
    requires Represents(t, chains, model) && i < |chains| && i != IndexOf(t, |chains|, key)
    ensures !Has(t, chains[i], Canonical(t, key))
  {
    forall j | 0 <= j < |chains[i]| ensures Canonical(t, chains[i][j].key) != Canonical(t, key) {
      ChainOf(t, chains, model, i, j);
      if Canonical(t, chains[i][j].key) == Canonical(t, key) { SameIndex(t, |chains|, chains[i][j].key, key); }
    }
  }

  lemma AbsentChain<V>(t: KeyType, chains: seq<seq<Node<V>>>, model: map<Key, V>, key: Key)
    requires Represents(t, chains, model)
    ensures Has(t, chains[IndexOf(t, |chains|, key)], Canonical(t, key)) <==> Canonical(t, key) in model
  {
    var i := IndexOf(t, |chains|, key);
    if Canonical(t, key) in model {
      ListedAt(t, chains, model, Canonical(t, key));
      SameIndex(t, |chains|, key, key);
    }
    if Has(t, chains[i], Canonical(t, key)) {
      var j :| 0 <= j < |chains[i]| && Canonical(t, chains[i][j].key) == Canonical(t, key);
      ChainOf(t, chains, model, i, j);
    }
  }

  /** The chains other than that of the key, after the key's value changed. */
  lemma OthersSound<V>(t: KeyType, chains: seq<seq<Node<V>>>, model: map<Key, V>, model': map<Key, V>, key: Key, k: nat)
    requires Represents(t, chains, model) && k < |chains| && k != IndexOf(t, |chains|, key)
    requires forall c | c in model && c != Canonical(t, key) :: c in model' && model'[c] == model[c]
    ensures Sound(t, |chains|, chains[k], k, model')
  {
    SoundAt(t, chains, model, k);
    OtherChain(t, chains, model, k, key);
    SoundUnaffected(t, |chains|, chains[k], k, model, model', key);
  }

  lemma StillListed<V>(t: KeyType, chains: seq<seq<Node<V>>>, chains': seq<seq<Node<V>>>, c: Key)
    requires |chains'| == |chains| > 0 && Listed(t, chains, c)
    requires var i := IndexOf(t, |chains|, c); Has(t, chains[i], c) ==> Has(t, chains'[i], c)
    ensures Listed(t, chains', c)
  {}

  /** A new chain for the bucket of `key`, holding all other keys as before. */
  lemma Rechained<V>(t: KeyType, chains: seq<seq<Node<V>>>, model: map<Key, V>, key: Key, chain: seq<Node<V>>,
                     model': map<Key, V>)
    requires Represents(t, chains, model)
    requires Sound(t, |chains|, chain, IndexOf(t, |chains|, key), model')
    requires forall c | c in model && c != Canonical(t, key) :: c in model' && model'[c] == model[c]
    requires forall c | c in model' :: c in model || c == Canonical(t, key)
    requires forall c | c in model' :: c == Canonical(t, key) || Has(t, chains[IndexOf(t, |chains|, key)], c) ==> Has(t, chain, c)
    requires |model'| + |chains[IndexOf(t, |chains|, key)]| == |model| + |chain|
    ensures Represents(t, chains[IndexOf(t, |chains|, key) := chain], model')
  {
    var i := IndexOf(t, |chains|, key);
    var chains' := chains[i := chain];
    forall k | 0 <= k < |chains'| ensures Sound(t, |chains'|, chains'[k], k, model') {
      if k != i { OthersSound(t, chains, model, model', key, k); }
    }
    forall c | c in model' ensures Listed(t, chains', c) {
      if c == Canonical(t, key) {
        SameIndex(t, |chains|, key, key);
        SameIsCanonical(t, key, key);
      } else {
        ListedAt(t, chains, model, c);
        StillListed(t, chains, chains', c);
      }
    }
    TotalUpdate(chains, i, chain);
  }

  lemma NotHas<V>(t: KeyType, chain: seq<Node<V>>, c: Key, j: nat)
    requires !Has(t, chain, c) && j < |chain|
    ensures Canonical(t, chain[j].key) != c
  {}

  lemma SoundFront<V>(t: KeyType, n: nat, chain: seq<Node<V>>, i: nat, model: map<Key, V>, node: Node<V>)
    requires n > 0 && Sound(t, n, chain, i, model) && Holds(t, n, node, i, model)
    requires !Has(t, chain, Canonical(t, node.key))
    ensures Sound(t, n, [node] + chain, i, model)
  {
    var r := [node] + chain;
    forall j | 0 <= j < |r| ensures Holds(t, n, r[j], i, model) {
      if j > 0 { HoldsAt(t, n, chain, i, model, j - 1); }
    }
    forall j, k | 0 <= j < k < |r| ensures Apart(t, r, j, k) {
      if j > 0 { ApartAt(t, n, chain, i, model, j - 1, k - 1); } else { NotHas(t, chain, Canonical(t, node.key), k - 1); }
    }
  }

  lemma SoundBack<V>(t: KeyType, n: nat, chain: seq<Node<V>>, i: nat, model: map<Key, V>, node: Node<V>)
    requires n > 0 && Sound(t, n, chain, i, model) && Holds(t, n, node, i, model)
    requires !Has(t, chain, Canonical(t, node.key))
    ensures Sound(t, n, chain + [node], i, model)
  {
    var r := chain + [node];
    forall j | 0 <= j < |r| ensures Holds(t, n, r[j], i, model) {
      if j < |chain| { HoldsAt(t, n, chain, i, model, j); }
    }
    forall j, k | 0 <= j < k < |r| ensures Apart(t, r, j, k) {
      if k < |chain| { ApartAt(t, n, chain, i, model, j, k); } else { NotHas(t, chain, Canonical(t, node.key), j); }
    }
  }

  /** A new entry, in front of its chain or behind it. */
  lemma Inserted<V>(t: KeyType, chains: seq<seq<Node<V>>>, model: map<Key, V>, node: Node<V>, front: bool)
    requires Represents(t, chains, model) && Canonical(t, node.key) !in model
    ensures var i := IndexOf(t, |chains|, node.key);
            Represents(t, chains[i := if front then [node] + chains[i] else chains[i] + [node]],
                       model[Canonical(t, node.key) := node.value])
  {
    var i, c := IndexOf(t, |chains|, node.key), Canonical(t, node.key);
    var before: seq<Node<V>>, model' := chains[i], model[c := node.value];
    var chain := if front then [node] + before else before + [node];
    AbsentChain(t, chains, model, node.key);
    SoundAt(t, chains, model, i);
    SoundUnaffected(t, |chains|, before, i, model, model', node.key);
    if front { SoundFront(t, |chains|, before, i, model', node); } else { SoundBack(t, |chains|, before, i, model', node); }
    assert Canonical(t, chain[if front then 0 else |before|].key) == c;
    forall d | Has(t, before, d) ensures Has(t, chain, d) { HasMore(t, before, chain, d); }
    Rechained(t, chains, model, node.key, chain, model');
  }

  lemma HasMore<V>(t: KeyType, chain: seq<Node<V>>, more: seq<Node<V>>, c: Key)
    requires Has(t, chain, c)
    requires forall k | 0 <= k < |chain| && Canonical(t, chain[k].key) == c :: chain[k] in more
    ensures Has(t, more, c)
  {
    var k :| 0 <= k < |chain| && Canonical(t, chain[k].key) == c;
    var j :| 0 <= j < |more| && more[j] == chain[k];
    assert Canonical(t, more[j].key) == c;
  }

  lemma SoundInPlace<V>(t: KeyType, n: nat, chain: seq<Node<V>>, i: nat, model: map<Key, V>, node: Node<V>, j: nat)
    requires n > 0 && Sound(t, n, chain, i, model) && j < |chain| && IndexOf(t, n, node.key) == i
    requires Canonical(t, chain[j].key) == Canonical(t, node.key)
    ensures Sound(t, n, chain[j := node], i, model[Canonical(t, node.key) := node.value])
  {
    var r := chain[j := node];
    forall k | 0 <= k < |r| ensures Holds(t, n, r[k], i, model[Canonical(t, node.key) := node.value]) {
      HoldsAt(t, n, chain, i, model, k);
      if k < j { ApartAt(t, n, chain, i, model, k, j); } else if j < k { ApartAt(t, n, chain, i, model, j, k); }
    }
    forall k, l | 0 <= k < l < |r| ensures Apart(t, r, k, l) { ApartAt(t, n, chain, i, model, k, l); }
  }

  lemma HasInPlace<V>(t: KeyType, chain: seq<Node<V>>, node: Node<V>, j: nat, c: Key)
    requires j < |chain| && Canonical(t, chain[j].key) == Canonical(t, node.key) && Has(t, chain, c)
    ensures Has(t, chain[j := node], c)
  {
    var k :| 0 <= k < |chain| && Canonical(t, chain[k].key) == c;
    assert Canonical(t, chain[j := node][k].key) == c;
  }

  /** A new entry in the place of the one with the same key. */
  lemma Replaced<V>(t: KeyType, chains: seq<seq<Node<V>>>, model: map<Key, V>, node: Node<V>, j: nat)
    requires Represents(t, chains, model)
    requires var chain := chains[IndexOf(t, |chains|, node.key)];
             j < |chain| && Canonical(t, chain[j].key) == Canonical(t, node.key)
    ensures var i := IndexOf(t, |chains|, node.key);
            Represents(t, chains[i := chains[i][j := node]], model[Canonical(t, node.key) := node.value])
  {
    var i, c := IndexOf(t, |chains|, node.key), Canonical(t, node.key);
    var before: seq<Node<V>>, model' := chains[i], model[c := node.value];
    SoundAt(t, chains, model, i);
    SoundInPlace(t, |chains|, before, i, model, node, j);
    forall d | Has(t, before, d) ensures Has(t, before[j := node], d) { HasInPlace(t, before, node, j, d); }
    ChainOf(t, chains, model, i, j);
    assert Has(t, before, c) && model'.Keys == model.Keys;
    Rechained(t, chains, model, node.key, before[j := node], model');
  }

  lemma SoundWithout<V>(t: KeyType, n: nat, chain: seq<Node<V>>, i: nat, model: map<Key, V>, j: nat)
    requires n > 0 && Sound(t, n, chain, i, model) && j < |chain|
    ensures Sound(t, n, chain[..j] + chain[j + 1..], i, model - {Canonical(t, chain[j].key)})
  {
    var r := chain[..j] + chain[j + 1..];
    forall k | 0 <= k < |r| ensures Holds(t, n, r[k], i, model - {Canonical(t, chain[j].key)}) {
      HoldsAt(t, n, chain, i, model, if k < j then k else k + 1);
      if k < j { ApartAt(t, n, chain, i, model, k, j); } else { ApartAt(t, n, chain, i, model, j, k + 1); }
    }
    forall k, l | 0 <= k < l < |r| ensures Apart(t, r, k, l) {
      ApartAt(t, n, chain, i, model, if k < j then k else k + 1, if l < j then l else l + 1);
    }
  }

  lemma HasWithout<V>(t: KeyType, chain: seq<Node<V>>, j: nat, c: Key)
    requires j < |chain| && Canonical(t, chain[j].key) != c && Has(t, chain, c)
    ensures Has(t, chain[..j] + chain[j + 1..], c)
  {
    var k :| 0 <= k < |chain| && Canonical(t, chain[k].key) == c;
    assert Canonical(t, (chain[..j] + chain[j + 1..])[if k < j then k else k - 1].key) == c;
  }

  /** The entry with the key taken out. */
  lemma Removed<V>(t: KeyType, chains: seq<seq<Node<V>>>, model: map<Key, V>, key: Key, j: nat)
    requires Represents(t, chains, model)
    requires var chain := chains[IndexOf(t, |chains|, key)];
             j < |chain| && Canonical(t, chain[j].key) == Canonical(t, key)
    ensures var i := IndexOf(t, |chains|, key);
            Represents(t, chains[i := chains[i][..j] + chains[i][j + 1..]], model - {Canonical(t, key)})
  {
    var i, c := IndexOf(t, |chains|, key), Canonical(t, key);
    var before: seq<Node<V>>, model' := chains[i], model - {c};
    var chain := before[..j] + before[j + 1..];
    SoundAt(t, chains, model, i);
    SoundWithout(t, |chains|, before, i, model, j);
    forall d | d != c && Has(t, before, d) ensures Has(t, chain, d) { HasWithout(t, before, j, d); }
    ChainOf(t, chains, model, i, j);
    assert model'.Keys == model.Keys - {c};
    Rechained(t, chains, model, key, chain, model');
  }

  predicate PowerOfTwo(n: nat) { n == 1 || (n > 0 && n % 2 == 0 && PowerOfTwo(n / 2)) }

  /** The least power of two that is not below the capacity. */
  ghost predicate LeastPower(n: nat, capacity: nat) {
    PowerOfTwo(n) && capacity <= n && forall m: nat | PowerOfTwo(m) && capacity <= m :: n <= m
  }

  lemma {:induction false} PowerGap(n: nat, m: nat)
    requires PowerOfTwo(n) && PowerOfTwo(m) && n < m
    ensures 2 * n <= m
  {
    if n > 1 { PowerGap(n / 2, m / 2); }
  }

  /** The capacities of the buffers are powers of two, and so is the largest of them. */
  lemma {:induction false} CapacityIsPower(n: nat)
    requires Buffer.Capacity(n)
    ensures PowerOfTwo(n)
  {
    if n == Buffer.STATIC {
      assert PowerOfTwo(4) && PowerOfTwo(16) && PowerOfTwo(64) && PowerOfTwo(256);
    } else {
      CapacityIsPower(n / 2);
    }
  }

  /** The number of buckets in `vtm_map_new` after `k` rounds of its loop, which doubles 64-bit numbers. */
  function Doubles(k: nat): nat {
    if k == 0 then 1 else Buffer.Wrap(2 * Doubles(k - 1))
  }

  lemma HalfIsPower()
    ensures PowerOfTwo(Buffer.HALF)
  {
    Buffer.LargestCapacity();
    CapacityIsPower(Buffer.HALF);
  }

  lemma PowerDoubled(n: nat)
    requires PowerOfTwo(n) && n < Buffer.HALF
    ensures Buffer.Wrap(2 * n) == 2 * n <= Buffer.HALF && PowerOfTwo(2 * n)
  {
    HalfIsPower();
    PowerGap(n, Buffer.HALF);
    Buffer.WrapDouble(n);
  }

  /** The numbers in the loop are powers of two up to 2 to the 63, and zero once that was doubled. */
  lemma {:induction false} DoublesArePowers(k: nat)
    ensures Doubles(k) <= Buffer.HALF && (Doubles(k) == 0 || PowerOfTwo(Doubles(k)))
  {
    if k > 0 {
      DoublesArePowers(k - 1);
      var n := Doubles(k - 1);
      if 0 < n < Buffer.HALF { PowerDoubled(n); } else { Buffer.WrapDouble(n); }
    }
  }

  lemma {:induction false} DoublesReach(capacity: nat, k: nat) returns (rounds: nat)
    requires capacity <= Buffer.HALF && Doubles(k) > 0
    ensures Doubles(rounds) >= capacity
    decreases Buffer.HALF - Doubles(k)
  {
    rounds := k;
    if Doubles(k) < capacity { rounds := DoublesReach(capacity, k + 1); }
  }

  /** The loop of `vtm_map_new` comes to an end if and only if the capacity is at most 2 to the 63. */
  lemma BucketLoopEnds(capacity: nat)
    ensures (exists k :: Doubles(k) >= capacity) <==> capacity <= Buffer.HALF
  {
    if capacity <= Buffer.HALF {
      var k := DoublesReach(capacity, 0);
    } else {
      forall k ensures Doubles(k) < capacity { DoublesArePowers(k); }
    }
  }

  /** The loop of `vtm_map_new`. */
  method BucketCount(capacity: nat) returns (n: nat)
    requires capacity <= Buffer.HALF
    ensures LeastPower(n, capacity)
  {
    n := 1;
    ghost var k := 0;
    while n < capacity
      invariant PowerOfTwo(n) && n == Doubles(k) && (n == 1 || n / 2 < capacity)
      decreases capacity - n
    {
      n := Buffer.Wrap(2 * n);
      k := k + 1;
    }
    forall m: nat | PowerOfTwo(m) && capacity <= m ensures n <= m {
      if m < n { PowerGap(m, n); }
    }
  }

  /** `vtm_map_new`. */
  method NewMap<V>(keyType: KeyType, capacity: nat) returns (table: Table<V>)
    requires capacity <= Buffer.HALF
    ensures fresh(table) && table.Valid() && table.model == map[] && table.keyType == keyType
    ensures fresh(table.buckets) && table.nodes == {}
    ensures LeastPower(table.buckets.Length, capacity)
  {
    var n := BucketCount(capacity);
    table := new Table(keyType, n);
  }

  class Table<V> {
    const keyType: KeyType
    const buckets: array<Node?<V>>
    ghost var chains: seq<seq<Node<V>>>
    ghost var nodes: set<Node<V>>
    /** What the table holds, by the representatives of its keys. */
    ghost var model: map<Key, V>

    function Index(key: Key): nat
      requires buckets.Length > 0
    {
      IndexOf(keyType, buckets.Length, key)
    }

    function Canon(key: Key): Key { Canonical(keyType, key) }

    ghost predicate Valid()
      reads this, buckets, nodes
    {
      && |chains| == buckets.Length && Represents(keyType, chains, model)
      && AllLead(buckets, chains, nodes)
    }

    /** A table with a given number of buckets: VTM_SMAP_INIT. */
    constructor (keyType: KeyType, n: nat)
      requires n > 0
      ensures Valid() && model == map[] && fresh(buckets) && nodes == {} && this.keyType == keyType
      ensures buckets.Length == n
    {
      this.keyType := keyType;
      buckets := new Node?<V>[n](_ => null);
      chains := seq(n, _ => []);
      nodes := {};
      model := map[];
      new;
      TotalEmpty(chains);
    }

    /** The comparison function of the table. */
    predicate Matches(a: Key, b: Key): (r: bool)
      ensures r <==> Canon(a) == Canon(b)
    {
      SameIsCanonical(keyType, a, b);
      Same(keyType, a, b)
    }

    /** The walk along a chain that `vtm_map_find_bucket_node_pos`, VTM_SMAP_GET and VTM_SMAP_REMOVE have in common: the
        node with the key, if any, and the one before it. */
    method Walk(i: nat, key: Key) returns (prev: Node?<V>, cur: Node?<V>, ghost j: nat)
      requires i < |chains| == buckets.Length && Leads(buckets[i], chains[i])
      ensures j <= |chains[i]| && cur == NodeAt(chains[i], j)
      ensures prev == if j == 0 then null else chains[i][j - 1]
      ensures forall k | 0 <= k < j :: !Matches(chains[i][k].key, key)
      ensures cur != null ==> Matches(cur.key, key)
    {
      ghost var chain := chains[i];
      prev, cur, j := null, buckets[i], 0;
      while cur != null && !Matches(cur.key, key)
        invariant 0 <= j <= |chain|
        invariant cur == NodeAt(chain, j)
        invariant prev == if j == 0 then null else chain[j - 1]
        invariant forall k | 0 <= k < j :: !Matches(chain[k].key, key)
        decreases |chain| - j
      {
        prev := cur;
        cur := cur.next;
        j := j + 1;
      }
    }

    method Find(i: nat, key: Key) returns (prev: Node?<V>, cur: Node?<V>, ghost j: nat)
      requires Valid() && i == Index(key)
      ensures j <= |chains[i]| && cur == NodeAt(chains[i], j)
      ensures prev == if j == 0 then null else chains[i][j - 1]
      ensures forall k | 0 <= k < j :: Canon(chains[i][k].key) != Canon(key)
      ensures cur != null <==> Canon(key) in model
      ensures cur != null ==> Canon(cur.key) == Canon(key) && model[Canon(key)] == cur.value
    {
      AbsentChain(keyType, chains, model, key);
      LeadsAt(buckets, chains, nodes, i);
      prev, cur, j := Walk(i, key);
      if cur != null { ChainOf(keyType, chains, model, i, j); }
    }

    /** `vtm_map_get` and VTM_SMAP_GET. */
    method Get(key: Key) returns (res: Option<V>)
      requires Valid()
      ensures res == if Canon(key) in model then Some(model[Canon(key)]) else None
    {
      var prev, cur, j := Find(Index(key), key);
      res := if cur == null then None else Some(cur.value);
    }

    /** Chains have no node in common. */
    lemma Disjoint(i: nat, k: nat, j: nat)
      requires Represents(keyType, chains, model) && i < |chains| && k < |chains| && i != k && j < |chains[i]|
      ensures chains[i][j] !in chains[k]
    {
      ChainOf(keyType, chains, model, i, j);
      forall l | 0 <= l < |chains[k]| ensures chains[k][l] != chains[i][j] { ChainOf(keyType, chains, model, k, l); }
    }

    lemma ChainDistinct(i: nat)
      requires Represents(keyType, chains, model) && i < |chains|
      ensures Distinct(chains[i])
    {
      SoundAt(keyType, chains, model, i);
      forall j, k | 0 <= j < k < |chains[i]| ensures chains[i][j] != chains[i][k] {
        ApartAt(keyType, |chains|, chains[i], i, model, j, k);
      }
    }

    lemma PrevOnlyIn(i: nat, j: nat)
      requires Represents(keyType, chains, model) && i < |chains| && j <= |chains[i]|
      ensures OnlyIn(if j == 0 then null else chains[i][j - 1], chains, i)
    {
      if j > 0 {
        forall k | 0 <= k < |chains| && k != i ensures chains[i][j - 1] !in chains[k] { Disjoint(i, k, j - 1); }
      }
    }

    lemma NewOnlyIn(i: nat, node: Node<V>)
      requires i < |chains| && node !in nodes && forall k | 0 <= k < |chains| :: Within(chains[k], nodes)
      ensures node !in chains[i] && OnlyIn(node, chains, i)
    {
      forall k | 0 <= k < |chains| ensures node !in chains[k] { assert Within(chains[k], nodes); }
    }

    /** A new node takes the place of the one at position `j`, which has the same key. */
    method Replace(i: nat, prev: Node?<V>, cur: Node<V>, ghost j: nat, node: Node<V>)
      requires Valid() && node !in nodes && i == Index(node.key) && j < |chains[i]| && cur == chains[i][j]
      requires prev == (if j == 0 then null else chains[i][j - 1]) && Canon(cur.key) == Canon(node.key)
      modifies this`chains, this`nodes, this`model, prev, node, buckets
      ensures Valid() && model == old(model)[Canon(node.key) := node.value] && nodes == old(nodes) + {node}
      ensures chains == old(chains[i := chains[i][j := node]])
    {
      ChainDistinct(i);
      PrevOnlyIn(i, j);
      NewOnlyIn(i, node);
      Replaced(keyType, chains, model, node, j);
      LinkAllInPlace(buckets, i, prev, cur, node, chains, nodes, j);
      chains := chains[i := chains[i][j := node]];
      nodes := nodes + {node};
      model := model[Canon(node.key) := node.value];
    }

    /** A new node goes in front of its chain. */
    method AddFront(i: nat, node: Node<V>)
      requires Valid() && node !in nodes && i == Index(node.key) && Canon(node.key) !in model
      modifies this`chains, this`nodes, this`model, node, buckets
      ensures Valid() && model == old(model)[Canon(node.key) := node.value] && nodes == old(nodes) + {node}
      ensures chains == old(chains[i := [node] + chains[i]])
    {
      NewOnlyIn(i, node);
      Inserted(keyType, chains, model, node, true);
      LinkAllFront(buckets, i, node, chains, nodes);
      chains := chains[i := [node] + chains[i]];
      nodes := nodes + {node};
      model := model[Canon(node.key) := node.value];
    }

    /** A new node goes behind the last node of its chain. */
    method AddBack(i: nat, last: Node?<V>, node: Node<V>)
      requires Valid() && node !in nodes && i == Index(node.key) && Canon(node.key) !in model && node.next == null
      requires last == if chains[i] == [] then null else chains[i][|chains[i]| - 1]
      modifies this`chains, this`nodes, this`model, last, buckets
      ensures Valid() && model == old(model)[Canon(node.key) := node.value] && nodes == old(nodes) + {node}
      ensures chains == old(chains[i := chains[i] + [node]])
    {
      ChainDistinct(i);
      PrevOnlyIn(i, |chains[i]|);
      NewOnlyIn(i, node);
      Inserted(keyType, chains, model, node, false);
      LinkAllBack(buckets, i, last, node, chains, nodes);
      chains := chains[i := chains[i] + [node]];
      nodes := nodes + {node};
      model := model[Canon(node.key) := node.value];
    }

    /** The node at position `j` is taken out. */
    method TakeOut(i: nat, prev: Node?<V>, cur: Node<V>, ghost j: nat, key: Key)
      requires Valid() && i == Index(key) && j < |chains[i]| && cur == chains[i][j] && Canon(cur.key) == Canon(key)
      requires prev == if j == 0 then null else chains[i][j - 1]
      modifies this`chains, this`model, prev, buckets
      ensures Valid() && model == old(model) - {Canon(key)}
    {
      ChainDistinct(i);
      PrevOnlyIn(i, j);
      Removed(keyType, chains, model, key, j);
      UnlinkAll(buckets, i, prev, cur, chains, nodes, j);
      chains := chains[i := chains[i][..j] + chains[i][j + 1..]];
      model := model - {Canon(key)};
    }

    lemma InNodes(i: nat, j: nat)
      requires Valid() && i < |chains| && j < |chains[i]|
      ensures chains[i][j] in nodes
    {
      assert Within(chains[i], nodes);
    }

    /** `vtm_map_put`: an entry with the same key is replaced in place, a new one goes in front of its chain. */
    method PutFront(key: Key, value: V) returns (ghost node: Node<V>, ghost j: nat)
      requires Valid()
      modifies this`chains, this`nodes, this`model, nodes, buckets
      ensures Valid() && model == old(model)[Canon(key) := value] && fresh(nodes - old(nodes))
      ensures fresh(node) && node.key == key && node.value == value
      ensures Canon(key) in old(model) ==>
                && j < |old(chains)[Index(key)]| && Canon(old(chains)[Index(key)][j].key) == Canon(key)
                && chains == old(chains[Index(key) := chains[Index(key)][j := node]])
      ensures Canon(key) !in old(model) ==> chains == old(chains[Index(key) := [node] + chains[Index(key)]])
    {
      var i := Index(key);
      var new' := new Node(key, value);
      var prev, cur, pos := Find(i, key);
      node, j := new', pos;
      if j > 0 { InNodes(i, j - 1); }
      if cur != null {
        Replace(i, prev, cur, j, new');
      } else {
        AddFront(i, new');
      }
    }

    /** VTM_SMAP_PUT: an entry with the same key is replaced in place, a new one goes behind its chain. */
    method PutBack(key: Key, value: V) returns (ghost node: Node<V>, ghost j: nat)
      requires Valid()
      modifies this`chains, this`nodes, this`model, nodes, buckets
      ensures Valid() && model == old(model)[Canon(key) := value] && fresh(nodes - old(nodes))
      ensures fresh(node) && node.key == key && node.value == value
      ensures Canon(key) in old(model) ==>
                && j < |old(chains)[Index(key)]| && Canon(old(chains)[Index(key)][j].key) == Canon(key)
                && chains == old(chains[Index(key) := chains[Index(key)][j := node]])
      ensures Canon(key) !in old(model) ==> chains == old(chains[Index(key) := chains[Index(key)] + [node]])
    {
      var i := Index(key);
      var new' := new Node(key, value);
      var prev, cur, pos := Find(i, key);
      node, j := new', pos;
      if j > 0 { InNodes(i, j - 1); }
      if cur != null {
        Replace(i, prev, cur, j, new');
      } else {
        AddBack(i, prev, new');
      }
    }

    /** `vtm_map_remove` and VTM_SMAP_REMOVE. */
    method Remove(key: Key) returns (removed: bool)
      requires Valid()
      modifies this`chains, this`model, nodes, buckets
      ensures Valid() && removed == (Canon(key) in old(model)) && model == old(model) - {Canon(key)}
    {
      var prev, cur, j := Find(Index(key), key);
      if j > 0 { InNodes(Index(key), j - 1); }
      removed := cur != null;
      if cur != null {
        TakeOut(Index(key), prev, cur, j, key);
      }
    }

    /** `vtm_map_size`: counts the nodes, and arrives at the number of keys. */
    method Size() returns (size: nat)
      requires Valid()
      ensures size == |model|
    {
      size := 0;
      var i := 0;
      while i < buckets.Length
        invariant 0 <= i <= buckets.Length && size == Total(chains[..i])
      {
        LeadsAt(buckets, chains, nodes, i);
        TotalNext(chains, i);
        var node, j := buckets[i], 0;
        while node != null
          invariant 0 <= j <= |chains[i]| && node == NodeAt(chains[i], j) && size == Total(chains[..i]) + j
          decreases |chains[i]| - j
        {
          size := size + 1;
          node := node.next;
          j := j + 1;
        }
        i := i + 1;
      }
      assert chains[..i] == chains;
    }

    /** The entries of the chains, in the order of the buckets. */
    ghost function Entries(): seq<Node<V>>
      reads this
    {
      Flat(chains)
    }

    /** `vtm_map_entryset` and VTM_SMAP_FOR_EACH. */
    method EntrySet() returns (entries: seq<Node<V>>)
      requires Valid()
      ensures entries == Entries()
    {
      entries := [];
      var i := 0;
      while i < buckets.Length
        invariant 0 <= i <= buckets.Length && entries == Flat(chains[..i])
      {
        LeadsAt(buckets, chains, nodes, i);
        FlatNext(chains, i);
        var node, j := buckets[i], 0;
        while node != null
          invariant 0 <= j <= |chains[i]| && node == NodeAt(chains[i], j)
          invariant entries == Flat(chains[..i]) + chains[i][..j]
          decreases |chains[i]| - j
        {
          entries := entries + [node];
          assert chains[i][..j + 1] == chains[i][..j] + [node];
          node := node.next;
          j := j + 1;
        }
        assert chains[i][..j] == chains[i];
        i := i + 1;
      }
      assert chains[..i] == chains;
    }

    /** Iteration visits each entry of the abstract map exactly once. */
    lemma EntriesExact()
      requires Valid()
      ensures |Entries()| == |model|
      ensures forall n | n in Entries() :: Canon(n.key) in model && model[Canon(n.key)] == n.value
      ensures forall c | c in model :: exists n :: n in Entries() && Canon(n.key) == c
      ensures forall a, b | 0 <= a < b < |Entries()| :: Canon(Entries()[a].key) != Canon(Entries()[b].key)
    {
      FlatLength(chains);
      forall n | n in Entries() ensures Canon(n.key) in model && model[Canon(n.key)] == n.value {
        var i, j := InFlat(chains, n);
        ChainOf(keyType, chains, model, i, j);
      }
      forall c | c in model ensures exists n :: n in Entries() && Canon(n.key) == c {
        ListedAt(keyType, chains, model, c);
        var i := IndexOf(keyType, |chains|, c);
        var j :| 0 <= j < |chains[i]| && Canon(chains[i][j].key) == c;
        ElementInFlat(chains, i, j);
        assert chains[i][j] in Entries();
      }
      FlatApart(0);
      assert chains[0..] == chains;
    }

    /** The keys of the chains from the i-th on are pairwise different. */
    lemma {:induction false} FlatApart(i: nat)
      requires Represents(keyType, chains, model) && i <= |chains|
      ensures var f := Flat(chains[i..]); forall a, b | 0 <= a < b < |f| :: Canon(f[a].key) != Canon(f[b].key)
      decreases |chains| - i
    {
      if i < |chains| {
        FlatApart(i + 1);
        var f, chain, rest := Flat(chains[i..]), chains[i], Flat(chains[i + 1..]);
        assert chains[i..][1..] == chains[i + 1..];
        assert f == chain + rest;
        forall a, b | 0 <= a < b < |f| ensures Canon(f[a].key) != Canon(f[b].key) {
          if b < |chain| {
            SoundAt(keyType, chains, model, i);
            ApartAt(keyType, |chains|, chain, i, model, a, b);
          } else if a < |chain| {
            var k, l := InFlat(chains[i + 1..], rest[b - |chain|]);
            ChainOf(keyType, chains, model, i, a);
            ChainOf(keyType, chains, model, i + 1 + k, l);
            if Canon(f[a].key) == Canon(f[b].key) { SameIndex(keyType, |chains|, f[a].key, f[b].key); }
          } else {
            assert f[a] == rest[a - |chain|] && f[b] == rest[b - |chain|];
          }
        }
      }
    }

    /** `vtm_map_clear` and VTM_SMAP_CLEAR. */
    method Clear()
      requires Valid()
      modifies this`chains, this`nodes, this`model, buckets
      ensures Valid() && model == map[] && nodes == {}
    {
      var i := 0;
      while i < buckets.Length
        invariant 0 <= i <= buckets.Length && forall k | 0 <= k < i :: buckets[k] == null
      {
        buckets[i] := null;
        i := i + 1;
      }
      chains := seq(buckets.Length, _ => []);
      nodes := {};
      model := map[];
      TotalEmpty(chains);
    }
  }
}
