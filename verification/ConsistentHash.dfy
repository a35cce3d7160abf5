/** The consistent-hash ring (assets/stdlib/consistent_hash.js). The hash is a parameter:
    nothing is asked of it but that it tells the virtual nodes of the registered names
    apart. When no virtual node reaches the target, the code's search answers the last
    one, where its comment says the first. */
module ConsistentHash {
  import opened Integers
  import opened Options

  datatype Vnode<A> = Vnode(hash: string, node: A)

  datatype Ring<A> = Ring(list: seq<Vnode<A>>, names: map<string, A>, replicas: int)

  // ---------------------------------------------------------------- the source's functions

  /** Lexicographic order of strings. */
  predicate Less(a: string, b: string) {
    if b == "" then false
    else if a == "" then true
    else a[0] < b[0] || (a[0] == b[0] && Less(a[1..], b[1..]))
  }

  function New<A>(replicas: int): Ring<A> {
    Ring([], map[], replicas)
  }

  function VirtualName(name: string, i: nat): string {
    name + "#" + IntToString(i)
  }

  function RingInsert<A>(list: seq<Vnode<A>>, h: string, node: A): seq<Vnode<A>> {
    if list == [] then [Vnode(h, node)]
    else if Less(h, list[0].hash) then [Vnode(h, node)] + list
    else [list[0]] + RingInsert(list[1..], h, node)
  }

  function AddReplicas<A>(hash: string -> string, list: seq<Vnode<A>>, name: string, node: A,
                          replicas: int, i: nat): seq<Vnode<A>>
    decreases replicas - i
  {
    if i >= replicas then list
    else AddReplicas(hash, RingInsert(list, hash(VirtualName(name, i)), node), name, node, replicas, i + 1)
  }

  function Add<A>(hash: string -> string, ring: Ring<A>, name: string, node: A): Ring<A> {
    Ring(AddReplicas(hash, ring.list, name, node, ring.replicas, 0), ring.names[name := node], ring.replicas)
  }

  function Hashes(hash: string -> string, name: string, i: nat, replicas: int): seq<string>
    decreases replicas - i
  {
    if i >= replicas then [] else [hash(VirtualName(name, i))] + Hashes(hash, name, i + 1, replicas)
  }

  function Without<A>(list: seq<Vnode<A>>, hashes: seq<string>): seq<Vnode<A>> {
    if list == [] then []
    else if list[0].hash in hashes then Without(list[1..], hashes)
    else [list[0]] + Without(list[1..], hashes)
  }

  function Remove<A>(hash: string -> string, ring: Ring<A>, name: string): Ring<A> {
    Ring(Without(ring.list, Hashes(hash, name, 0, ring.replicas)), ring.names - {name}, ring.replicas)
  }

  /** The virtual node the search stops at; the source answers its node. */
  function Successor<A>(list: seq<Vnode<A>>, target: string): Option<Vnode<A>> {
    if list == [] then None
    else if !Less(list[0].hash, target) then Some(list[0])
    else
      match Successor(list[1..], target)
      case Some(v) => Some(v)
      case None => Some(list[0])
  }

  function Get<A>(hash: string -> string, ring: Ring<A>, key: string): Option<A> {
    match Successor(ring.list, hash(key))
    case Some(v) => Some(v.node)
    case None => None
  }

  // ---------------------------------------------------------------- the string order

  lemma {:induction false} LessTrans(a: string, b: string, c: string)
    requires Less(a, b) && Less(b, c)
    ensures Less(a, c)
    decreases |a|
  {
    if a != "" && a[0] == b[0] && b[0] == c[0] { LessTrans(a[1..], b[1..], c[1..]); }
  }

  /** Exactly one of before, equal and after. */
  lemma {:induction false} LessTotal(a: string, b: string)
    ensures Less(a, b) <==> !Less(b, a) && a != b
    ensures !Less(a, a)
    decreases |a|
  {
    if a != "" {
      LessTotal(a[1..], a[1..]);
      if b != "" {
        LessTotal(a[1..], b[1..]);
        assert a == [a[0]] + a[1..] && b == [b[0]] + b[1..];
      }
    }
  }

  // ---------------------------------------------------------------- disruption

  /** A new virtual node takes a key or leaves it where it was. */
  lemma {:induction false} InsertDisrupts<A>(list: seq<Vnode<A>>, h: string, node: A, t: string)
    ensures Successor(RingInsert(list, h, node), t) == Some(Vnode(h, node))
            || Successor(RingInsert(list, h, node), t) == Successor(list, t) != None
  {
    var r := RingInsert(list, h, node);
    if list == [] {
    } else if Less(h, list[0].hash) {
      assert r[1..] == list;
    } else {
      assert r[1..] == RingInsert(list[1..], h, node);
      InsertDisrupts(list[1..], h, node, t);
    }
  }

  lemma {:induction false} ReplicasDisrupt<A>(hash: string -> string, list: seq<Vnode<A>>, name: string, node: A,
                                              replicas: int, i: nat, t: string)
    ensures var r := AddReplicas(hash, list, name, node, replicas, i);
            Successor(r, t) == Successor(list, t) || (Successor(r, t).Some? && Successor(r, t).value.node == node)
    decreases replicas - i
  {
    if i < replicas {
      var h := hash(VirtualName(name, i));
      InsertDisrupts(list, h, node, t);
      ReplicasDisrupt(hash, RingInsert(list, h, node), name, node, replicas, i + 1, t);
    }
  }

  /** Adding a node sends every key to its old node or to the new one, whatever the ring
      and the hash. */
  lemma AddDisruption<A>(hash: string -> string, ring: Ring<A>, name: string, node: A, key: string)
    ensures var ringAfter := Add(hash, ring, name, node);
            Get(hash, ringAfter, key) == Get(hash, ring, key) || Get(hash, ringAfter, key) == Some(node)
  {
    ReplicasDisrupt(hash, ring.list, name, node, ring.replicas, 0, hash(key));
  }

  /** A virtual node that survives keeps its keys. */
  lemma {:induction false} WithoutKeeps<A>(list: seq<Vnode<A>>, hashes: seq<string>, t: string)
    requires Successor(list, t).Some? && Successor(list, t).value.hash !in hashes
    ensures Successor(Without(list, hashes), t) == Successor(list, t)
  {
    var r := Without(list, hashes);
    var v := Successor(list, t).value;
    if !Less(list[0].hash, t) {
      assert r[0] == list[0];
    } else if Successor(list[1..], t).Some? {
      WithoutKeeps(list[1..], hashes, t);
      if list[0].hash !in hashes { assert r[1..] == Without(list[1..], hashes); }
    } else {
      assert list[1..] == [];
      assert r == [v];
    }
  }

  // ---------------------------------------------------------------- what is on the ring

  ghost predicate Sorted<A>(list: seq<Vnode<A>>) {
    forall i, j :: 0 <= i < j < |list| ==> Less(list[i].hash, list[j].hash)
  }

  ghost function Elements<A>(list: seq<Vnode<A>>): set<Vnode<A>> {
    set v | v in list
  }

  /** The virtual nodes of one name, from replica `i` on. */
  ghost function Own<A>(hash: string -> string, name: string, node: A, i: nat, replicas: int): set<Vnode<A>> {
    set k: int | i <= k < replicas :: Vnode(hash(VirtualName(name, k)), node)
  }

  /** The virtual nodes of every registered name. */
  ghost function Expected<A>(hash: string -> string, names: map<string, A>, replicas: int): set<Vnode<A>> {
    set n, k: int | n in names && 0 <= k < replicas :: Vnode(hash(VirtualName(n, k)), names[n])
  }

  /** The hash tells all virtual names over `names` apart. */
  ghost predicate NoClash(hash: string -> string, names: set<string>, replicas: int) {
    forall m, n, j: nat, k: nat ::
      m in names && n in names && j < replicas && k < replicas ==>
      hash(VirtualName(m, j)) == hash(VirtualName(n, k)) ==> VirtualName(m, j) == VirtualName(n, k)
  }

  /** The ring is in hash order and holds exactly the virtual nodes of its names. */
  ghost predicate Settled<A>(hash: string -> string, ring: Ring<A>) {
    Sorted(ring.list) && Elements(ring.list) == Expected(hash, ring.names, ring.replicas)
  }

  lemma MarkInside(a: string, x: string, b: string, y: string)
    requires a + "#" + x == b + "#" + y && |a| < |b|
    ensures '#' in x
  {
    assert x[|b| - |a| - 1] == (a + "#" + x)[|b|] == (b + "#" + y)[|b|];
  }

  lemma HashPosition(a: string, x: string, b: string, y: string)
    requires a + "#" + x == b + "#" + y && '#' !in x && '#' !in y
    ensures a == b && x == y
  {
    var s := a + "#" + x;
    if |a| < |b| {
      MarkInside(a, x, b, y);
    } else if |b| < |a| {
      MarkInside(b, y, a, x);
    } else {
      assert a == s[..|a|] && b == (b + "#" + y)[..|a|];
      assert x == s[|a| + 1..] && y == (b + "#" + y)[|a| + 1..];
    }
  }

  /** A virtual name determines its name and replica, even when names contain the mark. */
  lemma VirtualNameUnique(m: string, j: nat, n: string, k: nat)
    requires VirtualName(m, j) == VirtualName(n, k)
    ensures m == n && j == k
  {
    DecimalIs(j);
    DecimalIs(k);
    HashPosition(m, Decimal(j), n, Decimal(k));
  }

  lemma ElementsCons<A>(v: Vnode<A>, rest: seq<Vnode<A>>)
    ensures Elements([v] + rest) == {v} + Elements(rest)
  {
  }

  lemma {:induction false} InsertElements<A>(list: seq<Vnode<A>>, h: string, node: A)
    ensures Elements(RingInsert(list, h, node)) == Elements(list) + {Vnode(h, node)}
  {
    if list == [] {
    } else if Less(h, list[0].hash) {
      ElementsCons(Vnode(h, node), list);
    } else {
      InsertElements(list[1..], h, node);
      assert list == [list[0]] + list[1..];
      ElementsCons(list[0], list[1..]);
      ElementsCons(list[0], RingInsert(list[1..], h, node));
    }
  }

  lemma {:induction false} InsertSorted<A>(list: seq<Vnode<A>>, h: string, node: A)
    requires Sorted(list) && forall v :: v in list ==> v.hash != h
    ensures Sorted(RingInsert(list, h, node))
  {
    if list == [] {
    } else if Less(h, list[0].hash) {
      SortedCons(Vnode(h, node), list);
    } else {
      var rest := RingInsert(list[1..], h, node);
      SortedTail(list);
      InsertSorted(list[1..], h, node);
      InsertElements(list[1..], h, node);
      LessTotal(h, list[0].hash);
      assert rest[0] in Elements(rest);
      SortedCons(list[0], rest);
    }
  }

  /** Hash order with repetitions, as a name added twice leaves them. */
  ghost predicate Ordered<A>(list: seq<Vnode<A>>) {
    forall i, j :: 0 <= i < j < |list| ==> !Less(list[j].hash, list[i].hash)
  }

  lemma NotAfter(a: string, b: string, c: string)
    requires !Less(b, a) && !Less(c, b)
    ensures !Less(c, a)
  {
    LessTotal(a, b);
    LessTotal(b, c);
    LessTotal(a, c);
    if a != b && b != c { LessTrans(a, b, c); }
  }

  lemma OrderedCons<A>(v: Vnode<A>, rest: seq<Vnode<A>>)
    requires Ordered(rest) && (rest != [] ==> !Less(rest[0].hash, v.hash))
    ensures Ordered([v] + rest)
  {
    forall j | 0 <= j < |rest| ensures !Less(rest[j].hash, v.hash) {
      if j > 0 { NotAfter(v.hash, rest[0].hash, rest[j].hash); }
    }
  }

  lemma OrderedTail<A>(list: seq<Vnode<A>>)
    requires list != [] && Ordered(list)
    ensures Ordered(list[1..]) && forall v :: v in list[1..] ==> !Less(v.hash, list[0].hash)
  {
  }

  /** Insertion keeps hash order whatever is inserted, a hash already present included. */
  lemma {:induction false} InsertOrdered<A>(list: seq<Vnode<A>>, h: string, node: A)
    requires Ordered(list)
    ensures Ordered(RingInsert(list, h, node))
  {
    if list == [] {
    } else if Less(h, list[0].hash) {
      LessTotal(h, list[0].hash);
      OrderedCons(Vnode(h, node), list);
    } else {
      var rest := RingInsert(list[1..], h, node);
      OrderedTail(list);
      InsertOrdered(list[1..], h, node);
      InsertElements(list[1..], h, node);
      assert rest[0] in Elements(rest);
      OrderedCons(list[0], rest);
    }
  }

  lemma {:induction false} ReplicasOrdered<A>(hash: string -> string, list: seq<Vnode<A>>, name: string, node: A,
                                              replicas: int, i: nat)
    requires Ordered(list)
    ensures Ordered(AddReplicas(hash, list, name, node, replicas, i))
    decreases replicas - i
  {
    if i < replicas {
      InsertOrdered(list, hash(VirtualName(name, i)), node);
      ReplicasOrdered(hash, RingInsert(list, hash(VirtualName(name, i)), node), name, node, replicas, i + 1);
    }
  }

  lemma {:induction false} WithoutOrdered<A>(list: seq<Vnode<A>>, hashes: seq<string>)
    requires Ordered(list)
    ensures Ordered(Without(list, hashes))
  {
    if list != [] {
      var rest := Without(list[1..], hashes);
      OrderedTail(list);
      WithoutOrdered(list[1..], hashes);
      WithoutIs(list[1..], hashes);
      if list[0].hash !in hashes {
        assert rest != [] ==> rest[0] in Elements(rest);
        OrderedCons(list[0], rest);
      }
    }
  }

  lemma SortedTail<A>(list: seq<Vnode<A>>)
    requires list != [] && Sorted(list)
    ensures Sorted(list[1..]) && forall v :: v in list[1..] ==> Less(list[0].hash, v.hash)
  {
  }

  lemma SortedCons<A>(v: Vnode<A>, rest: seq<Vnode<A>>)
    requires Sorted(rest)
    requires rest != [] ==> Less(v.hash, rest[0].hash)
    ensures Sorted([v] + rest)
  {
    forall j | 0 <= j < |rest| ensures Less(v.hash, rest[j].hash) {
      if j > 0 { LessTrans(v.hash, rest[0].hash, rest[j].hash); }
    }
  }

  lemma {:induction false} WithoutIs<A>(list: seq<Vnode<A>>, hashes: seq<string>)
    ensures Elements(Without(list, hashes)) == set v | v in list && v.hash !in hashes
    ensures Sorted(list) ==> Sorted(Without(list, hashes))
  {
    if list != [] {
      var rest := Without(list[1..], hashes);
      WithoutIs(list[1..], hashes);
      assert list == [list[0]] + list[1..];
      ElementsCons(list[0], rest);
      assert forall v :: v in list <==> v == list[0] || v in list[1..];
      if Sorted(list) && list[0].hash !in hashes {
        SortedTail(list);
        assert rest != [] ==> rest[0] in Elements(rest);
        SortedCons(list[0], rest);
      }
    }
  }

  lemma {:induction false} HashesIs(hash: string -> string, name: string, i: nat, replicas: int, h: string)
    ensures h in Hashes(hash, name, i, replicas) <==> exists k: nat :: i <= k < replicas && h == hash(VirtualName(name, k))
    decreases replicas - i
  {
    if i < replicas { HashesIs(hash, name, i + 1, replicas, h); }
  }

  lemma {:induction false} ReplicasIs<A>(hash: string -> string, list: seq<Vnode<A>>, name: string, node: A,
                                         replicas: int, i: nat)
    requires NoClash(hash, {name}, replicas) && Sorted(list)
    requires forall k: nat, v :: i <= k < replicas && v in list ==> v.hash != hash(VirtualName(name, k))
    ensures var r := AddReplicas(hash, list, name, node, replicas, i);
            Sorted(r) && Elements(r) == Elements(list) + Own(hash, name, node, i, replicas)
    decreases replicas - i
  {
    if i < replicas {
      var h := hash(VirtualName(name, i));
      var next := RingInsert(list, h, node);
      InsertElements(list, h, node);
      InsertSorted(list, h, node);
      forall k: nat, v | i + 1 <= k < replicas && v in next ensures v.hash != hash(VirtualName(name, k)) {
        assert v in Elements(next);
        if VirtualName(name, k) == VirtualName(name, i) { VirtualNameUnique(name, k, name, i); }
      }
      ReplicasIs(hash, next, name, node, replicas, i + 1);
      assert Own(hash, name, node, i, replicas) == {Vnode(h, node)} + Own(hash, name, node, i + 1, replicas);
    }
  }

  lemma ForeignHash<A>(hash: string -> string, names: map<string, A>, replicas: int, name: string, k: nat, v: Vnode<A>)
    requires name !in names && NoClash(hash, names.Keys + {name}, replicas)
    requires v in Expected(hash, names, replicas) && k < replicas
    ensures v.hash != hash(VirtualName(name, k))
  {
    var n, j: int :| n in names && 0 <= j < replicas && v == Vnode(hash(VirtualName(n, j)), names[n]);
    if v.hash == hash(VirtualName(name, k)) {
      assert n in names.Keys + {name} && name in names.Keys + {name};
      VirtualNameUnique(n, j, name, k);
    }
  }

  lemma ExpectedAdd<A>(hash: string -> string, names: map<string, A>, replicas: int, name: string, node: A)
    requires name !in names
    ensures Expected(hash, names[name := node], replicas)
         == Expected(hash, names, replicas) + Own(hash, name, node, 0, replicas)
  {
    var more := names[name := node];
    forall v | v in Expected(hash, names, replicas) ensures v in Expected(hash, more, replicas) {
      var n, j: int :| n in names && 0 <= j < replicas && v == Vnode(hash(VirtualName(n, j)), names[n]);
      assert n in more && more[n] == names[n];
    }
    forall v | v in Own(hash, name, node, 0, replicas) ensures v in Expected(hash, more, replicas) {
      var j: int :| 0 <= j < replicas && v == Vnode(hash(VirtualName(name, j)), node);
      assert name in more && more[name] == node;
    }
  }

  /** Registering a new name puts exactly its virtual nodes on the ring. */
  lemma AddSettles<A>(hash: string -> string, ring: Ring<A>, name: string, node: A)
    requires Settled(hash, ring) && name !in ring.names && NoClash(hash, ring.names.Keys + {name}, ring.replicas)
    ensures Settled(hash, Add(hash, ring, name, node))
  {
    forall k: nat, v | k < ring.replicas && v in ring.list ensures v.hash != hash(VirtualName(name, k)) {
      assert v in Elements(ring.list);
      ForeignHash(hash, ring.names, ring.replicas, name, k, v);
    }
    ReplicasIs(hash, ring.list, name, node, ring.replicas, 0);
    ExpectedAdd(hash, ring.names, ring.replicas, name, node);
  }

  lemma ExpectedRemove<A>(hash: string -> string, names: map<string, A>, replicas: int, name: string)
    requires NoClash(hash, names.Keys + {name}, replicas)
    ensures Expected(hash, names - {name}, replicas)
         == set v | v in Expected(hash, names, replicas) && v.hash !in Hashes(hash, name, 0, replicas)
  {
    var hashes, less := Hashes(hash, name, 0, replicas), names - {name};
    forall v | v in Expected(hash, less, replicas)
      ensures v in Expected(hash, names, replicas) && v.hash !in hashes
    {
      var n, j: int :| n in less && 0 <= j < replicas && v == Vnode(hash(VirtualName(n, j)), less[n]);
      assert n in names && names[n] == less[n];
      HashesIs(hash, name, 0, replicas, v.hash);
      if v.hash in hashes {
        var k: nat :| k < replicas && v.hash == hash(VirtualName(name, k));
        assert NoClash(hash, less.Keys + {name}, replicas);
        ForeignHash(hash, less, replicas, name, k, v);
      }
    }
    forall v | v in Expected(hash, names, replicas) && v.hash !in hashes
      ensures v in Expected(hash, less, replicas)
    {
      var n, j: int :| n in names && 0 <= j < replicas && v == Vnode(hash(VirtualName(n, j)), names[n]);
      HashesIs(hash, name, 0, replicas, v.hash);
      assert n in less && less[n] == names[n];
    }
  }

  /** Removing a name takes exactly its virtual nodes off the ring. */
  lemma RemoveSettles<A>(hash: string -> string, ring: Ring<A>, name: string)
    requires Settled(hash, ring) && NoClash(hash, ring.names.Keys + {name}, ring.replicas)
    ensures Settled(hash, Remove(hash, ring, name))
  {
    WithoutIs(ring.list, Hashes(hash, name, 0, ring.replicas));
    ExpectedRemove(hash, ring.names, ring.replicas, name);
  }

  lemma ElementsEmpty<A>(list: seq<Vnode<A>>)
    ensures Elements(list) == {} <==> list == []
  {
    if list != [] { assert list[0] in Elements(list); }
  }

  lemma {:induction false} SortedUnique<A>(a: seq<Vnode<A>>, b: seq<Vnode<A>>)
    requires Sorted(a) && Sorted(b) && Elements(a) == Elements(b)
    ensures a == b
    decreases |a|
  {
    ElementsEmpty(a);
    ElementsEmpty(b);
    if a != [] {
      SameHead(a, b);
      SortedTail(a);
      SortedTail(b);
      ElementsCons(a[0], a[1..]);
      ElementsCons(b[0], b[1..]);
      assert a == [a[0]] + a[1..] && b == [b[0]] + b[1..];
      LessTotal(a[0].hash, a[0].hash);
      assert Elements(a[1..]) == Elements(a) - {a[0]};
      assert Elements(b[1..]) == Elements(b) - {a[0]};
      SortedUnique(a[1..], b[1..]);
    }
  }

  lemma SameHead<A>(a: seq<Vnode<A>>, b: seq<Vnode<A>>)
    requires a != [] && b != [] && Sorted(a) && Sorted(b) && Elements(a) == Elements(b)
    ensures a[0] == b[0]
  {
    assert a[0] in Elements(b) && b[0] in Elements(a);
    LessTotal(a[0].hash, b[0].hash);
  }

  /** The ring is a function of the registered names. */
  lemma SettledUnique<A>(hash: string -> string, a: Ring<A>, b: Ring<A>)
    requires Settled(hash, a) && Settled(hash, b) && a.names == b.names && a.replicas == b.replicas
    ensures a == b
  {
    SortedUnique(a.list, b.list);
  }

  /** Removing a name just added restores the ring. */
  lemma RemoveUndoesAdd<A>(hash: string -> string, ring: Ring<A>, name: string, node: A)
    requires Settled(hash, ring) && name !in ring.names && NoClash(hash, ring.names.Keys + {name}, ring.replicas)
    ensures Remove(hash, Add(hash, ring, name, node), name) == ring
  {
    var added := Add(hash, ring, name, node);
    AddSettles(hash, ring, name, node);
    assert added.names.Keys + {name} == ring.names.Keys + {name};
    RemoveSettles(hash, added, name);
    assert added.names - {name} == ring.names;
    SettledUnique(hash, Remove(hash, added, name), ring);
  }

  // ---------------------------------------------------------------- lookups

  /** What the search answers on a sorted ring: the least virtual node at or after the
      target, and the greatest of all when there is none. */
  lemma {:induction false} SuccessorIs<A>(list: seq<Vnode<A>>, t: string)
    requires Sorted(list)
    ensures Successor(list, t).None? <==> list == []
    ensures list != [] ==>
              var v := Successor(list, t).value;
              v in list &&
              if exists w :: w in list && !Less(w.hash, t)
              then !Less(v.hash, t) && forall w :: w in list && !Less(w.hash, t) ==> w == v || Less(v.hash, w.hash)
              else forall w :: w in list ==> w == v || Less(w.hash, v.hash)
  {
    if list != [] {
      SortedTail(list);
      SuccessorIs(list[1..], t);
      assert forall v :: v in list <==> v == list[0] || v in list[1..];
    }
  }

  predicate Reaches<A>(list: seq<Vnode<A>>, t: string) {
    exists i :: 0 <= i < |list| && !Less(list[i].hash, t)
  }

  /** What the source's comments promise: the first virtual node at or after the target,
      and the first of the ring when there is none. */
  function Documented<A>(list: seq<Vnode<A>>, t: string): Option<Vnode<A>> {
    if list == [] then None else Some(FirstFrom(list, t, list[0]))
  }

  function FirstFrom<A>(list: seq<Vnode<A>>, t: string, wrap: Vnode<A>): Vnode<A> {
    if list == [] then wrap else if !Less(list[0].hash, t) then list[0] else FirstFrom(list[1..], t, wrap)
  }

  lemma {:induction false} FirstFromIs<A>(list: seq<Vnode<A>>, t: string, wrap: Vnode<A>)
    requires list != []
    ensures if Reaches(list, t) then Successor(list, t) == Some(FirstFrom(list, t, wrap))
            else FirstFrom(list, t, wrap) == wrap && Successor(list, t) == Some(list[|list| - 1])
  {
    var rest := list[1..];
    if Less(list[0].hash, t) {
      assert Reaches(list, t) <==> Reaches(rest, t) by {
        if Reaches(rest, t) {
          var i :| 0 <= i < |rest| && !Less(rest[i].hash, t);
          assert list[i + 1] == rest[i];
        }
        if Reaches(list, t) {
          var i :| 0 <= i < |list| && !Less(list[i].hash, t);
          assert rest[i - 1] == list[i];
        }
      }
      if rest != [] { FirstFromIs(rest, t, wrap); }
    }
  }

  /** The search keeps its documented promise exactly when some virtual node reaches the
      target or there is at most one: it wraps to the last virtual node, not the first. */
  lemma DocumentedIff<A>(list: seq<Vnode<A>>, t: string)
    requires Sorted(list)
    ensures Successor(list, t) == Documented(list, t) <==> Reaches(list, t) || |list| <= 1
  {
    if list != [] {
      FirstFromIs(list, t, list[0]);
      LessTotal(list[0].hash, list[0].hash);
    }
  }

  function DocumentedGet<A>(hash: string -> string, ring: Ring<A>, key: string): Option<A> {
    match Documented(ring.list, hash(key))
    case Some(v) => Some(v.node)
    case None => None
  }

  /** So a lookup answers the documented node exactly when some virtual node reaches the
      key's hash, or the first and the last virtual node belong to equal nodes. */
  lemma DocumentedGetIff<A>(hash: string -> string, ring: Ring<A>, key: string)
    ensures Get(hash, ring, key) == DocumentedGet(hash, ring, key) <==>
              ring.list == [] || Reaches(ring.list, hash(key)) || ring.list[0].node == ring.list[|ring.list| - 1].node
  {
    if ring.list != [] { FirstFromIs(ring.list, hash(key), ring.list[0]); }
  }

  /** A hash that tells everything apart. */
  function Plain(s: string): string {
    s
  }

  /** Two nodes and a key past both: the code answers the second node, the documentation
      the first. */
  lemma WrapsToLast()
    ensures var ring := Add(Plain, Add(Plain, New(1), "a", 1), "b", 2);
            Get(Plain, ring, "c") == Some(2) && DocumentedGet(Plain, ring, "c") == Some(1)
  {
    assert IntToString(0) == Decimal(0) == "0";
    assert VirtualName("a", 0) == "a#0" && VirtualName("b", 0) == "b#0";
    var x, y := Vnode("a#0", 1), Vnode("b#0", 2);
    assert RingInsert([], "a#0", 1) == [x];
    assert AddReplicas(Plain, [x], "a", 1, 1, 1) == [x];
    var one := Add(Plain, New(1), "a", 1);
    assert one.list == [x];
    assert !Less("b#0", "a#0") && [x][1..] == [];
    assert RingInsert([x], "b#0", 2) == [x, y];
    assert AddReplicas(Plain, [x, y], "b", 2, 1, 1) == [x, y];
    var ring := Add(Plain, one, "b", 2);
    assert ring.list == [x, y];
    assert Less("a#0", "c") && Less("b#0", "c");
    assert !Reaches(ring.list, "c");
    FirstFromIs(ring.list, "c", x);
    assert Plain("c") == "c";
  }

  /** A lookup fails only on a ring with no virtual nodes, and otherwise answers a
      registered node. */
  lemma GetIs<A>(hash: string -> string, ring: Ring<A>, key: string)
    requires Settled(hash, ring)
    ensures Get(hash, ring, key).None? <==> ring.replicas <= 0 || ring.names == map[]
    ensures Get(hash, ring, key).Some? ==> exists n :: n in ring.names && Get(hash, ring, key) == Some(ring.names[n])
  {
    SuccessorIs(ring.list, hash(key));
    if ring.list != [] {
      var v := Successor(ring.list, hash(key)).value;
      assert v in Elements(ring.list);
    }
    if ring.replicas > 0 && ring.names != map[] {
      var n :| n in ring.names;
      assert Vnode(hash(VirtualName(n, 0)), ring.names[n]) in Expected(hash, ring.names, ring.replicas);
      assert Vnode(hash(VirtualName(n, 0)), ring.names[n]) in Elements(ring.list);
    }
  }

  /** Removing a name changes no key held by another name's virtual node. */
  lemma RemoveDisruption<A>(hash: string -> string, ring: Ring<A>, name: string, key: string, n: string, k: nat)
    requires NoClash(hash, {n, name}, ring.replicas) && k < ring.replicas && n != name
    requires Successor(ring.list, hash(key)).Some?
    requires Successor(ring.list, hash(key)).value.hash == hash(VirtualName(n, k))
    ensures Get(hash, Remove(hash, ring, name), key) == Get(hash, ring, key)
  {
    var h := hash(VirtualName(n, k));
    HashesIs(hash, name, 0, ring.replicas, h);
    if h in Hashes(hash, name, 0, ring.replicas) {
      var j: nat :| j < ring.replicas && h == hash(VirtualName(name, j));
      VirtualNameUnique(n, k, name, j);
    }
    WithoutKeeps(ring.list, Hashes(hash, name, 0, ring.replicas), hash(key));
  }

  // ---------------------------------------------------------------- every run

  datatype Change<A> = Join(name: string, node: A) | Leave(name: string)

  function Apply<A>(hash: string -> string, ring: Ring<A>, c: Change<A>): Ring<A> {
    match c
    case Join(name, node) => Add(hash, ring, name, node)
    case Leave(name) => Remove(hash, ring, name)
  }

  function Run<A>(hash: string -> string, ring: Ring<A>, cs: seq<Change<A>>): Ring<A>
    decreases |cs|
  {
    if cs == [] then ring else Run(hash, Apply(hash, ring, cs[0]), cs[1..])
  }

  /** Every run leaves the ring in hash order, names added again included. */
  lemma {:induction false} RunOrdered<A>(hash: string -> string, ring: Ring<A>, cs: seq<Change<A>>)
    requires Ordered(ring.list)
    ensures Ordered(Run(hash, ring, cs).list)
    decreases |cs|
  {
    if cs != [] {
      match cs[0] {
        case Join(name, node) => ReplicasOrdered(hash, ring.list, name, node, ring.replicas, 0);
        case Leave(name) => WithoutOrdered(ring.list, Hashes(hash, name, 0, ring.replicas));
      }
      RunOrdered(hash, Apply(hash, ring, cs[0]), cs[1..]);
    }
  }

  /** Every name joins only while it is not registered. */
  predicate FreshJoins<A>(names: map<string, A>, cs: seq<Change<A>>)
    decreases |cs|
  {
    if cs == [] then true
    else
      match cs[0]
      case Join(name, node) => name !in names && FreshJoins(names[name := node], cs[1..])
      case Leave(name) => FreshJoins(names - {name}, cs[1..])
  }

  lemma NoClashSubset(hash: string -> string, all: set<string>, some: set<string>, replicas: int)
    requires NoClash(hash, all, replicas) && some <= all
    ensures NoClash(hash, some, replicas)
  {
  }

  lemma {:induction false} RunSettles<A>(hash: string -> string, ring: Ring<A>, cs: seq<Change<A>>, all: set<string>)
    requires Settled(hash, ring) && FreshJoins(ring.names, cs) && NoClash(hash, all, ring.replicas)
    requires ring.names.Keys <= all && forall c :: c in cs ==> c.name in all
    ensures Settled(hash, Run(hash, ring, cs)) && Run(hash, ring, cs).replicas == ring.replicas
    decreases |cs|
  {
    if cs != [] {
      var c := cs[0];
      NoClashSubset(hash, all, ring.names.Keys + {c.name}, ring.replicas);
      if c.Join? { AddSettles(hash, ring, c.name, c.node); } else { RemoveSettles(hash, ring, c.name); }
      RunSettles(hash, Apply(hash, ring, c), cs[1..], all);
    }
  }

  /** Two runs of fresh joins and leaves that end with the same names registered end with
      the same ring: the order of joins, and what joined and left, leave no trace. */
  lemma RunsAgree<A>(hash: string -> string, replicas: int, cs: seq<Change<A>>, ds: seq<Change<A>>, all: set<string>)
    requires NoClash(hash, all, replicas)
    requires FreshJoins(map[], cs) && FreshJoins(map[], ds)
    requires forall c :: c in cs || c in ds ==> c.name in all
    requires Run(hash, New(replicas), cs).names == Run(hash, New(replicas), ds).names
    ensures Run(hash, New(replicas), cs) == Run(hash, New(replicas), ds)
  {
    var start: Ring<A> := New(replicas);
    assert Elements(start.list) == Expected(hash, start.names, replicas);
    RunSettles(hash, start, cs, all);
    RunSettles(hash, start, ds, all);
    SettledUnique(hash, Run(hash, start, cs), Run(hash, start, ds));
  }
}
