/** The grow-only and the up-down counter (assets/stdlib/crdt.js). The library's map is a
    Dafny map; its fold visits keys in an order of its own, so `value` is shown not to
    depend on one. */
module Crdt {

  datatype GCounter = GCounter(slots: map<string, int>)

  datatype PNCounter = PNCounter(p: map<string, int>, n: map<string, int>)

  // ---------------------------------------------------------------- the source's functions

  function GetOr(m: map<string, int>, key: string, default: int): int {
    if key in m then m[key] else default
  }

  function Bump(m: map<string, int>, actor: string, n: int): map<string, int> {
    m[actor := GetOr(m, actor, 0) + n]
  }

  function Max(a: int, b: int): int {
    if a >= b then a else b
  }

  function MergeWith(a: map<string, int>, b: map<string, int>): map<string, int> {
    map k | k in a.Keys + b.Keys :: if k in a && k in b then Max(a[k], b[k]) else if k in a then a[k] else b[k]
  }

  /** The map's fold with `+`, visiting the keys in the order given. */
  function Fold(m: map<string, int>, keys: seq<string>, acc: int): int
    requires forall k :: k in keys ==> k in m
    decreases |keys|
  {
    if keys == [] then acc else Fold(m, keys[1..], acc + m[keys[0]])
  }

  function New(): GCounter {
    GCounter(map[])
  }

  function Add(c: GCounter, actor: string, n: int): GCounter {
    GCounter(Bump(c.slots, actor, n))
  }

  function Increment(c: GCounter, actor: string): GCounter {
    Add(c, actor, 1)
  }

  function Merge(a: GCounter, b: GCounter): GCounter {
    GCounter(MergeWith(a.slots, b.slots))
  }

  predicate Equal(a: GCounter, b: GCounter) {
    forall k :: k in a.slots.Keys + (b.slots.Keys - a.slots.Keys) ==> GetOr(a.slots, k, 0) == GetOr(b.slots, k, 0)
  }

  function PNNew(): PNCounter {
    PNCounter(map[], map[])
  }

  function PNIncrement(c: PNCounter, actor: string): PNCounter {
    c.(p := Bump(c.p, actor, 1))
  }

  function PNDecrement(c: PNCounter, actor: string): PNCounter {
    c.(n := Bump(c.n, actor, 1))
  }

  function PNMerge(a: PNCounter, b: PNCounter): PNCounter {
    PNCounter(MergeWith(a.p, b.p), MergeWith(a.n, b.n))
  }

  // ---------------------------------------------------------------- values

  ghost function Sum(m: map<string, int>): int
    decreases |m|
  {
    if m == map[] then 0
    else
      var k :| k in m;
      m[k] + Sum(m - {k})
  }

  lemma {:induction false} SumSplit(m: map<string, int>, k: string)
    requires k in m
    ensures Sum(m) == m[k] + Sum(m - {k})
    decreases |m|
  {
    var j :| j in m && Sum(m) == m[j] + Sum(m - {j});
    if j != k {
      SumSplit(m - {j}, k);
      SumSplit(m - {k}, j);
      assert m - {j} - {k} == m - {k} - {j};
    }
  }

  ghost predicate Enumerates(keys: seq<string>, m: map<string, int>) {
    (forall i, j :: 0 <= i < j < |keys| ==> keys[i] != keys[j]) && forall k :: k in keys <==> k in m
  }

  /** Whatever order the fold visits the keys in, it gives the sum. */
  lemma {:induction false} FoldIsSum(m: map<string, int>, keys: seq<string>, acc: int)
    requires Enumerates(keys, m)
    ensures Fold(m, keys, acc) == acc + Sum(m)
    decreases |keys|
  {
    if keys == [] {
      assert m == map[];
    } else {
      var rest := m - {keys[0]};
      SumSplit(m, keys[0]);
      FoldAgrees(m, rest, keys[1..], acc + m[keys[0]]);
      FoldIsSum(rest, keys[1..], acc + m[keys[0]]);
    }
  }

  lemma {:induction false} FoldAgrees(m: map<string, int>, r: map<string, int>, keys: seq<string>, acc: int)
    requires forall k :: k in keys ==> k in m && k in r && m[k] == r[k]
    ensures Fold(m, keys, acc) == Fold(r, keys, acc)
    decreases |keys|
  {
    if keys != [] { FoldAgrees(m, r, keys[1..], acc + m[keys[0]]); }
  }

  ghost function Value(c: GCounter): int {
    Sum(c.slots)
  }

  ghost function PNValue(c: PNCounter): int {
    Sum(c.p) - Sum(c.n)
  }

  // ---------------------------------------------------------------- the join

  /** `a` was seen by `b`: every slot of `a` is in `b` and no larger. */
  ghost predicate Below(a: map<string, int>, b: map<string, int>) {
    forall k :: k in a ==> k in b && a[k] <= b[k]
  }

  ghost predicate NonNegative(m: map<string, int>) {
    forall k :: k in m ==> m[k] >= 0
  }

  /** Merge is the least upper bound of what two counters have seen. */
  lemma MergeIsJoin(a: map<string, int>, b: map<string, int>, c: map<string, int>)
    ensures Below(a, MergeWith(a, b)) && Below(b, MergeWith(a, b))
    ensures Below(a, c) && Below(b, c) ==> Below(MergeWith(a, b), c)
    ensures Below(a, b) <==> MergeWith(a, b) == b
  {
    if Below(a, b) { assert MergeWith(a, b).Keys == b.Keys; }
  }

  /** Merge is commutative, associative and idempotent, with no exception for negative
      slots, and map for map, not only slot by slot. */
  lemma MergeLaws(a: map<string, int>, b: map<string, int>, c: map<string, int>)
    ensures MergeWith(a, b) == MergeWith(b, a)
    ensures MergeWith(MergeWith(a, b), c) == MergeWith(a, MergeWith(b, c))
    ensures MergeWith(a, a) == a
  {
    MergeAssociative(a, b, c);
  }

  lemma MergeAssociative(a: map<string, int>, b: map<string, int>, c: map<string, int>)
    ensures MergeWith(MergeWith(a, b), c) == MergeWith(a, MergeWith(b, c))
  {
    var l, r := MergeWith(MergeWith(a, b), c), MergeWith(a, MergeWith(b, c));
    assert l.Keys == r.Keys;
    forall k | k in l ensures l[k] == r[k] {
      assert k in MergeWith(a, b) <==> k in a || k in b;
    }
  }

  /** `equal` is slot equality, an absent slot counting as zero, and equal counters have
      equal values. */
  lemma EqualIs(a: GCounter, b: GCounter)
    ensures Equal(a, b) <==> forall k :: GetOr(a.slots, k, 0) == GetOr(b.slots, k, 0)
    ensures Equal(a, b) ==> Value(a) == Value(b)
  {
    if Equal(a, b) {
      forall k ensures GetOr(a.slots, k, 0) == GetOr(b.slots, k, 0) {
        if k in a.slots || k in b.slots {
          assert k in a.slots.Keys + (b.slots.Keys - a.slots.Keys);
        }
      }
      SumBySlot(a.slots, b.slots);
    }
  }

  lemma MergedSlot(a: map<string, int>, b: map<string, int>, k: string)
    requires NonNegative(a) && NonNegative(b)
    ensures GetOr(MergeWith(a, b), k, 0) == Max(GetOr(a, k, 0), GetOr(b, k, 0))
  {
  }

  /** Merging cannot tell equal counters apart while no slot is negative. */
  lemma MergeRespectsEqual(a: GCounter, b: GCounter, c: GCounter)
    requires Equal(a, b) && NonNegative(a.slots) && NonNegative(b.slots) && NonNegative(c.slots)
    ensures Equal(Merge(a, c), Merge(b, c))
  {
    EqualIs(a, b);
    forall k ensures GetOr(Merge(a, c).slots, k, 0) == GetOr(Merge(b, c).slots, k, 0) {
      MergedSlot(a.slots, c.slots, k);
      MergedSlot(b.slots, c.slots, k);
    }
  }

  lemma {:induction false} SumBySlot(a: map<string, int>, b: map<string, int>)
    requires forall k :: GetOr(a, k, 0) == GetOr(b, k, 0)
    ensures Sum(a) == Sum(b)
    decreases |a| + |b|
  {
    if k :| k in a {
      SumSplit(a, k);
      DropKey(b, k);
      forall j ensures GetOr(a - {k}, j, 0) == GetOr(b - {k}, j, 0) {
        assert GetOr(a, j, 0) == GetOr(b, j, 0);
      }
      SumBySlot(a - {k}, b - {k});
      assert GetOr(a, k, 0) == GetOr(b, k, 0);
    } else if k :| k in b {
      SumSplit(b, k);
      assert GetOr(a, k, 0) == GetOr(b, k, 0);
      forall j ensures GetOr(a, j, 0) == GetOr(b - {k}, j, 0) {
        assert GetOr(a, j, 0) == GetOr(b, j, 0);
      }
      SumBySlot(a, b - {k});
    } else {
      assert a == map[] && b == map[];
    }
  }

  lemma DropKey(m: map<string, int>, k: string)
    ensures Sum(m) == GetOr(m, k, 0) + Sum(m - {k})
  {
    if k in m { SumSplit(m, k); } else { assert m - {k} == m; }
  }

  /** More seen, no smaller a value. */
  lemma {:induction false} SumMono(a: map<string, int>, b: map<string, int>)
    requires Below(a, b) && NonNegative(b)
    ensures Sum(a) <= Sum(b)
    decreases |b|
  {
    if k :| k in b {
      SumSplit(b, k);
      DropKey(a, k);
      SumMono(a - {k}, b - {k});
    } else {
      assert a == map[] && b == map[];
    }
  }

  lemma BumpSum(m: map<string, int>, actor: string, n: int)
    ensures Sum(Bump(m, actor, n)) == Sum(m) + n
  {
    SumSplit(Bump(m, actor, n), actor);
    DropKey(m, actor);
    assert Bump(m, actor, n) - {actor} == m - {actor};
  }

  // ---------------------------------------------------------------- runs of replicas

  /** What a replica does: add to its own slot, or increment it, send a copy out, or merge
      any copy ever sent, however old. */
  datatype Event = Count(actor: string, n: nat) | Incr(actor: string) | Send(actor: string)
    | Receive(actor: string, copy: nat)

  /** The replicas, every copy sent so far, and how much each actor has counted. */
  datatype World = World(now: map<string, GCounter>, sent: seq<GCounter>, made: map<string, int>)

  function Start(actors: set<string>): World {
    World(map a | a in actors :: New(), [], map a | a in actors :: 0)
  }

  function Step(w: World, e: Event): World {
    if e.actor !in w.now then w
    else
      match e
      case Count(a, n) => w.(now := w.now[a := Add(w.now[a], a, n)], made := Bump(w.made, a, n))
      case Incr(a) => w.(now := w.now[a := Increment(w.now[a], a)], made := Bump(w.made, a, 1))
      case Send(a) => w.(sent := w.sent + [w.now[a]])
      case Receive(a, i) => if i < |w.sent| then w.(now := w.now[a := Merge(w.now[a], w.sent[i])]) else w
  }

  function Run(w: World, es: seq<Event>): World
    decreases |es|
  {
    if es == [] then w else Run(Step(w, es[0]), es[1..])
  }

  function Counts(e: Event): nat {
    match e
    case Count(_, n) => n
    case Incr(_) => 1
    case _ => 0
  }

  /** What the run adds up to, event by event. */
  function Counted(actors: set<string>, es: seq<Event>): int
    decreases |es|
  {
    if es == [] then 0
    else (if es[0].actor in actors then Counts(es[0]) else 0) + Counted(actors, es[1..])
  }

  /** Every copy is bounded by what its actors have really counted, and each replica knows
      its own count. */
  ghost predicate Inv(w: World) {
    && w.now.Keys == w.made.Keys
    && NonNegative(w.made)
    && (forall a :: a in w.now ==> Within(w.now[a], w.made) && GetOr(w.now[a].slots, a, 0) == w.made[a])
    && (forall c :: c in w.sent ==> Within(c, w.made))
  }

  ghost predicate Within(c: GCounter, made: map<string, int>) {
    NonNegative(c.slots) && Below(c.slots, made)
  }

  lemma WithinBump(c: GCounter, made: map<string, int>, a: string, n: nat)
    requires Within(c, made) && a in made && GetOr(c.slots, a, 0) == made[a] >= 0
    ensures Within(Add(c, a, n), Bump(made, a, n)) && Below(c.slots, Add(c, a, n).slots)
  {
  }

  lemma WithinMerge(c: GCounter, d: GCounter, made: map<string, int>)
    requires Within(c, made) && Within(d, made)
    ensures Within(Merge(c, d), made) && Below(c.slots, Merge(c, d).slots)
  {
  }

  lemma WithinMore(c: GCounter, made: map<string, int>, more: map<string, int>)
    requires Within(c, made) && Below(made, more)
    ensures Within(c, more)
  {
  }

  lemma CountKeeps(w: World, a: string, n: nat)
    requires Inv(w) && a in w.now
    ensures Inv(Step(w, Count(a, n))) && Below(w.made, Step(w, Count(a, n)).made)
  {
    var next := Step(w, Count(a, n));
    WithinBump(w.now[a], w.made, a, n);
    assert Below(w.made, next.made);
    forall b | b in next.now ensures Within(next.now[b], next.made) && GetOr(next.now[b].slots, b, 0) == next.made[b] {
      if b != a { WithinMore(w.now[b], w.made, next.made); }
    }
    forall c | c in next.sent ensures Within(c, next.made) {
      WithinMore(c, w.made, next.made);
    }
  }

  lemma ReceiveKeeps(w: World, a: string, i: nat)
    requires Inv(w) && a in w.now && i < |w.sent|
    ensures Inv(Step(w, Receive(a, i)))
  {
    var next := Step(w, Receive(a, i));
    WithinMerge(w.now[a], w.sent[i], w.made);
    MergedSlot(w.now[a].slots, w.sent[i].slots, a);
    assert GetOr(w.sent[i].slots, a, 0) <= w.made[a];
    assert next.now.Keys == w.now.Keys;
  }

  lemma StepKeeps(w: World, e: Event)
    requires Inv(w)
    ensures Inv(Step(w, e)) && Below(w.made, Step(w, e).made)
  {
    if e.actor in w.now {
      match e
      case Count(a, n) => CountKeeps(w, a, n);
      case Incr(a) =>
        assert Step(w, e) == Step(w, Count(a, 1));
        CountKeeps(w, a, 1);
      case Send(a) =>
      case Receive(a, i) => if i < |w.sent| { ReceiveKeeps(w, a, i); }
    }
  }

  lemma StepGrows(w: World, e: Event, a: string)
    requires Inv(w) && a in w.now
    ensures Step(w, e).now.Keys == w.now.Keys && Below(w.now[a].slots, Step(w, e).now[a].slots)
  {
    if e.actor == a {
      if e.Count? || e.Incr? { WithinBump(w.now[a], w.made, a, Counts(e)); }
      if e.Receive? && e.copy < |w.sent| { WithinMerge(w.now[a], w.sent[e.copy], w.made); }
    }
  }

  lemma StepCounts(w: World, e: Event)
    ensures Step(w, e).now.Keys == w.now.Keys
    ensures Sum(Step(w, e).made) == Sum(w.made) + if e.actor in w.now then Counts(e) else 0
  {
    hide Sum;
    if e.Count? || e.Incr? { BumpSum(w.made, e.actor, Counts(e)); }
  }

  /** The bound, over every run: no replica and no copy holds more for an actor than that
      actor has counted, its own replica holds exactly that, and the counts add up to the
      run's increments. */
  lemma {:induction false} RunKeeps(w: World, es: seq<Event>)
    requires Inv(w)
    ensures Inv(Run(w, es)) && Run(w, es).now.Keys == w.now.Keys
    ensures Sum(Run(w, es).made) == Sum(w.made) + Counted(w.now.Keys, es)
    decreases |es|
  {
    if es != [] {
      hide Inv, Step, Sum, Counts;
      StepKeeps(w, es[0]);
      StepCounts(w, es[0]);
      RunKeeps(Step(w, es[0]), es[1..]);
    }
  }

  /** Nothing a replica has seen is ever lost. */
  lemma {:induction false} RunGrows(w: World, es: seq<Event>, a: string)
    requires Inv(w) && a in w.now
    ensures a in Run(w, es).now && Below(w.now[a].slots, Run(w, es).now[a].slots)
    decreases |es|
  {
    if es != [] {
      StepKeeps(w, es[0]);
      StepGrows(w, es[0], a);
      RunGrows(Step(w, es[0]), es[1..], a);
    }
  }

  lemma OwnerKnowsBest(w: World, a: string, b: string)
    requires Inv(w) && a in w.now && b in w.now
    ensures GetOr(w.now[a].slots, b, 0) <= GetOr(w.now[b].slots, b, 0)
  {
  }

  /** A replica's value never decreases. */
  lemma ValueNeverDecreases(w: World, es: seq<Event>, a: string)
    requires Inv(w) && a in w.now
    ensures a in Run(w, es).now && Value(w.now[a]) <= Value(Run(w, es).now[a])
  {
    RunKeeps(w, es);
    RunGrows(w, es, a);
    SumMono(w.now[a].slots, Run(w, es).now[a].slots);
  }

  function MergeAll(w: World, order: seq<string>, acc: GCounter): GCounter
    decreases |order|
  {
    if order == [] then acc
    else MergeAll(w, order[1..], if order[0] in w.now then Merge(acc, w.now[order[0]]) else acc)
  }

  lemma {:induction false} MergeAllIs(w: World, order: seq<string>, acc: GCounter)
    requires Inv(w) && Within(acc, w.made)
    ensures Within(MergeAll(w, order, acc), w.made)
    ensures forall a :: a in w.now && (a in order || GetOr(acc.slots, a, 0) == w.made[a]) ==>
              GetOr(MergeAll(w, order, acc).slots, a, 0) == w.made[a]
    decreases |order|
  {
    if order != [] {
      MergeAllIs(w, order[1..], if order[0] in w.now then Merge(acc, w.now[order[0]]) else acc);
      assert forall a :: a in order ==> a == order[0] || a in order[1..];
    }
  }

  /** Merging all replicas, in any order and with any repetition, gives exactly the number
      of increments made in the run. */
  lemma MergeAllCounts(actors: set<string>, es: seq<Event>, order: seq<string>)
    requires forall a :: a in actors ==> a in order
    ensures Value(MergeAll(Run(Start(actors), es), order, New())) == Counted(actors, es)
  {
    var w := Run(Start(actors), es);
    var all := MergeAll(w, order, New());
    RunKeeps(Start(actors), es);
    MergeAllIs(w, order, New());
    forall k ensures GetOr(all.slots, k, 0) == GetOr(w.made, k, 0) {
      if k in all.slots { assert k in w.made; }
      if k in w.made { assert k in w.now; }
    }
    SumBySlot(all.slots, w.made);
    ZeroSum(Start(actors).made);
    assert Start(actors).now.Keys == actors;
  }

  lemma ZeroSum(m: map<string, int>)
    requires forall k :: k in m ==> m[k] == 0
    ensures Sum(m) == 0
  {
    SumBySlot(m, map[]);
  }

  // ---------------------------------------------------------------- the up-down counter

  datatype PNEvent = Up(actor: string) | Down(actor: string) | PNSend(actor: string) | PNReceive(actor: string, copy: nat)

  datatype PNWorld = PNWorld(now: map<string, PNCounter>, sent: seq<PNCounter>)

  function PNStart(actors: set<string>): PNWorld {
    PNWorld(map a | a in actors :: PNNew(), [])
  }

  function PNStep(w: PNWorld, e: PNEvent): PNWorld {
    if e.actor !in w.now then w
    else
      match e
      case Up(a) => w.(now := w.now[a := PNIncrement(w.now[a], a)])
      case Down(a) => w.(now := w.now[a := PNDecrement(w.now[a], a)])
      case PNSend(a) => w.(sent := w.sent + [w.now[a]])
      case PNReceive(a, i) => if i < |w.sent| then w.(now := w.now[a := PNMerge(w.now[a], w.sent[i])]) else w
  }

  function PNRun(w: PNWorld, es: seq<PNEvent>): PNWorld
    decreases |es|
  {
    if es == [] then w else PNRun(PNStep(w, es[0]), es[1..])
  }

  function PNMergeAll(w: PNWorld, order: seq<string>, acc: PNCounter): PNCounter
    decreases |order|
  {
    if order == [] then acc
    else PNMergeAll(w, order[1..], if order[0] in w.now then PNMerge(acc, w.now[order[0]]) else acc)
  }

  /** What an event does to the increments, or to the decrements. */
  function HalfEvent(e: PNEvent, ups: bool): seq<Event> {
    match e
    case Up(a) => if ups then [Incr(a)] else []
    case Down(a) => if ups then [] else [Incr(a)]
    case PNSend(a) => [Send(a)]
    case PNReceive(a, i) => [Receive(a, i)]
  }

  function Half(es: seq<PNEvent>, ups: bool): seq<Event>
    decreases |es|
  {
    if es == [] then [] else HalfEvent(es[0], ups) + Half(es[1..], ups)
  }

  function HalfOf(c: PNCounter, ups: bool): GCounter {
    GCounter(if ups then c.p else c.n)
  }

  /** One half of the world is a world of grow-only counters. */
  ghost predicate Mirrors(w: PNWorld, g: World, ups: bool) {
    && w.now.Keys == g.now.Keys && |w.sent| == |g.sent|
    && (forall a :: a in w.now ==> HalfOf(w.now[a], ups) == g.now[a])
    && (forall i :: 0 <= i < |w.sent| ==> HalfOf(w.sent[i], ups) == g.sent[i])
  }

  lemma StepMirrors(w: PNWorld, g: World, e: PNEvent, ups: bool)
    requires Mirrors(w, g, ups)
    ensures var half := HalfEvent(e, ups);
            Mirrors(PNStep(w, e), if half == [] then g else Step(g, half[0]), ups)
  {
    if e.actor in w.now {
      match e
      case Up(a) =>
      case Down(a) =>
      case PNSend(a) =>
      case PNReceive(a, i) =>
    }
  }

  lemma {:induction false} RunMirrors(w: PNWorld, g: World, es: seq<PNEvent>, ups: bool)
    requires Mirrors(w, g, ups)
    ensures Mirrors(PNRun(w, es), Run(g, Half(es, ups)), ups)
    decreases |es|
  {
    if es != [] {
      var half, first := Half(es, ups), HalfEvent(es[0], ups);
      StepMirrors(w, g, es[0], ups);
      RunMirrors(PNStep(w, es[0]), if first == [] then g else Step(g, first[0]), es[1..], ups);
      if first == [] { assert half == Half(es[1..], ups); } else { assert half[1..] == Half(es[1..], ups); }
    }
  }

  lemma {:induction false} MergeAllMirrors(w: PNWorld, g: World, order: seq<string>, acc: PNCounter, ups: bool)
    requires Mirrors(w, g, ups)
    ensures HalfOf(PNMergeAll(w, order, acc), ups) == MergeAll(g, order, HalfOf(acc, ups))
    decreases |order|
  {
    if order != [] {
      var next := if order[0] in w.now then PNMerge(acc, w.now[order[0]]) else acc;
      MergeAllMirrors(w, g, order[1..], next, ups);
    }
  }

  /** Increments minus decrements, event by event. */
  function Net(actors: set<string>, es: seq<PNEvent>): int
    decreases |es|
  {
    if es == [] then 0
    else (if es[0].actor !in actors then 0 else if es[0].Up? then 1 else if es[0].Down? then -1 else 0)
         + Net(actors, es[1..])
  }

  lemma {:induction false} NetIs(actors: set<string>, es: seq<PNEvent>)
    ensures Net(actors, es) == Counted(actors, Half(es, true)) - Counted(actors, Half(es, false))
    decreases |es|
  {
    if es != [] {
      NetIs(actors, es[1..]);
      CountedHalf(actors, es, true);
      CountedHalf(actors, es, false);
    }
  }

  lemma CountedHalf(actors: set<string>, es: seq<PNEvent>, ups: bool)
    requires es != []
    ensures Counted(actors, Half(es, ups))
         == Counted(actors, Half(es[1..], ups))
            + if es[0].actor in actors && (if ups then es[0].Up? else es[0].Down?) then 1 else 0
  {
    var half, rest := Half(es, ups), Half(es[1..], ups);
    if HalfEvent(es[0], ups) == [] { assert half == rest; } else { assert half[1..] == rest; }
  }

  /** Merging all replicas of an up-down counter gives the run's increments minus its
      decrements. */
  lemma PNMergeAllCounts(actors: set<string>, es: seq<PNEvent>, order: seq<string>)
    requires forall a :: a in actors ==> a in order
    ensures PNValue(PNMergeAll(PNRun(PNStart(actors), es), order, PNNew())) == Net(actors, es)
  {
    var w := PNRun(PNStart(actors), es);
    forall ups: bool
      ensures Value(HalfOf(PNMergeAll(w, order, PNNew()), ups)) == Counted(actors, Half(es, ups))
    {
      RunMirrors(PNStart(actors), Start(actors), es, ups);
      MergeAllMirrors(w, Run(Start(actors), Half(es, ups)), order, PNNew(), ups);
      MergeAllCounts(actors, Half(es, ups), order);
    }
    var all := PNMergeAll(w, order, PNNew());
    assert Value(HalfOf(all, true)) == Sum(all.p) && Value(HalfOf(all, false)) == Sum(all.n);
    NetIs(actors, es);
  }
}
