/** The 32-way persistent vector (assets/stdlib/array.js).

    A vector is a trie of full 32-element leaves plus a tail of 1..32 elements. The
    operations are modelled as the source writes them: path-copying walks with an
    explicit stack of frames, bulk construction level by level. `None` stands for a
    `panic`. The reference is `Canon(xs)`, the one vector that holds `xs`; every
    operation is shown to map canonical vectors to canonical vectors. */
module PersistentVector {
  import opened Bits
  import opened Lists
  import opened Options

  datatype TrieNode<T> = TrieEmpty | TrieLeaf(values: seq<T>) | TrieBranch(children: seq<TrieNode<T>>)

  datatype PVec<T> = PVec(size: nat, shift: nat, root: TrieNode<T>, tail: seq<T>)

  type Frame<T> = (seq<TrieNode<T>>, int)

  // ---------------------------------------------------------------- list helpers

  function Nth<A>(xs: seq<A>, n: int): (r: Option<A>)
    ensures r.Some? <==> 0 <= n < |xs|
    ensures r.Some? ==> r.value == xs[n]
  {
    if 0 <= n < |xs| then Some(xs[n]) else None
  }

  /** Replaces element `n`; a list too short for it is returned as it is. */
  function SetNth<A>(xs: seq<A>, n: int, v: A): seq<A> {
    if 0 <= n < |xs| then xs[n := v] else xs
  }

  function Init<A>(xs: seq<A>): seq<A> {
    if xs == [] then [] else xs[..|xs| - 1]
  }

  function Last<A>(xs: seq<A>): Option<A> {
    Nth(xs, |xs| - 1)
  }

  /** No walk of a canonical trie goes below shift 0. */
  function TrieSlot(idx: nat, shift: int): nat {
    if shift < 0 then 0 else And31(Shr(idx, shift))
  }

  /** Leaves sit at shift 0, branches above them, five bits a level, never childless. */
  ghost predicate Shaped<T>(node: TrieNode<T>, shift: nat) {
    match node
    case TrieEmpty => shift == 0
    case TrieLeaf(_) => shift == 0
    case TrieBranch(children) => shift >= 5 && children != [] && forall i :: 0 <= i < |children| ==> Shaped(children[i], shift - 5)
  }

  lemma ShapedShift<T>(node: TrieNode<T>, shift: nat)
    requires Shaped(node, shift)
    ensures shift % 5 == 0
  {
    if node.TrieBranch? {
      ShapedShift(node.children[0], shift - 5);
    }
  }

  // ---------------------------------------------------------------- trie operations

  function TrieGet<T>(node: TrieNode<T>, idx: nat, shift: int): Option<T>
    decreases node
  {
    match node
    case TrieEmpty => None
    case TrieLeaf(values) => Nth(values, And31(idx))
    case TrieBranch(children) =>
      var child :- Nth(children, TrieSlot(idx, shift));
      TrieGet(child, idx, shift - 5)
  }

  function TrieUpdateUp<T>(nd: TrieNode<T>, stk: seq<Frame<T>>): TrieNode<T>
    decreases |stk|
  {
    if stk == [] then nd
    else TrieUpdateUp(TrieBranch(SetNth(stk[0].0, stk[0].1, nd)), stk[1..])
  }

  function TrieUpdateDown<T>(n: TrieNode<T>, s: int, path: seq<Frame<T>>, idx: nat, val: T): Option<TrieNode<T>>
    decreases n
  {
    match n
    case TrieEmpty => None
    case TrieLeaf(values) => Some(TrieUpdateUp(TrieLeaf(SetNth(values, And31(idx), val)), path))
    case TrieBranch(children) =>
      var slot := TrieSlot(idx, s);
      var child :- Nth(children, slot);
      TrieUpdateDown(child, s - 5, [(children, slot)] + path, idx, val)
  }

  function TrieUpdate<T>(node: TrieNode<T>, idx: nat, val: T, shift: int): Option<TrieNode<T>> {
    TrieUpdateDown(node, shift, [], idx, val)
  }

  function NewPath<T>(values: seq<T>, shift: nat): TrieNode<T>
    requires shift % 5 == 0
  {
    NewPathGo(shift, TrieLeaf(values))
  }

  function NewPathGo<T>(s: nat, node: TrieNode<T>): TrieNode<T>
    requires s % 5 == 0
  {
    if s == 0 then node else NewPathGo(s - 5, TrieBranch([node]))
  }

  function InsertUp<T>(nd: TrieNode<T>, stk: seq<Frame<T>>): TrieNode<T>
    decreases |stk|
  {
    if stk == [] then nd
    else InsertUp(TrieBranch(SetNth(stk[0].0, stk[0].1, nd)), stk[1..])
  }

  /** At a leaf the source would build a path of negative height and never return;
      that, too, is `None`. */
  function InsertDown<T>(nd: TrieNode<T>, s: nat, path: seq<Frame<T>>, leafIdx: nat, leafValues: seq<T>)
    : Option<TrieNode<T>>
    requires Shaped(nd, s)
    decreases nd
  {
    match nd
    case TrieBranch(children) =>
      ShapedShift(nd, s);
      var slot := TrieSlot(leafIdx, s - 5);
      var n := |children|;
      if slot == n then
        Some(InsertUp(TrieBranch(children + [NewPath(leafValues, s - 5)]), path))
      else
        var child :- Nth(children, n - 1);
        InsertDown(child, s - 5, [(children, n - 1)] + path, leafIdx, leafValues)
    case _ => None
  }

  function PushLeaf<T>(root: TrieNode<T>, leafValues: seq<T>, trieLeafCount: nat, shift: nat)
    : Option<(TrieNode<T>, nat)>
    requires Shaped(root, shift)
  {
    if trieLeafCount == 0 then
      Some((TrieBranch([TrieLeaf(leafValues)]), 5))
    else if trieLeafCount >= Shl(1, shift) then
      ShapedShift(root, shift);
      Some((TrieBranch([root, NewPath(leafValues, shift)]), shift + 5))
    else
      var newRoot :- InsertDown(root, shift, [], trieLeafCount, leafValues);
      Some((newRoot, shift))
  }

  function PopUp<T>(result: TrieNode<T>, leafVals: seq<T>, stk: seq<Frame<T>>): (TrieNode<T>, seq<T>)
    decreases |stk|
  {
    if stk == [] then (result, leafVals)
    else
      var (children, idx) := stk[0];
      if result.TrieEmpty? then
        var newChildren := Init(children);
        if |newChildren| == 0 then PopUp(TrieEmpty, leafVals, stk[1..])
        else PopUp(TrieBranch(newChildren), leafVals, stk[1..])
      else
        PopUp(TrieBranch(SetNth(children, idx, result)), leafVals, stk[1..])
  }

  function PopDown<T>(nd: TrieNode<T>, s: int, path: seq<Frame<T>>): Option<(TrieNode<T>, seq<T>)>
    decreases nd
  {
    match nd
    case TrieLeaf(values) => Some(PopUp(TrieEmpty, values, path))
    case TrieBranch(children) =>
      var n := |children|;
      var child :- Nth(children, n - 1);
      PopDown(child, s - 5, [(children, n - 1)] + path)
    case TrieEmpty => Some(PopUp(TrieEmpty, [], path))
  }

  function TrieFold<T, B>(acc: B, node: TrieNode<T>, f: (B, T) -> B): B
    decreases node
  {
    match node
    case TrieEmpty => acc
    case TrieLeaf(values) => FoldValues(acc, values, f)
    case TrieBranch(children) => FoldChildren(acc, children, f)
  }

  function FoldValues<T, B>(acc: B, vs: seq<T>, f: (B, T) -> B): B
    decreases |vs|
  {
    if vs == [] then acc else FoldValues(f(acc, vs[0]), vs[1..], f)
  }

  function FoldChildren<T, B>(acc: B, cs: seq<TrieNode<T>>, f: (B, T) -> B): B
    decreases cs
  {
    if cs == [] then acc else FoldChildren(TrieFold(acc, cs[0], f), cs[1..], f)
  }

  // ---------------------------------------------------------------- public operations

  function Empty<T>(): PVec<T> {
    PVec(0, 0, TrieEmpty, [])
  }

  function Get<T>(v: PVec<T>, idx: int): Option<T> {
    if idx < 0 || idx >= v.size then None
    else
      var tailOffset := v.size - |v.tail|;
      if idx >= tailOffset then Nth(v.tail, idx - tailOffset)
      else TrieGet(v.root, idx, v.shift)
  }

  function Set<T>(v: PVec<T>, idx: int, val: T): Option<PVec<T>> {
    if idx < 0 || idx >= v.size then None
    else
      var tailOffset := v.size - |v.tail|;
      if idx >= tailOffset then Some(v.(tail := SetNth(v.tail, idx - tailOffset, val)))
      else
        var root2 :- TrieUpdate(v.root, idx, val, v.shift);
        Some(v.(root := root2))
  }

  function Push<T>(v: PVec<T>, elem: T): Option<PVec<T>>
    requires Shaped(v.root, v.shift)
  {
    if |v.tail| < 32 then Some(PVec(v.size + 1, v.shift, v.root, v.tail + [elem]))
    else
      var trieElems := v.size - |v.tail|;
      if trieElems < 0 then None
      else
        var (newRoot, newShift) :- PushLeaf(v.root, v.tail, trieElems / 32, v.shift);
        Some(PVec(v.size + 1, newShift, newRoot, [elem]))
  }

  function CollapseRoot<T>(newRoot: TrieNode<T>, shift: nat): (TrieNode<T>, nat) {
    if shift > 5 && newRoot.TrieBranch? && |newRoot.children| == 1 then (newRoot.children[0], shift - 5)
    else (newRoot, shift)
  }

  function Pop<T>(v: PVec<T>): Option<(PVec<T>, T)> {
    if v.size == 0 then None
    else
      var lastElem :- Last(v.tail);
      if |v.tail| > 1 then
        Some((PVec(v.size - 1, v.shift, v.root, Init(v.tail)), lastElem))
      else if v.size - 1 == 0 then
        Some((Empty(), lastElem))
      else
        var (newRoot, newTail) :- PopDown(v.root, v.shift, []);
        if newRoot.TrieEmpty? then
          Some((PVec(v.size - 1, 0, TrieEmpty, newTail), lastElem))
        else
          var (finalRoot, finalShift) := CollapseRoot(newRoot, v.shift);
          Some((PVec(v.size - 1, finalShift, finalRoot, newTail), lastElem))
  }

  function FoldLeft<T, B>(v: PVec<T>, acc: B, f: (B, T) -> B): B {
    FoldValues(TrieFold(acc, v.root, f), v.tail, f)
  }

  function ToList<T>(v: PVec<T>): seq<T> {
    Reverse(FoldLeft(v, [], ConsOnto))
  }

  function ConsOnto<T>(acc: seq<T>, x: T): seq<T> {
    [x] + acc
  }

  /** `group32`'s inner loop: `cur` collects up to 32 elements (reversed, as the source
      conses them), `out` the finished groups (reversed too). */
  function Chunk<A, B>(ys: seq<A>, i: nat, cur: seq<A>, out: seq<B>, wrap: seq<A> -> B): seq<B>
    decreases |ys|
  {
    if ys == [] then
      if cur == [] then Reverse(out) else Reverse([wrap(Reverse(cur))] + out)
    else if i == 31 then
      Chunk(ys[1..], 0, [], [wrap(Reverse([ys[0]] + cur))] + out, wrap)
    else
      Chunk(ys[1..], i + 1, [ys[0]] + cur, out, wrap)
  }

  function Group32<A, B>(xs: seq<A>, wrap: seq<A> -> B): seq<B> {
    Chunk(xs, 0, [], [], wrap)
  }

  function WrapLeaf<T>(vs: seq<T>): TrieNode<T> {
    TrieLeaf(vs)
  }

  function WrapBranch<T>(cs: seq<TrieNode<T>>): TrieNode<T> {
    TrieBranch(cs)
  }

  /** One level of bulk construction after another, until one node is left. */
  function Up<T>(nodes: seq<TrieNode<T>>, shift: nat): (TrieNode<T>, nat)
    requires nodes != []
    decreases |nodes|
  {
    var parents := Group32(nodes, WrapBranch);
    GroupsAre(nodes, WrapBranch<T>);
    if |parents| == 1 then (parents[0], shift + 5)
    else Up(parents, shift + 5)
  }

  function FromList<T>(xs: seq<T>): PVec<T> {
    var n := |xs|;
    if n == 0 then Empty()
    else
      var tailLen := n - 32 * ((n - 1) / 32);
      var front, tail := xs[..n - tailLen], xs[n - tailLen..];
      if n == tailLen then PVec(n, 0, TrieEmpty, tail)
      else
        GroupsAre(front, WrapLeaf<T>);
        var (root, shift) := Up(Group32(front, WrapLeaf), 0);
        PVec(n, shift, root, tail)
  }

  /** Consecutive groups of 32, the last possibly shorter. */
  function Groups<A, B>(xs: seq<A>, wrap: seq<A> -> B): seq<B>
    decreases |xs|
  {
    if xs == [] then []
    else if |xs| <= 32 then [wrap(xs)]
    else [wrap(xs[..32])] + Groups(xs[32..], wrap)
  }

  lemma {:induction false} GroupsSize<A, B>(xs: seq<A>, wrap: seq<A> -> B)
    ensures var n := |Groups(xs, wrap)|;
            && (xs != [] ==> 1 <= n <= |xs|)
            && (|xs| > 1 ==> n < |xs|)
            && (xs != [] ==> (n == 1 <==> |xs| <= 32))
    decreases |xs|
  {
    if |xs| > 32 {
      GroupsSize(xs[32..], wrap);
    }
  }

  lemma {:induction false} ChunkGroups<A, B>(ys: seq<A>, i: nat, cur: seq<A>, out: seq<B>, wrap: seq<A> -> B)
    requires |cur| == i <= 31
    ensures Chunk(ys, i, cur, out, wrap) == Reverse(out) + Groups(Reverse(cur) + ys, wrap)
    decreases |ys|
  {
    RevIs(cur, []);
    var all := Reverse(cur) + ys;
    if ys == [] {
      assert all == Reverse(cur);
      if cur != [] { RevCons(wrap(Reverse(cur)), out); }
    } else {
      RevCons(ys[0], cur);
      var cur2 := Reverse(cur) + [ys[0]];
      assert all == cur2 + ys[1..];
      if i == 31 {
        RevCons(wrap(cur2), out);
        ChunkGroups(ys[1..], 0, [], [wrap(cur2)] + out, wrap);
        assert Reverse<A>([]) + ys[1..] == ys[1..];
        if ys[1..] == [] { assert all == cur2; } else { assert all[..32] == cur2 && all[32..] == ys[1..]; }
      } else {
        ChunkGroups(ys[1..], i + 1, [ys[0]] + cur, out, wrap);
      }
    }
  }

  /** `group32`'s single pass yields exactly the consecutive groups. */
  lemma GroupsAre<A, B>(xs: seq<A>, wrap: seq<A> -> B)
    ensures Group32(xs, wrap) == Groups(xs, wrap)
    ensures xs != [] ==> 1 <= |Groups(xs, wrap)| <= |xs|
    ensures |xs| > 1 ==> |Groups(xs, wrap)| < |xs|
    ensures xs != [] ==> (|Groups(xs, wrap)| == 1 <==> |xs| <= 32)
  {
    GroupsSize(xs, wrap);
    ChunkGroups(xs, 0, [], [], wrap);
    assert Reverse<A>([]) + xs == xs;
    assert Reverse<B>([]) + Groups(xs, wrap) == Groups(xs, wrap);
  }

  function FromListByPush<T>(xs: seq<T>, acc: PVec<T>): Option<PVec<T>>
    requires Canonical(acc)
    decreases |xs|
  {
    if xs == [] then Some(acc)
    else
      CanonShaped(ToList(acc));
      PushIs(ToList(acc), xs[0]);
      var acc2 :- Push(acc, xs[0]);
      CanonIsCanonical(ToList(acc) + [xs[0]]);
      FromListByPush(xs[1..], acc2)
  }

  predicate DebugSameShape<T, U>(a: PVec<T>, b: PVec<U>) {
    a.size == b.size && a.shift == b.shift && |a.tail| == |b.tail| && ShapeNodeEq(a.root, b.root)
  }

  predicate ShapeNodeEq<T, U>(x: TrieNode<T>, y: TrieNode<U>)
    decreases x
  {
    match (x, y)
    case (TrieEmpty, TrieEmpty) => true
    case (TrieLeaf(vs), TrieLeaf(ws)) => |vs| == |ws|
    case (TrieBranch(cs), TrieBranch(ds)) => ShapeChildrenEq(cs, ds)
    case _ => false
  }

  predicate ShapeChildrenEq<T, U>(cs: seq<TrieNode<T>>, ds: seq<TrieNode<U>>)
    decreases cs
  {
    if cs == [] && ds == [] then true
    else if cs != [] && ds != [] then ShapeNodeEq(cs[0], ds[0]) && ShapeChildrenEq(cs[1..], ds[1..])
    else false
  }

  // ---------------------------------------------------------------- the canonical vector

  /** Elements below a full node at `shift`. */
  function Cap(shift: nat): (c: nat)
    ensures c >= 32
  {
    if shift < 5 then 32 else 32 * Cap(shift - 5)
  }

  /** The left-packed trie of full leaves holding `xs`, with its root at `shift`. */
  function Trie<T>(xs: seq<T>, shift: nat): TrieNode<T>
    decreases shift, 0
  {
    if shift < 5 then TrieLeaf(xs) else TrieBranch(Children(xs, shift - 5))
  }

  /** The nodes at `shift` of the left-packed trie holding `xs`, left to right. */
  function Children<T>(xs: seq<T>, shift: nat): seq<TrieNode<T>>
    decreases shift, 1 + |xs|
  {
    if |xs| <= Cap(shift) then [Trie(xs, shift)]
    else [Trie(xs[..Cap(shift)], shift)] + Children(xs[Cap(shift)..], shift)
  }

  /** The least root shift, from `s` up, that has room for `m` elements. */
  function ShiftFrom(m: nat, s: nat): nat
    decreases m - Cap(s)
  {
    if m <= Cap(s) then s else ShiftFrom(m, s + 5)
  }

  /** Length of the tail of a vector of `n` elements: 1..32, and 0 only for none. */
  function TailLen(n: nat): (r: nat)
    ensures r <= n && r <= 32
  {
    if n <= 32 then n else TailLen(n - 32)
  }

  function CanonRoot<T>(front: seq<T>): TrieNode<T> {
    if front == [] then TrieEmpty else Trie(front, ShiftFrom(|front|, 5))
  }

  function CanonShift(m: nat): nat {
    if m == 0 then 0 else ShiftFrom(m, 5)
  }

  /** The vector with `front` in its trie and `tail` outside. */
  function Vec<T>(front: seq<T>, tail: seq<T>): PVec<T> {
    PVec(|front| + |tail|, CanonShift(|front|), CanonRoot(front), tail)
  }

  /** The one vector that holds `xs`. */
  function Canon<T>(xs: seq<T>): PVec<T> {
    var k := |xs| - TailLen(|xs|);
    Vec(xs[..k], xs[k..])
  }

  ghost predicate Canonical<T>(v: PVec<T>) {
    v == Canon(ToList(v))
  }

  // ---------------------------------------------------------------- layout of the trie

  /** The up to `C` elements from `lo` on. */
  function Block<T>(xs: seq<T>, lo: nat, C: nat): seq<T>
    requires lo <= |xs|
  {
    xs[lo..if lo + C < |xs| then lo + C else |xs|]
  }

  lemma BlockAt<T>(xs: seq<T>, lo: nat, C: nat, j: nat)
    requires lo + j < |xs| && j < C
    ensures j < |Block(xs, lo, C)| <= C && Block(xs, lo, C)[j] == xs[lo + j]
  {
  }

  lemma BlockDrop<T>(xs: seq<T>, k: nat, lo: nat, C: nat)
    requires k + lo <= |xs|
    ensures Block(xs[k..], lo, C) == Block(xs, k + lo, C)
  {
  }

  lemma DropSet<T>(xs: seq<T>, k: nat, i: nat, val: T)
    requires k <= i < |xs|
    ensures xs[i := val][..k] == xs[..k] && xs[i := val][k..] == xs[k..][i - k := val]
  {
  }

  lemma {:induction false} CapIsWidth(shift: nat)
    requires shift % 5 == 0
    ensures Cap(shift) == Width(shift + 5) == 32 * Width(shift)
  {
    WidthStep(shift);
    if shift == 0 {
      assert Width(0) == 1;
    } else {
      CapIsWidth(shift - 5);
    }
  }

  /** The offset, below a node at `shift`, of the element that `idx` selects there. */
  function Local(idx: nat, shift: nat): nat {
    if shift < 5 then And31(idx) else Times(TrieSlot(idx, shift), Cap(shift - 5)) + Local(idx, shift - 5)
  }

  lemma {:induction false} LocalIsLow(idx: nat, shift: nat)
    requires shift % 5 == 0
    ensures Local(idx, shift) == Low(idx, shift + 5) < Cap(shift)
  {
    CapIsWidth(shift);
    HighLow(idx, shift + 5);
    if shift == 0 {
      Low5(idx);
    } else {
      LocalIsLow(idx, shift - 5);
      CapIsWidth(shift - 5);
    }
  }

  lemma Low5(idx: nat)
    ensures Low(idx, 5) == And31(idx)
  {
    assert Width(0) == 1 && Shr(idx, 0) == idx;
    TimesOne(And31(idx));
    assert Low(idx, 0) == 0;
  }

  lemma ChildrenPeel<T>(xs: seq<T>, s: nat)
    ensures Children(xs, s) == if |xs| <= Cap(s) then [Trie(xs, s)]
                               else [Trie(xs[..Cap(s)], s)] + Children(xs[Cap(s)..], s)
  {
  }

  /** Child `c` holds the elements from `lo`, the start of its block, to the next block. */
  lemma {:induction false} ChildAt<T>(xs: seq<T>, s: nat, c: nat, lo: nat)
    requires xs != [] && lo == Times(c, Cap(s)) && lo < |xs|
    ensures c < |Children(xs, s)|
    ensures Children(xs, s)[c] == Trie(Block(xs, lo, Cap(s)), s)
    decreases c
  {
    var C := Cap(s);
    ChildrenPeel(xs, s);
    if c > 0 {
      assert Times(c, C) == Times(c - 1, C) + C;
      hide Trie, Children, Cap, Times, Block;
      BlockDrop(xs, C, lo - C, C);
      ChildAt(xs[C..], s, c - 1, lo - C);
    } else {
      assert Block(xs, 0, C) == if |xs| <= C then xs else xs[..C];
    }
  }

  /** The level has one node for every started block. */
  lemma {:induction false} ChildCount<T>(xs: seq<T>, s: nat)
    requires xs != []
    ensures var n := |Children(xs, s)|;
            n >= 1 && Times(n - 1, Cap(s)) < |xs| <= Times(n, Cap(s))
    decreases |xs|
  {
    if |xs| > Cap(s) {
      ChildCount(xs[Cap(s)..], s);
    } else {
      assert Times(1, Cap(s)) == Cap(s);
    }
  }

  lemma {:induction false} TrieShaped<T>(xs: seq<T>, s: nat)
    requires s % 5 == 0
    ensures Shaped(Trie(xs, s), s)
    decreases s, 0
  {
    if s >= 5 {
      TrieIsBranch(xs, s);
      hide Trie, Children;
      ChildrenShaped(xs, s - 5);
    }
  }

  lemma {:induction false} ChildrenShaped<T>(xs: seq<T>, s: nat)
    requires s % 5 == 0
    ensures Children(xs, s) != [] && forall i :: 0 <= i < |Children(xs, s)| ==> Shaped(Children(xs, s)[i], s)
    decreases s, 1 + |xs|
  {
    if |xs| <= Cap(s) {
      TrieShaped(xs, s);
    } else {
      TrieShaped(xs[..Cap(s)], s);
      ChildrenShaped(xs[Cap(s)..], s);
    }
  }

  lemma {:induction false} ShiftFromFits(m: nat, s: nat)
    requires s % 5 == 0
    ensures var r := ShiftFrom(m, s);
            r >= s && r % 5 == 0 && m <= Cap(r) && (r > s ==> r >= s + 5 && m > Cap(r - 5))
    decreases m - Cap(s)
  {
    if m > Cap(s) {
      ShiftFromFits(m, s + 5);
    }
  }

  /** The shift is the only one that fits tightly. */
  lemma {:induction false} ShiftFromIs(m: nat, s: nat, r: nat)
    requires s % 5 == 0 && r % 5 == 0 && r >= s
    requires m <= Cap(r) && (r > s ==> m > Cap(r - 5))
    ensures ShiftFrom(m, s) == r
    decreases r - s
  {
    if r > s {
      CapMono(s, r - 5);
      ShiftFromIs(m, s + 5, r);
    }
  }

  lemma {:induction false} CapMono(s: nat, r: nat)
    requires s <= r && s % 5 == 0 && r % 5 == 0
    ensures Cap(s) <= Cap(r)
    decreases r
  {
    if s < r {
      CapMono(s, r - 5);
    }
  }

  // ---------------------------------------------------------------- get and set

  /** The descent goes on in the child whose slot the index names. */
  lemma TrieGetStep<T>(xs: seq<T>, s: nat, idx: nat, slot: nat)
    requires s >= 5 && slot == TrieSlot(idx, s) < |Children(xs, s - 5)|
    ensures TrieGet(Trie(xs, s), idx, s) == TrieGet(Children(xs, s - 5)[slot], idx, s - 5)
  {
    hide Children;
  }

  lemma UpdateStep<T>(xs: seq<T>, s: nat, path: seq<Frame<T>>, idx: nat, val: T, slot: nat)
    requires s >= 5 && slot == TrieSlot(idx, s) < |Children(xs, s - 5)|
    ensures TrieUpdateDown(Trie(xs, s), s, path, idx, val)
            == TrieUpdateDown(Children(xs, s - 5)[slot], s - 5, [(Children(xs, s - 5), slot)] + path, idx, val)
  {
    hide Children;
  }

  lemma UpdateBack<T>(nd: TrieNode<T>, cs: seq<TrieNode<T>>, slot: nat, path: seq<Frame<T>>)
    requires slot < |cs|
    ensures TrieUpdateUp(nd, [(cs, slot)] + path) == TrieUpdateUp(TrieBranch(cs[slot := nd]), path)
  {
    assert ([(cs, slot)] + path)[1..] == path;
  }

  lemma TrieIsBranch<T>(xs: seq<T>, s: nat)
    requires s >= 5
    ensures Trie(xs, s) == TrieBranch(Children(xs, s - 5))
  {
  }

  lemma LocalIs(idx: nat, s: nat)
    requires s >= 5
    ensures Local(idx, s) == Times(TrieSlot(idx, s), Cap(s - 5)) + Local(idx, s - 5)
  {
  }

  /** Reading index `idx` finds the element its low bits select. */
  lemma {:induction false} TrieGetAt<T>(xs: seq<T>, s: nat, idx: nat)
    requires s % 5 == 0 && |xs| <= Cap(s) && Local(idx, s) < |xs|
    ensures TrieGet(Trie(xs, s), idx, s) == Some(xs[Local(idx, s)])
    decreases s
  {
    if s >= 5 {
      hide Trie, Children, Cap, Times, TrieGet, Local, Block, TrieSlot;
      var C, slot := Cap(s - 5), TrieSlot(idx, s);
      var lo := Times(slot, C);
      LocalIsLow(idx, s - 5);
      LocalIs(idx, s);
      ChildAt(xs, s - 5, slot, lo);
      var chunk := Block(xs, lo, C);
      BlockAt(xs, lo, C, Local(idx, s - 5));
      TrieGetStep(xs, s, idx, slot);
      TrieGetAt(chunk, s - 5, idx);
    }
  }

  lemma {:induction false} ChildrenSet<T>(xs: seq<T>, s: nat, c: nat, lo: nat, j: nat, val: T)
    requires lo == Times(c, Cap(s)) && j < Cap(s) && lo + j < |xs|
    ensures c < |Children(xs, s)|
    ensures Children(xs[lo + j := val], s)
            == Children(xs, s)[c := Trie(Block(xs, lo, Cap(s))[j := val], s)]
    decreases c
  {
    var C := Cap(s);
    var ys := xs[lo + j := val];
    ChildrenPeel(xs, s);
    ChildrenPeel(ys, s);
    hide Trie, Children, Cap;
    if c == 0 {
      if |xs| > C {
        assert ys[..C] == xs[..C][j := val] && ys[C..] == xs[C..];
      } else {
        assert Block(xs, 0, C) == xs;
      }
    } else {
      assert Times(c, C) == Times(c - 1, C) + C;
      hide Times, Block;
      DropSet(xs, C, lo + j, val);
      BlockDrop(xs, C, lo - C, C);
      ChildrenSet(xs[C..], s, c - 1, lo - C, j, val);
    }
  }

  /** Path copying with an explicit stack replaces exactly the element `idx` selects. */
  lemma {:induction false} TrieUpdateAt<T>(xs: seq<T>, s: nat, path: seq<Frame<T>>, idx: nat, val: T)
    requires s % 5 == 0 && |xs| <= Cap(s) && Local(idx, s) < |xs|
    ensures TrieUpdateDown(Trie(xs, s), s, path, idx, val)
            == Some(TrieUpdateUp(Trie(xs[Local(idx, s) := val], s), path))
    decreases s
  {
    if s >= 5 {
      hide Trie, Children, Cap, Times, TrieUpdateDown, TrieUpdateUp, Local, Block, TrieSlot;
      var slot, j := TrieSlot(idx, s), Local(idx, s - 5);
      var lo, cs := Times(slot, Cap(s - 5)), Children(xs, s - 5);
      LocalIsLow(idx, s - 5);
      LocalIs(idx, s);
      ChildAt(xs, s - 5, slot, lo);
      ChildrenSet(xs, s - 5, slot, lo, j, val);
      UpdateStep(xs, s, path, idx, val, slot);
      var chunk := Block(xs, lo, Cap(s - 5));
      BlockAt(xs, lo, Cap(s - 5), j);
      TrieUpdateAt(chunk, s - 5, [(cs, slot)] + path, idx, val);
      UpdateBack(Trie(chunk[j := val], s - 5), cs, slot, path);
      TrieIsBranch(xs[lo + j := val], s);
    }
  }

  // ---------------------------------------------------------------- push

  lemma {:induction false} NewPathIs<T>(leaf: seq<T>, s: nat, k: nat)
    requires s % 5 == 0 && k % 5 == 0 && |leaf| == 32
    ensures NewPathGo(s, Trie(leaf, k)) == Trie(leaf, s + k)
    decreases s
  {
    if s > 0 {
      SingleChild(leaf, k);
      TrieIsBranch(leaf, k + 5);
      hide Trie, Children;
      NewPathIs(leaf, s - 5, k + 5);
    }
  }

  lemma SingleChild<T>(leaf: seq<T>, s: nat)
    requires |leaf| == 32
    ensures Children(leaf, s) == [Trie(leaf, s)]
  {
  }

  /** How many elements the last of the children over `m` elements holds. */
  function LastLen(m: nat, C: nat): (r: nat)
    requires C > 0
    ensures r <= C && r <= m && (m > 0 ==> r > 0)
  {
    if m <= C then m else LastLen(m - C, C)
  }

  /** Whole leaves leave room for another one, or none at all. */
  lemma {:induction false} LastLenRoom(m: nat, s: nat)
    requires m % 32 == 0
    ensures var last := LastLen(m, Cap(s));
            last % 32 == 0 && (last == Cap(s) || last + 32 <= Cap(s))
    decreases m
  {
    CapMod(s);
    LastLenStep(m, Cap(s));
    hide Cap, LastLen;
    if m > Cap(s) {
      RoomAfter(m, Cap(s));
      LastLenRoom(m - Cap(s), s);
    } else {
      RoomLeft(m, Cap(s));
    }
  }

  lemma LastLenStep(m: nat, C: nat)
    requires C > 0
    ensures LastLen(m, C) == if m <= C then m else LastLen(m - C, C)
  {
  }

  lemma RoomAfter(m: nat, C: nat)
    requires m % 32 == 0 && C % 32 == 0 && m > C
    ensures (m - C) % 32 == 0
  {
  }

  lemma RoomLeft(m: nat, C: nat)
    requires m % 32 == 0 && C % 32 == 0 && m <= C
    ensures m == C || m + 32 <= C
  {
  }

  lemma {:induction false} CapMod(s: nat)
    ensures Cap(s) % 32 == 0
  {
    if s >= 5 { CapMod(s - 5); }
  }

  /** Appending a full leaf to a level either starts a new child or extends the last. */
  lemma {:induction false} ChildrenSnoc<T>(xs: seq<T>, s: nat, leaf: seq<T>, last: nat)
    requires xs != [] && |leaf| == 32
    requires last == LastLen(|xs|, Cap(s)) && (last == Cap(s) || last + 32 <= Cap(s))
    ensures var cs := Children(xs, s);
            && cs != []
            && cs[|cs| - 1] == Trie(xs[|xs| - last..], s)
            && Children(xs + leaf, s)
               == (if last == Cap(s) then cs + [Trie(leaf, s)]
                   else cs[|cs| - 1 := Trie(xs[|xs| - last..] + leaf, s)])
    decreases |xs|
  {
    var C := Cap(s);
    if |xs| < C {
      assert xs[0..] == xs;
    } else if |xs| == C {
      assert xs[0..] == xs;
      ChildrenCons(xs, leaf, s);
      SingleChild(leaf, s);
    } else {
      var head, rest := xs[..C], xs[C..];
      ChildrenSnoc(rest, s, leaf, last);
      SnocSlices(xs, leaf, C, last);
      ChildrenCons(head, rest, s);
      ChildrenCons(head, rest + leaf, s);
    }
  }

  lemma ChildrenCons<T>(head: seq<T>, rest: seq<T>, s: nat)
    requires |head| == Cap(s) && rest != []
    ensures Children(head + rest, s) == [Trie(head, s)] + Children(rest, s)
  {
    assert (head + rest)[..Cap(s)] == head && (head + rest)[Cap(s)..] == rest;
  }

  lemma SnocSlices<T>(xs: seq<T>, leaf: seq<T>, k: nat, last: nat)
    requires k <= |xs| && last <= |xs| - k
    ensures xs == xs[..k] + xs[k..] && xs + leaf == xs[..k] + (xs[k..] + leaf)
    ensures xs[k..][|xs| - k - last..] == xs[|xs| - last..]
  {
  }

  lemma {:induction false} LastLenIs<T>(xs: seq<T>, s: nat)
    requires xs != []
    ensures |Children(xs, s)| >= 1
    ensures |xs| == Times(|Children(xs, s)| - 1, Cap(s)) + LastLen(|xs|, Cap(s))
    decreases |xs|
  {
    if |xs| > Cap(s) {
      LastLenIs(xs[Cap(s)..], s);
    }
  }

  /** The slot the source computes for the next leaf, against the fan-out `n` of the node. */
  lemma InsertSlot(m: nat, s: nat, leafIdx: nat, n: nat, last: nat)
    requires s % 5 == 0 && n >= 1 && m == Times(n - 1, Cap(s)) + last
    requires last % 32 == 0 && 0 < last <= Cap(s)
    requires Low(leafIdx, s + 5) == m / 32
    ensures TrieSlot(leafIdx, s) == if last == Cap(s) then n else n - 1
    ensures last < Cap(s) ==> Low(leafIdx, s) == last / 32
  {
    var w := Width(s);
    CapIsWidth(s);
    HighLow(leafIdx, s);
    Times32(n - 1, w);
    assert m / 32 == Times(n - 1, w) + last / 32;
    if last == Cap(s) {
      assert Times(n, w) == Times(n - 1, w) + w;
      TimesUnique(TrieSlot(leafIdx, s), Low(leafIdx, s), n, 0, w);
    } else {
      TimesUnique(TrieSlot(leafIdx, s), Low(leafIdx, s), n - 1, last / 32, w);
    }
  }

  /** A trie of `m` elements at `s` has room for one more leaf, whose index is `leafIdx`. */
  ghost predicate Room(m: nat, s: nat, leafIdx: nat) {
    0 < m < Cap(s) && m % 32 == 0 && Low(leafIdx, s) == m / 32
  }

  /** The last child is full: the leaf starts a subtree of its own. */
  lemma InsertFresh<T>(xs: seq<T>, s: nat, path: seq<Frame<T>>, leafIdx: nat, leaf: seq<T>)
    requires s % 5 == 0 && s >= 5 && |leaf| == 32 && Room(|xs|, s, leafIdx)
    requires Shaped(Trie(xs, s), s) && LastLen(|xs|, Cap(s - 5)) == Cap(s - 5)
    ensures InsertDown(Trie(xs, s), s, path, leafIdx, leaf) == Some(InsertUp(Trie(xs + leaf, s), path))
  {
    var t := s - 5;
    var cs, last := Children(xs, t), LastLen(|xs|, Cap(t));
    LastLenRoom(|xs|, t);
    ChildrenSnoc(xs, t, leaf, last);
    LastLenIs(xs, t);
    InsertSlot(|xs|, t, leafIdx, |cs|, last);
    NewPathIs(leaf, t, 0);
  }

  /** The last child has room: the descent goes on there. */
  lemma InsertStep<T>(xs: seq<T>, s: nat, path: seq<Frame<T>>, leafIdx: nat, leaf: seq<T>)
    requires s % 5 == 0 && s >= 5 && Shaped(Trie(xs, s), s)
    requires var cs := Children(xs, s - 5);
             cs != [] && TrieSlot(leafIdx, s - 5) == |cs| - 1 && Shaped(cs[|cs| - 1], s - 5)
    ensures var cs := Children(xs, s - 5);
            InsertDown(Trie(xs, s), s, path, leafIdx, leaf)
            == InsertDown(cs[|cs| - 1], s - 5, [(cs, |cs| - 1)] + path, leafIdx, leaf)
  {
    hide Children;
  }

  lemma InsertBack<T>(nd: TrieNode<T>, cs: seq<TrieNode<T>>, path: seq<Frame<T>>)
    requires cs != []
    ensures InsertUp(nd, [(cs, |cs| - 1)] + path) == InsertUp(TrieBranch(cs[|cs| - 1 := nd]), path)
  {
    assert ([(cs, |cs| - 1)] + path)[1..] == path;
  }

  /** If its last child is not full, that child has the room. */
  lemma RoomBelow<T>(xs: seq<T>, s: nat, leafIdx: nat, last: nat)
    requires s % 5 == 0 && s >= 5 && Room(|xs|, s, leafIdx) && last == LastLen(|xs|, Cap(s - 5)) != Cap(s - 5)
    ensures s >= 10 && 0 < last <= |xs| && Room(last, s - 5, leafIdx) && last + 32 <= Cap(s - 5)
    ensures Children(xs, s - 5) != [] && TrieSlot(leafIdx, s - 5) == |Children(xs, s - 5)| - 1
  {
    hide Children;
    LastLenRoom(|xs|, s - 5);
    LastLenIs(xs, s - 5);
    InsertSlot(|xs|, s - 5, leafIdx, |Children(xs, s - 5)|, last);
    CapLeaf(s - 5, last);
  }

  lemma {:induction false} InsertDownIs<T>(
      xs: seq<T>, s: nat, path: seq<Frame<T>>, leafIdx: nat, leaf: seq<T>)
    requires s % 5 == 0 && s >= 5 && |leaf| == 32
    requires Room(|xs|, s, leafIdx) && Shaped(Trie(xs, s), s)
    ensures InsertDown(Trie(xs, s), s, path, leafIdx, leaf) == Some(InsertUp(Trie(xs + leaf, s), path))
    decreases s
  {
    hide Trie, Children, Cap, LastLen, Shaped, InsertDown, InsertUp, Room, TrieSlot;
    var t := s - 5;
    var cs, last := Children(xs, t), LastLen(|xs|, Cap(t));
    if last == Cap(t) {
      InsertFresh(xs, s, path, leafIdx, leaf);
    } else {
      RoomBelow(xs, s, leafIdx, last);
      ChildrenSnoc(xs, t, leaf, last);
      var chunk := xs[|xs| - last..];
      TrieShaped(chunk, t);
      InsertStep(xs, s, path, leafIdx, leaf);
      InsertDownIs(chunk, t, [(cs, |cs| - 1)] + path, leafIdx, leaf);
      InsertBack(Trie(chunk + leaf, t), cs, path);
      TrieIsBranch(xs + leaf, s);
    }
  }

  /** A node that is partly filled with whole leaves is not itself a leaf. */
  lemma CapLeaf(s: nat, m: nat)
    requires s % 5 == 0 && 0 < m < Cap(s) && m % 32 == 0
    ensures s >= 5
  {
  }

  lemma FullRootGrows<T>(front: seq<T>, s: nat, leaf: seq<T>)
    requires s % 5 == 0 && |front| == Cap(s) && |leaf| == 32
    ensures TrieBranch([Trie(front, s), NewPath(leaf, s)]) == Trie(front + leaf, s + 5)
  {
    NewPathIs(leaf, s, 0);
    SingleChild(leaf, s);
    assert (front + leaf)[..Cap(s)] == front && (front + leaf)[Cap(s)..] == leaf;
    assert Children(front + leaf, s) == [Trie(front, s), Trie(leaf, s)];
  }

  lemma FirstLeaf<T>(leaf: seq<T>)
    requires |leaf| == 32
    ensures CanonRoot(leaf) == TrieBranch([TrieLeaf(leaf)]) && CanonShift(32) == 5
  {
    SingleChild(leaf, 0);
  }

  lemma ShiftGrows(m: nat)
    requires m % 32 == 0 && m > 0
    ensures var s := ShiftFrom(m, 5);
            && s % 5 == 0 && s >= 5 && m <= Cap(s)
            && (m / 32 >= Width(s) <==> m == Cap(s))
            && ShiftFrom(m + 32, 5) == if m == Cap(s) then s + 5 else s
  {
    var s := ShiftFrom(m, 5);
    ShiftFromFits(m, 5);
    CapIsWidth(s);
    assert m == 32 * (m / 32);
    if m == Cap(s) {
      ShiftFromIs(m + 32, 5, s + 5);
    } else {
      ShiftFromIs(m + 32, 5, s);
    }
  }

  /** A full leaf joins the trie: the root stays canonical and grows exactly when full. */
  lemma PushLeafIs<T>(front: seq<T>, leaf: seq<T>)
    requires |front| % 32 == 0 && |leaf| == 32
    requires Shaped(CanonRoot(front), CanonShift(|front|))
    ensures PushLeaf(CanonRoot(front), leaf, |front| / 32, CanonShift(|front|))
            == Some((CanonRoot(front + leaf), CanonShift(|front| + 32)))
  {
    var m := |front|;
    if m == 0 {
      assert front + leaf == leaf;
      FirstLeaf(leaf);
    } else {
      var s := ShiftFrom(m, 5);
      ShiftGrows(m);
      if m == Cap(s) {
        FullRootGrows(front, s, leaf);
      } else {
        LowSmall(m / 32, s);
        InsertDownIs(front, s, [], m / 32, leaf);
      }
    }
  }

  // ---------------------------------------------------------------- pop

  /** Taking the last leaf off leaves the canonical trie of what is left. */
  lemma {:induction false} PopDownIs<T>(xs: seq<T>, s: nat, path: seq<Frame<T>>, leaf: seq<T>)
    requires s % 5 == 0 && |leaf| == 32 && |xs| % 32 == 0 && |xs| + 32 <= Cap(s)
    ensures PopDown(Trie(xs + leaf, s), s, path)
            == Some(PopUp(if xs == [] then TrieEmpty else Trie(xs, s), leaf, path))
    decreases s
  {
    if s == 0 {
      assert xs + leaf == leaf;
    } else {
      var t := s - 5;
      if xs == [] {
        PopOnlyLeaf(t, path, leaf);
        assert xs + leaf == leaf;
      } else {
        PopLastChild(xs, t, path, leaf);
      }
    }
  }

  lemma PopOnlyLeaf<T>(t: nat, path: seq<Frame<T>>, leaf: seq<T>)
    requires t % 5 == 0 && |leaf| == 32
    ensures PopDown(Trie(leaf, t + 5), t + 5, path) == Some(PopUp(TrieEmpty, leaf, path))
    decreases t + 5, 0
  {
    SingleChild(leaf, t);
    var path2: seq<Frame<T>> := [([Trie(leaf, t)], 0)] + path;
    assert [] + leaf == leaf;
    PopDownIs([], t, path2, leaf);
    assert path2[1..] == path;
  }

  lemma PopLastChild<T>(xs: seq<T>, t: nat, path: seq<Frame<T>>, leaf: seq<T>)
    requires t % 5 == 0 && |leaf| == 32 && xs != [] && |xs| % 32 == 0 && |xs| + 32 <= Cap(t + 5)
    ensures PopDown(Trie(xs + leaf, t + 5), t + 5, path) == Some(PopUp(Trie(xs, t + 5), leaf, path))
    decreases t + 5, 0
  {
    var cs, cs2, last := Children(xs, t), Children(xs + leaf, t), LastLen(|xs|, Cap(t));
    LastLenRoom(|xs|, t);
    ChildrenSnoc(xs, t, leaf, last);
    var path2 := [(cs2, |cs2| - 1)] + path;
    if last == Cap(t) {
      assert [] + leaf == leaf;
      PopDownIs([], t, path2, leaf);
      PopUpDrops(cs, Trie(leaf, t), leaf, path);
    } else {
      var chunk := xs[|xs| - last..];
      PopDownIs(chunk, t, path2, leaf);
      PopUpReplaces(cs, cs2, Trie(chunk, t), leaf, path);
    }
  }

  lemma PopUpDrops<T>(cs: seq<TrieNode<T>>, last: TrieNode<T>, leaf: seq<T>, path: seq<Frame<T>>)
    requires cs != []
    ensures PopUp(TrieEmpty, leaf, [(cs + [last], |cs|)] + path) == PopUp(TrieBranch(cs), leaf, path)
  {
    assert Init(cs + [last]) == cs;
    assert ([(cs + [last], |cs| as int)] + path)[1..] == path;
  }

  lemma PopUpReplaces<T>(
      cs: seq<TrieNode<T>>, cs2: seq<TrieNode<T>>, node: TrieNode<T>, leaf: seq<T>, path: seq<Frame<T>>)
    requires cs != [] && |cs2| == |cs| && cs[|cs| - 1] == node && !node.TrieEmpty?
    requires cs2[..|cs| - 1] == cs[..|cs| - 1]
    ensures PopUp(node, leaf, [(cs2, |cs2| - 1)] + path) == PopUp(TrieBranch(cs), leaf, path)
  {
    assert SetNth(cs2, |cs2| - 1, node) == cs;
    assert ([(cs2, |cs2| - 1)] + path)[1..] == path;
  }

  // ---------------------------------------------------------------- bulk construction

  lemma {:induction false} ChildrenSplit<T>(xs: seq<T>, s: nat, k: nat, cut: nat)
    requires k >= 1 && cut == Times(k, Cap(s)) && cut < |xs|
    ensures Children(xs, s) == Children(xs[..cut], s) + Children(xs[cut..], s)
    ensures |Children(xs[..cut], s)| == k
    decreases k
  {
    var C := Cap(s);
    assert Times(k, C) == Times(k - 1, C) + C && Times(1, C) == C;
    ChildrenPeel(xs, s);
    ChildrenPeel(xs[..cut], s);
    if k > 1 {
      TimesMono(1, k - 1, C);
      hide Trie, Children, Cap, Times;
      ChildrenSplit(xs[C..], s, k - 1, cut - C);
      CutSlices(xs, C, cut);
      Consed(Trie(xs[..C], s), Children(xs[C..cut], s), Children(xs[cut..], s));
    }
  }

  lemma CutSlices<T>(xs: seq<T>, k: nat, cut: nat)
    requires k <= cut <= |xs|
    ensures xs[..cut][..k] == xs[..k] && xs[..cut][k..] == xs[k..cut] == xs[k..][..cut - k] && xs[k..][cut - k..] == xs[cut..]
  {
  }

  lemma Consed<T>(x: T, a: seq<T>, b: seq<T>)
    ensures [x] + (a + b) == ([x] + a) + b
  {
  }

  /** Grouping the nodes of one level by 32 gives the nodes of the next. */
  lemma {:induction false} GroupLevel<T>(xs: seq<T>, s: nat)
    requires s % 5 == 0 && xs != []
    ensures Groups(Children(xs, s), WrapBranch<T>) == Children(xs, s + 5)
    decreases |xs|
  {
    var C, cs := Cap(s), Children(xs, s);
    var big := Cap(s + 5);
    TimesConst(C);
    ChildCount(xs, s);
    if |xs| <= big {
      if |cs| > 32 { TimesMono(32, |cs| - 1, C); }
      assert |cs| <= 32;
    } else {
      ChildrenSplit(xs, s, 32, big);
      ChildCount(xs[big..], s);
      assert cs[..32] == Children(xs[..big], s) && cs[32..] == Children(xs[big..], s);
      GroupLevel(xs[big..], s);
    }
  }

  lemma {:induction false} GroupLeaves<T>(xs: seq<T>)
    requires xs != []
    ensures Groups(xs, WrapLeaf<T>) == Children(xs, 0)
    decreases |xs|
  {
    if |xs| > 32 {
      GroupLeaves(xs[32..]);
    }
  }

  /** One node stands at `s + 5` exactly when the elements fit under it. */
  lemma {:induction false} UpIs<T>(xs: seq<T>, s: nat)
    requires s % 5 == 0 && xs != [] && Children(xs, s) != []
    ensures Up(Children(xs, s), s) == (Trie(xs, ShiftFrom(|xs|, s + 5)), ShiftFrom(|xs|, s + 5))
    decreases |Children(xs, s)|
  {
    var nodes := Children(xs, s);
    GroupsAre(nodes, WrapBranch<T>);
    GroupLevel(xs, s);
    ChildCount(xs, s + 5);
    var parents := Children(xs, s + 5);
    if |parents| != 1 {
      ChildCount(xs, s);
      UpIs(xs, s + 5);
    }
  }

  /** Bulk construction yields the canonical vector. */
  lemma FromListIs<T>(xs: seq<T>)
    ensures FromList(xs) == Canon(xs)
  {
    var k := |xs| - TailLen(|xs|);
    if xs != [] { TailLenIs(|xs|); }
    if k == 0 {
      assert xs[..k] == [] && xs[k..] == xs;
    } else {
      var front := xs[..k];
      GroupsAre(front, WrapLeaf<T>);
      GroupLeaves(front);
      UpIs(front, 0);
    }
  }

  // ---------------------------------------------------------------- fold

  lemma {:induction false} FoldConcat<T, B>(acc: B, a: seq<T>, b: seq<T>, f: (B, T) -> B)
    ensures FoldValues(acc, a + b, f) == FoldValues(FoldValues(acc, a, f), b, f)
    decreases |a|
  {
    if a == [] {
      assert a + b == b;
    } else {
      assert (a + b)[1..] == a[1..] + b;
      FoldConcat(f(acc, a[0]), a[1..], b, f);
    }
  }

  lemma {:induction false} TrieFoldIs<T, B>(acc: B, xs: seq<T>, s: nat, f: (B, T) -> B)
    ensures TrieFold(acc, Trie(xs, s), f) == FoldValues(acc, xs, f)
    decreases s, 0
  {
    if s >= 5 {
      FoldChildrenIs(acc, xs, s - 5, f);
    }
  }

  lemma {:induction false} FoldChildrenIs<T, B>(acc: B, xs: seq<T>, s: nat, f: (B, T) -> B)
    ensures FoldChildren(acc, Children(xs, s), f) == FoldValues(acc, xs, f)
    decreases s, 1 + |xs|
  {
    var C := Cap(s);
    if |xs| <= C {
      TrieFoldIs(acc, xs, s, f);
      assert [Trie(xs, s)][1..] == [];
    } else {
      TrieFoldIs(acc, xs[..C], s, f);
      FoldChildrenIs(FoldValues(acc, xs[..C], f), xs[C..], s, f);
      assert xs == xs[..C] + xs[C..];
      FoldConcat(acc, xs[..C], xs[C..], f);
      assert Children(xs, s)[1..] == Children(xs[C..], s);
    }
  }

  /** Folding a vector folds its elements in index order. */
  lemma FoldLeftIs<T, B>(xs: seq<T>, acc: B, f: (B, T) -> B)
    ensures FoldLeft(Canon(xs), acc, f) == FoldValues(acc, xs, f)
  {
    var k := |xs| - TailLen(|xs|);
    if k > 0 {
      TrieFoldIs(acc, xs[..k], ShiftFrom(k, 5), f);
    }
    assert xs == xs[..k] + xs[k..];
    FoldConcat(acc, xs[..k], xs[k..], f);
  }

  lemma {:induction false} FoldCons<T>(acc: seq<T>, xs: seq<T>)
    ensures Reverse(FoldValues(acc, xs, ConsOnto<T>)) == Reverse(acc) + xs
    decreases |xs|
  {
    if xs == [] {
      assert Reverse(acc) + xs == Reverse(acc);
    } else {
      FoldCons([xs[0]] + acc, xs[1..]);
      RevCons(xs[0], acc);
      assert (Reverse(acc) + [xs[0]]) + xs[1..] == Reverse(acc) + xs;
    }
  }

  lemma ToListIs<T>(xs: seq<T>)
    ensures ToList(Canon(xs)) == xs
  {
    FoldLeftIs(xs, [], ConsOnto<T>);
    FoldCons([], xs);
    assert Reverse<T>([]) + xs == xs;
  }

  lemma CanonIsCanonical<T>(xs: seq<T>)
    ensures Canonical(Canon(xs))
  {
    ToListIs(xs);
  }

  // ---------------------------------------------------------------- the vector is its sequence

  lemma {:induction false} TailLenIs(n: nat)
    requires n > 0
    ensures TailLen(n) == n - 32 * ((n - 1) / 32)
  {
    if n > 32 { TailLenIs(n - 32); }
  }

  /** `front` and `tail` are what a vector keeps inside and outside its trie. */
  predicate Halves<T>(front: seq<T>, tail: seq<T>) {
    |front| % 32 == 0 && |tail| <= 32 && (tail == [] ==> front == [])
  }

  lemma {:induction false} TailLenOfHalves(m: nat, k: nat)
    requires m % 32 == 0 && k <= 32 && (k == 0 ==> m == 0)
    ensures TailLen(m + k) == k
    decreases m
  {
    if m > 0 { TailLenOfHalves(m - 32, k); }
  }

  lemma CanonVec<T>(front: seq<T>, tail: seq<T>)
    requires Halves(front, tail)
    ensures Canon(front + tail) == Vec(front, tail)
  {
    TailLenOfHalves(|front|, |tail|);
    assert (front + tail)[..|front|] == front && (front + tail)[|front|..] == tail;
  }

  lemma {:induction false} TailLenFacts(n: nat)
    ensures (n - TailLen(n)) % 32 == 0 && (n > 0 ==> TailLen(n) > 0)
  {
    if n > 32 { TailLenFacts(n - 32); }
  }

  lemma Split<T>(xs: seq<T>) returns (front: seq<T>, tail: seq<T>)
    ensures Halves(front, tail) && front + tail == xs
  {
    TailLenFacts(|xs|);
    var k := |xs| - TailLen(|xs|);
    front, tail := xs[..k], xs[k..];
  }

  lemma VecShaped<T>(front: seq<T>, tail: seq<T>)
    ensures Shaped(Vec(front, tail).root, Vec(front, tail).shift)
  {
    if front != [] {
      ShiftFromFits(|front|, 5);
      TrieShaped(front, ShiftFrom(|front|, 5));
    }
  }

  lemma CanonShaped<T>(xs: seq<T>)
    ensures Shaped(Canon(xs).root, Canon(xs).shift)
  {
    var k := |xs| - TailLen(|xs|);
    VecShaped(xs[..k], xs[k..]);
  }

  lemma FrontIndex(k: nat, idx: nat)
    requires idx < k
    ensures var s := ShiftFrom(k, 5);
            s % 5 == 0 && s >= 5 && k <= Cap(s) && Local(idx, s) == idx
  {
    var s := ShiftFrom(k, 5);
    ShiftFromFits(k, 5);
    LocalIsLow(idx, s);
    CapIsWidth(s);
    LowSmall(idx, s + 5);
  }

  lemma GetVec<T>(front: seq<T>, tail: seq<T>, idx: int)
    requires Halves(front, tail)
    ensures Get(Vec(front, tail), idx)
            == if 0 <= idx < |front| then Some(front[idx])
               else if |front| <= idx < |front| + |tail| then Some(tail[idx - |front|])
               else None
  {
    if 0 <= idx < |front| {
      FrontIndex(|front|, idx);
      TrieGetAt(front, ShiftFrom(|front|, 5), idx);
    }
  }

  /** `get` succeeds exactly in bounds, and then reads the sequence. */
  lemma GetIs<T>(xs: seq<T>, idx: int)
    ensures Get(Canon(xs), idx) == if 0 <= idx < |xs| then Some(xs[idx]) else None
  {
    var front, tail := Split(xs);
    CanonVec(front, tail);
    GetVec(front, tail, idx);
  }

  lemma SetVec<T>(front: seq<T>, tail: seq<T>, idx: int, val: T)
    requires Halves(front, tail)
    ensures Set(Vec(front, tail), idx, val)
            == if 0 <= idx < |front| then Some(Vec(front[idx := val], tail))
               else if |front| <= idx < |front| + |tail| then Some(Vec(front, tail[idx - |front| := val]))
               else None
  {
    if 0 <= idx < |front| {
      FrontIndex(|front|, idx);
      TrieUpdateAt(front, ShiftFrom(|front|, 5), [], idx, val);
    }
  }

  /** `set` succeeds exactly in bounds, and then is a sequence update. */
  lemma SetIs<T>(xs: seq<T>, idx: int, val: T)
    ensures Set(Canon(xs), idx, val) == if 0 <= idx < |xs| then Some(Canon(xs[idx := val])) else None
  {
    var front, tail := Split(xs);
    CanonVec(front, tail);
    SetVec(front, tail, idx, val);
    if 0 <= idx < |front| {
      assert xs[idx := val] == front[idx := val] + tail;
      CanonVec(front[idx := val], tail);
    } else if |front| <= idx < |xs| {
      assert xs[idx := val] == front + tail[idx - |front| := val];
      CanonVec(front, tail[idx - |front| := val]);
    }
  }

  lemma PushVec<T>(front: seq<T>, tail: seq<T>, x: T)
    requires Halves(front, tail) && Shaped(Vec(front, tail).root, Vec(front, tail).shift)
    ensures Push(Vec(front, tail), x) == Some(if |tail| < 32 then Vec(front, tail + [x]) else Vec(front + tail, [x]))
  {
    if |tail| == 32 {
      PushLeafIs(front, tail);
    }
  }

  /** `push` never panics and appends, whatever the tail and the trie look like. */
  lemma PushIs<T>(xs: seq<T>, x: T)
    ensures Shaped(Canon(xs).root, Canon(xs).shift)
    ensures Push(Canon(xs), x) == Some(Canon(xs + [x]))
  {
    var front, tail := Split(xs);
    CanonVec(front, tail);
    VecShaped(front, tail);
    PushVec(front, tail, x);
    if |tail| < 32 {
      assert xs + [x] == front + (tail + [x]);
      CanonVec(front, tail + [x]);
    } else {
      assert xs + [x] == (front + tail) + [x];
      CanonVec(front + tail, [x]);
    }
  }

  lemma PopVecTail<T>(front: seq<T>, tail: seq<T>, x: T)
    requires tail != []
    ensures Pop(Vec(front, tail + [x])) == Some((Vec(front, tail), x))
  {
    assert Init(tail + [x]) == tail;
  }

  lemma PopVecTrie<T>(front: seq<T>, leaf: seq<T>, x: T)
    requires |front| % 32 == 0 && |leaf| == 32
    ensures Pop(Vec(front + leaf, [x])) == Some((Vec(front, leaf), x))
  {
    PopLeafIs(front, leaf);
  }

  lemma PopSnoc<T>(xs: seq<T>, x: T)
    ensures Pop(Canon(xs + [x])) == Some((Canon(xs), x))
  {
    var front, tail := Split(xs);
    CanonVec(front, tail);
    if tail == [] {
      PopSingleton(x);
      assert xs == [] && xs + [x] == [x];
    } else if |tail| < 32 {
      assert xs + [x] == front + (tail + [x]);
      CanonVec(front, tail + [x]);
      PopVecTail(front, tail, x);
    } else {
      assert xs + [x] == (front + tail) + [x];
      CanonVec(front + tail, [x]);
      PopVecTrie(front, tail, x);
    }
  }

  /** `pop` panics exactly on the empty vector, and otherwise takes off the last element. */
  lemma PopIs<T>(xs: seq<T>)
    ensures Pop(Canon(xs)) ==
              if xs == [] then None else Some((Canon(xs[..|xs| - 1]), xs[|xs| - 1]))
  {
    if xs != [] {
      assert xs[..|xs| - 1] + [xs[|xs| - 1]] == xs;
      PopSnoc(xs[..|xs| - 1], xs[|xs| - 1]);
    }
  }

  lemma PopSingleton<T>(x: T)
    ensures Pop(Canon([x])) == Some((Canon([]), x))
  {
    assert [x][..0] == [] && [x][0..] == [x];
  }

  /** One-level collapse restores the tight root shift. */
  lemma PopLeafIs<T>(front: seq<T>, leaf: seq<T>)
    requires |front| % 32 == 0 && |leaf| == 32
    ensures var r := PopDown(CanonRoot(front + leaf), CanonShift(|front| + 32), []);
            && r.Some? && r.value.1 == leaf
            && (front == [] ==> r.value.0 == TrieEmpty)
            && (front != [] ==> !r.value.0.TrieEmpty?)
            && (front != [] ==> CollapseRoot(r.value.0, CanonShift(|front| + 32)) == (CanonRoot(front), CanonShift(|front|)))
  {
    var s := CanonShift(|front| + 32);
    ShiftFromFits(|front| + 32, 5);
    PopDownIs(front, s, [], leaf);
    if front != [] {
      ShiftGrows(|front|);
      CollapseIs(front, s);
    }
  }

  lemma CollapseIs<T>(front: seq<T>, s: nat)
    requires front != [] && |front| % 32 == 0 && s % 5 == 0 && s >= 5
    requires var r := ShiftFrom(|front|, 5);
             r % 5 == 0 && r >= 5 && |front| <= Cap(r) && s == if |front| == Cap(r) then r + 5 else r
    ensures CollapseRoot(Trie(front, s), s) == (CanonRoot(front), CanonShift(|front|))
  {
    var r := ShiftFrom(|front|, 5);
    ShiftFromFits(|front|, 5);
    ChildCount(front, s - 5);
    if s == r && |Children(front, s - 5)| == 1 {
      assert s == 5;
    }
  }

  // ---------------------------------------------------------------- runs

  datatype Op<T> = OpPush(x: T) | OpPop | OpSet(idx: int, x: T)

  function ApplyVec<T>(v: PVec<T>, op: Op<T>): Option<PVec<T>>
    requires Shaped(v.root, v.shift)
  {
    match op
    case OpPush(x) => Push(v, x)
    case OpPop =>
      var (v2, _) :- Pop(v);
      Some(v2)
    case OpSet(idx, x) => Set(v, idx, x)
  }

  /** The same operation on a plain sequence. */
  function ApplySeq<T>(xs: seq<T>, op: Op<T>): Option<seq<T>> {
    match op
    case OpPush(x) => Some(xs + [x])
    case OpPop => if xs == [] then None else Some(xs[..|xs| - 1])
    case OpSet(idx, x) => if 0 <= idx < |xs| then Some(xs[idx := x]) else None
  }

  lemma ApplyIs<T>(xs: seq<T>, op: Op<T>)
    ensures Shaped(Canon(xs).root, Canon(xs).shift)
    ensures ApplyVec(Canon(xs), op)
            == match ApplySeq(xs, op) case Some(ys) => Some(Canon(ys)) case None => None
  {
    CanonShaped(xs);
    match op
    case OpPush(x) => PushIs(xs, x);
    case OpPop =>
      if xs != [] {
        assert xs == xs[..|xs| - 1] + [xs[|xs| - 1]];
        PopIs(xs);
      }
    case OpSet(idx, x) => SetIs(xs, idx, x);
  }

  function RunVec<T>(v: PVec<T>, ops: seq<Op<T>>): Option<PVec<T>>
    requires Canonical(v)
    decreases |ops|
  {
    if ops == [] then Some(v)
    else
      ApplyIs(ToList(v), ops[0]);
      var v2 :- ApplyVec(v, ops[0]);
      CanonIsCanonical(ApplySeq(ToList(v), ops[0]).value);
      RunVec(v2, ops[1..])
  }

  function RunSeq<T>(xs: seq<T>, ops: seq<Op<T>>): Option<seq<T>>
    decreases |ops|
  {
    if ops == [] then Some(xs)
    else
      var ys :- ApplySeq(xs, ops[0]);
      RunSeq(ys, ops[1..])
  }

  lemma {:induction false} RunIs<T>(xs: seq<T>, ops: seq<Op<T>>)
    requires Canonical(Canon(xs))
    ensures RunVec(Canon(xs), ops) == match RunSeq(xs, ops) case Some(ys) => Some(Canon(ys)) case None => None
    decreases |ops|
  {
    ToListIs(xs);
    if ops != [] {
      ApplyIs(xs, ops[0]);
      match ApplySeq(xs, ops[0])
      case Some(ys) =>
        CanonIsCanonical(ys);
        RunIs(ys, ops[1..]);
      case None =>
    }
  }

  lemma CanonSize<T>(xs: seq<T>)
    ensures Canon(xs).size == |xs|
  {
  }

  /** Main result: any mix of operations on any built vector panics exactly when the plain
      sequence operation is out of bounds, and otherwise ends in the canonical vector of
      the resulting sequence. */
  lemma VectorRefinesSequence<T>(xs: seq<T>, ops: seq<Op<T>>)
    ensures Canonical(FromList(xs))
    ensures var v, r := RunVec(FromList(xs), ops), RunSeq(xs, ops);
            && (v.Some? <==> r.Some?)
            && (v.Some? ==> v.value == Canon(r.value) == FromList(r.value))
            && (v.Some? ==> ToList(v.value) == r.value && v.value.size == |r.value|)
  {
    hide Canon, FromList, ToList, RunVec, RunSeq;
    FromListIs(xs);
    CanonIsCanonical(xs);
    RunIs(xs, ops);
    if RunSeq(xs, ops).Some? {
      CanonSize(RunSeq(xs, ops).value);
      FromListIs(RunSeq(xs, ops).value);
      ToListIs(RunSeq(xs, ops).value);
    }
  }

  /** `pop(push(v, x))` gives back `v` itself, node for node. */
  lemma PopUndoesPush<T>(v: PVec<T>, x: T)
    requires Canonical(v)
    ensures Shaped(v.root, v.shift) && Push(v, x).Some?
    ensures Pop(Push(v, x).value) == Some((v, x))
  {
    PushIs(ToList(v), x);
    PopSnoc(ToList(v), x);
  }

  /** Bulk construction equals pushing one element at a time. */
  lemma {:induction false} BulkIsPushed<T>(xs: seq<T>, done: seq<T>)
    requires Canonical(Canon(done))
    ensures FromListByPush(xs, Canon(done)) == Some(FromList(done + xs))
    decreases |xs|
  {
    ToListIs(done);
    if xs == [] {
      assert done + xs == done;
      FromListIs(done);
    } else {
      PushIs(done, xs[0]);
      CanonIsCanonical(done + [xs[0]]);
      BulkIsPushed(xs[1..], done + [xs[0]]);
      assert (done + [xs[0]]) + xs[1..] == done + xs;
    }
  }

  // ---------------------------------------------------------------- one shape per length

  lemma {:induction false} TrieSameShape<T, U>(xs: seq<T>, ys: seq<U>, s: nat)
    requires |xs| == |ys|
    ensures ShapeNodeEq(Trie(xs, s), Trie(ys, s))
    decreases s, 0
  {
    if s >= 5 {
      ChildrenSameShape(xs, ys, s - 5);
    }
  }

  lemma {:induction false} ChildrenSameShape<T, U>(xs: seq<T>, ys: seq<U>, s: nat)
    requires |xs| == |ys|
    ensures ShapeChildrenEq(Children(xs, s), Children(ys, s))
    decreases s, 1 + |xs|
  {
    var C := Cap(s);
    if |xs| <= C {
      TrieSameShape(xs, ys, s);
      assert ShapeChildrenEq<T, U>([Trie(xs, s)][1..], [Trie(ys, s)][1..]);
    } else {
      TrieSameShape(xs[..C], ys[..C], s);
      ChildrenSameShape(xs[C..], ys[C..], s);
      assert Children(xs, s)[1..] == Children(xs[C..], s);
      assert Children(ys, s)[1..] == Children(ys[C..], s);
    }
  }

  /** `debug_same_shape` holds of two built vectors exactly when they are equally long. */
  lemma SameShapeIffSameLength<T, U>(xs: seq<T>, ys: seq<U>)
    ensures DebugSameShape(Canon(xs), Canon(ys)) <==> |xs| == |ys|
  {
    if |xs| == |ys| {
      var k := |xs| - TailLen(|xs|);
      if k > 0 {
        TrieSameShape(xs[..k], ys[..k], ShiftFrom(k, 5));
      }
    }
  }
}
