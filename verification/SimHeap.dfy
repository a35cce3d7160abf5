/** Reference counts under a tree walk that rewrites in place or copies
    (assets/explainer/sim-heap.js). Time is real. The page's drawing fields (rows, the
    cursor's previous cell, when a count was raised) are left out; `log` is a history of
    the visits that the page does not keep. */
module SimHeap {
  import opened Integers
  import opened Options
  import opened Simulations
  import Clocks

  datatype Mode = Owned | Shared | Vault | Parallel

  datatype Cell = Cell(rc: int, visitedAt: Option<real>, rewritten: bool)

  datatype Cursor = Cursor(order: seq<nat>, k: int, t: real, done: bool, at: nat)

  datatype Config = Config(depth: nat, visitS: real, holdS: real, plumbing: int)

  datatype State = State(t: real, mode: Option<Mode>, cells: seq<Cell>, copies: map<nat, real>, cursors: seq<Cursor>,
                         holders: int, startedAt: real, allocs: int, incs: int, tasks: int, plumbing: int,
                         log: seq<nat>)

  // ---------------------------------------------------------------- the tree

  /** The cells of a complete tree (see `CellCountIs`). */
  function CellCount(depth: nat): nat {
    if depth == 0 then 1 else 2 * CellCount(depth - 1) + 1
  }

  function Children(n: nat, i: nat): seq<nat> {
    if 2 * i + 2 < n then [2 * i + 1, 2 * i + 2] else []
  }

  /** The subtree under `i`: the cell, then its left, then its right. */
  function Preorder(n: nat, i: nat): seq<nat>
    decreases n - i
  {
    if 2 * i + 2 < n then [i] + Preorder(n, 2 * i + 1) + Preorder(n, 2 * i + 2) else [i]
  }

  // ---------------------------------------------------------------- one call at a time

  function FreshCells(n: nat): seq<Cell> {
    seq(n, _ => Cell(1, None, false))
  }

  function Create(cfg: Config): State {
    State(0.0, None, FreshCells(CellCount(cfg.depth)), map[], [], 1, 0.0, 0, 0, 0, 0, [])
  }

  function Reset(s: State): State {
    State(s.t, None, FreshCells(|s.cells|), map[], [], 1, s.t, 0, 0, 0, 0, [])
  }

  function CursorFrom(n: nat, i: nat): Cursor {
    Cursor(Preorder(n, i), -1, 0.0, false, i)
  }

  /** Where the cursors of a run begin. */
  function Roots(n: nat, mode: Mode): seq<nat> {
    if mode == Parallel then Children(n, 0) else [0]
  }

  function CursorsFrom(n: nat, roots: seq<nat>): seq<Cursor>
    ensures |CursorsFrom(n, roots)| == |roots|
    ensures forall c :: 0 <= c < |roots| ==> CursorsFrom(n, roots)[c] == CursorFrom(n, roots[c])
  {
    if roots == [] then [] else [CursorFrom(n, roots[0])] + CursorsFrom(n, roots[1..])
  }

  predicate Copies(mode: Option<Mode>) {
    mode == Some(Shared) || mode == Some(Vault)
  }

  function Start(cfg: Config, s: State, mode: Mode): State
    requires s.cells != []
  {
    var r := Reset(s).(mode := Some(mode), cursors := CursorsFrom(|s.cells|, Roots(|s.cells|, mode)));
    if Copies(Some(mode)) then r.(holders := 2, cells := r.cells[0 := r.cells[0].(rc := 2)])
    else if mode == Parallel then r.(tasks := 2, plumbing := cfg.plumbing)
    else r
  }

  function IncRc(cells: seq<Cell>, i: nat): seq<Cell>
    requires i < |cells|
  {
    cells[i := cells[i].(rc := cells[i].rc + 1)]
  }

  /** What a frame leaves as it is: the tree's size, the run and its clock. */
  predicate SameRun(s: State, r: State) {
    && |r.cells| == |s.cells| && |r.cursors| == |s.cursors| && r.mode == s.mode && r.t == s.t && r.startedAt == s.startedAt
    && r.holders == s.holders && r.tasks == s.tasks && r.plumbing == s.plumbing
  }

  /** Cell `i` is rewritten, or copied with one more reference to each of its children. */
  function Visit(s: State, i: nat): (r: State)
    requires i < |s.cells|
    ensures SameRun(s, r) && r.cursors == s.cursors && r.log == s.log + [i]
  {
    var seen := s.cells[i := s.cells[i].(visitedAt := Some(s.t))];
    if Copies(s.mode) then
      var s1 := s.(copies := s.copies[i := s.t], allocs := s.allocs + 1, log := s.log + [i]);
      if 2 * i + 2 < |seen|
      then s1.(cells := IncRc(IncRc(seen, 2 * i + 1), 2 * i + 2), incs := s.incs + 2)
      else s1.(cells := seen)
    else s.(cells := seen[i := seen[i].(rewritten := true)], log := s.log + [i])
  }

  /** A cursor stands at the cell it has reached, before its walk at the first and after it at
      the last. */
  predicate Standing(cur: Cursor) {
    cur.order != [] && cur.at == cur.order[if cur.k < 0 then 0 else if cur.k < |cur.order| then cur.k else |cur.order| - 1]
  }

  predicate CursorOk(n: nat, cur: Cursor) {
    && (forall i :: i in cur.order ==> i < n)
    && -1 <= cur.k <= |cur.order| && Standing(cur) && (cur.done <==> cur.k == |cur.order|)
  }

  /** There is a root, and every cursor walks existing cells. */
  predicate InTree(s: State) {
    s.cells != [] && forall c :: 0 <= c < |s.cursors| ==> CursorOk(|s.cells|, s.cursors[c])
  }

  /** Same run, same cursors but for the progress of cursor `c`. */
  predicate OnlyCursor(s: State, r: State, c: nat) {
    && SameRun(s, r)
    && (forall d :: 0 <= d < |s.cursors| ==> r.cursors[d].order == s.cursors[d].order)
    && (forall d :: 0 <= d < |s.cursors| && d != c ==> r.cursors[d] == s.cursors[d])
  }

  /** Cursor `c` goes on to the next cell of its walk, or is done. */
  function Move(s: State, c: nat, t: real): (r: State)
    requires InTree(s) && c < |s.cursors| && !s.cursors[c].done
    ensures InTree(r) && OnlyCursor(s, r, c) && r.cursors[c].k == s.cursors[c].k + 1
  {
    var cur := s.cursors[c];
    var k := cur.k + 1;
    if k >= |cur.order| then s.(cursors := s.cursors[c := cur.(k := k, t := 0.0, done := true)])
    else
      var i := cur.order[k];
      assert i in cur.order;
      Visit(s.(cursors := s.cursors[c := cur.(k := k, t := t, at := i)]), i)
  }

  /** What the next move costs: the hold at the start of the walk, then one visit each. */
  function Cost(cfg: Config, cur: Cursor): real {
    if cur.k < 0 then cfg.holdS else cfg.visitS
  }

  /** The moves that fit in the time the cursor has saved up. */
  function Drive(cfg: Config, s: State, c: nat): (r: State)
    requires InTree(s) && c < |s.cursors|
    ensures InTree(r) && OnlyCursor(s, r, c)
    decreases |s.cursors[c].order| - s.cursors[c].k
  {
    var cur := s.cursors[c];
    if cur.done || cur.t < Cost(cfg, cur) then s else Drive(cfg, Move(s, c, cur.t - Cost(cfg, cur)), c)
  }

  function AddTime(s: State, c: nat, dt: real): (r: State)
    requires InTree(s) && c < |s.cursors|
    ensures InTree(r) && OnlyCursor(s, r, c) && r.cursors[c] == s.cursors[c].(t := s.cursors[c].t + dt)
  {
    s.(cursors := s.cursors[c := s.cursors[c].(t := s.cursors[c].t + dt)])
  }

  function StepCursor(cfg: Config, s: State, c: nat, dt: real): (r: State)
    requires InTree(s) && c < |s.cursors|
    ensures InTree(r) && OnlyCursor(s, r, c)
  {
    if s.cursors[c].done then s else Drive(cfg, AddTime(s, c, dt), c)
  }

  function StepCursors(cfg: Config, s: State, c: nat, dt: real): (r: State)
    requires InTree(s) && c <= |s.cursors|
    ensures InTree(r) && SameRun(s, r)
    decreases |s.cursors| - c
  {
    if c == |s.cursors| then s else StepCursors(cfg, StepCursor(cfg, s, c, dt), c + 1, dt)
  }

  predicate AllDone(s: State) {
    forall c :: 0 <= c < |s.cursors| ==> s.cursors[c].done
  }

  /** The root of a parallel run, once both halves are back. */
  function Rebuild(s: State): (r: State)
    requires InTree(s)
    ensures InTree(r) && SameRun(s, r) && r.cursors == s.cursors
  {
    if s.mode == Some(Parallel) && s.cursors != [] && AllDone(s) && !s.cells[0].rewritten then Visit(s, 0) else s
  }

  /** One frame of a run that has begun. */
  function Frame(cfg: Config, s: State, dt: real): (r: State)
    requires InTree(s)
    ensures InTree(r) && SameRun(s, r)
  {
    Rebuild(StepCursors(cfg, s, 0, dt))
  }

  function Step(cfg: Config, s: State, dt0: real): (r: State)
    requires InTree(s)
    ensures InTree(r) && SameRun(s, r.(t := s.t))
  {
    var dt := Capped(dt0);
    var s1 := s.(t := s.t + dt);
    if s.mode.None? then s1 else Frame(cfg, s1, dt)
  }

  // ---------------------------------------------------------------- the order of the walk

  /** `j` is in the subtree of `i`. */
  predicate Under(i: nat, j: nat)
    decreases j
  {
    j == i || (j > i && Under(i, (j - 1) / 2))
  }

  lemma {:induction false} UnderRoot(j: nat)
    ensures Under(0, j)
  {
    if j > 0 { UnderRoot((j - 1) / 2); }
  }

  lemma {:induction false} UnderIsLater(i: nat, j: nat)
    requires Under(i, j)
    ensures i <= j
  {
  }

  lemma {:induction false} UnderSplit(i: nat, j: nat)
    ensures Under(i, j) <==> j == i || Under(2 * i + 1, j) || Under(2 * i + 2, j)
    ensures !(Under(2 * i + 1, j) && Under(2 * i + 2, j))
    ensures Under(2 * i + 1, j) || Under(2 * i + 2, j) ==> j > i
    decreases j
  {
    if j > i { UnderSplit(i, (j - 1) / 2); }
  }

  ghost predicate NoDup(xs: seq<nat>) {
    forall p, q :: 0 <= p < q < |xs| ==> xs[p] != xs[q]
  }

  ghost predicate ParentBefore(xs: seq<nat>, q: nat)
    requires q < |xs|
  {
    xs[q] > 0 && (xs[q] - 1) / 2 in xs[..q]
  }

  /** Every cell but the first comes after its parent. */
  ghost predicate ParentsFirst(xs: seq<nat>) {
    forall q :: 0 < q < |xs| ==> ParentBefore(xs, q)
  }

  lemma InAppend(a: seq<nat>, b: seq<nat>, c: seq<nat>, j: nat)
    ensures j in a + b + c <==> j in a || j in b || j in c
  {
  }

  /** The walk visits the cells of the subtree and no others. */
  lemma {:induction false} PreorderHas(n: nat, i: nat, j: nat)
    requires n % 2 == 1 && i < n
    ensures j in Preorder(n, i) <==> j < n && Under(i, j)
    decreases n - i
  {
    UnderSplit(i, j);
    if 2 * i + 2 < n {
      PreorderHas(n, 2 * i + 1, j);
      PreorderHas(n, 2 * i + 2, j);
      InAppend([i], Preorder(n, 2 * i + 1), Preorder(n, 2 * i + 2), j);
    } else if Under(2 * i + 1, j) {
      UnderIsLater(2 * i + 1, j);
    } else if Under(2 * i + 2, j) {
      UnderIsLater(2 * i + 2, j);
    }
  }

  lemma NoDupAppend(i: nat, b: seq<nat>, c: seq<nat>)
    requires NoDup(b) && NoDup(c) && i !in b && i !in c && forall j :: j in b ==> j !in c
    ensures NoDup([i] + b + c)
  {
    var w := [i] + b + c;
    forall p, q | 0 <= p < q < |w| ensures w[p] != w[q] {
      if 0 < p <= |b| < q { assert w[p] in b && w[q] in c; }
    }
  }

  /** It visits none of them twice. */
  lemma {:induction false} PreorderNoDup(n: nat, i: nat)
    requires n % 2 == 1 && i < n
    ensures NoDup(Preorder(n, i))
    decreases n - i
  {
    if 2 * i + 2 < n {
      var b, c := Preorder(n, 2 * i + 1), Preorder(n, 2 * i + 2);
      PreorderNoDup(n, 2 * i + 1);
      PreorderNoDup(n, 2 * i + 2);
      forall j ensures !(j in b && j in c) && (j in b || j in c ==> j > i) {
        if j >= 0 {
          PreorderHas(n, 2 * i + 1, j);
          PreorderHas(n, 2 * i + 2, j);
          UnderSplit(i, j);
        }
      }
      NoDupAppend(i, b, c);
    }
  }

  lemma PreorderHead(n: nat, i: nat)
    ensures Preorder(n, i) != [] && Preorder(n, i)[0] == i
  {
  }

  lemma ParentsAppend(i: nat, b: seq<nat>, c: seq<nat>)
    requires b != [] && c != [] && b[0] == 2 * i + 1 && c[0] == 2 * i + 2
    requires ParentsFirst(b) && ParentsFirst(c)
    ensures ParentsFirst([i] + b + c)
  {
    var w := [i] + b + c;
    forall q | 0 < q < |w| ensures ParentBefore(w, q) {
      if q <= |b| { ParentLeft(i, b, c, q - 1); } else { ParentRight(i, b, c, q - 1 - |b|); }
    }
  }

  lemma ParentLeft(i: nat, b: seq<nat>, c: seq<nat>, k: nat)
    requires k < |b| && b[0] == 2 * i + 1 && ParentsFirst(b)
    ensures ParentBefore([i] + b + c, k + 1)
  {
    var w := [i] + b + c;
    assert w[k + 1] == b[k];
    if k == 0 {
      assert w[..1][0] == i;
    } else {
      assert ParentBefore(b, k);
      PrefixKeeps([i], b, k, c, (b[k] - 1) / 2);
    }
  }

  lemma ParentRight(i: nat, b: seq<nat>, c: seq<nat>, k: nat)
    requires k < |c| && c[0] == 2 * i + 2 && ParentsFirst(c)
    ensures ParentBefore([i] + b + c, k + 1 + |b|)
  {
    var w := [i] + b + c;
    assert w[k + 1 + |b|] == c[k];
    if k == 0 {
      assert w[..1 + |b|][0] == i;
    } else {
      assert ParentBefore(c, k);
      PrefixKeeps([i] + b, c, k, [], (c[k] - 1) / 2);
      assert [i] + b + c + [] == w;
    }
  }

  lemma PrefixKeeps(a: seq<nat>, b: seq<nat>, k: nat, c: seq<nat>, x: nat)
    requires k <= |b| && x in b[..k]
    ensures x in (a + b + c)[..|a| + k]
  {
    var p :| 0 <= p < k && b[p] == x;
    assert (a + b + c)[..|a| + k][|a| + p] == x;
  }

  /** It visits parents before their children. */
  lemma {:induction false} PreorderParentsFirst(n: nat, i: nat)
    ensures ParentsFirst(Preorder(n, i))
    decreases n - i
  {
    if 2 * i + 2 < n {
      PreorderParentsFirst(n, 2 * i + 1);
      PreorderParentsFirst(n, 2 * i + 2);
      PreorderHead(n, 2 * i + 1);
      PreorderHead(n, 2 * i + 2);
      ParentsAppend(i, Preorder(n, 2 * i + 1), Preorder(n, 2 * i + 2));
    }
  }

  /** The ancestors of a cell are in line. */
  lemma {:induction false} InLine(x: nat, y: nat, j: nat)
    requires Under(x, j) && Under(y, j) && x <= y
    ensures Under(x, y)
    decreases j
  {
    if j > y { InLine(x, y, (j - 1) / 2); }
  }

  /** Two cells on either side of one cell are on the same sides of no other. */
  lemma SidesOnce(i: nat, k: nat, a: nat, b: nat)
    requires Under(2 * i + 1, a) && Under(2 * i + 2, b)
    ensures !(Under(2 * k + 2, a) && Under(2 * k + 1, b))
  {
    UnderSplit(i, a);
    UnderSplit(i, b);
    if Under(2 * k + 2, a) && Under(2 * k + 1, b) {
      UnderSplit(k, a);
      UnderSplit(k, b);
      if k < i { Below(k, i, b, a); } else if i < k { Below(i, k, a, b); }
    }
  }

  /** A cell that cells on both sides of `k` are under is not below `k`. */
  lemma Below(k: nat, i: nat, a: nat, b: nat)
    requires Under(2 * k + 1, a) && Under(2 * k + 2, b) && Under(i, a) && Under(i, b)
    ensures i <= k
  {
    if k < i {
      if 2 * k + 1 <= i { InLine(2 * k + 1, i, a); } else { InLine(i, 2 * k + 1, a); UnderIsLater(i, k); }
      if 2 * k + 2 <= i { InLine(2 * k + 2, i, b); } else { InLine(i, 2 * k + 2, b); }
      UnderSplit(k, i);
    }
  }

  /** Of two cells on either side of a third, the one on the left comes first. */
  ghost predicate LeftFirst(xs: seq<nat>, p: nat, q: nat, k: nat)
    requires p < q < |xs|
  {
    !(Under(2 * k + 2, xs[p]) && Under(2 * k + 1, xs[q]))
  }

  lemma {:induction false} PreorderLeftFirst(n: nat, i: nat, p: nat, q: nat, k: nat)
    requires n % 2 == 1 && i < n && p < q < |Preorder(n, i)|
    ensures LeftFirst(Preorder(n, i), p, q, k)
    decreases n - i
  {
    if 2 * i + 2 < n {
      var w, b, c := Preorder(n, i), Preorder(n, 2 * i + 1), Preorder(n, 2 * i + 2);
      if p == 0 {
        if Under(2 * k + 2, i) && Under(2 * k + 1, w[q]) {
          PreorderHas(n, i, w[q]);
          UnderTrans(2 * k + 2, i, w[q]);
          UnderSplit(k, w[q]);
        }
      } else if q <= |b| {
        PreorderLeftFirst(n, 2 * i + 1, p - 1, q - 1, k);
      } else if p > |b| {
        PreorderLeftFirst(n, 2 * i + 2, p - 1 - |b|, q - 1 - |b|, k);
      } else {
        assert w[p] in b && w[q] in c;
        PreorderHas(n, 2 * i + 1, w[p]);
        PreorderHas(n, 2 * i + 2, w[q]);
        SidesOnce(i, k, w[p], w[q]);
      }
    }
  }

  lemma {:induction false} UnderTrans(x: nat, y: nat, z: nat)
    requires Under(x, y) && Under(y, z)
    ensures Under(x, z)
    decreases z
  {
    UnderIsLater(x, y);
    if z > y { UnderTrans(x, y, (z - 1) / 2); UnderIsLater(x, (z - 1) / 2); }
  }

  lemma {:induction false} CellCountIs(depth: nat)
    ensures CellCount(depth) == Power(2, depth + 1) - 1
  {
    if depth > 0 { CellCountIs(depth - 1); }
  }

  lemma {:induction false} CellCountOdd(depth: nat)
    ensures CellCount(depth) % 2 == 1 && (depth > 0 ==> CellCount(depth) >= 3)
  {
    if depth > 0 { CellCountOdd(depth - 1); }
  }

  /** The whole walk: each cell exactly once, parents before children and what is to the left
      of a cell before what is to its right. */
  lemma PreorderIs(depth: nat)
    ensures var n, w := CellCount(depth), Preorder(CellCount(depth), 0);
            && NoDup(w) && ParentsFirst(w) && |w| == n && (forall j: nat :: j in w <==> j < n)
            && forall p, q, k: nat {:trigger LeftFirst(w, p, q, k)} :: 0 <= p < q < n ==> LeftFirst(w, p, q, k)
  {
    var n := CellCount(depth);
    var w := Preorder(n, 0);
    CellCountOdd(depth);
    PreorderNoDup(n, 0);
    PreorderParentsFirst(n, 0);
    forall j: nat ensures j in w <==> j < n {
      PreorderHas(n, 0, j);
      UnderRoot(j);
    }
    CountOnce(w, n);
    forall p, q, k: nat | 0 <= p < q < n ensures LeftFirst(w, p, q, k) {
      PreorderLeftFirst(n, 0, p, q, k);
    }
  }

  lemma HasElement(w: seq<nat>)
    requires w != []
    ensures exists j: nat :: j in w
  {
    assert w[0] in w;
  }

  lemma {:induction false} CountOnce(w: seq<nat>, n: nat)
    requires NoDup(w) && forall j: nat :: j in w <==> j < n
    ensures |w| == n
  {
    if n == 0 {
      if w != [] { HasElement(w); }
    } else {
      var last: nat := n - 1;
      assert last in w;
      var p :| 0 <= p < |w| && w[p] == last;
      var v := w[..p] + w[p + 1..];
      forall j: nat ensures j in v <==> j < n - 1 {
        if j in w && j != n - 1 { var q :| 0 <= q < |w| && w[q] == j; assert v[if q < p then q else q - 1] == j; }
      }
      CountOnce(v, n - 1);
    }
  }

  // ---------------------------------------------------------------- what a visit keeps

  /** References beyond the first, over the cells from `i` on. */
  function Extra(cells: seq<Cell>, i: nat): int
    decreases |cells| - i
  {
    if i >= |cells| then 0 else cells[i].rc - 1 + Extra(cells, i + 1)
  }

  ghost predicate CountOk(s: State, i: nat)
    requires i < |s.cells|
  {
    s.cells[i].rc == if !Copies(s.mode) then 1 else if i == 0 || (i - 1) / 2 in s.log then 2 else 1
  }

  ghost predicate CellOk(s: State, i: nat)
    requires i < |s.cells|
  {
    && (s.cells[i].visitedAt.Some? <==> i in s.log)
    && (s.cells[i].rewritten <==> i in s.log && !Copies(s.mode))
    && CountOk(s, i)
  }

  ghost predicate LogOk(s: State, i: nat) {
    (i in s.log ==> i < |s.cells|) && (i in s.copies <==> Copies(s.mode) && i in s.log)
  }

  /** What the visits so far have done. In place: nothing allocated, nothing counted, the
      visited cells rewritten. Copying: a copy of each visited cell, a second reference to
      the root and to each child of a visited cell, every increment accounted for. */
  ghost predicate Facts(s: State) {
    && |s.cells| % 2 == 1 && NoDup(s.log)
    && (forall i: nat :: LogOk(s, i))
    && (forall i :: 0 <= i < |s.cells| ==> CellOk(s, i))
    && s.incs == Extra(s.cells, 1)
    && s.allocs == (if Copies(s.mode) then |s.log| else 0)
    && s.holders == (if Copies(s.mode) then 2 else 1)
  }

  lemma {:induction false} ExtraUpdate(cells: seq<Cell>, i: nat, k: nat, c: Cell)
    requires k < |cells|
    ensures Extra(cells[k := c], i) == Extra(cells, i) + if i <= k then c.rc - cells[k].rc else 0
    decreases |cells| - i
  {
    if i < |cells| { ExtraUpdate(cells, i + 1, k, c); }
  }

  lemma VisitExtra(s: State, i: nat)
    requires i < |s.cells|
    ensures Extra(Visit(s, i).cells, 1) - Extra(s.cells, 1) == Visit(s, i).incs - s.incs
  {
    var seen := s.cells[i := s.cells[i].(visitedAt := Some(s.t))];
    ExtraUpdate(s.cells, 1, i, seen[i]);
    if !Copies(s.mode) {
      ExtraUpdate(seen, 1, i, seen[i].(rewritten := true));
    } else if 2 * i + 2 < |seen| {
      var l, r := 2 * i + 1, 2 * i + 2;
      ExtraUpdate(seen, 1, l, seen[l].(rc := seen[l].rc + 1));
      var c := IncRc(seen, l);
      ExtraUpdate(c, 1, r, c[r].(rc := c[r].rc + 1));
    }
  }

  lemma VisitCell(s: State, i: nat, j: nat)
    requires Facts(s) && i < |s.cells| && i !in s.log && j < |s.cells|
    ensures CellOk(Visit(s, i), j)
  {
    var r := Visit(s, i);
    assert CellOk(s, j);
    assert j in r.log <==> j in s.log || j == i;
    if j > 0 { assert (j - 1) / 2 in r.log <==> (j - 1) / 2 in s.log || (j - 1) / 2 == i; }
  }

  lemma VisitKeeps(s: State, i: nat)
    requires Facts(s) && i < |s.cells| && i !in s.log
    ensures Facts(Visit(s, i))
  {
    var r := Visit(s, i);
    VisitExtra(s, i);
    forall j | 0 <= j < |r.cells| ensures CellOk(r, j) {
      VisitCell(s, i, j);
    }
    forall j: nat ensures LogOk(r, j) {
      assert LogOk(s, j);
      assert j in r.log <==> j in s.log || j == i;
    }
  }

  // ---------------------------------------------------------------- what the cursors keep

  /** The cells a cursor has visited. */
  function Seen(cur: Cursor): seq<nat> {
    if cur.k < 0 then [] else if cur.k < |cur.order| then cur.order[..cur.k + 1] else cur.order
  }

  ghost predicate RootDone(s: State) {
    s.mode == Some(Parallel) && s.cells != [] && s.cells[0].rewritten
  }

  ghost predicate RootLast(s: State) {
    s.log != [] && s.log[|s.log| - 1] == 0
  }

  ghost predicate CoverOk(s: State, i: nat)
    requires |s.cursors| == 2
  {
    i in s.log <==> i in Seen(s.cursors[0]) || i in Seen(s.cursors[1]) || (i == 0 && RootDone(s))
  }

  /** A cell has been visited exactly when a cursor has passed it, or it is the root of a
      finished parallel run; a single cursor's visits are in the order of its walk. */
  ghost predicate Covered(s: State) {
    match s.mode
    case None => s.cursors == [] && s.log == []
    case Some(Parallel) =>
      if |s.cursors| == 2
      then forall i: nat :: CoverOk(s, i)
      else s.cursors == [] && s.log == [] && !RootDone(s)
    case Some(_) => |s.cursors| == 1 && s.log == Seen(s.cursors[0])
  }

  ghost predicate Walks(s: State, c: nat, root: nat)
    requires c < |s.cursors|
  {
    s.cursors[c].order == Preorder(|s.cells|, root)
  }

  /** The cursors walk the subtrees the mode gives them. */
  ghost predicate Walking(s: State) {
    && InTree(s) && Covered(s)
    && (s.mode.Some? ==>
          var roots := Roots(|s.cells|, s.mode.value);
          |s.cursors| == |roots| && forall c :: 0 <= c < |roots| ==> Walks(s, c, roots[c]))
    && (RootDone(s) ==> AllDone(s) && RootLast(s))
  }

  ghost predicate Inv(s: State) {
    Facts(s) && Walking(s)
  }

  /** Two cursors never meet, and neither meets the root of a parallel run. */
  lemma WalksApart(n: nat, mode: Mode, c: nat, d: nat, i: nat)
    requires n % 2 == 1 && c < |Roots(n, mode)| && d < |Roots(n, mode)|
    requires i in Preorder(n, Roots(n, mode)[c])
    ensures mode == Parallel ==> i != 0
    ensures c != d ==> i !in Preorder(n, Roots(n, mode)[d])
  {
    if mode == Parallel {
      PreorderHas(n, 1, i);
      PreorderHas(n, 2, i);
      UnderSplit(0, i);
    }
  }

  lemma WalkedBy(s: State, c: nat)
    requires Walking(s) && c < |s.cursors|
    ensures s.mode.Some? && c < |Roots(|s.cells|, s.mode.value)|
    ensures s.cursors[c].order == Preorder(|s.cells|, Roots(|s.cells|, s.mode.value)[c])
  {
    assert Walks(s, c, Roots(|s.cells|, s.mode.value)[c]);
  }

  lemma NotSeen(s: State, c: nat, d: nat, i: nat)
    requires Inv(s) && c < |s.cursors| && d < |s.cursors|
    requires s.cursors[c].k + 1 < |s.cursors[c].order| && i == s.cursors[c].order[s.cursors[c].k + 1]
    ensures i !in Seen(s.cursors[d]) && (s.mode == Some(Parallel) ==> i != 0)
  {
    var n, mode := |s.cells|, s.mode.value;
    WalkedBy(s, c);
    WalkedBy(s, d);
    assert i in s.cursors[c].order;
    PreorderNoDup(n, Roots(n, mode)[c]);
    WalksApart(n, mode, c, d, i);
  }

  /** The next cell on a cursor's way has not been visited. */
  lemma NextIsNew(s: State, c: nat, i: nat)
    requires Inv(s) && c < |s.cursors|
    requires s.cursors[c].k + 1 < |s.cursors[c].order| && i == s.cursors[c].order[s.cursors[c].k + 1]
    ensures i !in s.log && (s.mode == Some(Parallel) ==> i != 0)
  {
    forall d: nat | d < |s.cursors| ensures i !in Seen(s.cursors[d]) && (s.mode == Some(Parallel) ==> i != 0) {
      NotSeen(s, c, d, i);
    }
    if s.mode == Some(Parallel) { assert CoverOk(s, i); }
  }

  lemma SeenGrows(cur: Cursor, next: Cursor)
    requires -1 <= cur.k < |cur.order| && next.order == cur.order && next.k == cur.k + 1
    ensures Seen(next) == Seen(cur) + if next.k < |cur.order| then [cur.order[next.k]] else []
  {
  }

  ghost predicate SameOrders(s: State, r: State) {
    |r.cursors| == |s.cursors| && forall c :: 0 <= c < |s.cursors| ==> r.cursors[c].order == s.cursors[c].order
  }

  lemma WalksOn(s: State, r: State)
    requires |r.cells| == |s.cells| && r.mode == s.mode && SameOrders(s, r) && Walking(s) && s.mode.Some?
    ensures var roots := Roots(|r.cells|, r.mode.value);
            |r.cursors| == |roots| && forall d :: 0 <= d < |roots| ==> Walks(r, d, roots[d])
  {
    var roots := Roots(|s.cells|, s.mode.value);
    forall d | 0 <= d < |roots| ensures Walks(r, d, roots[d]) {
      assert Walks(s, d, roots[d]);
    }
  }

  lemma MoveVisits(s: State, c: nat, t: real)
    requires Inv(s) && c < |s.cursors| && !s.cursors[c].done && s.cursors[c].k + 1 < |s.cursors[c].order|
    ensures Inv(Move(s, c, t))
  {
    var cur, r := s.cursors[c], Move(s, c, t);
    var i := cur.order[cur.k + 1];
    assert i in cur.order;
    NextIsNew(s, c, i);
    var moved := s.(cursors := r.cursors);
    SameFacts(s, moved);
    VisitKeeps(moved, i);
    assert r == Visit(moved, i);
    WalksOn(s, r);
    SeenGrows(cur, r.cursors[c]);
    assert !RootDone(s) && !RootDone(r);
    if s.mode == Some(Parallel) {
      forall j: nat ensures CoverOk(r, j) { assert CoverOk(s, j); }
    }
  }

  lemma MoveEnds(s: State, c: nat, t: real)
    requires Inv(s) && c < |s.cursors| && !s.cursors[c].done && s.cursors[c].k + 1 >= |s.cursors[c].order|
    ensures Inv(Move(s, c, t))
  {
    var r := Move(s, c, t);
    WalksOn(s, r);
    SameFacts(s, r);
    assert Seen(r.cursors[c]) == Seen(s.cursors[c]);
    if s.mode == Some(Parallel) {
      forall j: nat ensures CoverOk(r, j) { assert CoverOk(s, j); }
    }
  }

  lemma MoveKeeps(s: State, c: nat, t: real)
    requires Inv(s) && c < |s.cursors| && !s.cursors[c].done
    ensures Inv(Move(s, c, t))
  {
    if s.cursors[c].k + 1 < |s.cursors[c].order| { MoveVisits(s, c, t); } else { MoveEnds(s, c, t); }
  }

  lemma SameFacts(s: State, r: State)
    requires Facts(s) && r == s.(cursors := r.cursors)
    ensures Facts(r)
  {
    forall j | 0 <= j < |r.cells| ensures CellOk(r, j) { assert CellOk(s, j); }
    forall j: nat ensures LogOk(r, j) { assert LogOk(s, j); }
  }

  lemma AddTimeKeeps(s: State, c: nat, dt: real)
    requires Inv(s) && c < |s.cursors|
    ensures Inv(AddTime(s, c, dt))
  {
    var r := AddTime(s, c, dt);
    SameFacts(s, r);
    WalksOn(s, r);
    CoverStays(s, r);
    if RootDone(s) { assert forall d :: 0 <= d < |r.cursors| ==> s.cursors[d].done; }
  }

  lemma InvTree(s: State)
    requires Inv(s)
    ensures InTree(s)
  {
  }

  lemma {:induction false} DriveKeeps(cfg: Config, s: State, c: nat)
    requires Inv(s) && c < |s.cursors|
    ensures Inv(Drive(cfg, s, c))
    decreases |s.cursors[c].order| - s.cursors[c].k
  {
    hide Inv, Move;
    InvTree(s);
    var cur := s.cursors[c];
    if !cur.done && cur.t >= Cost(cfg, cur) {
      var next := Move(s, c, cur.t - Cost(cfg, cur));
      MoveKeeps(s, c, cur.t - Cost(cfg, cur));
      DriveKeeps(cfg, next, c);
      assert Drive(cfg, s, c) == Drive(cfg, next, c);
    }
  }

  lemma StepCursorKeeps(cfg: Config, s: State, c: nat, dt: real)
    requires Inv(s) && c < |s.cursors|
    ensures Inv(StepCursor(cfg, s, c, dt))
  {
    AddTimeKeeps(s, c, dt);
    DriveKeeps(cfg, AddTime(s, c, dt), c);
  }

  lemma {:induction false} StepCursorsKeeps(cfg: Config, s: State, c: nat, dt: real)
    requires Inv(s) && c <= |s.cursors|
    ensures Inv(StepCursors(cfg, s, c, dt)) && StepCursors(cfg, s, c, dt).mode == s.mode
    decreases |s.cursors| - c
  {
    if c < |s.cursors| {
      StepCursorKeeps(cfg, s, c, dt);
      StepCursorsKeeps(cfg, StepCursor(cfg, s, c, dt), c + 1, dt);
    }
  }

  /** Between calls: the root of a parallel run is rebuilt exactly when both halves are done. */
  ghost predicate Settled(s: State) {
    Inv(s) && (s.mode == Some(Parallel) && s.cursors != [] ==> (AllDone(s) <==> RootDone(s)))
  }

  lemma RebuildSettles(s: State)
    requires Inv(s)
    ensures Settled(Rebuild(s))
  {
    var r := Rebuild(s);
    if r != s {
      RootNotSeen(s, 0);
      RootNotSeen(s, 1);
      assert CoverOk(s, 0);
      VisitKeeps(s, 0);
      WalksOn(s, r);
      forall j: nat ensures CoverOk(r, j) { assert CoverOk(s, j); }
    }
  }

  lemma RootNotSeen(s: State, c: nat)
    requires Inv(s) && s.mode == Some(Parallel) && c < |s.cursors|
    ensures 0 !in Seen(s.cursors[c])
  {
    WalkedBy(s, c);
    if 0 in s.cursors[c].order { WalksApart(|s.cells|, Parallel, c, c, 0); }
  }

  lemma CursorsSettle(cfg: Config, s: State, dt: real)
    requires Inv(s)
    ensures Settled(Frame(cfg, s, dt))
  {
    StepCursorsKeeps(cfg, s, 0, dt);
    RebuildSettles(StepCursors(cfg, s, 0, dt));
  }

  lemma StepRunning(cfg: Config, s: State, dt: real)
    requires Inv(s) && s.mode.Some?
    ensures Settled(Step(cfg, s, dt))
  {
    var s1 := s.(t := s.t + Capped(dt));
    ClockOnly(s, s1);
    CursorsSettle(cfg, s1, Capped(dt));
  }

  lemma StepSettles(cfg: Config, s: State, dt: real)
    requires Settled(s)
    ensures Settled(Step(cfg, s, dt))
  {
    if s.mode.Some? { StepRunning(cfg, s, dt); } else { ClockOnly(s, s.(t := s.t + Capped(dt))); }
  }

  lemma ClockOnly(s: State, r: State)
    requires Inv(s) && r == s.(t := r.t)
    ensures Inv(r)
  {
    forall j | 0 <= j < |r.cells| ensures CellOk(r, j) { assert CellOk(s, j); }
    forall j: nat ensures LogOk(r, j) { assert LogOk(s, j); }
    if s.mode.Some? { WalksOn(s, r); }
    CoverStays(s, r);
  }

  lemma CoverStays(s: State, r: State)
    requires Covered(s) && r.mode == s.mode && r.log == s.log && |r.cursors| == |s.cursors|
    requires RootDone(r) == RootDone(s) && forall c :: 0 <= c < |s.cursors| ==> Seen(r.cursors[c]) == Seen(s.cursors[c])
    ensures Covered(r)
  {
    if s.mode == Some(Parallel) && |s.cursors| == 2 {
      forall j: nat ensures CoverOk(r, j) { assert CoverOk(s, j); }
    }
  }

  lemma {:induction false} ExtraZero(cells: seq<Cell>, i: nat)
    requires forall j :: i <= j < |cells| ==> cells[j].rc == 1
    ensures Extra(cells, i) == 0
    decreases |cells| - i
  {
    if i < |cells| { ExtraZero(cells, i + 1); }
  }

  lemma OrderInTree(n: nat, i: nat, j: nat)
    requires n % 2 == 1 && i < n && j in Preorder(n, i)
    ensures j < n
  {
    PreorderHas(n, i, j);
  }

  /** A run begins with nothing visited. */
  lemma StartSettles(cfg: Config, s: State, mode: Mode)
    requires |s.cells| % 2 == 1
    ensures Settled(Start(cfg, s, mode))
  {
    var r := Start(cfg, s, mode);
    var n := |s.cells|;
    var roots := Roots(n, mode);
    ExtraZero(r.cells, 1);
    forall c | 0 <= c < |r.cursors| ensures CursorOk(n, r.cursors[c]) && r.cursors[c].k == -1 && Walks(r, c, roots[c]) {
      PreorderHead(n, roots[c]);
      forall j | j in r.cursors[c].order ensures j < n { OrderInTree(n, roots[c], j); }
    }
    if r.cursors != [] { assert !r.cursors[0].done; }
    forall j | 0 <= j < n ensures CellOk(r, j) { }
  }

  lemma CreateSettles(cfg: Config)
    ensures Settled(Create(cfg))
  {
    var s := Create(cfg);
    CellCountOdd(cfg.depth);
    ExtraZero(s.cells, 1);
    forall j | 0 <= j < |s.cells| ensures CellOk(s, j) { }
  }

  lemma ResetSettles(s: State)
    requires Settled(s)
    ensures Settled(Reset(s))
  {
    var r := Reset(s);
    ExtraZero(r.cells, 1);
    forall j | 0 <= j < |r.cells| ensures CellOk(r, j) { }
  }

  // ---------------------------------------------------------------- every run

  datatype Event = Begin(mode: Mode) | Tick(dt: real)

  function Apply(cfg: Config, s: State, e: Event): (r: State)
    requires InTree(s) && |s.cells| % 2 == 1
    ensures InTree(r) && |r.cells| == |s.cells|
  {
    match e
    case Begin(mode) =>
      StartSettles(cfg, s, mode);
      Start(cfg, s, mode)
    case Tick(dt) => Step(cfg, s, dt)
  }

  function Run(cfg: Config, s: State, es: seq<Event>): (r: State)
    requires InTree(s) && |s.cells| % 2 == 1
    ensures InTree(r) && |r.cells| == |s.cells|
    decreases |es|
  {
    if es == [] then s else Run(cfg, Apply(cfg, s, es[0]), es[1..])
  }

  /** The invariant, through every run. */
  lemma {:induction false} RunSettled(cfg: Config, s: State, es: seq<Event>)
    requires Settled(s)
    ensures Settled(Run(cfg, s, es))
    decreases |es|
  {
    if es != [] {
      match es[0] {
        case Begin(mode) => StartSettles(cfg, s, mode);
        case Tick(dt) => StepSettles(cfg, s, dt);
      }
      RunSettled(cfg, Apply(cfg, s, es[0]), es[1..]);
    }
  }

  /** At every moment of every run: no cell has been visited twice, the increments are the
      references beyond the first below the root, and a run on a tree with a second holder,
      shared or in a vault, has allocated one cell per visit where an owned or parallel run
      has allocated none. */
  lemma RunAccounts(cfg: Config, es: seq<Event>)
    ensures var s := Run(cfg, Create(cfg), es);
            && NoDup(s.log) && s.incs == Extra(s.cells, 1)
            && (match s.mode
                case Some(Shared) => s.holders == 2 && s.allocs == |s.log|
                case Some(Vault) => s.holders == 2 && s.allocs == |s.log|
                case Some(Owned) => s.holders == 1 && s.allocs == 0
                case Some(Parallel) => s.holders == 1 && s.allocs == 0
                case None => s.holders == 1 && s.allocs == 0)
            && (forall c, d, i :: 0 <= c < d < |s.cursors| ==> !(i in s.cursors[c].order && i in s.cursors[d].order))
            && (RootDone(s) ==> AllDone(s) && RootLast(s))
  {
    CreateSettles(cfg);
    RunSettled(cfg, Create(cfg), es);
    var s := Run(cfg, Create(cfg), es);
    forall c, d, i | 0 <= c < d < |s.cursors| && i in s.cursors[c].order ensures i !in s.cursors[d].order {
      WalkedBy(s, c);
      WalkedBy(s, d);
      WalksApart(|s.cells|, s.mode.value, c, d, i);
    }
  }

  lemma DoneMeansSeen(s: State, i: nat)
    requires Settled(s) && AllDone(s) && s.mode.Some? && i < |s.cells|
    requires s.mode == Some(Parallel) ==> |s.cells| >= 3
    ensures i in s.log
  {
    var n, roots := |s.cells|, Roots(|s.cells|, s.mode.value);
    assert Walks(s, 0, roots[0]);
    UnderRoot(i);
    UnderSplit(0, i);
    if s.mode == Some(Parallel) {
      assert CoverOk(s, i);
      assert Walks(s, 1, roots[1]);
      PreorderHas(n, 1, i);
      PreorderHas(n, 2, i);
      if i > 0 {
        var c := if Under(1, i) then 0 else 1;
        assert i in Seen(s.cursors[c]);
      }
    } else {
      PreorderHas(n, 0, i);
    }
  }

  lemma {:induction false} ExtraTwos(cells: seq<Cell>, i: nat)
    requires i <= |cells| && forall j :: i <= j < |cells| ==> cells[j].rc == 2
    ensures Extra(cells, i) == |cells| - i
    decreases |cells| - i
  {
    if i < |cells| { ExtraTwos(cells, i + 1); }
  }

  /** Every cell visited exactly once. In place: each rewritten, nothing allocated and
      nothing counted. Copying: each copied, one increment per cell but the root, and
      every count two. */
  ghost predicate Finished(s: State, n: nat) {
    && |s.cells| == |s.log| == n && NoDup(s.log) && (forall i :: 0 <= i < n ==> i in s.log)
    && (match s.mode
        case Some(Shared) => Copied(s, n)
        case Some(Vault) => Copied(s, n)
        case Some(Owned) => InPlace(s, n)
        case Some(Parallel) => InPlace(s, n)
        case None => false)
  }

  /** The end of a run that leaves the tree to its second holder and builds another. */
  ghost predicate Copied(s: State, n: nat)
    requires |s.cells| == n
  {
    && s.allocs == n && s.incs == n - 1
    && forall i :: 0 <= i < n ==> i in s.copies && s.cells[i].rc == 2 && !s.cells[i].rewritten
  }

  /** The end of a run that rewrites the tree. */
  ghost predicate InPlace(s: State, n: nat)
    requires |s.cells| == n
  {
    && s.allocs == 0 && s.incs == 0 && s.copies == map[]
    && forall i :: 0 <= i < n ==> s.cells[i].rewritten && s.cells[i].rc == 1
  }

  lemma AllSeenFinished(s: State)
    requires Facts(s) && s.mode.Some? && forall i :: 0 <= i < |s.cells| ==> i in s.log
    ensures Finished(s, |s.cells|)
  {
    forall i: nat ensures (i in s.log <==> i < |s.cells|) && (i in s.copies <==> Copies(s.mode) && i in s.log) {
      assert LogOk(s, i);
    }
    CountOnce(s.log, |s.cells|);
    forall i | 0 <= i < |s.cells| ensures s.cells[i].rc == (if Copies(s.mode) then 2 else 1) && CellOk(s, i) {
      assert CellOk(s, i);
      if i > 0 { assert 0 <= (i - 1) / 2 < |s.cells|; }
    }
    if Copies(s.mode) { ExtraTwos(s.cells, 1); } else { ExtraZero(s.cells, 1); }
  }

  /** Where every finished run ends; the walk is in pre-order, and the root of a parallel
      run comes last. */
  lemma RunOutcome(cfg: Config, es: seq<Event>)
    requires var s := Run(cfg, Create(cfg), es);
             s.mode.Some? && AllDone(s) && (s.mode == Some(Parallel) ==> cfg.depth >= 1)
    ensures var s, n := Run(cfg, Create(cfg), es), CellCount(cfg.depth);
            && n == Power(2, cfg.depth + 1) - 1 && Finished(s, n)
            && (if s.mode == Some(Parallel) then RootLast(s) else s.log == Preorder(n, 0))
  {
    CellCountIs(cfg.depth);
    CreateSettles(cfg);
    RunSettled(cfg, Create(cfg), es);
    CellCountOdd(cfg.depth);
    DoneOutcome(Run(cfg, Create(cfg), es));
  }

  lemma DoneOutcome(s: State)
    requires Settled(s) && AllDone(s) && s.mode.Some?
    requires s.mode == Some(Parallel) ==> |s.cells| >= 3
    ensures Finished(s, |s.cells|)
    ensures if s.mode == Some(Parallel) then RootLast(s) else s.log == Preorder(|s.cells|, 0)
  {
    forall i: nat | i < |s.cells| ensures i in s.log {
      DoneMeansSeen(s, i);
    }
    AllSeenFinished(s);
    WalkedBy(s, 0);
  }

  // ---------------------------------------------------------------- how long a run takes

  /** `k` visits' worth of time. */
  ghost function Span(k: nat, visitS: real): real {
    if k == 0 then 0.0 else Span(k - 1, visitS) + visitS
  }

  lemma {:induction false} SpanMono(j: nat, k: nat, visitS: real)
    requires j < k && visitS > 0.0
    ensures Span(j, visitS) + visitS <= Span(k, visitS)
    decreases k
  {
    if j < k - 1 { SpanMono(j, k - 1, visitS); }
  }

  /** A cursor's place is a function of the time `e` since the run began. */
  ghost predicate OnTime(cfg: Config, cur: Cursor, e: real) {
    if cur.k < 0 then cur.t == e && (e < cfg.holdS || e == 0.0)
    else if cur.done then e >= cfg.holdS + Span(|cur.order|, cfg.visitS)
    else 0.0 <= cur.t < cfg.visitS && e == cfg.holdS + Span(cur.k, cfg.visitS) + cur.t
  }

  /** As `OnTime`, while the saved time is still being spent. */
  ghost predicate InTime(cfg: Config, cur: Cursor, e: real) {
    if cur.k < 0 then cur.t == e
    else if cur.done then e >= cfg.holdS + Span(|cur.order|, cfg.visitS)
    else 0.0 <= cur.t && e == cfg.holdS + Span(cur.k, cfg.visitS) + cur.t
  }

  lemma MoveTime(s: State, c: nat, t: real)
    requires InTree(s) && c < |s.cursors| && !s.cursors[c].done
    ensures var cur, next := s.cursors[c], Move(s, c, t).cursors[c];
            && next.k == cur.k + 1 && next.order == cur.order && (next.done <==> next.k == |cur.order|)
            && (!next.done ==> next.t == t)
  {
    hide Visit;
  }

  lemma {:induction false} DriveOnTime(cfg: Config, s: State, c: nat, e: real)
    requires InTree(s) && c < |s.cursors| && InTime(cfg, s.cursors[c], e)
    ensures OnTime(cfg, Drive(cfg, s, c).cursors[c], e)
    decreases |s.cursors[c].order| - s.cursors[c].k
  {
    var cur := s.cursors[c];
    if !cur.done && cur.t >= Cost(cfg, cur) {
      MoveTime(s, c, cur.t - Cost(cfg, cur));
      hide Move, InTree, OnlyCursor;
      DriveOnTime(cfg, Move(s, c, cur.t - Cost(cfg, cur)), c, e);
    }
  }

  lemma StepCursorOnTime(cfg: Config, s: State, c: nat, dt: real, e: real)
    requires InTree(s) && c < |s.cursors| && dt >= 0.0 && OnTime(cfg, s.cursors[c], e)
    ensures OnTime(cfg, StepCursor(cfg, s, c, dt).cursors[c], e + dt)
  {
    if !s.cursors[c].done { DriveOnTime(cfg, AddTime(s, c, dt), c, e + dt); }
  }

  lemma {:induction false} StepCursorsOnTime(cfg: Config, s: State, c: nat, dt: real, e: real)
    requires InTree(s) && c <= |s.cursors| && dt >= 0.0
    requires forall d :: 0 <= d < |s.cursors| ==> OnTime(cfg, s.cursors[d], if d < c then e + dt else e)
    ensures var r := StepCursors(cfg, s, c, dt);
            (forall d :: 0 <= d < |r.cursors| ==> OnTime(cfg, r.cursors[d], e + dt) && r.cursors[d].order == s.cursors[d].order)
    decreases |s.cursors| - c
  {
    if c < |s.cursors| {
      StepCursorOnTime(cfg, s, c, dt, e);
      StepCursorsOnTime(cfg, StepCursor(cfg, s, c, dt), c + 1, dt, e);
    }
  }

  /** The run cut into steps. */
  function Play(cfg: Config, s: State, dts: seq<real>): (r: State)
    requires InTree(s)
    ensures InTree(r)
    decreases |dts|
  {
    if dts == [] then s else Play(cfg, Step(cfg, s, dts[0]), dts[1..])
  }

  ghost predicate Timely(cfg: Config, s: State) {
    s.mode.Some? && forall c :: 0 <= c < |s.cursors| ==> OnTime(cfg, s.cursors[c], s.t - s.startedAt)
  }

  lemma FrameOnTime(cfg: Config, s: State, dt: real, e: real)
    requires InTree(s) && dt >= 0.0 && forall c :: 0 <= c < |s.cursors| ==> OnTime(cfg, s.cursors[c], e)
    ensures var r := Frame(cfg, s, dt);
            SameOrders(s, r) && forall c :: 0 <= c < |r.cursors| ==> OnTime(cfg, r.cursors[c], e + dt)
  {
    StepCursorsOnTime(cfg, s, 0, dt, e);
  }

  lemma StepOnTime(cfg: Config, s: State, dt0: real)
    requires InTree(s) && Timely(cfg, s) && dt0 >= 0.0
    ensures var r := Step(cfg, s, dt0);
            Timely(cfg, r) && SameOrders(s, r) && r.t - r.startedAt == s.t - s.startedAt + Clocks.Frame(dt0)
  {
    hide Frame, OnTime;
    FrameOnTime(cfg, s.(t := s.t + Capped(dt0)), Capped(dt0), s.t - s.startedAt);
  }

  lemma {:induction false} PlayOnTime(cfg: Config, s: State, dts: seq<real>)
    requires InTree(s) && Timely(cfg, s) && forall dt :: dt in dts ==> dt >= 0.0
    ensures var r := Play(cfg, s, dts);
            Timely(cfg, r) && SameOrders(s, r) && r.t - r.startedAt == s.t - s.startedAt + Clocks.Elapsed(dts)
    decreases |dts|
  {
    if dts != [] {
      assert dts[0] in dts && forall dt :: dt in dts[1..] ==> dt in dts;
      StepOnTime(cfg, s, dts[0]);
      PlayOnTime(cfg, Step(cfg, s, dts[0]), dts[1..]);
    }
  }

  lemma DoneOnTime(cfg: Config, cur: Cursor, n: nat, e: real)
    requires OnTime(cfg, cur, e) && CursorOk(n, cur) && cfg.visitS > 0.0 && cfg.holdS >= 0.0
    ensures cur.done <==> e >= cfg.holdS + Span(|cur.order|, cfg.visitS)
  {
    SpanMono(0, |cur.order|, cfg.visitS);
    if 0 <= cur.k < |cur.order| { SpanMono(cur.k, |cur.order|, cfg.visitS); }
  }

  /** However a run is cut into steps, a cursor is done exactly once the hold and one visit
      time per cell of its walk have passed. */
  lemma DoneByTime(cfg: Config, s: State, mode: Mode, dts: seq<real>, c: nat)
    requires |s.cells| % 2 == 1 && cfg.visitS > 0.0 && cfg.holdS >= 0.0 && forall dt :: dt in dts ==> dt >= 0.0
    requires c < |Roots(|s.cells|, mode)|
    ensures InTree(Start(cfg, s, mode)) && |Play(cfg, Start(cfg, s, mode), dts).cursors| == |Roots(|s.cells|, mode)|
    ensures var order := Preorder(|s.cells|, Roots(|s.cells|, mode)[c]);
            Play(cfg, Start(cfg, s, mode), dts).cursors[c].done <==>
              Clocks.Elapsed(dts) >= cfg.holdS + Span(|order|, cfg.visitS)
  {
    var s0, root := Start(cfg, s, mode), Roots(|s.cells|, mode)[c];
    StartTimely(cfg, s, mode, c);
    PlayOnTime(cfg, s0, dts);
    PreorderHead(|s.cells|, root);
    var r := Play(cfg, s0, dts);
    DoneOnTime(cfg, r.cursors[c], |r.cells|, Clocks.Elapsed(dts));
  }

  lemma StartTimely(cfg: Config, s: State, mode: Mode, c: nat)
    requires |s.cells| % 2 == 1 && cfg.holdS >= 0.0 && c < |Roots(|s.cells|, mode)|
    ensures var s0 := Start(cfg, s, mode);
            && InTree(s0) && Timely(cfg, s0) && s0.t == s0.startedAt && |s0.cursors| == |Roots(|s.cells|, mode)|
            && s0.cursors[c].order == Preorder(|s.cells|, Roots(|s.cells|, mode)[c])
  {
    StartSettles(cfg, s, mode);
  }

  lemma {:induction false} CellCountMono(r: nat, d: nat)
    requires r <= d
    ensures CellCount(r) <= CellCount(d)
  {
    if r < d { CellCountMono(r, d - 1); }
  }

  lemma CellStep(depth: nat)
    ensures CellCount(depth + 1) == 2 * CellCount(depth) + 1
  {
  }

  lemma PreorderStep(n: nat, i: nat)
    ensures |Preorder(n, i)| == if 2 * i + 2 < n then 1 + |Preorder(n, 2 * i + 1)| + |Preorder(n, 2 * i + 2)| else 1
  {
  }

  /** In a tree of depth `d` a cell of row `r` has a complete tree of depth `d - r` under it. */
  lemma {:induction false} PreorderSize(d: nat, r: nat, i: nat)
    requires r <= d && (if r == 0 then 0 else CellCount(r - 1)) <= i < CellCount(r)
    ensures |Preorder(CellCount(d), i)| == CellCount(d - r)
    decreases d - r
  {
    PreorderStep(CellCount(d), i);
    CellStep(r);
    if r > 0 { CellStep(r - 1); }
    assert CellCount(0) == 1;
    hide Preorder, CellCount;
    if r < d {
      CellStep(d - r - 1);
      CellCountMono(r + 1, d);
      PreorderSize(d, r + 1, 2 * i + 1);
      PreorderSize(d, r + 1, 2 * i + 2);
    }
  }

  /** The cells one cursor walks. */
  function WalkLength(depth: nat, mode: Mode): nat
    requires mode == Parallel ==> depth >= 1
  {
    if mode == Parallel then CellCount(depth - 1) else CellCount(depth)
  }

  lemma WalkSize(depth: nat, mode: Mode, c: nat)
    requires (mode == Parallel ==> depth >= 1) && c < |Roots(CellCount(depth), mode)|
    ensures |Preorder(CellCount(depth), Roots(CellCount(depth), mode)[c])| == WalkLength(depth, mode)
  {
    if mode == Parallel { HalfSize(depth, 1 + c); } else { PreorderSize(depth, 0, 0); }
  }

  lemma HalfSize(depth: nat, i: nat)
    requires depth >= 1 && (i == 1 || i == 2)
    ensures |Preorder(CellCount(depth), i)| == CellCount(depth - 1)
  {
    assert CellCount(0) == 1 && CellCount(1) == 3;
    PreorderSize(depth, 1, i);
  }

  /** A run is over exactly when the hold and one visit time per cell have passed: per cell
      of the tree, or of one half of it in a parallel run. */
  lemma RunTime(cfg: Config, mode: Mode, dts: seq<real>)
    requires cfg.visitS > 0.0 && cfg.holdS >= 0.0 && forall dt :: dt in dts ==> dt >= 0.0
    requires mode == Parallel ==> cfg.depth >= 1
    ensures InTree(Start(cfg, Create(cfg), mode))
    ensures AllDone(Play(cfg, Start(cfg, Create(cfg), mode), dts)) <==>
              Clocks.Elapsed(dts) >= cfg.holdS + Span(WalkLength(cfg.depth, mode), cfg.visitS)
  {
    var s := Create(cfg);
    CellCountOdd(cfg.depth);
    DoneByTime(cfg, s, mode, dts, 0);
    forall c: nat | c < |Roots(|s.cells|, mode)|
      ensures |Play(cfg, Start(cfg, s, mode), dts).cursors| == |Roots(|s.cells|, mode)|
      ensures Play(cfg, Start(cfg, s, mode), dts).cursors[c].done <==>
                Clocks.Elapsed(dts) >= cfg.holdS + Span(WalkLength(cfg.depth, mode), cfg.visitS)
    {
      DoneByTime(cfg, s, mode, dts, c);
      WalkSize(cfg.depth, mode, c);
    }
  }

  // ---------------------------------------------------------------- the simulation object

  lemma SubtreesAfter(a: seq<nat>, b: seq<nat>, c: seq<nat>, d: seq<nat>)
    ensures a + b + c + d == a + (b + c + d)
  {
  }

  lemma SettledTree(s: State)
    requires Settled(s)
    ensures InTree(s) && s.cells != [] && |s.cells| % 2 == 1
  {
  }

  class Heap {
    const cfg: Config
    var t: real
    var mode: Option<Mode>
    var cells: seq<Cell>
    var copies: map<nat, real>
    var cursors: seq<Cursor>
    var holders: int
    var startedAt: real
    var allocs: int
    var incs: int
    var tasks: int
    var plumbing: int
    ghost var log: seq<nat>

    ghost function View(): State
      reads this
    {
      State(t, mode, cells, copies, cursors, holders, startedAt, allocs, incs, tasks, plumbing, log)
    }

    ghost predicate Valid()
      reads this
    {
      Settled(View())
    }

    constructor (cfg: Config)
      ensures Valid() && this.cfg == cfg && View() == Create(cfg)
    {
      this.cfg := cfg;
      t, mode, cells, copies, cursors := 0.0, None, FreshCells(CellCount(cfg.depth)), map[], [];
      holders, startedAt, allocs, incs, tasks, plumbing := 1, 0.0, 0, 0, 0, 0;
      log := [];
      new;
      CreateSettles(cfg);
    }

    /** Pushes the subtree under `i` onto `out`. */
    method Walk(n: nat, i: nat, out: seq<nat>) returns (order: seq<nat>)
      ensures order == out + Preorder(n, i)
      decreases n - i
    {
      order := out + [i];
      if 2 * i + 2 < n {
        order := Walk(n, 2 * i + 1, order);
        order := Walk(n, 2 * i + 2, order);
        SubtreesAfter(out, [i], Preorder(n, 2 * i + 1), Preorder(n, 2 * i + 2));
      }
    }

    method CursorAt(i: nat)
      modifies this`cursors
      ensures cursors == old(cursors) + [CursorFrom(|cells|, i)]
    {
      var order := Walk(|cells|, i, []);
      assert order == Preorder(|cells|, i);
      cursors := cursors + [Cursor(order, -1, 0.0, false, i)];
    }

    method ResetTree()
      requires Valid()
      modifies this
      ensures Valid() && View() == Reset(old(View()))
    {
      hide Settled;
      ResetSettles(View());
      Clear();
    }

    method Clear()
      modifies this
      ensures View() == Reset(old(View()))
    {
      mode, cursors, copies, holders, startedAt := None, [], map[], 1, t;
      cells := FreshCells(|cells|);
      ClearCounters();
    }

    method ClearCounters()
      modifies this`allocs, this`incs, this`tasks, this`plumbing, this`log
      ensures View() == old(View()).(allocs := 0, incs := 0, tasks := 0, plumbing := 0, log := [])
    {
      allocs, incs, tasks, plumbing, log := 0, 0, 0, 0, [];
    }

    method StartRun(m: Mode)
      requires Valid()
      modifies this
      ensures Valid() && View() == Start(cfg, old(View()), m)
    {
      hide Settled, Start;
      SettledTree(View());
      StartSettles(cfg, View(), m);
      BeginWalk(m);
    }

    method BeginWalk(m: Mode)
      requires cells != []
      modifies this
      ensures View() == Start(cfg, old(View()), m)
    {
      Clear();
      mode := Some(m);
      if m == Shared || m == Vault {
        holders := 2;
        cells := cells[0 := cells[0].(rc := 2)];
      }
      if m == Parallel {
        tasks, plumbing := 2, cfg.plumbing;
        if 2 < |cells| {
          CursorAt(1);
          CursorAt(2);
        }
      } else {
        CursorAt(0);
      }
    }

    method VisitCell(i: nat)
      requires i < |cells|
      modifies this
      ensures View() == Visit(old(View()), i)
    {
      cells := cells[i := cells[i].(visitedAt := Some(t))];
      if mode == Some(Shared) || mode == Some(Vault) {
        copies := copies[i := t];
        allocs := allocs + 1;
        if 2 * i + 2 < |cells| {
          cells := cells[2 * i + 1 := cells[2 * i + 1].(rc := cells[2 * i + 1].rc + 1)];
          cells := cells[2 * i + 2 := cells[2 * i + 2].(rc := cells[2 * i + 2].rc + 1)];
          incs := incs + 2;
        }
      } else {
        cells := cells[i := cells[i].(rewritten := true)];
      }
      log := log + [i];
    }

    /** The cursor's next cell, or the end of its walk. */
    method MoveCursor(c: nat, left: real)
      requires InTree(View()) && c < |cursors| && !cursors[c].done
      modifies this
      ensures View() == Move(old(View()), c, left)
    {
      var cur := cursors[c];
      var k := cur.k + 1;
      if k >= |cur.order| {
        cursors := cursors[c := cur.(k := k, t := 0.0, done := true)];
      } else {
        assert cur.order[k] in cur.order;
        cursors := cursors[c := cur.(k := k, t := left, at := cur.order[k])];
        VisitCell(cur.order[k]);
      }
    }

    method AdvanceCursor(c: nat, dt: real)
      requires InTree(View()) && c < |cursors|
      modifies this
      ensures View() == StepCursor(cfg, old(View()), c, dt)
    {
      hide Visit, SameRun;
      if cursors[c].done {
        return;
      }
      cursors := cursors[c := cursors[c].(t := cursors[c].t + dt)];
      ghost var goal := Drive(cfg, View(), c);
      assert goal == StepCursor(cfg, old(View()), c, dt);
      if cursors[c].k < 0 {
        if cursors[c].t < cfg.holdS {
          return;
        }
        MoveCursor(c, cursors[c].t - cfg.holdS);
      }
      SpendVisits(c);
    }

    /** The visits that fit in the saved time. */
    method SpendVisits(c: nat)
      requires InTree(View()) && c < |cursors| && cursors[c].k >= 0
      modifies this
      ensures View() == Drive(cfg, old(View()), c)
    {
      ghost var goal := Drive(cfg, View(), c);
      while !cursors[c].done && cursors[c].t >= cfg.visitS
        invariant InTree(View()) && c < |cursors| && cursors[c].k >= 0
        invariant Drive(cfg, View(), c) == goal
        decreases |cursors[c].order| - cursors[c].k
      {
        MoveCursor(c, cursors[c].t - cfg.visitS);
      }
    }

    /** One frame of the simulation. */
    method StepBy(dt0: real)
      requires Valid()
      modifies this
      ensures Valid() && View() == Step(cfg, old(View()), dt0)
    {
      hide Settled, Step;
      SettledTree(View());
      StepSettles(cfg, View(), dt0);
      Advance(dt0);
    }

    method Advance(dt0: real)
      requires InTree(View())
      modifies this
      ensures View() == Step(cfg, old(View()), dt0)
    {
      var dt := Capped(dt0);
      t := t + dt;
      if mode == None {
        return;
      }
      StepFrame(dt);
    }

    method StepFrame(dt: real)
      requires InTree(View())
      modifies this
      ensures View() == Frame(cfg, old(View()), dt)
    {
      hide StepCursor, Rebuild, InTree;
      ghost var goal := StepCursors(cfg, View(), 0, dt);
      var c := 0;
      while c < |cursors|
        invariant c <= |cursors| && InTree(View())
        invariant StepCursors(cfg, View(), c, dt) == goal
        decreases |cursors| - c
      {
        ghost var before := View();
        AdvanceCursor(c, dt);
        assert |cursors| == |before.cursors|;
        c := c + 1;
      }
      RebuildRoot();
    }

    method RebuildRoot()
      requires InTree(View())
      modifies this
      ensures View() == Rebuild(old(View()))
    {
      if mode == Some(Parallel) && cursors != [] && (forall i :: 0 <= i < |cursors| ==> cursors[i].done)
         && !cells[0].rewritten {
        VisitCell(0);
      }
    }
  }
}
