/** The heap simulation by the four ways a tree is walked, told without its own test for
    copying: who holds the tree, when each cell is visited and what a visit leaves. */
module SimHeapRules {
  import opened Integers
  import opened Options
  import opened SimHeap
  import Clocks

  // ---------------------------------------------------------------- a run from the start

  /** A run begins anew wherever it begins: all but the clock is as on a tree just built. */
  lemma BeginAnew(cfg: Config, es: seq<Event>, m: Mode)
    ensures var s := Run(cfg, Create(cfg), es);
            && Reset(s) == Create(cfg).(t := s.t, startedAt := s.t)
            && Apply(cfg, s, Begin(m)) == Apply(cfg, Create(cfg), Begin(m)).(t := s.t, startedAt := s.t)
  {
    CellCountOdd(cfg.depth);
  }

  /** The ways of walking, each with its holders and tasks. */
  ghost predicate RunsAs(cfg: Config, s: State, m: Mode) {
    && s.mode == Some(m)
    && (match m
        case Owned => s.holders == 1 && s.tasks == 0 && s.plumbing == 0
        case Shared => s.holders == 2 && s.tasks == 0 && s.plumbing == 0
        case Vault => s.holders == 2 && s.tasks == 0 && s.plumbing == 0
        case Parallel => s.holders == 1 && s.tasks == 2 && s.plumbing == cfg.plumbing)
  }

  lemma {:induction false} PlaySame(cfg: Config, s: State, dts: seq<real>)
    requires InTree(s)
    ensures var r := Play(cfg, s, dts); SameRun(s, r.(t := s.t)) && r.t == s.t + Clocks.Elapsed(dts)
    decreases |dts|
  {
    if dts != [] {
      var next := Step(cfg, s, dts[0]);
      StepClock(cfg, s, dts[0]);
      hide InTree, Step;
      PlaySame(cfg, next, dts[1..]);
    }
  }

  lemma StepClock(cfg: Config, s: State, dt: real)
    requires InTree(s)
    ensures var r := Step(cfg, s, dt); SameRun(s, r.(t := s.t)) && r.t == s.t + Clocks.Frame(dt)
  {
  }

  lemma {:induction false} PlaySettled(cfg: Config, s: State, dts: seq<real>)
    requires Settled(s)
    ensures Settled(Play(cfg, s, dts))
    decreases |dts|
  {
    if dts != [] {
      StepSettles(cfg, s, dts[0]);
      PlaySettled(cfg, Step(cfg, s, dts[0]), dts[1..]);
    }
  }

  /** A run begun in a mode stays in it, with that mode's holders and tasks, through every
      frame, and its clock shows the time of its frames. */
  lemma RunMode(cfg: Config, es: seq<Event>, m: Mode, dts: seq<real>)
    ensures var s := Run(cfg, Create(cfg), es);
            var r := Play(cfg, Apply(cfg, s, Begin(m)), dts);
            && RunsAs(cfg, r, m) && r.startedAt == s.t && r.t == s.t + Clocks.Elapsed(dts)
            && |r.cells| == CellCount(cfg.depth)
  {
    CellCountOdd(cfg.depth);
    var s := Run(cfg, Create(cfg), es);
    StartSettles(cfg, s, m);
    PlaySame(cfg, Start(cfg, s, m), dts);
  }

  // ---------------------------------------------------------------- what a visit leaves

  /** The cells visited between two states. */
  function New(s: State, r: State): seq<nat>
    requires s.log <= r.log
  {
    r.log[|s.log|..]
  }

  /** A cell visited since is stamped with the time, and so is its copy in a run on a tree with
      two holders; the stamps of the others stay. */
  ghost predicate StampOk(s: State, r: State, i: nat)
    requires s.log <= r.log && |r.cells| == |s.cells|
  {
    && (i in New(s, r) ==>
          && (i < |r.cells| ==> r.cells[i].visitedAt == Some(r.t))
          && (r.mode == Some(Shared) || r.mode == Some(Vault) ==> i in r.copies && r.copies[i] == r.t))
    && (i !in New(s, r) ==>
          && (i < |r.cells| ==> r.cells[i].visitedAt == s.cells[i].visitedAt)
          && (i in s.copies <==> i in r.copies) && (i in s.copies ==> r.copies[i] == s.copies[i]))
  }

  ghost predicate Stamped(s: State, r: State) {
    && s.log <= r.log && |r.cells| == |s.cells| && r.t == s.t && r.mode == s.mode
    && forall i: nat :: StampOk(s, r, i)
  }

  lemma StampedTwice(s: State, m: State, r: State)
    requires Stamped(s, m) && Stamped(m, r)
    ensures Stamped(s, r)
  {
    assert New(s, r) == New(s, m) + New(m, r);
    forall i: nat ensures StampOk(s, r, i) {
      assert StampOk(s, m, i) && StampOk(m, r, i);
      assert i in New(s, r) <==> i in New(s, m) || i in New(m, r);
    }
  }

  lemma StampedOnce(s: State)
    ensures Stamped(s, s)
  {
    assert New(s, s) == [];
  }

  lemma VisitStamps(s: State, i: nat)
    requires i < |s.cells|
    ensures Stamped(s, Visit(s, i))
  {
    var r := Visit(s, i);
    assert New(s, r) == [i];
    forall j: nat ensures StampOk(s, r, j) { }
  }

  lemma MoveStamps(s: State, c: nat, t: real)
    requires InTree(s) && c < |s.cursors| && !s.cursors[c].done
    ensures Stamped(s, Move(s, c, t))
  {
    var cur, r := s.cursors[c], Move(s, c, t);
    var moved := s.(cursors := r.cursors);
    StampedOnce(s);
    if cur.k + 1 < |cur.order| {
      var i := cur.order[cur.k + 1];
      assert i in cur.order;
      VisitStamps(moved, i);
      assert r == Visit(moved, i);
    }
    SameStamps(s, moved, r);
  }

  lemma SameStamps(s: State, moved: State, r: State)
    requires moved == s.(cursors := moved.cursors) && (Stamped(moved, r) || r == moved)
    ensures Stamped(s, r)
  {
    StampedOnce(moved);
    assert New(s, r) == New(moved, r);
    forall i: nat ensures StampOk(s, r, i) { assert StampOk(moved, r, i); }
  }

  lemma {:induction false} DriveStamps(cfg: Config, s: State, c: nat)
    requires InTree(s) && c < |s.cursors|
    ensures Stamped(s, Drive(cfg, s, c))
    decreases |s.cursors[c].order| - s.cursors[c].k
  {
    var cur := s.cursors[c];
    if cur.done || cur.t < Cost(cfg, cur) {
      StampedOnce(s);
    } else {
      var next := Move(s, c, cur.t - Cost(cfg, cur));
      MoveStamps(s, c, cur.t - Cost(cfg, cur));
      hide Stamped, Move;
      DriveStamps(cfg, next, c);
      StampedTwice(s, next, Drive(cfg, next, c));
    }
  }

  lemma CursorStamps(cfg: Config, s: State, c: nat, dt: real)
    requires InTree(s) && c < |s.cursors|
    ensures Stamped(s, StepCursor(cfg, s, c, dt))
  {
    StampedOnce(s);
    hide Stamped;
    if !s.cursors[c].done {
      var later := AddTime(s, c, dt);
      DriveStamps(cfg, later, c);
      SameStamps(s, later, Drive(cfg, later, c));
    }
  }

  lemma {:induction false} CursorsStamp(cfg: Config, s: State, c: nat, dt: real)
    requires InTree(s) && c <= |s.cursors|
    ensures Stamped(s, StepCursors(cfg, s, c, dt))
    decreases |s.cursors| - c
  {
    StampedOnce(s);
    hide Stamped;
    if c < |s.cursors| {
      var next := StepCursor(cfg, s, c, dt);
      CursorStamps(cfg, s, c, dt);
      CursorsStamp(cfg, next, c + 1, dt);
      StampedTwice(s, next, StepCursors(cfg, next, c + 1, dt));
    }
  }

  lemma RebuildStamps(s: State)
    requires InTree(s)
    ensures Stamped(s, Rebuild(s))
  {
    StampedOnce(s);
    VisitStamps(s, 0);
  }

  /** In every frame exactly the cells visited in it are stamped, with the clock after it, and
      so are the copies made of them; no cell that was visited before is stamped again. */
  lemma StepStamps(cfg: Config, s: State, dt: real)
    requires InTree(s)
    ensures Stamped(s.(t := s.t + Clocks.Frame(dt)), Step(cfg, s, dt))
  {
    var s1 := s.(t := s.t + Clocks.Frame(dt));
    StampedOnce(s1);
    hide Stamped, Visit, Drive;
    if s.mode.Some? {
      CursorsStamp(cfg, s1, 0, Clocks.Frame(dt));
      var m := StepCursors(cfg, s1, 0, Clocks.Frame(dt));
      RebuildStamps(m);
      StampedTwice(s1, m, Rebuild(m));
    }
  }

  // ---------------------------------------------------------------- when a cell is visited

  lemma PlaceByTime(cfg: Config, cur: Cursor, p: nat, e: real)
    requires OnTime(cfg, cur, e) && cfg.visitS > 0.0 && cfg.holdS >= 0.0 && e > 0.0 && p < |cur.order|
    requires -1 <= cur.k <= |cur.order| && (cur.done <==> cur.k == |cur.order|)
    ensures cur.k >= p <==> e >= cfg.holdS + Span(p, cfg.visitS)
  {
    SpanNonnegative(p, cfg.visitS);
    if cur.k > p { SpanMono(p, cur.k, cfg.visitS); } else if 0 <= cur.k < p { SpanMono(cur.k, p, cfg.visitS); }
  }

  lemma {:induction false} SpanNonnegative(k: nat, x: real)
    requires x > 0.0
    ensures Span(k, x) >= 0.0
  {
    if k > 0 { SpanNonnegative(k - 1, x); }
  }

  /** Where the walks of a mode begin: at the root, or at its two children in a parallel run. */
  function WalkFrom(m: Mode, c: nat): nat {
    match m
    case Parallel => c + 1
    case Owned => 0
    case Shared => 0
    case Vault => 0
  }

  lemma SeenBy(s: State, c: nat, p: nat)
    requires Settled(s) && s.mode.Some? && c < |s.cursors| && p < |s.cursors[c].order|
    ensures s.cursors[c].order[p] in s.log <==> s.cursors[c].k >= p
  {
    var cur, n, m := s.cursors[c], |s.cells|, s.mode.value;
    var i := cur.order[p];
    WalkedBy(s, c);
    PreorderNoDup(n, Roots(n, m)[c]);
    assert i in Seen(cur) <==> cur.k >= p;
    WalksApart(n, m, c, c, i);
    if m == Parallel {
      assert CoverOk(s, i);
      var d := 1 - c;
      WalkedBy(s, d);
      WalksApart(n, m, c, d, i);
    }
  }

  lemma PlayVisits(cfg: Config, s: State, m: Mode, dts: seq<real>, c: nat, p: nat)
    requires |s.cells| % 2 == 1 && cfg.visitS > 0.0 && cfg.holdS >= 0.0 && forall dt :: dt in dts ==> dt >= 0.0
    requires (m == Parallel ==> |s.cells| >= 3) && c < (if m == Parallel then 2 else 1)
    ensures InTree(Start(cfg, s, m))
    ensures var r := Play(cfg, Start(cfg, s, m), dts);
            var walk := Preorder(|s.cells|, WalkFrom(m, c));
            && |r.cursors| == (if m == Parallel then 2 else 1) && r.cursors[c].order == walk
            && (p < |walk| && Clocks.Elapsed(dts) > 0.0 ==>
                  && (walk[p] in r.log <==> Clocks.Elapsed(dts) >= cfg.holdS + Span(p, cfg.visitS))
                  && (r.cursors[c].k == p ==> r.cursors[c].at == walk[p]))
  {
    hide Settled, Play, Start, Preorder, Span, OnTime, InTree;
    StartSettles(cfg, s, m);
    StartTimely(cfg, s, m, c);
    var s0 := Start(cfg, s, m);
    var r := Play(cfg, s0, dts);
    PlayOnTime(cfg, s0, dts);
    PlaySettled(cfg, s0, dts);
    PlaySame(cfg, s0, dts);
    if p < |r.cursors[c].order| && Clocks.Elapsed(dts) > 0.0 { VisitedByTime(cfg, r, c, p); }
  }

  lemma VisitedByTime(cfg: Config, s: State, c: nat, p: nat)
    requires Settled(s) && Timely(cfg, s) && cfg.visitS > 0.0 && cfg.holdS >= 0.0 && s.t > s.startedAt
    requires c < |s.cursors| && p < |s.cursors[c].order|
    ensures s.cursors[c].order[p] in s.log <==> s.t - s.startedAt >= cfg.holdS + Span(p, cfg.visitS)
    ensures s.cursors[c].k == p ==> s.cursors[c].at == s.cursors[c].order[p]
  {
    CursorStands(s, c);
    SeenBy(s, c, p);
    hide Settled, Span;
    PlaceByTime(cfg, s.cursors[c], p, s.t - s.startedAt);
  }

  lemma CursorStands(s: State, c: nat)
    requires Settled(s) && c < |s.cursors|
    ensures CursorOk(|s.cells|, s.cursors[c])
  {
  }

  /** However a run is cut into frames, the p-th cell of a walk is visited exactly when the
      hold and `p` visit times have passed, and the cursor stands at the last cell visited. */
  lemma RunVisits(cfg: Config, es: seq<Event>, m: Mode, dts: seq<real>, c: nat, p: nat)
    requires cfg.visitS > 0.0 && cfg.holdS >= 0.0 && forall dt :: dt in dts ==> dt >= 0.0
    requires (m == Parallel ==> cfg.depth >= 1) && c < (if m == Parallel then 2 else 1)
    ensures var r := Play(cfg, Apply(cfg, Run(cfg, Create(cfg), es), Begin(m)), dts);
            var walk := Preorder(CellCount(cfg.depth), WalkFrom(m, c));
            && |r.cursors| == (if m == Parallel then 2 else 1) && r.cursors[c].order == walk
            && (p < |walk| && Clocks.Elapsed(dts) > 0.0 ==>
                  && (walk[p] in r.log <==> Clocks.Elapsed(dts) >= cfg.holdS + Span(p, cfg.visitS))
                  && (r.cursors[c].k == p ==> r.cursors[c].at == walk[p]))
  {
    CellCountOdd(cfg.depth);
    CellCountMono(1, if cfg.depth == 0 then 1 else cfg.depth);
    var s := Run(cfg, Create(cfg), es);
    assert CellCount(1) == 3;
    hide Create, Run, Play, Start, CellCount, Preorder, Span;
    PlayVisits(cfg, s, m, dts, c, p);
  }
}
