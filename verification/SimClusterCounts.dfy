/** What moves the counters of the cluster simulation, told by the lists of sessions before
    and after: a session that leaves on its way back is completed, one that leaves while it
    is served is cancelled, and one that leaves before is refused. */
module SimClusterCounts {
  import opened Options
  import opened Simulations
  import opened SimCluster
  import opened SimClusterSafety

  ghost function Ids(xs: seq<Session>): set<nat> {
    set x | x in xs :: x.id
  }

  ghost function IdsIn(xs: seq<Session>, phase: Phase): set<nat> {
    set x | x in xs && x.phase == phase :: x.id
  }

  predicate Within(id: nat, lo: nat, hi: nat) {
    lo <= id < hi
  }

  ghost function Numbers(lo: nat, hi: nat): set<nat> {
    set id: nat | 0 <= id < hi && Within(id, lo, hi)
  }

  /** The sessions of `a` in a phase that are not in `b`, ... */
  ghost function Left(a: State, b: State, phase: Phase): set<nat> {
    IdsIn(a.sessions, phase) - Ids(b.sessions)
  }

  /** ... and how many they are. */
  ghost function Leaving(a: State, b: State, phase: Phase): nat {
    |Left(a, b, phase)|
  }

  /** The sessions that set out between `a` and `b` and are not in `b`, ... */
  ghost function TurnedAway(a: State, b: State): set<nat> {
    Numbers(a.nextId, b.nextId) - Ids(b.sessions)
  }

  /** ... and how many they are. */
  ghost function Turned(a: State, b: State): nat {
    |TurnedAway(a, b)|
  }

  ghost predicate BelowNext(s: State) {
    forall x :: x in s.sessions ==> x.id < s.nextId
  }

  lemma Disjoint(a: set<nat>, b: set<nat>)
    requires a !! b
    ensures |a + b| == |a| + |b|
  {
  }

  lemma InvRises(cfg: Config, s: State)
    requires Inv(cfg, s)
    ensures Rising(s.sessions) && BelowNext(s)
  {
  }

  lemma CoreRises(cfg: Config, s: State)
    requires Core(cfg, s, -1)
    ensures Rising(s.sessions) && BelowNext(s)
  {
  }

  // ---------------------------------------------------------------- cancelling

  /** The sessions of `b` are sessions of `a`, and those that are missing were served. */
  ghost predicate CutList(a: State, b: State) {
    (forall y :: y in b.sessions ==> y in a.sessions) && Ids(a.sessions) - Ids(b.sessions) == Left(a, b, Serve)
  }

  /** From `a` to `b` only sessions that were served have left, each counted as cancelled. */
  ghost predicate Cut(a: State, b: State) {
    && CutList(a, b)
    && b.counters == a.counters.(cancelled := a.counters.cancelled + Leaving(a, b, Serve))
    && b.nextId == a.nextId && b.rr == a.rr && b.draws == a.draws
  }

  lemma CutNone(a: State, b: State)
    requires b.sessions == a.sessions && b.counters == a.counters
    requires b.nextId == a.nextId && b.rr == a.rr && b.draws == a.draws
    ensures Cut(a, b)
  {
    assert Left(a, b, Serve) == {};
    assert Ids(a.sessions) - Ids(b.sessions) == {};
  }

  lemma CutTwice(a: State, b: State, c: State)
    requires Cut(a, b) && Cut(b, c)
    ensures Cut(a, c)
  {
    hide CutList, Leaving;
    CutListTwice(a, b, c);
  }

  lemma CutListTwice(a: State, b: State, c: State)
    requires CutList(a, b) && CutList(b, c)
    ensures CutList(a, c) && Leaving(a, c, Serve) == Leaving(a, b, Serve) + Leaving(b, c, Serve)
  {
    hide Ids, IdsIn;
    IdsWithin(a, b);
    IdsWithin(b, c);
    GoneTwice(Ids(a.sessions), Ids(b.sessions), Ids(c.sessions), IdsIn(a.sessions, Serve), IdsIn(b.sessions, Serve));
  }

  lemma GoneTwice(a: set<nat>, b: set<nat>, c: set<nat>, inA: set<nat>, inB: set<nat>)
    requires c <= b <= a && inB <= inA && a - b == inA - b && b - c == inB - c
    ensures a - c == inA - c && |inA - c| == |inA - b| + |inB - c|
  {
    assert a - c == (a - b) + (b - c);
    assert inA - c == (inA - b) + (inB - c) by {
      forall id | id in inA - c ensures id in (inA - b) + (inB - c) { if id in b { assert id in b - c; } }
    }
    Disjoint(inA - b, inB - c);
  }

  lemma IdsWithin(a: State, b: State)
    requires forall y :: y in b.sessions ==> y in a.sessions
    ensures Ids(b.sessions) <= Ids(a.sessions) && IdsIn(b.sessions, Serve) <= IdsIn(a.sessions, Serve)
  {
  }

  lemma CancelCuts(s: State, j: nat)
    requires Rising(s.sessions) && j < |s.sessions| && s.sessions[j].phase == Serve
    ensures Cut(s, CancelOne(s, j)) && Rising(CancelOne(s, j).sessions)
    ensures |CancelOne(s, j).sessions| == |s.sessions| - 1
  {
    var r, x := CancelOne(s, j), s.sessions[j];
    InRemoved(s.sessions, j);
    assert r.sessions == RemoveAt(s.sessions, j);
    assert Ids(s.sessions) - Ids(r.sessions) == {x.id};
    assert Left(s, r, Serve) == {x.id};
  }

  lemma {:induction false} CancelFromCuts(s: State, i: nat, j: nat)
    requires Rising(s.sessions)
    ensures Cut(s, CancelFrom(s, i, j)) && Rising(CancelFrom(s, i, j).sessions)
    decreases |s.sessions| - j
  {
    hide Cut, CancelOne, Rising;
    CutNone(s, s);
    if j < |s.sessions| {
      if ServedBy(s.sessions[j], i) {
        var next := CancelOne(s, j);
        CancelCuts(s, j);
        CancelFromCuts(next, i, j);
        CutTwice(s, next, CancelFrom(next, i, j));
      } else {
        CancelFromCuts(s, i, j + 1);
      }
    }
  }

  lemma DeclareDeadCuts(cfg: Config, s: State, i: nat)
    requires Rising(s.sessions) && i < |s.hosts|
    ensures Cut(s, DeclareDead(cfg, s, i)) && Rising(DeclareDead(cfg, s, i).sessions)
  {
    hide Cut, CancelFrom, Rising;
    var s1 := SetHost(s, i, s.hosts[i].(status := Dead, silent := false));
    var s2 := CancelOn(s1, i);
    CutNone(s, s1);
    CancelFromCuts(s1, i, 0);
    CutTwice(s, s1, s2);
    CutNone(s2, VacateSeat(cfg, s2, i));
    CutTwice(s, s2, VacateSeat(cfg, s2, i));
  }

  lemma HostCuts(cfg: Config, s: State, i: nat)
    requires Rising(s.sessions) && i < |s.hosts|
    ensures Cut(s, HostStep(cfg, s, i)) && Rising(HostStep(cfg, s, i).sessions)
  {
    hide Cut, DeclareDead, Rising;
    var s1 := Notice(cfg, s, i);
    CutNone(s, s1);
    DeclareDeadHosts(cfg, s1, i);
    DeclareDeadCuts(cfg, s1, i);
    CutTwice(s, s1, DeclareDead(cfg, s1, i));
    var s2 := GiveUp(cfg, s1, i);
    CutNone(s2, ComeUp(cfg, s2, i));
    CutTwice(s, s2, ComeUp(cfg, s2, i));
  }

  lemma {:induction false} HostsCut(cfg: Config, s: State, i: nat)
    requires Rising(s.sessions)
    ensures Cut(s, HostsStep(cfg, s, i)) && Rising(HostsStep(cfg, s, i).sessions)
    decreases |s.hosts| - i
  {
    hide Cut, HostStep, Rising;
    CutNone(s, s);
    if i < |s.hosts| {
      HostCuts(cfg, s, i);
      HostsCut(cfg, HostStep(cfg, s, i), i + 1);
      CutTwice(s, HostStep(cfg, s, i), HostsStep(cfg, HostStep(cfg, s, i), i + 1));
    }
  }

  lemma AfterSeatCuts(cfg: Config, s: State, d: real)
    requires Inv(cfg, s)
    ensures Cut(s, AfterSeat(cfg, s, d))
  {
    hide Cut, HostsStep, Inv, AfterSeat, Rising, BelowNext;
    InvRises(cfg, s);
    SeatSame(cfg, s, d);
    var s0 := s.(t := s.t + d);
    var h := HostsStep(cfg, s0, 0);
    CutNone(s, s0);
    HostsCut(cfg, s0, 0);
    CutTwice(s, s0, h);
    CutNone(h, AfterSeat(cfg, s, d));
    CutTwice(s, h, AfterSeat(cfg, s, d));
  }

  lemma SeatSame(cfg: Config, s: State, d: real)
    ensures var h, r := AfterHosts(cfg, s, d), AfterSeat(cfg, s, d);
            && r.sessions == h.sessions && r.counters == h.counters && r.nextId == h.nextId && r.rr == h.rr
            && r.draws == h.draws
  {
    hide HostsStep, Best;
  }

  // ---------------------------------------------------------------- setting out

  /** The sessions of `b` are those of `a` and behind them new ones on their way out. */
  ghost predicate NewOut(a: State, b: State) {
    && a.sessions <= b.sessions && a.nextId <= b.nextId
    && forall j :: |a.sessions| <= j < |b.sessions| ==> b.sessions[j].phase == Out && a.nextId <= b.sessions[j].id < b.nextId
  }

  /** From `a` to `b` sessions have set out; those that found no host worth trying are
      counted as refused. */
  ghost predicate SetOut(a: State, b: State) {
    && NewOut(a, b) && a.nextId <= b.nextId
    && b.counters == a.counters.(started := a.counters.started + b.nextId - a.nextId,
                                 refused := a.counters.refused + Turned(a, b))
  }

  lemma SetOutNone(a: State)
    ensures SetOut(a, a)
  {
    assert TurnedAway(a, a) == {};
  }

  lemma NewOutTwice(a: State, b: State, c: State)
    requires NewOut(a, b) && NewOut(b, c)
    ensures NewOut(a, c)
  {
    assert b.sessions == c.sessions[..|b.sessions|];
    forall j | |a.sessions| <= j < |c.sessions| ensures c.sessions[j].phase == Out && a.nextId <= c.sessions[j].id < c.nextId {
      if j < |b.sessions| { assert c.sessions[j] == b.sessions[j]; }
    }
  }

  lemma SetOutTwice(a: State, b: State, c: State)
    requires SetOut(a, b) && SetOut(b, c)
    ensures SetOut(a, c)
  {
    hide NewOut, Turned;
    NewOutTwice(a, b, c);
    TurnedTwice(a, b, c);
  }

  lemma TurnedTwice(a: State, b: State, c: State)
    requires NewOut(b, c) && a.nextId <= b.nextId <= c.nextId
    ensures Turned(a, c) == Turned(a, b) + Turned(b, c)
  {
    hide Ids, NewOut;
    IdsPrefix(b, c);
    assert TurnedAway(a, c) == TurnedAway(a, b) + TurnedAway(b, c);
    Disjoint(TurnedAway(a, b), TurnedAway(b, c));
  }

  lemma IdsPrefix(b: State, c: State)
    requires NewOut(b, c)
    ensures Ids(b.sessions) <= Ids(c.sessions)
    ensures forall id :: id in Ids(c.sessions) && id < b.nextId ==> id in Ids(b.sessions)
  {
    forall x | x in c.sessions && x.id < b.nextId ensures x in b.sessions {
      var j :| 0 <= j < |c.sessions| && c.sessions[j] == x;
      assert j < |b.sessions|;
      assert b.sessions[j] == x;
    }
  }

  lemma CallSetsOut(s: State)
    requires BelowNext(s)
    ensures SetOut(s, Call(s)) && BelowNext(Call(s))
  {
    var r, j := Call(s), |s.sessions|;
    NextTryableIs(s.hosts, Listed(s).sessions[j].order, 0);
    if |r.sessions| == j {
      assert r.sessions == s.sessions;
      assert TurnedAway(s, r) == {s.nextId};
    } else {
      assert r.sessions == s.sessions + [r.sessions[j]];
      assert r.sessions[j] in r.sessions;
      assert TurnedAway(s, r) == {};
    }
  }

  lemma {:induction false} CallsSetOut(s: State)
    requires BelowNext(s)
    ensures SetOut(s, Calls(s)) && BelowNext(Calls(s))
    decreases s.acc.Floor
  {
    hide SetOut, Call, BelowNext;
    SetOutNone(s);
    if s.acc >= 1.0 {
      CallSetsOut(s);
      CallClock(s);
      CallsSetOut(Call(s));
      SetOutTwice(s, Call(s), Calls(Call(s)));
    }
  }

  // ---------------------------------------------------------------- leaving

  ghost function LeftFrom(a: State, b: State, j: nat, phase: Phase): set<nat>
    requires j <= |a.sessions|
  {
    IdsIn(a.sessions[j..], phase) - Ids(b.sessions)
  }

  /** How many sessions from position `j` on have left in a phase. */
  ghost function Gone(a: State, b: State, j: nat, phase: Phase): nat
    requires j <= |a.sessions|
  {
    |LeftFrom(a, b, j, phase)|
  }

  /** From `a` to `b` only sessions from position `j` on have left, on their way back or out. */
  ghost predicate EndList(a: State, b: State, j: nat)
    requires j <= |a.sessions|
  {
    && Ids(b.sessions) <= Ids(a.sessions)
    && Ids(a.sessions) - Ids(b.sessions) == LeftFrom(a, b, j, Back) + LeftFrom(a, b, j, Out)
  }

  /** Those on their way back are counted as completed, those on their way out as refused. */
  ghost predicate Ended(a: State, b: State, j: nat) {
    && j <= |a.sessions| && EndList(a, b, j) && b.nextId == a.nextId
    && b.counters == a.counters.(completed := a.counters.completed + Gone(a, b, j, Back),
                                 refused := a.counters.refused + Gone(a, b, j, Out))
  }

  /** Session `j` stays, ... */
  ghost predicate Stays(a: State, b: State, j: nat) {
    && j < |a.sessions| == |b.sessions| && b.sessions == a.sessions[j := b.sessions[j]] && b.sessions[j].id == a.sessions[j].id
    && b.counters == a.counters && b.nextId == a.nextId
  }

  /** ... or leaves. */
  ghost predicate Leaves(a: State, b: State, j: nat) {
    && j < |a.sessions| && b.sessions == RemoveAt(a.sessions, j) && b.nextId == a.nextId
    && (match a.sessions[j].phase
        case Out => b.counters == a.counters.(refused := a.counters.refused + 1)
        case Serve => false
        case Back => b.counters == a.counters.(completed := a.counters.completed + 1))
  }

  lemma ArriveEnds(cfg: Config, s: State, j: nat)
    requires j < |s.sessions| && s.sessions[j].phase == Out
    ensures Stays(s, Arrive(cfg, s, j), j) || Leaves(s, Arrive(cfg, s, j), j)
  {
    var x := s.sessions[j];
    NextTryableIs(s.hosts, x.order, x.next + 1);
  }

  lemma SessionEnds(cfg: Config, s: State, j: nat, dt: real)
    requires j < |s.sessions|
    ensures Stays(s, SessionStep(cfg, s, j, dt), j) || Leaves(s, SessionStep(cfg, s, j, dt), j)
  {
    hide Arrive;
    var x := s.sessions[j];
    if !Stalled(s, x) && x.elapsed + dt >= x.dur && x.phase == Out {
      ArriveEnds(cfg, s.(sessions := s.sessions[j := x.(elapsed := x.elapsed + dt)]), j);
      var r := SessionStep(cfg, s, j, dt);
      assert RemoveAt(s.sessions[j := x.(elapsed := x.elapsed + dt)], j) == RemoveAt(s.sessions, j);
    }
  }

  function Alone(b: bool, id: nat): set<nat> {
    if b then {id} else {}
  }

  lemma IdsSplit(xs: seq<Session>, j: nat, phase: Phase)
    requires j < |xs| && Rising(xs)
    ensures IdsIn(xs[j..], phase) == IdsIn(xs[j + 1..], phase) + Alone(xs[j].phase == phase, xs[j].id)
    ensures xs[j].id !in IdsIn(xs[j + 1..], phase) && xs[j].id in Ids(xs)
  {
    assert xs[j..] == [xs[j]] + xs[j + 1..];
  }

  lemma LeaveSets(a: set<nat>, b: set<nat>, c: set<nat>, back: set<nat>, out: set<nat>, id: nat, isBack: bool)
    requires c <= b && id !in b && a == b + {id} && id !in back && id !in out && b - c == (back - c) + (out - c)
    ensures var aBack, aOut := back + Alone(isBack, id), out + Alone(!isBack, id);
            c <= a && a - c == (aBack - c) + (aOut - c)
  {
    assert a - c == (b - c) + {id};
  }

  lemma StaySets(b: set<nat>, c: set<nat>, back: set<nat>, out: set<nat>, id: nat, isBack: bool, isOut: bool)
    requires c <= b && id in b && id !in back && id !in out && b - c == (back - c) + (out - c)
    ensures (back + Alone(isBack, id)) - c == back - c && (out + Alone(isOut, id)) - c == out - c
  {
    assert id !in (back - c) + (out - c);
    assert id !in b - c;
  }

  lemma MaybeMore(b: set<nat>, c: set<nat>, more: bool, id: nat)
    requires id !in b && id !in c
    ensures |(b + Alone(more, id)) - c| == |b - c| + (if more then 1 else 0)
  {
    assert (b + Alone(more, id)) - c == (b - c) + Alone(more, id);
  }

  lemma LeaveIds(a: State, b: State, j: nat)
    requires Rising(a.sessions) && Leaves(a, b, j)
    ensures b.sessions[j..] == a.sessions[j + 1..]
    ensures Ids(a.sessions) == Ids(b.sessions) + {a.sessions[j].id} && a.sessions[j].id !in Ids(b.sessions)
  {
    InRemoved(a.sessions, j);
  }

  lemma StayIds(a: State, b: State, j: nat)
    requires Rising(a.sessions) && Stays(a, b, j)
    ensures b.sessions[j + 1..] == a.sessions[j + 1..] && Ids(b.sessions) == Ids(a.sessions)
  {
    InUpdated(a.sessions, j, b.sessions[j]);
  }

  lemma LeaveLists(a: State, b: State, c: State, j: nat)
    requires Rising(a.sessions) && Leaves(a, b, j) && j <= |b.sessions| && EndList(b, c, j)
    ensures EndList(a, c, j)
  {
    hide Ids, IdsIn, Rising, Leaves, Alone;
    LeavesOne(a, b, j);
    var x, rest := a.sessions[j], a.sessions[j + 1..];
    LeaveIds(a, b, j);
    IdsSplit(a.sessions, j, Back);
    IdsSplit(a.sessions, j, Out);
    LeaveSets(Ids(a.sessions), Ids(b.sessions), Ids(c.sessions), IdsIn(rest, Back), IdsIn(rest, Out), x.id, x.phase == Back);
  }

  lemma LeavesOne(a: State, b: State, j: nat)
    requires Leaves(a, b, j)
    ensures j < |a.sessions| && |b.sessions| == |a.sessions| - 1 && a.sessions[j].phase != Serve
  {
  }

  lemma LeaveGone(a: State, b: State, c: State, j: nat, phase: Phase)
    requires Rising(a.sessions) && Leaves(a, b, j) && j <= |b.sessions| && EndList(b, c, j)
    ensures j < |a.sessions| && Gone(a, c, j, phase) == Gone(b, c, j, phase) + (if a.sessions[j].phase == phase then 1 else 0)
  {
    hide Ids, IdsIn, Rising, Leaves, Alone;
    LeavesOne(a, b, j);
    var x, rest := a.sessions[j], a.sessions[j + 1..];
    LeaveIds(a, b, j);
    IdsSplit(a.sessions, j, phase);
    assert x.id !in Ids(c.sessions);
    MaybeMore(IdsIn(rest, phase), Ids(c.sessions), x.phase == phase, x.id);
  }

  lemma LeaveEnded(a: State, b: State, c: State, j: nat)
    requires Rising(a.sessions) && Leaves(a, b, j) && Ended(b, c, j)
    ensures Ended(a, c, j)
  {
    hide EndList, Gone, Rising;
    LeavesOne(a, b, j);
    LeaveLists(a, b, c, j);
    LeaveGone(a, b, c, j, Back);
    LeaveGone(a, b, c, j, Out);
  }

  lemma StayLists(a: State, b: State, c: State, j: nat)
    requires Rising(a.sessions) && Stays(a, b, j) && j + 1 <= |b.sessions| && EndList(b, c, j + 1)
    ensures EndList(a, c, j)
    ensures Gone(a, c, j, Back) == Gone(b, c, j + 1, Back) && Gone(a, c, j, Out) == Gone(b, c, j + 1, Out)
  {
    hide Ids, IdsIn, Rising, Stays, Alone;
    StaysOne(a, b, j);
    var x, rest := a.sessions[j], a.sessions[j + 1..];
    StayIds(a, b, j);
    IdsSplit(a.sessions, j, Back);
    IdsSplit(a.sessions, j, Out);
    StaySets(Ids(b.sessions), Ids(c.sessions), IdsIn(rest, Back), IdsIn(rest, Out), x.id, x.phase == Back, x.phase == Out);
  }

  lemma StaysOne(a: State, b: State, j: nat)
    requires Stays(a, b, j)
    ensures j < |a.sessions| == |b.sessions|
  {
  }

  lemma StayEnded(a: State, b: State, c: State, j: nat)
    requires Rising(a.sessions) && Stays(a, b, j) && Ended(b, c, j + 1)
    ensures Ended(a, c, j)
  {
    hide EndList, Gone, Rising;
    StayLists(a, b, c, j);
  }

  lemma {:induction false} SessionsEnd(cfg: Config, s: State, j: nat, dt: real)
    requires Core(cfg, s, -1) && j <= |s.sessions|
    ensures Ended(s, SessionsStep(cfg, s, j, dt), j)
    decreases |s.sessions| - j
  {
    hide Core, Ended, SessionStep, Stays, Leaves, Rising, BelowNext;
    if j == |s.sessions| {
      NoneEnded(s, j);
    } else {
      CoreRises(cfg, s);
      var next := SessionStep(cfg, s, j, dt);
      SessionStepSize(cfg, s, j, dt);
      SessionStepKeeps(cfg, s, j, dt);
      SessionEnds(cfg, s, j, dt);
      if |next.sessions| < |s.sessions| {
        if Stays(s, next, j) { StaysOne(s, next, j); }
        SessionsEnd(cfg, next, j, dt);
        LeaveEnded(s, next, SessionsStep(cfg, s, j, dt), j);
      } else {
        if Leaves(s, next, j) { LeavesOne(s, next, j); }
        SessionsEnd(cfg, next, j + 1, dt);
        StayEnded(s, next, SessionsStep(cfg, s, j, dt), j);
      }
    }
  }

  lemma NoneEnded(s: State, j: nat)
    requires j == |s.sessions|
    ensures Ended(s, s, j)
  {
    assert LeftFrom(s, s, j, Back) == {} && LeftFrom(s, s, j, Out) == {};
    assert Ids(s.sessions) - Ids(s.sessions) == {};
  }

  // ---------------------------------------------------------------- one event

  /** The counters of `b` are those of `a`, and more by the sessions that have left: on their
      way back, completed; while served, cancelled; before, refused. */
  ghost predicate Counted(a: State, b: State) {
    && a.nextId <= b.nextId
    && b.counters.started == a.counters.started + b.nextId - a.nextId
    && b.counters.completed == a.counters.completed + Leaving(a, b, Back)
    && b.counters.cancelled == a.counters.cancelled + Leaving(a, b, Serve)
    && b.counters.refused == a.counters.refused + Leaving(a, b, Out) + Turned(a, b)
  }

  lemma OnePhase(xs: seq<Session>, p: Phase, q: Phase, id: nat)
    requires Rising(xs) && id in IdsIn(xs, p) && id in IdsIn(xs, q)
    ensures p == q
  {
    var x :| x in xs && x.phase == p && x.id == id;
    var y :| y in xs && y.phase == q && y.id == id;
    SameId(xs, x, y);
  }

  /** The sessions that are not served have all stayed. */
  lemma CutPhase(a: State, b: State, phase: Phase)
    requires CutList(a, b) && Rising(a.sessions) && phase != Serve
    ensures IdsIn(a.sessions, phase) == IdsIn(b.sessions, phase) && Leaving(a, b, phase) == 0
  {
    forall id | id in IdsIn(a.sessions, phase) ensures id in Ids(b.sessions) && id in IdsIn(b.sessions, phase) {
      if id !in Ids(b.sessions) {
        assert id in Ids(a.sessions) - Ids(b.sessions);
        OnePhase(a.sessions, phase, Serve, id);
      }
      var y :| y in b.sessions && y.id == id;
      var x :| x in a.sessions && x.phase == phase && x.id == id;
      SameId(a.sessions, x, y);
    }
    assert Left(a, b, phase) == {};
  }

  lemma CutCounted(a: State, b: State)
    requires Cut(a, b) && Rising(a.sessions)
    ensures Counted(a, b)
  {
    hide CutList, Leaving, Rising;
    CutPhase(a, b, Back);
    CutPhase(a, b, Out);
    assert TurnedAway(a, b) == {};
  }

  /** Sessions that set out between `a` and `b` and are in `b`. */
  ghost function OnTheWay(a: State, b: State): set<nat> {
    Ids(b.sessions) - Ids(a.sessions)
  }

  lemma SetOutPhases(a: State, b: State)
    requires NewOut(a, b)
    ensures IdsIn(b.sessions, Back) == IdsIn(a.sessions, Back) && IdsIn(b.sessions, Serve) == IdsIn(a.sessions, Serve)
    ensures Ids(a.sessions) <= Ids(b.sessions)
    ensures forall id :: id in OnTheWay(a, b) ==> a.nextId <= id < b.nextId
  {
    forall x | x in b.sessions ensures x in a.sessions || (x.phase == Out && a.nextId <= x.id < b.nextId) {
      var j :| 0 <= j < |b.sessions| && b.sessions[j] == x;
      if j < |a.sessions| { assert a.sessions[j] == x; }
    }
    forall x | x in a.sessions ensures x in b.sessions && x.id in Ids(b.sessions) {
      var j :| 0 <= j < |a.sessions| && a.sessions[j] == x;
      assert b.sessions[j] == x;
    }
  }

  lemma SetOutOut(a: State, b: State)
    requires NewOut(a, b) && BelowNext(a)
    ensures IdsIn(b.sessions, Out) == IdsIn(a.sessions, Out) + OnTheWay(a, b)
    ensures Numbers(a.nextId, b.nextId) * Ids(b.sessions) == OnTheWay(a, b)
  {
    forall x | x in b.sessions ensures x in a.sessions || (x.phase == Out && a.nextId <= x.id < b.nextId) {
      var j :| 0 <= j < |b.sessions| && b.sessions[j] == x;
      if j < |a.sessions| { assert a.sessions[j] == x; }
    }
    forall x | x in a.sessions ensures x in b.sessions {
      var j :| 0 <= j < |a.sessions| && a.sessions[j] == x;
      assert b.sessions[j] == x;
    }
  }

  /** The hosts, then the callers, then the sessions: completed, ... */
  lemma TickCompleted(s: State, h: State, c: State, r: State)
    requires Rising(s.sessions) && CutList(s, h) && NewOut(h, c)
    ensures Leaving(s, r, Back) == Gone(c, r, 0, Back)
  {
    hide Ids, IdsIn, Rising, NewOut, CutList;
    CutPhase(s, h, Back);
    SetOutPhases(h, c);
    assert c.sessions[0..] == c.sessions;
  }

  /** ... cancelled ... */
  lemma TickCancelled(s: State, h: State, c: State, r: State)
    requires Rising(s.sessions) && Rising(c.sessions) && CutList(s, h) && NewOut(h, c) && BelowNext(s) && h.nextId == s.nextId
    requires EndList(c, r, 0)
    ensures Leaving(s, r, Serve) == Leaving(s, h, Serve)
  {
    hide NewOut, Leaving, EndList;
    forall id | id in IdsIn(s.sessions, Serve) && id in Ids(h.sessions) ensures id in Ids(r.sessions) {
      StillServed(s, h, c, r, id);
    }
    forall id | id in IdsIn(s.sessions, Serve) && id in Ids(r.sessions) ensures id in Ids(h.sessions) {
      WasServed(h, c, r, id);
    }
    assert Left(s, r, Serve) == Left(s, h, Serve);
    LeavingIs(s, r, h);
  }

  lemma LeavingIs(s: State, r: State, h: State)
    requires Left(s, r, Serve) == Left(s, h, Serve)
    ensures Leaving(s, r, Serve) == Leaving(s, h, Serve)
  {
  }

  lemma StillServed(s: State, h: State, c: State, r: State, id: nat)
    requires Rising(s.sessions) && Rising(c.sessions) && CutList(s, h) && NewOut(h, c) && EndList(c, r, 0)
    requires id in IdsIn(s.sessions, Serve) && id in Ids(h.sessions)
    ensures id in Ids(r.sessions)
  {
    hide NewOut;
    var y :| y in h.sessions && y.id == id;
    var x :| x in s.sessions && x.phase == Serve && x.id == id;
    SameId(s.sessions, x, y);
    SetOutPhases(h, c);
    assert c.sessions[0..] == c.sessions;
    if id !in Ids(r.sessions) {
      assert id in Ids(c.sessions) - Ids(r.sessions);
      OnePhase(c.sessions, Serve, if id in LeftFrom(c, r, 0, Back) then Back else Out, id);
    }
  }

  lemma WasServed(h: State, c: State, r: State, id: nat)
    requires NewOut(h, c) && EndList(c, r, 0) && id in Ids(r.sessions) && id < h.nextId
    ensures id in Ids(h.sessions)
  {
    IdsPrefix(h, c);
    assert id in Ids(c.sessions);
  }

  /** ... and refused. */
  lemma TickRefused(s: State, h: State, c: State, r: State)
    requires Rising(s.sessions) && CutList(s, h) && NewOut(h, c) && BelowNext(s)
    requires EndList(c, r, 0) && h.nextId == s.nextId && c.nextId == r.nextId
    ensures Leaving(s, r, Out) + Turned(s, r) == Turned(h, c) + Gone(c, r, 0, Out)
  {
    hide IdsIn, Ids, NewOut, Rising, BelowNext, Numbers, CutList, OnTheWay;
    CutBelow(s, h);
    CutPhase(s, h, Out);
    SetOutOut(h, c);
    OutsBelow(s, c.nextId);
    assert c.sessions[0..] == c.sessions;
    RefusedSets(IdsIn(s.sessions, Out), OnTheWay(h, c), Ids(r.sessions), Ids(c.sessions), Numbers(h.nextId, c.nextId));
  }

  lemma RefusedSets(out: set<nat>, way: set<nat>, r: set<nat>, c: set<nat>, n: set<nat>)
    requires r <= c && n * c == way && out !! n
    ensures |out - r| + |n - r| == |n - c| + |(out + way) - r|
  {
    assert (out + way) - r == (out - r) + (way - r);
    Disjoint(out - r, way - r);
    assert n - r == (n - c) + (way - r);
    Disjoint(n - c, way - r);
  }

  lemma CutBelow(a: State, b: State)
    requires CutList(a, b) && BelowNext(a) && b.nextId == a.nextId
    ensures BelowNext(b)
  {
  }

  lemma OutsBelow(s: State, hi: nat)
    requires BelowNext(s)
    ensures IdsIn(s.sessions, Out) !! Numbers(s.nextId, hi)
  {
  }

  lemma PartsCounted(s: State, a: State, c: State, r: State)
    requires Rising(s.sessions) && Rising(c.sessions) && Cut(s, a) && SetOut(a, c) && BelowNext(s) && Ended(c, r, 0)
    ensures Counted(s, r)
  {
    hide Rising, BelowNext, CutList, NewOut, EndList, Gone, Leaving, Turned;
    TickCompleted(s, a, c, r);
    TickCancelled(s, a, c, r);
    TickRefused(s, a, c, r);
  }

  lemma TickCounts(cfg: Config, s: State, dt: real)
    requires Inv(cfg, s)
    ensures Counted(s, Step(cfg, s, dt))
  {
    hide Cut, SetOut, Rising, BelowNext, Ended, Inv, Core, AfterSeat, Calls, SessionsStep, Counted;
    var d := Capped(dt);
    var a := AfterSeat(cfg, s, d);
    var c := Calls(a);
    AfterSeatCuts(cfg, s, d);
    AfterSeatKeeps(cfg, s, d);
    CallsKeeps(cfg, a);
    InvRises(cfg, s);
    InvRises(cfg, a);
    InvRises(cfg, c);
    InvCore(cfg, c);
    CallsSetOut(a);
    SessionsEnd(cfg, c, 0, d);
    PartsCounted(s, a, c, Step(cfg, s, dt));
  }

  lemma InvCore(cfg: Config, s: State)
    requires Inv(cfg, s)
    ensures Core(cfg, s, -1)
  {
  }

  lemma KillCuts(cfg: Config, s: State, i: nat, mode: Mode)
    requires Inv(cfg, s) && i < |s.hosts|
    ensures Cut(s, Kill(cfg, s, i, mode))
  {
    hide Inv, Cut, Rising, BelowNext, DeclareDead;
    var h, r := s.hosts[i], Kill(cfg, s, i, mode);
    InvRises(cfg, s);
    CutNone(s, s);
    if h.status == Up && !h.silent && mode == Crash {
      var s1 := SetMoveAt(SetHost(s, i, h.(since := s.t)), i, s.t + cfg.suspectS);
      CutNone(s, s1);
      DeclareDeadCuts(cfg, s1, i);
      CutTwice(s, s1, r);
    } else {
      CutNone(s, r);
    }
  }

  lemma ReviveCuts(cfg: Config, s: State, i: nat)
    requires Inv(cfg, s) && i < |s.hosts|
    ensures Cut(s, Revive(cfg, s, i))
  {
    hide Inv, Cut, Rising, BelowNext, DeclareDead;
    var h, r := s.hosts[i], Revive(cfg, s, i);
    InvRises(cfg, s);
    CutNone(s, s);
    DeclareDeadCuts(cfg, s, i);
    var s1 := if h.status != Dead then DeclareDead(cfg, s, i) else s;
    if r != s {
      CutNone(s1, r);
      CutTwice(s, s1, r);
    }
  }

  /** One event moves each counter by the sessions that leave the list in it: `completed` by
      those that were on their way back, `cancelled` by those that were served, `refused` by
      those that were on their way out and by those that set out in it and found no host;
      `started` grows by those that set out. */
  lemma EventCounts(cfg: Config, s: State, e: Event)
    requires Inv(cfg, s)
    ensures var r := Apply(cfg, s, e);
            && s.nextId <= r.nextId
            && r.counters.started - s.counters.started == r.nextId - s.nextId
            && r.counters.completed - s.counters.completed == |IdsIn(s.sessions, Back) - Ids(r.sessions)|
            && r.counters.cancelled - s.counters.cancelled == |IdsIn(s.sessions, Serve) - Ids(r.sessions)|
            && r.counters.refused - s.counters.refused
               == |IdsIn(s.sessions, Out) - Ids(r.sessions)| + |Numbers(s.nextId, r.nextId) - Ids(r.sessions)|
  {
    hide Inv, Step, Kill, Revive, Cut, Ids, IdsIn, Numbers, Rising;
    CutNone(s, s);
    InvRises(cfg, s);
    CutCounted(s, s);
    match e
    case Tick(dt) => TickCounts(cfg, s, dt);
    case Fail(i, mode) => if i < |s.hosts| { KillCuts(cfg, s, i, mode); CutCounted(s, Kill(cfg, s, i, mode)); }
    case Return(i) => if i < |s.hosts| { ReviveCuts(cfg, s, i); CutCounted(s, Revive(cfg, s, i)); }
  }

  // ---------------------------------------------------------------- every run

  /** How many sessions leave in a phase over a run, ... */
  ghost function Leavers(cfg: Config, s: State, es: seq<Event>, phase: Phase): nat
    decreases |es|
  {
    if es == [] then 0
    else
      var r := Apply(cfg, s, es[0]);
      |IdsIn(s.sessions, phase) - Ids(r.sessions)| + Leavers(cfg, r, es[1..], phase)
  }

  /** ... and how many set out and find no host. */
  ghost function Strays(cfg: Config, s: State, es: seq<Event>): nat
    decreases |es|
  {
    if es == [] then 0
    else
      var r := Apply(cfg, s, es[0]);
      |Numbers(s.nextId, r.nextId) - Ids(r.sessions)| + Strays(cfg, r, es[1..])
  }

  lemma {:induction false} CountsThrough(cfg: Config, s: State, es: seq<Event>)
    requires Inv(cfg, s)
    ensures var r := Run(cfg, s, es);
            && r.counters.started - s.counters.started == r.nextId - s.nextId
            && r.counters.completed - s.counters.completed == Leavers(cfg, s, es, Back)
            && r.counters.cancelled - s.counters.cancelled == Leavers(cfg, s, es, Serve)
            && r.counters.refused - s.counters.refused == Leavers(cfg, s, es, Out) + Strays(cfg, s, es)
    decreases |es|
  {
    hide Inv, Apply, IdsIn, Ids, Numbers;
    if es != [] {
      EventCounts(cfg, s, es[0]);
      ApplyKeeps(cfg, s, es[0]);
      CountsThrough(cfg, Apply(cfg, s, es[0]), es[1..]);
    }
  }

  /** Over every run the sessions completed are those that left on their way back, the
      cancelled those that left while served, and the refused those that left before or
      never came on the list. */
  lemma RunCounts(cfg: Config, es: seq<Event>)
    ensures var s, r := Create(cfg), Run(cfg, Create(cfg), es);
            && r.counters.started == r.nextId - 1
            && r.counters.completed == Leavers(cfg, s, es, Back)
            && r.counters.cancelled == Leavers(cfg, s, es, Serve)
            && r.counters.refused == Leavers(cfg, s, es, Out) + Strays(cfg, s, es)
  {
    CreateKeeps(cfg);
    hide Inv, Run, Leavers, Strays;
    CountsThrough(cfg, Create(cfg), es);
  }
}
