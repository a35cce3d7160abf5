/** The release simulation against its rules, told by the clock and not by its own functions:
    how long each phase lasts and what follows it, that every release ends, and what
    becomes of every call. */
module SimReleaseRules {
  import opened Options
  import opened Simulations
  import opened SimRelease
  import opened Clocks

  // ---------------------------------------------------------------- the phases of a release

  predicate Moving(phase: Phase) {
    phase != Idle && phase != Halted && phase != Complete
  }

  /** How long each phase lasts. */
  function Lasts(cfg: Config, phase: Phase): real {
    match phase
    case Sending => 0.9
    case Forwarding => 0.6
    case Canary => 0.6
    case Gate => cfg.windowS
    case Rest => 0.6
    case _ => 0.0
  }

  function Next(phase: Phase, canaryFails: bool): Phase {
    match phase
    case Sending => Forwarding
    case Forwarding => Canary
    case Canary => Gate
    case Gate => if canaryFails then Halted else Rest
    case Rest => Complete
    case _ => phase
  }

  lemma ReleasePhase(cfg: Config, s: State, dt: real)
    requires Shape(cfg, s)
    ensures var r := AfterRelease(cfg, s, dt);
            && r.t == s.t + dt && r.canaryFails == s.canaryFails
            && (!Moving(s.phase) ==> r.phase == s.phase && r.phaseT == s.phaseT)
            && (Moving(s.phase) && s.phaseT + dt < Lasts(cfg, s.phase) ==> r.phase == s.phase && r.phaseT == s.phaseT + dt)
            && (Moving(s.phase) && s.phaseT + dt >= Lasts(cfg, s.phase) ==>
                  r.phase == Next(s.phase, s.canaryFails) && r.phaseT == 0.0)
  {
    hide Keep;
    PatchFromClock(s.(t := s.t + dt, phaseT := s.phaseT + dt), 0);
  }

  lemma {:induction false} PatchFromClock(s: State, i: nat)
    requires |s.versions| == |s.patchedAt|
    ensures var r := PatchFrom(s, i);
            r.t == s.t && r.phase == s.phase && r.phaseT == s.phaseT && r.canaryFails == s.canaryFails
    decreases |s.versions| - i
  {
    if i < |s.versions| { PatchFromClock(if s.versions[i] == 1 then Patch(s, i) else s, i + 1); }
  }

  /** In every frame a phase ends exactly if its time has passed, and the next one begins;
      a release that is idle, halted or complete stays so. */
  lemma StepPhase(cfg: Config, s: State, dt: real)
    requires Inv(cfg, s)
    ensures CallsPlaced(s)
    ensures var d, r := Frame(dt), Step(cfg, s, dt);
            && r.t == s.t + d && r.canaryFails == s.canaryFails
            && (!Moving(s.phase) ==> r.phase == s.phase && r.phaseT == s.phaseT)
            && (Moving(s.phase) && s.phaseT + d < Lasts(cfg, s.phase) ==> r.phase == s.phase && r.phaseT == s.phaseT + d)
            && (Moving(s.phase) && s.phaseT + d >= Lasts(cfg, s.phase) ==>
                  r.phase == Next(s.phase, s.canaryFails) && r.phaseT == 0.0)
  {
    hide Inv, AfterRelease, Traffic, Lasts, Next, Step;
    var r := StepParts(cfg, s, dt);
    ReleasePhase(cfg, s, Frame(dt));
  }

  // ---------------------------------------------------------------- every release ends

  /** The time from the start of a phase to the end of the release, the last frame of each
      phase counted in full. */
  function Ahead(cfg: Config, phase: Phase, canaryFails: bool): real {
    var gate := Wait(cfg.windowS) + 0.1 + if canaryFails then 0.0 else 0.7;
    match phase
    case Sending => 1.0 + 0.7 + 0.7 + gate
    case Forwarding => 0.7 + 0.7 + gate
    case Canary => 0.7 + gate
    case Gate => gate
    case Rest => 0.7
    case _ => 0.0
  }

  /** The phase's time has not run out. */
  ghost predicate OnClock(cfg: Config, s: State) {
    Moving(s.phase) ==> s.phaseT == 0.0 || 0.0 <= s.phaseT < Lasts(cfg, s.phase)
  }

  function Left(cfg: Config, s: State): real {
    if Moving(s.phase) then Ahead(cfg, s.phase, s.canaryFails) - s.phaseT else 0.0
  }

  lemma StepLeft(cfg: Config, s: State, dt: real)
    requires Inv(cfg, s) && OnClock(cfg, s) && Moving(s.phase) && dt > 0.0
    ensures CallsPlaced(s) && Left(cfg, s) > 0.0
    ensures var r := Step(cfg, s, dt);
            && OnClock(cfg, r) && r.canaryFails == s.canaryFails && r.phase != Idle
            && Left(cfg, r) <= Left(cfg, s) - Frame(dt)
  {
    hide Inv, Step;
    StepPhase(cfg, s, dt);
  }

  function Ticks(dts: seq<real>): seq<Event> {
    if dts == [] then [] else [Tick(dts[0])] + Ticks(dts[1..])
  }

  lemma TickFirst(cfg: Config, s: State, dts: seq<real>)
    requires Inv(cfg, s) && dts != []
    ensures Shape(cfg, s) && CallsPlaced(s) && Inv(cfg, Step(cfg, s, dts[0]))
    ensures Run(cfg, s, Ticks(dts)) == Run(cfg, Step(cfg, s, dts[0]), Ticks(dts[1..]))
  {
    InvPlaced(cfg, s);
    hide Inv, Step;
    StepKeeps(cfg, s, dts[0]);
    assert Ticks(dts)[1..] == Ticks(dts[1..]);
  }

  lemma {:induction false} RunEnds(cfg: Config, s: State, dts: seq<real>)
    requires Inv(cfg, s) && OnClock(cfg, s) && s.phase != Idle && Passing(dts)
    requires Elapsed(dts) >= Left(cfg, s)
    ensures !Moving(Run(cfg, s, Ticks(dts)).phase) && Run(cfg, s, Ticks(dts)).canaryFails == s.canaryFails
    ensures Run(cfg, s, Ticks(dts)).phase != Idle
    decreases |dts|
  {
    hide Inv, Step, OnClock, Ahead;
    if dts == [] {
      if Moving(s.phase) { LeftPositive(cfg, s); }
    } else {
      TickFirst(cfg, s, dts);
      var next := Step(cfg, s, dts[0]);
      if Moving(s.phase) {
        StepLeft(cfg, s, dts[0]);
      } else {
        StepPhase(cfg, s, dts[0]);
        StillOnClock(cfg, next);
        ElapsedPositive(dts[1..]);
      }
      RunEnds(cfg, next, dts[1..]);
    }
  }

  lemma LeftPositive(cfg: Config, s: State)
    requires OnClock(cfg, s) && Moving(s.phase)
    ensures Left(cfg, s) > 0.0
  {
  }

  lemma StillOnClock(cfg: Config, s: State)
    requires !Moving(s.phase)
    ensures OnClock(cfg, s)
  {
  }

  lemma BeginIs(cfg: Config, s: State, fails: bool)
    requires Inv(cfg, s)
    ensures var r := Apply(cfg, s, Begin(fails));
            && (s.phase == Idle ==> r == s.(canaryFails := fails, phase := Sending, phaseT := 0.0))
            && (s.phase != Idle ==> r == s)
  {
    hide Inv;
  }

  predicate OnlyTicks(es: seq<Event>) {
    forall i :: 0 <= i < |es| ==> es[i].Tick?
  }

  lemma {:induction false} IdleThrough(cfg: Config, s: State, es: seq<Event>)
    requires Inv(cfg, s)
    ensures Run(cfg, s, es).phase == Idle <==> s.phase == Idle && OnlyTicks(es)
    decreases |es|
  {
    if es != [] {
      hide Inv, Step, Start;
      match es[0] {
        case Begin(fails) => BeginIs(cfg, s, fails);
        case Tick(dt) => StepPhase(cfg, s, dt);
      }
      assert es[0].Tick? && OnlyTicks(es[1..]) ==> OnlyTicks(es) by {
        assert forall i :: 0 < i < |es| ==> es[i] == es[1..][i - 1];
      }
      IdleThrough(cfg, Apply(cfg, s, es[0]), es[1..]);
    }
  }

  /** A release begins on demand and not by itself. */
  lemma RunBegins(cfg: Config, es: seq<Event>)
    requires cfg.hosts >= 2
    ensures Inv(cfg, Create(cfg))
    ensures Run(cfg, Create(cfg), es).phase == Idle <==> OnlyTicks(es)
  {
    CreateIs(cfg);
    IdleThrough(cfg, Create(cfg), es);
  }

  /** A release that begins ends, whenever it begins and however time is cut into frames: in
      2.1 seconds and the window, and a tenth more for each of its four phases, if the
      canary fails, which leaves the canary alone on the new code; in another 0.7 seconds
      if it does not, which leaves every host on it. */
  lemma RunFinishes(cfg: Config, before: seq<Event>, fails: bool, dts: seq<real>, i: nat)
    requires cfg.hosts >= 2 && i < cfg.hosts && Passing(dts)
    ensures Inv(cfg, Create(cfg))
    ensures var s := Run(cfg, Create(cfg), before);
            s.phase == Idle && Elapsed(dts) >= 2.5 + Wait(cfg.windowS) + (if fails then 0.0 else 0.7) ==>
              var r := Run(cfg, s, [Begin(fails)] + Ticks(dts));
              && |r.versions| == cfg.hosts
              && (fails ==> r.phase == Halted && (r.versions[i] == 2 <==> i == CanaryHost(cfg)))
              && (!fails ==> r.phase == Complete && r.versions[i] == 2)
  {
    hide Step;
    CreateIs(cfg);
    var s := Run(cfg, Create(cfg), before);
    if s.phase == Idle {
      var begun := Apply(cfg, s, Begin(fails));
      assert ([Begin(fails)] + Ticks(dts))[1..] == Ticks(dts);
      var r := Run(cfg, s, [Begin(fails)] + Ticks(dts));
      assert r == Run(cfg, begun, Ticks(dts));
      if Elapsed(dts) >= 2.5 + Wait(cfg.windowS) + (if fails then 0.0 else 0.7) {
        BeginIs(cfg, s, fails);
        RunEnds(cfg, begun, dts);
        assert HostOk(cfg, r, i);
      }
    }
  }

  // ---------------------------------------------------------------- what becomes of a call

  /** The k-th service takes a time drawn between the two bounds. */
  function Service(cfg: Config, k: nat): real {
    cfg.sessionLo + cfg.rand(k) * (cfg.sessionHi - cfg.sessionLo)
  }

  /** Call `x` is what call `c` has become in a frame of `d`: it goes on as it is until its
      time is up; then it is served on its host's code, or answered on the code it was
      served on. */
  ghost predicate Follows(versions: seq<int>, c: Call, x: Call, d: real) {
    && x.number == c.number && x.host == c.host && x.age == c.age + d
    && (if c.elapsed + d < c.dur then x == c.(elapsed := c.elapsed + d, age := c.age + d)
        else match c.phase
             case Out => x.phase == Serve && x.elapsed == 0.0 && c.host < |versions| && x.version == versions[c.host]
             case Serve => x.phase == Back && x.elapsed == 0.0 && x.version == c.version
             case Back => false)
  }

  /** The call has been answered. */
  predicate Answered(c: Call, d: real) {
    c.phase == Back && c.elapsed + d >= c.dur
  }

  ghost predicate Rising(calls: seq<Call>) {
    forall i, j :: 0 <= i < j < |calls| ==> calls[i].number < calls[j].number
  }

  lemma SameNumber(calls: seq<Call>, c: Call, x: Call)
    requires Rising(calls) && c in calls && x in calls && c.number == x.number
    ensures c == x
  {
    var i :| 0 <= i < |calls| && calls[i] == c;
    var j :| 0 <= j < |calls| && calls[j] == x;
    assert !(i < j) && !(j < i);
  }

  lemma OneFollows(cfg: Config, s: State, i: nat, d: real)
    requires i < |s.calls| && s.calls[i].host < |s.versions|
    ensures var c, r := s.calls[i], StepCall(cfg, s, i, d);
            && r.versions == s.versions && r.t == s.t
            && (Answered(c, d) ==> r.calls == RemoveAt(s.calls, i))
            && (!Answered(c, d) ==>
                  |r.calls| == |s.calls| && r.calls == s.calls[i := r.calls[i]] && Follows(s.versions, c, r.calls[i], d))
  {
  }

  /** What the calls from position `i` on are after call `i` has been stepped. */
  lemma OneListed(calls: seq<Call>, i: nat, r: seq<Call>, gone: bool)
    requires i < |calls|
    requires if gone then r == RemoveAt(calls, i) else |r| == |calls| && r == calls[i := r[i]]
    ensures r[..i] == calls[..i]
    ensures r[i..] == (if gone then [] else [r[i]]) + calls[i + 1..]
  {
    assert gone ==> calls[..i] + calls[i + 1..] == r;
  }

  /** The calls below position `i` have become what follows them, in order, and the rest is
      as it was. */
  ghost predicate AllFollow(versions: seq<int>, calls: seq<Call>, i: nat, r: seq<Call>, d: real) {
    && i <= |calls|
    && (forall x :: x in calls[i..] ==> x in r)
    && (forall j :: 0 <= j < i && !Answered(calls[j], d) ==> Followed(versions, calls[j], r, d))
    && (forall x :: x in r ==> x in calls[i..] || Came(versions, calls[..i], x, d))
  }

  ghost predicate Followed(versions: seq<int>, c: Call, r: seq<Call>, d: real) {
    exists x :: x in r && Follows(versions, c, x, d)
  }

  ghost predicate Came(versions: seq<int>, calls: seq<Call>, x: Call, d: real) {
    exists c :: c in calls && Follows(versions, c, x, d)
  }

  lemma CameMore(versions: seq<int>, calls: seq<Call>, i: nat, x: Call, d: real)
    requires i < |calls| && Came(versions, calls[..i], x, d)
    ensures Came(versions, calls[..i + 1], x, d)
  {
    var c :| c in calls[..i] && Follows(versions, c, x, d);
    assert calls[..i + 1] == calls[..i] + [calls[i]];
    assert c in calls[..i + 1];
  }

  lemma AllFollowNext(versions: seq<int>, calls: seq<Call>, next: seq<Call>, i: nat, gone: bool, r: seq<Call>, d: real)
    requires i < |calls| && i <= |next| && next[..i] == calls[..i]
    requires gone <==> Answered(calls[i], d)
    requires !gone ==> i < |next| && Follows(versions, calls[i], next[i], d)
    requires next[i..] == (if gone then [] else [next[i]]) + calls[i + 1..]
    requires AllFollow(versions, next, i, r, d)
    ensures AllFollow(versions, calls, i + 1, r, d)
  {
    hide Follows, Answered;
    forall x | x in calls[i + 1..] ensures x in r { assert x in next[i..]; }
    forall j | 0 <= j < i + 1 && !Answered(calls[j], d) ensures Followed(versions, calls[j], r, d) {
      if j < i {
        assert next[j] == next[..i][j] == calls[j];
        assert Followed(versions, next[j], r, d);
      } else {
        assert next[i] in next[i..];
      }
    }
    forall x | x in r ensures x in calls[i + 1..] || Came(versions, calls[..i + 1], x, d) {
      if x in next[i..] {
        if x !in calls[i + 1..] { assert calls[i] in calls[..i + 1]; }
      } else {
        CameMore(versions, calls, i, x, d);
      }
    }
  }

  lemma {:induction false} StepCallsFollow(cfg: Config, s: State, i: nat, d: real)
    requires i <= |s.calls| && Serving(s) && CallsPlaced(s)
    ensures StepCalls(cfg, s, i, d).versions == s.versions
    ensures AllFollow(s.versions, s.calls, i, StepCalls(cfg, s, i, d).calls, d)
    decreases i
  {
    hide Serving, StepCall, Follows, Answered;
    if i == 0 {
      NoneFollow(s.versions, s.calls, d);
    } else {
      var next, c := StepCall(cfg, s, i - 1, d), s.calls[i - 1];
      StepCallServes(cfg, s, i - 1, d);
      ServingPlaced(next);
      OneFollows(cfg, s, i - 1, d);
      OneListed(s.calls, i - 1, next.calls, Answered(c, d));
      StepCallsFollow(cfg, next, i - 1, d);
      AllFollowNext(s.versions, s.calls, next.calls, i - 1, Answered(c, d), StepCalls(cfg, s, i, d).calls, d);
    }
  }

  lemma NoneFollow(versions: seq<int>, calls: seq<Call>, d: real)
    ensures AllFollow(versions, calls, 0, calls, d)
  {
    assert calls[0..] == calls;
  }

  /** A call that is being served when its host changes code is drained. */
  ghost predicate Drained(s: State, r: State, c: Call) {
    c.phase == Serve && c.host < |s.versions| == |r.versions| && r.versions[c.host] != s.versions[c.host]
  }

  /** The calls of `r` are those of `s` but for the drained ones, in their order. */
  ghost predicate Kept(s: State, r: State) {
    && |r.versions| == |s.versions| && (Rising(s.calls) ==> Rising(r.calls))
    && (forall c :: c in r.calls <==> c in s.calls && !Drained(s, r, c))
  }

  lemma {:induction false} KeepRising(calls: seq<Call>, i: nat)
    requires Rising(calls)
    ensures Rising(Keep(calls, i))
    decreases |calls|
  {
    if calls != [] {
      var rest := Keep(calls[1..], i);
      KeepRising(calls[1..], i);
      KeepSubset(calls[1..], i);
      forall j | 0 <= j < |rest| ensures calls[0].number < rest[j].number {
        assert rest[j] in calls[1..];
      }
    }
  }

  lemma PatchKept(s: State, i: nat)
    requires Serving(s) && i < |s.versions| == |s.patchedAt| && s.versions[i] == 1
    ensures Kept(s, Patch(s, i))
  {
    KeepSubset(s.calls, i);
    if Rising(s.calls) { KeepRising(s.calls, i); }
    forall c | c in s.calls ensures c.host < |s.versions| {
      var j :| 0 <= j < |s.calls| && s.calls[j] == c;
      assert CallOk(s, s.calls[j]);
    }
  }

  lemma {:induction false} PatchFromKept(s: State, i: nat)
    requires Serving(s) && |s.versions| == |s.patchedAt|
    ensures Kept(s, PatchFrom(s, i))
    decreases |s.versions| - i
  {
    if i < |s.versions| {
      hide Patch, Serving, Patched;
      var next := if s.versions[i] == 1 then Patch(s, i) else s;
      PatchShape(s, i);
      if s.versions[i] == 1 {
        PatchServes(s, i);
        PatchKept(s, i);
        PatchFromKept(next, i + 1);
        PatchFromIs(next, i + 1);
        KeptTwice(s, i, next, PatchFrom(next, i + 1));
      } else {
        PatchFromKept(s, i + 1);
      }
    }
  }

  lemma KeptTwice(s: State, i: nat, next: State, r: State)
    requires i < |s.versions| == |s.patchedAt| && s.versions[i] == 1 && next == Patch(s, i)
    requires Kept(s, next) && Kept(next, r) && Patched(next, i + 1, r)
    ensures Kept(s, r)
  {
    hide Keep;
    forall c ensures c in r.calls <==> c in s.calls && !Drained(s, r, c) {
      assert Drained(s, r, c) <==> Drained(s, next, c) || Drained(next, r, c);
    }
  }

  lemma ReleaseKept(cfg: Config, s: State, dt: real)
    requires Inv(cfg, s)
    ensures Kept(s, AfterRelease(cfg, s, dt))
  {
    hide Patch, Keep, Kept, Patched, Serving;
    var s1 := s.(t := s.t + dt, phaseT := s.phaseT + dt);
    ServingSame(s, s1);
    KeptSame(s, s.(t := s.t + dt));
    KeptSame(s, s1);
    match s.phase
    case Canary =>
      LastOtherIs(cfg.hosts, cfg.leader);
      var canary: nat := CanaryHost(cfg);
      assert HostOk(cfg, s, canary);
      if s1.phaseT >= HOP {
        PatchKept(s1, canary);
        KeptClock(s, s1, Patch(s1, canary), AfterRelease(cfg, s, dt));
      } else {
        KeptClock(s, s1, s1, AfterRelease(cfg, s, dt));
      }
    case Rest =>
      if s1.phaseT >= HOP {
        PatchFromKept(s1, 0);
        KeptClock(s, s1, PatchFrom(s1, 0), AfterRelease(cfg, s, dt));
      } else {
        KeptClock(s, s1, s1, AfterRelease(cfg, s, dt));
      }
    case _ => KeptClock(s, s, s, AfterRelease(cfg, s, dt));
  }

  lemma KeptSame(s: State, r: State)
    requires r.calls == s.calls && r.versions == s.versions
    ensures Kept(s, r) && Kept(s, s) && Kept(r, r)
  {
  }

  lemma KeptClock(s: State, s1: State, r1: State, r: State)
    requires Kept(s1, r1) && s1.calls == s.calls && s1.versions == s.versions
    requires r.calls == r1.calls && r.versions == r1.versions
    ensures Kept(s, r)
  {
    forall c ensures Drained(s, r, c) <==> Drained(s1, r1, c) {
    }
  }

  lemma ReleaseQuiet(cfg: Config, s: State, dt: real)
    requires Shape(cfg, s)
    ensures var r := AfterRelease(cfg, s, dt);
            && r.rr == s.rr && r.started == s.started && r.acc == s.acc && r.draws == s.draws
            && r.begunOld == s.begunOld && r.begunNew == s.begunNew
  {
    hide Keep;
    PatchFromQuiet(s.(t := s.t + dt, phaseT := s.phaseT + dt), 0);
  }

  lemma {:induction false} PatchFromQuiet(s: State, i: nat)
    requires |s.versions| == |s.patchedAt|
    ensures var r := PatchFrom(s, i);
            && r.rr == s.rr && r.started == s.started && r.acc == s.acc && r.draws == s.draws
            && r.begunOld == s.begunOld && r.begunNew == s.begunNew
    decreases |s.versions| - i
  {
    if i < |s.versions| { PatchFromQuiet(if s.versions[i] == 1 then Patch(s, i) else s, i + 1); }
  }

  // ---------------------------------------------------------------- when calls come and go

  function Positive(x: real): real {
    if x > 0.0 then x else 0.0
  }

  ghost predicate ServedFor(cfg: Config, draws: nat, time: real, late: real) {
    exists k: nat :: k < draws && Served(cfg, k, time, late)
  }

  /** A time `time` after a call set out fits the k-th service: 0.4 seconds on the way, the
      service, and the rest of one frame for each of `late` ends. */
  ghost predicate Served(cfg: Config, k: nat, time: real, late: real) {
    0.4 + Service(cfg, k) <= time <= 0.4 + Positive(Service(cfg, k)) + late
  }

  ghost predicate Drawn(cfg: Config, draws: nat, dur: real) {
    exists k: nat :: k < draws && dur == Service(cfg, k)
  }

  /** A call is as old as its phase allows: 0.4 seconds on its way, then served for a drawn
      time, then 0.4 seconds on its way back. */
  ghost predicate Timed(cfg: Config, draws: nat, c: Call) {
    match c.phase
    case Out => c.dur == 0.4 && c.elapsed == c.age && c.elapsed < 0.4 && c.version == 1
    case Serve =>
      && Drawn(cfg, draws, c.dur) && 0.4 <= c.age - c.elapsed < 0.5 && (c.elapsed < c.dur || c.elapsed == 0.0)
    case Back =>
      c.dur == 0.4 && c.elapsed < 0.4 && ServedFor(cfg, draws, c.age - c.elapsed, 0.2)
  }

  ghost predicate CallBooked(cfg: Config, started: nat, draws: nat, c: Call)
    requires cfg.hosts > 0
  {
    c.number < started && c.host == c.number % cfg.hosts && Timed(cfg, draws, c)
  }

  /** Calls are numbered as they set out, go to the hosts in turn, and every service has
      its own draw. */
  ghost predicate Booked(cfg: Config, s: State) {
    && cfg.hosts > 0 && s.rr == s.started && s.draws == s.begunOld + s.begunNew && Rising(s.calls)
    && forall j :: 0 <= j < |s.calls| ==> CallBooked(cfg, s.started, s.draws, s.calls[j])
  }

  lemma MoreDraws(cfg: Config, started: nat, draws: nat, more: nat, c: Call)
    requires cfg.hosts > 0 && CallBooked(cfg, started, draws, c) && more >= draws
    ensures CallBooked(cfg, started, more, c)
  {
    if c.phase == Serve {
      var k: nat :| k < draws && c.dur == Service(cfg, k);
    } else if c.phase == Back {
      var k: nat :| k < draws && Served(cfg, k, c.age - c.elapsed, 0.2);
    }
  }

  lemma TakenBooked(cfg: Config, s: State)
    requires Booked(cfg, s)
    ensures Booked(cfg, TakeCall(cfg, s))
    ensures TakeCall(cfg, s).acc + TakeCall(cfg, s).started as real == s.acc + s.started as real
    ensures TakeCall(cfg, s).t == s.t && s.calls <= TakeCall(cfg, s).calls
  {
    var r := TakeCall(cfg, s);
    forall j | 0 <= j < |r.calls| ensures CallBooked(cfg, r.started, r.draws, r.calls[j]) {
      if j < |s.calls| { assert CallBooked(cfg, s.started, s.draws, s.calls[j]); }
    }
    forall i, j | 0 <= i < j < |r.calls| ensures r.calls[i].number < r.calls[j].number {
      assert CallBooked(cfg, s.started, s.draws, s.calls[i]);
    }
  }

  lemma {:induction false} AllTakenBooked(cfg: Config, s: State)
    requires Booked(cfg, s)
    ensures var r := TakeCalls(cfg, s);
            && Booked(cfg, r) && r.acc < 1.0 && r.acc + r.started as real == s.acc + s.started as real
            && r.t == s.t && s.calls <= r.calls && r.started >= s.started
            && (s.acc >= 0.0 ==> r.acc >= 0.0)
            && forall j :: |s.calls| <= j < |r.calls| ==> r.calls[j].number >= s.started
    decreases s.acc.Floor
  {
    if s.acc >= 1.0 {
      hide Booked, TakeCalls;
      CallClock(cfg, s);
      TakenBooked(cfg, s);
      TakeCallsNext(cfg, s);
      var next := TakeCall(cfg, s);
      assert next.calls[|s.calls|].number == s.started;
      AllTakenBooked(cfg, next);
    }
  }

  lemma ServiceIs(cfg: Config, k: nat)
    ensures ServiceTime(cfg, k) == Service(cfg, k)
  {
  }

  lemma ServedNow(cfg: Config, k: nat, age: real, elapsed: real, d: real)
    requires 0.4 <= age - elapsed < 0.5 && d <= 0.1
    requires elapsed + d >= Service(cfg, k) && (elapsed < Service(cfg, k) || elapsed == 0.0)
    ensures Served(cfg, k, age + d, 0.2)
  {
    hide Service;
  }

  /** A call that has moved on is as old as its new phase allows. */
  lemma MovedTimed(cfg: Config, s: State, i: nat, d: real)
    requires i < |s.calls| && s.calls[i].host < |s.versions| && cfg.hosts > 0 && d <= 0.1
    requires CallBooked(cfg, s.started, s.draws, s.calls[i]) && !Answered(s.calls[i], d)
    ensures var r := StepCall(cfg, s, i, d);
            i < |r.calls| && CallBooked(cfg, s.started, r.draws, r.calls[i])
  {
    var c, r := s.calls[i], StepCall(cfg, s, i, d);
    var x := r.calls[i];
    if c.elapsed + d < c.dur {
      assert x == c.(elapsed := c.elapsed + d, age := c.age + d);
      assert x.age - x.elapsed == c.age - c.elapsed;
    } else if c.phase == Out {
      ServiceIs(cfg, s.draws);
      assert x == c.(phase := Serve, elapsed := 0.0, version := s.versions[c.host], dur := Service(cfg, s.draws),
                     age := c.age + d);
    } else {
      assert c.phase == Serve;
      assert x == c.(phase := Back, elapsed := 0.0, dur := 0.4, age := c.age + d);
      var k: nat :| k < s.draws && c.dur == Service(cfg, k);
      ServedNow(cfg, k, c.age, c.elapsed, d);
      assert Served(cfg, k, x.age - x.elapsed, 0.2);
    }
  }

  lemma StepCallBooked(cfg: Config, s: State, i: nat, d: real)
    requires Booked(cfg, s) && i < |s.calls| && s.calls[i].host < |s.versions| && d <= 0.1
    ensures Booked(cfg, StepCall(cfg, s, i, d))
    ensures StepCall(cfg, s, i, d).acc == s.acc && StepCall(cfg, s, i, d).started == s.started
  {
    hide Follows, CallBooked, Answered;
    var c, r := s.calls[i], StepCall(cfg, s, i, d);
    OneFollows(cfg, s, i, d);
    StepCallCounters(cfg, s, i, d);
    assert CallBooked(cfg, s.started, s.draws, c);
    if Answered(c, d) {
      forall j | 0 <= j < |r.calls| ensures CallBooked(cfg, r.started, r.draws, r.calls[j]) {
        var k := if j < i then j else j + 1;
        assert r.calls[j] == s.calls[k];
        assert CallBooked(cfg, s.started, s.draws, s.calls[k]);
        MoreDraws(cfg, s.started, s.draws, r.draws, s.calls[k]);
      }
    } else {
      MovedTimed(cfg, s, i, d);
      FollowsNumber(s.versions, c, r.calls[i], d);
      forall j | 0 <= j < |r.calls| ensures CallBooked(cfg, r.started, r.draws, r.calls[j]) {
        if j != i {
          assert CallBooked(cfg, s.started, s.draws, s.calls[j]);
          MoreDraws(cfg, s.started, s.draws, r.draws, s.calls[j]);
        }
      }
    }
  }

  lemma FollowsNumber(versions: seq<int>, c: Call, x: Call, d: real)
    requires Follows(versions, c, x, d)
    ensures x.number == c.number
  {
  }

  lemma StepCallCounters(cfg: Config, s: State, i: nat, d: real)
    requires i < |s.calls| && s.calls[i].host < |s.versions|
    ensures var r := StepCall(cfg, s, i, d);
            && r.acc == s.acc && r.started == s.started && r.rr == s.rr && r.t == s.t
            && r.draws >= s.draws && r.draws - r.begunOld - r.begunNew == s.draws - s.begunOld - s.begunNew
  {
  }

  lemma {:induction false} StepCallsBooked(cfg: Config, s: State, i: nat, d: real)
    requires Booked(cfg, s) && i <= |s.calls| && Serving(s) && CallsPlaced(s) && d <= 0.1
    ensures var r := StepCalls(cfg, s, i, d);
            Booked(cfg, r) && r.acc == s.acc && r.started == s.started && r.t == s.t
    decreases i
  {
    hide Booked, Serving, StepCall;
    if i > 0 {
      var next := StepCall(cfg, s, i - 1, d);
      StepCallServes(cfg, s, i - 1, d);
      ServingPlaced(next);
      StepCallBooked(cfg, s, i - 1, d);
      StepCallCounters(cfg, s, i - 1, d);
      StepCallsBooked(cfg, next, i - 1, d);
    }
  }

  lemma KeptBooked(cfg: Config, s: State, r: State)
    requires Booked(cfg, s) && Kept(s, r) && r.rr == s.rr && r.started == s.started && r.draws == s.draws
    requires r.begunOld == s.begunOld && r.begunNew == s.begunNew
    ensures Booked(cfg, r)
  {
    forall j | 0 <= j < |r.calls| ensures CallBooked(cfg, r.started, r.draws, r.calls[j]) {
      assert r.calls[j] in r.calls;
      var k :| 0 <= k < |s.calls| && s.calls[k] == r.calls[j];
      assert CallBooked(cfg, s.started, s.draws, s.calls[k]);
    }
  }

  // ---------------------------------------------------------------- one frame and whole runs

  lemma LoadIs(cfg: Config, d: real)
    ensures Load(cfg, d) == Share(cfg.loadPerS, d)
  {
  }

  lemma StepBooked(cfg: Config, s: State, dt: real)
    requires Inv(cfg, s) && Booked(cfg, s)
    ensures CallsPlaced(s)
    ensures var r, d := Step(cfg, s, dt), Frame(dt);
            && Booked(cfg, r) && r.acc < 1.0
            && r.acc + r.started as real == s.acc + s.started as real + Share(cfg.loadPerS, d)
            && (s.acc >= 0.0 && Share(cfg.loadPerS, d) >= 0.0 ==> r.acc >= 0.0)
  {
    var d := Frame(dt);
    StepShape(cfg, s, dt);
    hide Inv, Booked, Step, AfterRelease, Traffic, Share;
    var m := StepParts(cfg, s, dt);
    ReleaseKeeps(cfg, s, d);
    ReleaseKept(cfg, s, d);
    ReleaseQuiet(cfg, s, d);
    KeptBooked(cfg, s, m);
    InvPlaced(cfg, m);
    TrafficBooked(cfg, m, d);
    StepIsTraffic(cfg, s, dt, m);
  }

  lemma StepShape(cfg: Config, s: State, dt: real)
    requires Inv(cfg, s)
    ensures Shape(cfg, s) && CallsPlaced(s) && Capped(dt) == Frame(dt) <= 0.1
  {
    InvPlaced(cfg, s);
  }

  lemma LoadedBooked(cfg: Config, s: State, acc: real)
    requires Booked(cfg, s)
    ensures Booked(cfg, s.(acc := acc))
  {
    var r := s.(acc := acc);
    forall j | 0 <= j < |r.calls| ensures CallBooked(cfg, r.started, r.draws, r.calls[j]) {
      assert CallBooked(cfg, s.started, s.draws, s.calls[j]);
    }
  }

  lemma TrafficBooked(cfg: Config, s: State, d: real)
    requires Inv(cfg, s) && CallsPlaced(s) && Booked(cfg, s) && d <= 0.1
    ensures var r := Traffic(cfg, s, d);
            && Booked(cfg, r) && r.acc < 1.0 && r.t == s.t
            && r.acc + r.started as real == s.acc + s.started as real + Share(cfg.loadPerS, d)
            && (s.acc >= 0.0 && Share(cfg.loadPerS, d) >= 0.0 ==> r.acc >= 0.0)
  {
    hide Booked, Rollout, Serving, TakeCalls, StepCalls;
    RolloutShape(cfg, s);
    LoadIs(cfg, d);
    hide Load, Share;
    var s1 := s.(acc := s.acc + Load(cfg, d));
    ServingSame(s, s1);
    LoadedBooked(cfg, s, s1.acc);
    AllTakenBooked(cfg, s1);
    TakeCallsServe(cfg, s1);
    var s2 := TakeCalls(cfg, s1);
    ServingPlaced(s2);
    StepCallsBooked(cfg, s2, |s2.calls|, d);
  }

  lemma TrafficFollows(cfg: Config, s: State, d: real)
    requires Inv(cfg, s) && CallsPlaced(s) && Booked(cfg, s)
    ensures var r := Traffic(cfg, s, d);
            && r.versions == s.versions
            && (forall c :: c in s.calls && !Answered(c, d) ==> Followed(s.versions, c, r.calls, d))
            && (forall x :: x in r.calls ==> x.number >= s.started || Came(s.versions, s.calls, x, d))
  {
    hide Booked, Rollout, Serving, TakeCalls, StepCalls, Follows, Answered;
    RolloutShape(cfg, s);
    var s1 := s.(acc := s.acc + Load(cfg, d));
    ServingSame(s, s1);
    LoadedBooked(cfg, s, s1.acc);
    AllTakenBooked(cfg, s1);
    TakeCallsServe(cfg, s1);
    var s2 := TakeCalls(cfg, s1);
    ServingPlaced(s2);
    StepCallsFollow(cfg, s2, |s2.calls|, d);
    NewAside(s, s2.calls, StepCalls(cfg, s2, |s2.calls|, d).calls, d);
  }

  lemma NewAside(s: State, more: seq<Call>, r: seq<Call>, d: real)
    requires s.calls <= more && (forall j :: |s.calls| <= j < |more| ==> more[j].number >= s.started)
    requires AllFollow(s.versions, more, |more|, r, d)
    ensures forall c :: c in s.calls && !Answered(c, d) ==> Followed(s.versions, c, r, d)
    ensures forall x :: x in r ==> x.number >= s.started || Came(s.versions, s.calls, x, d)
  {
    hide Answered;
    forall c | c in s.calls && !Answered(c, d) ensures Followed(s.versions, c, r, d) {
      var j :| 0 <= j < |s.calls| && s.calls[j] == c;
      assert more[j] == c;
    }
    forall x | x in r ensures x.number >= s.started || Came(s.versions, s.calls, x, d) {
      assert more[|more|..] == [] && more[..|more|] == more;
      var c :| c in more && Follows(s.versions, c, x, d);
      var j :| 0 <= j < |more| && more[j] == c;
      if j < |s.calls| { assert c == s.calls[j]; }
    }
  }

  /** What a frame does to the calls in flight: a call goes on, is served on the code its
      host runs after the frame's patches, or is answered, unless it was being served by a
      host that takes a patch; and no other call appears but those that set out. */
  lemma StepFollows(cfg: Config, s: State, dt: real)
    requires Inv(cfg, s) && Booked(cfg, s)
    ensures CallsPlaced(s)
    ensures var r, d := Step(cfg, s, dt), Frame(dt);
            && (forall c :: c in s.calls ==>
                  (Followed(r.versions, c, r.calls, d) <==> !Drained(s, r, c) && !Answered(c, d)))
            && (forall x :: x in r.calls && x.number < s.started ==> Came(r.versions, s.calls, x, d))
  {
    var d := Frame(dt);
    StepShape(cfg, s, dt);
    hide Inv, Booked, Step, AfterRelease, Traffic, Followed, Came, Answered;
    var m := StepParts(cfg, s, dt);
    ReleaseKeeps(cfg, s, d);
    ReleaseKept(cfg, s, d);
    ReleaseQuiet(cfg, s, d);
    KeptBooked(cfg, s, m);
    InvPlaced(cfg, m);
    TrafficFollows(cfg, m, d);
    StepIsTraffic(cfg, s, dt, m);
    FollowsThrough(cfg, s, m, Step(cfg, s, dt), d);
  }

  lemma FollowsThrough(cfg: Config, s: State, m: State, r: State, d: real)
    requires Booked(cfg, s) && Kept(s, m) && r.versions == m.versions && m.started == s.started
    requires forall c :: c in m.calls && !Answered(c, d) ==> Followed(m.versions, c, r.calls, d)
    requires forall x :: x in r.calls ==> x.number >= m.started || Came(m.versions, m.calls, x, d)
    ensures forall c :: c in s.calls ==> (Followed(r.versions, c, r.calls, d) <==> !Drained(s, r, c) && !Answered(c, d))
    ensures forall x :: x in r.calls && x.number < s.started ==> Came(r.versions, s.calls, x, d)
  {
    forall c | c in s.calls ensures Followed(r.versions, c, r.calls, d) <==> !Drained(s, r, c) && !Answered(c, d) {
      assert Drained(s, r, c) == Drained(s, m, c);
      if Followed(r.versions, c, r.calls, d) {
        var x :| x in r.calls && Follows(r.versions, c, x, d);
        var j :| 0 <= j < |s.calls| && s.calls[j] == c;
        assert CallBooked(cfg, s.started, s.draws, s.calls[j]);
        var o :| o in m.calls && Follows(m.versions, o, x, d);
        SameNumber(s.calls, c, o);
      }
    }
    forall x | x in r.calls && x.number < s.started ensures Came(r.versions, s.calls, x, d) {
      var o :| o in m.calls && Follows(m.versions, o, x, d);
      assert o in s.calls;
    }
  }

  lemma CreateBooked(cfg: Config)
    requires cfg.hosts >= 2
    ensures Inv(cfg, Create(cfg)) && Booked(cfg, Create(cfg))
  {
    CreateIs(cfg);
  }

  lemma BeginBooked(cfg: Config, s: State, fails: bool)
    requires Inv(cfg, s) && Booked(cfg, s)
    ensures Booked(cfg, Apply(cfg, s, Begin(fails)))
  {
    BeginIs(cfg, s, fails);
    var r := Apply(cfg, s, Begin(fails));
    forall j | 0 <= j < |r.calls| ensures CallBooked(cfg, r.started, r.draws, r.calls[j]) {
      assert CallBooked(cfg, s.started, s.draws, s.calls[j]);
    }
  }

  /** The time the frames of a run have counted for. */
  function Clock(es: seq<Event>): real {
    if es == [] then 0.0 else (if es[0].Tick? then Frame(es[0].dt) else 0.0) + Clock(es[1..])
  }

  predicate Forward(es: seq<Event>) {
    forall i :: 0 <= i < |es| && es[i].Tick? ==> es[i].dt >= 0.0
  }

  /** What has set out and what is about to is the load's share of the time. */
  ghost predicate OnLoad(cfg: Config, s: State, t: real) {
    s.t == t && s.acc + s.started as real == Share(cfg.loadPerS, t) && s.acc < 1.0
  }

  lemma EventLoaded(cfg: Config, s: State, e: Event, t: real)
    requires Inv(cfg, s) && Booked(cfg, s) && OnLoad(cfg, s, t)
    ensures Booked(cfg, Apply(cfg, s, e)) && OnLoad(cfg, Apply(cfg, s, e), t + if e.Tick? then Frame(e.dt) else 0.0)
    ensures s.acc >= 0.0 && cfg.loadPerS >= 0.0 && (e.Tick? ==> e.dt >= 0.0) ==> Apply(cfg, s, e).acc >= 0.0
  {
    hide Inv, Booked, Step, Start, Share;
    match e
    case Begin(fails) =>
      BeginIs(cfg, s, fails);
      BeginBooked(cfg, s, fails);
    case Tick(dt) => TickLoaded(cfg, s, dt, t);
  }

  lemma TickLoaded(cfg: Config, s: State, dt: real, t: real)
    requires Inv(cfg, s) && Booked(cfg, s) && OnLoad(cfg, s, t)
    ensures CallsPlaced(s)
    ensures var r := Step(cfg, s, dt);
            Booked(cfg, r) && OnLoad(cfg, r, t + Frame(dt)) && (s.acc >= 0.0 && cfg.loadPerS >= 0.0 && dt >= 0.0 ==> r.acc >= 0.0)
  {
    StepShape(cfg, s, dt);
    hide Inv, Booked, Step, Share, Lasts, Next, Moving;
    StepPhase(cfg, s, dt);
    StepBooked(cfg, s, dt);
    Shares(cfg.loadPerS, t, Frame(dt));
  }

  lemma {:induction false} RunLoaded(cfg: Config, s: State, es: seq<Event>, t: real)
    requires Inv(cfg, s) && Booked(cfg, s) && OnLoad(cfg, s, t)
    ensures Booked(cfg, Run(cfg, s, es)) && OnLoad(cfg, Run(cfg, s, es), t + Clock(es))
    ensures s.acc >= 0.0 && cfg.loadPerS >= 0.0 && Forward(es) ==> Run(cfg, s, es).acc >= 0.0
    decreases |es|
  {
    hide Inv, Booked, OnLoad, Apply, Frame;
    if es != [] {
      EventLoaded(cfg, s, es[0], t);
      var u := if es[0].Tick? then Frame(es[0].dt) else 0.0;
      assert Forward(es) ==> Forward(es[1..]);
      assert t + Clock(es) == t + u + Clock(es[1..]);
      RunLoaded(cfg, Apply(cfg, s, es[0]), es[1..], t + u);
    }
  }

  lemma CreateOnLoad(cfg: Config)
    requires cfg.hosts >= 2
    ensures Inv(cfg, Create(cfg)) && Booked(cfg, Create(cfg)) && OnLoad(cfg, Create(cfg), 0.0) && Create(cfg).acc == 0.0
  {
    CreateBooked(cfg);
    Shares(cfg.loadPerS, 0.0, 0.0);
  }

  /** As many calls set out in a run as the load asks for in its time: the whole part of
      the load times the time that has passed. */
  lemma RunLoad(cfg: Config, es: seq<Event>)
    requires cfg.hosts >= 2 && cfg.loadPerS >= 0.0 && Forward(es)
    ensures Inv(cfg, Create(cfg))
    ensures var r := Run(cfg, Create(cfg), es);
            r.t == Clock(es) && r.started == Share(cfg.loadPerS, Clock(es)).Floor
  {
    CreateOnLoad(cfg);
    hide Inv, Booked, Run, Clock, Forward, Share, Create, OnLoad;
    RunLoaded(cfg, Create(cfg), es, 0.0);
    WholeLoad(cfg, Run(cfg, Create(cfg), es), Clock(es));
  }

  lemma WholeLoad(cfg: Config, s: State, t: real)
    requires OnLoad(cfg, s, 0.0 + t) && s.acc >= 0.0
    ensures s.t == t && s.started == Share(cfg.loadPerS, t).Floor
  {
    hide Share;
    assert 0.0 + t == t;
    WholePart(s.acc, s.started, Share(cfg.loadPerS, t));
  }

  /** In every run the calls go to the hosts in turn, each service takes a drawn time of its
      own, and a call is as old as its phase allows: less than 0.4 seconds on its way out,
      at least 0.4 when it is served, and on its way back 0.4 and its service, give or take
      the ends of the frames. */
  lemma RunCalls(cfg: Config, es: seq<Event>, j: nat)
    requires cfg.hosts >= 2
    ensures Inv(cfg, Create(cfg))
    ensures var r := Run(cfg, Create(cfg), es);
            && r.draws == r.begunOld + r.begunNew
            && (j < |r.calls| ==>
                  var c := r.calls[j];
                  && c.number < r.started && c.host == c.number % cfg.hosts
                  && (c.phase == Out ==> c.dur == 0.4 && c.age == c.elapsed < 0.4)
                  && (c.phase == Serve ==>
                        0.4 <= c.age - c.elapsed < 0.5 && Drawn(cfg, r.draws, c.dur))
                  && (c.phase == Back ==>
                        c.dur == 0.4 && c.elapsed < 0.4 && ServedFor(cfg, r.draws, c.age - c.elapsed, 0.2)))
  {
    CreateOnLoad(cfg);
    hide Inv, Run, Clock, Forward, Share, Timed, Create;
    RunLoaded(cfg, Create(cfg), es, 0.0);
    var r := Run(cfg, Create(cfg), es);
    if j < |r.calls| {
      assert CallBooked(cfg, r.started, r.draws, r.calls[j]);
      TimedOut(cfg, r.draws, r.calls[j]);
    }
  }

  lemma TimedOut(cfg: Config, draws: nat, c: Call)
    requires Timed(cfg, draws, c)
    ensures c.phase == Out ==> c.dur == 0.4 && c.age == c.elapsed < 0.4
    ensures c.phase == Serve ==> 0.4 <= c.age - c.elapsed < 0.5 && Drawn(cfg, draws, c.dur)
    ensures c.phase == Back ==> c.dur == 0.4 && c.elapsed < 0.4 && ServedFor(cfg, draws, c.age - c.elapsed, 0.2)
  {
  }
}
