/** The canary release of new code to the hosts of a cluster under load
    (assets/explainer/sim-release.js).

    `begunOld`, `begunNew`, `patchedAt`, `Call.number` and `Call.age` are history the page
    does not keep: how many services began on each code, when each host took the patch,
    how many calls set out before this one, and how long ago it did. The k-th random draw
    is `cfg.rand(k)`. What only the drawing uses (names, the entry host, packets) and the
    `failed` counter, which nothing changes, are left out. */
module SimRelease {
  import opened Options
  import opened Simulations

  datatype Phase = Idle | Sending | Forwarding | Canary | Gate | Rest | Halted | Complete

  datatype CallPhase = Out | Serve | Back

  datatype Call = Call(
    host: nat, phase: CallPhase, elapsed: real, dur: real, version: int, number: nat, age: real)

  datatype Config = Config(
    hosts: nat, leader: int, windowS: real, loadPerS: real, sessionLo: real, sessionHi: real, rand: nat -> real)

  datatype State = State(
    t: real, acc: real, rr: nat, draws: nat, phase: Phase, phaseT: real, canaryFails: bool,
    versions: seq<int>, calls: seq<Call>, started: nat, oldReplies: nat, newReplies: nat, drained: nat,
    begunOld: nat, begunNew: nat, patchedAt: seq<Option<real>>)

  const TRAVEL := 0.4
  const SEND_HOP := 0.9
  const HOP := 0.6

  /** The last of the first `n` hosts that is not the leader, or -1. */
  function LastOther(n: nat, leader: int): int {
    if n == 0 then -1 else if n - 1 != leader then n - 1 else LastOther(n - 1, leader)
  }

  function CanaryHost(cfg: Config): int {
    LastOther(cfg.hosts, cfg.leader)
  }

  function Create(cfg: Config): State {
    State(0.0, 0.0, 0, 0, Idle, 0.0, false, seq(cfg.hosts, _ => 1), [], 0, 0, 0, 0, 0, 0, seq(cfg.hosts, _ => None))
  }

  function Start(s: State, canaryFails: bool): State {
    if s.phase != Idle then s else s.(canaryFails := canaryFails, phase := Sending, phaseT := 0.0)
  }

  /** The calls that outlive a patch of host `i`. */
  function Keep(calls: seq<Call>, i: nat): (r: seq<Call>)
    ensures |r| <= |calls|
  {
    if calls == [] then []
    else if calls[0].host == i && calls[0].phase == Serve then Keep(calls[1..], i)
    else [calls[0]] + Keep(calls[1..], i)
  }

  /** Host `i` moves to the new code; its running services are drained, calls elsewhere or
      on their way are not. */
  function Patch(s: State, i: nat): State
    requires i < |s.versions| && i < |s.patchedAt|
  {
    s.(versions := s.versions[i := 2], patchedAt := s.patchedAt[i := Some(s.t)],
       calls := Keep(s.calls, i), drained := s.drained + (|s.calls| - |Keep(s.calls, i)|))
  }

  predicate Shape(cfg: Config, s: State) {
    |s.versions| == |s.patchedAt| == cfg.hosts >= 2
  }

  /** Patches the hosts from `i` on that still run the old code. */
  function PatchFrom(s: State, i: nat): (r: State)
    requires |s.versions| == |s.patchedAt|
    ensures |r.versions| == |s.versions| == |r.patchedAt|
    decreases |s.versions| - i
  {
    if i >= |s.versions| then s
    else PatchFrom(if s.versions[i] == 1 then Patch(s, i) else s, i + 1)
  }

  function Enter(s: State, phase: Phase): State {
    s.(phase := phase, phaseT := 0.0)
  }

  lemma {:induction false} LastOtherIs(n: nat, leader: int)
    ensures n >= 2 ==> 0 <= LastOther(n, leader) < n && LastOther(n, leader) != leader
    ensures n == 1 ==> LastOther(n, leader) == if leader == 0 then -1 else 0
  {
    if n > 0 { LastOtherIs(n - 1, leader); }
  }

  function StepRelease(cfg: Config, s0: State, dt: real): (r: State)
    requires Shape(cfg, s0)
    ensures Shape(cfg, r)
  {
    var s := s0.(phaseT := s0.phaseT + dt);
    match s.phase
    case Idle => s0
    case Complete => s0
    case Halted => s0
    case Sending => if s.phaseT >= SEND_HOP then Enter(s, Forwarding) else s
    case Forwarding => if s.phaseT >= HOP then Enter(s, Canary) else s
    case Canary =>
      LastOtherIs(cfg.hosts, cfg.leader);
      if s.phaseT >= HOP then Enter(Patch(s, CanaryHost(cfg)), Gate) else s
    case Gate => if s.phaseT >= cfg.windowS then Enter(s, if s.canaryFails then Halted else Rest) else s
    case Rest => if s.phaseT >= HOP then Enter(PatchFrom(s, 0), Complete) else s
  }

  /** One call sets out, to the next host in turn. */
  function TakeCall(cfg: Config, s: State): State
    requires cfg.hosts > 0
  {
    s.(acc := s.acc - 1.0, started := s.started + 1, rr := s.rr + 1,
       calls := s.calls + [Call(s.rr % cfg.hosts, Out, 0.0, TRAVEL, 1, s.started, 0.0)])
  }

  lemma CallClock(cfg: Config, s: State)
    requires cfg.hosts > 0 && s.acc >= 1.0
    ensures TakeCall(cfg, s).acc.Floor == s.acc.Floor - 1
  {
  }

  function TakeCalls(cfg: Config, s: State): State
    requires cfg.hosts > 0
    decreases s.acc.Floor
  {
    if s.acc >= 1.0 then
      CallClock(cfg, s);
      TakeCalls(cfg, TakeCall(cfg, s))
    else s
  }

  function ServiceTime(cfg: Config, k: nat): real {
    Between(cfg.sessionLo, cfg.sessionHi, cfg.rand(k))
  }

  /** Call `i`, by now `c`, has arrived at its host. */
  function BeginService(cfg: Config, s: State, i: nat, c: Call): State
    requires i < |s.calls| && c.host < |s.versions|
  {
    var version := s.versions[c.host];
    var r := s.(draws := s.draws + 1,
                calls := s.calls[i := c.(phase := Serve, elapsed := 0.0, version := version, dur := ServiceTime(cfg, s.draws))]);
    if version == 2 then r.(begunNew := s.begunNew + 1) else r.(begunOld := s.begunOld + 1)
  }

  function Reply(s: State, i: nat): State
    requires i < |s.calls|
  {
    var r := s.(calls := RemoveAt(s.calls, i));
    if s.calls[i].version == 2 then r.(newReplies := s.newReplies + 1) else r.(oldReplies := s.oldReplies + 1)
  }

  predicate CallsPlaced(s: State) {
    forall j :: 0 <= j < |s.calls| ==> s.calls[j].host < |s.versions|
  }

  function StepCall(cfg: Config, s: State, i: nat, dt: real): (r: State)
    requires i < |s.calls| && s.calls[i].host < |s.versions|
    ensures |r.calls| >= |s.calls| - 1
  {
    var c := s.calls[i].(elapsed := s.calls[i].elapsed + dt, age := s.calls[i].age + dt);
    if c.elapsed < c.dur then s.(calls := s.calls[i := c])
    else
      match c.phase
      case Out => BeginService(cfg, s, i, c)
      case Serve => s.(calls := s.calls[i := c.(phase := Back, elapsed := 0.0, dur := TRAVEL)])
      case Back => Reply(s, i)
  }

  /** Steps the calls below position `i`, the last first. */
  function StepCalls(cfg: Config, s: State, i: nat, dt: real): State
    requires i <= |s.calls| && CallsPlaced(s)
    decreases i
  {
    if i == 0 then s else StepCalls(cfg, StepCall(cfg, s, i - 1, dt), i - 1, dt)
  }

  lemma {:induction false} TakeCallsPlaced(cfg: Config, s: State)
    requires Shape(cfg, s) && CallsPlaced(s)
    ensures Shape(cfg, TakeCalls(cfg, s)) && CallsPlaced(TakeCalls(cfg, s))
    decreases s.acc.Floor
  {
    if s.acc >= 1.0 {
      CallClock(cfg, s);
      TakeCallsPlaced(cfg, TakeCall(cfg, s));
    }
  }

  lemma {:induction false} KeepSubset(calls: seq<Call>, i: nat)
    ensures forall c :: c in Keep(calls, i) <==> c in calls && !(c.host == i && c.phase == Serve)
  {
    if calls != [] {
      KeepSubset(calls[1..], i);
      assert calls == [calls[0]] + calls[1..];
    }
  }

  lemma {:induction false} PatchFromPlaced(s: State, i: nat)
    requires |s.versions| == |s.patchedAt| && CallsPlaced(s)
    ensures CallsPlaced(PatchFrom(s, i))
    decreases |s.versions| - i
  {
    if i < |s.versions| {
      PatchPlaced(s, i);
      PatchFromPlaced(if s.versions[i] == 1 then Patch(s, i) else s, i + 1);
    }
  }

  lemma PatchPlaced(s: State, i: nat)
    requires |s.versions| == |s.patchedAt| && i < |s.versions| && CallsPlaced(s)
    ensures CallsPlaced(Patch(s, i))
  {
    KeepSubset(s.calls, i);
    forall j | 0 <= j < |Keep(s.calls, i)| ensures Keep(s.calls, i)[j].host < |s.versions| {
      assert Keep(s.calls, i)[j] in s.calls;
    }
  }

  lemma StepReleasePlaced(cfg: Config, s: State, dt: real)
    requires Shape(cfg, s) && CallsPlaced(s)
    ensures CallsPlaced(StepRelease(cfg, s, dt))
  {
    var s1 := s.(phaseT := s.phaseT + dt);
    LastOtherIs(cfg.hosts, cfg.leader);
    PatchPlaced(s1, CanaryHost(cfg));
    PatchFromPlaced(s1, 0);
  }

  function Load(cfg: Config, dt: real): real {
    dt * cfg.loadPerS
  }

  /** The calls' part of a frame: new ones set out, and each goes on. */
  function Traffic(cfg: Config, s: State, dt: real): State
    requires Shape(cfg, s) && CallsPlaced(s)
  {
    var s1 := s.(acc := s.acc + Load(cfg, dt));
    TakeCallsPlaced(cfg, s1);
    var s2 := TakeCalls(cfg, s1);
    StepCalls(cfg, s2, |s2.calls|, dt)
  }

  /** The clock moves and the release follows, ... */
  function AfterRelease(cfg: Config, s: State, dt: real): (r: State)
    requires Shape(cfg, s)
    ensures Shape(cfg, r)
  {
    StepRelease(cfg, s.(t := s.t + dt), dt)
  }

  /** ... then the calls do. */
  function Step(cfg: Config, s: State, dt0: real): State
    requires Shape(cfg, s) && CallsPlaced(s)
  {
    var dt := Capped(dt0);
    StepReleasePlaced(cfg, s.(t := s.t + dt), dt);
    Traffic(cfg, AfterRelease(cfg, s, dt), dt)
  }

  // ---------------------------------------------------------------- counting calls

  function Weight(c: Call, version: int): nat {
    if c.phase != Out && c.version == version then 1 else 0
  }

  /** The calls being served or answered that began on this code. */
  function InFlight(calls: seq<Call>, version: int): nat {
    if calls == [] then 0 else Weight(calls[0], version) + InFlight(calls[1..], version)
  }

  lemma {:induction false} InFlightConcat(a: seq<Call>, b: seq<Call>, version: int)
    ensures InFlight(a + b, version) == InFlight(a, version) + InFlight(b, version)
  {
    if a == [] {
      assert a + b == b;
    } else {
      InFlightConcat(a[1..], b, version);
      assert (a + b)[1..] == a[1..] + b;
    }
  }

  lemma InFlightOne(c: Call, version: int)
    ensures InFlight([c], version) == Weight(c, version)
  {
    assert [c][1..] == [];
  }

  lemma InFlightSplit(calls: seq<Call>, i: nat, version: int)
    requires i < |calls|
    ensures InFlight(calls, version) == InFlight(calls[..i], version) + Weight(calls[i], version) + InFlight(calls[i + 1..], version)
  {
    assert calls == calls[..i] + [calls[i]] + calls[i + 1..];
    InFlightConcat(calls[..i] + [calls[i]], calls[i + 1..], version);
    InFlightConcat(calls[..i], [calls[i]], version);
    InFlightOne(calls[i], version);
  }

  lemma InFlightUpdate(calls: seq<Call>, i: nat, c: Call, version: int)
    requires i < |calls|
    ensures InFlight(calls[i := c], version) == InFlight(calls, version) + Weight(c, version) - Weight(calls[i], version)
  {
    var next := calls[i := c];
    InFlightSplit(calls, i, version);
    InFlightSplit(next, i, version);
    assert next[..i] == calls[..i] && next[i + 1..] == calls[i + 1..];
  }

  lemma InFlightRemove(calls: seq<Call>, i: nat, version: int)
    requires i < |calls|
    ensures InFlight(RemoveAt(calls, i), version) == InFlight(calls, version) - Weight(calls[i], version)
  {
    InFlightSplit(calls, i, version);
    InFlightConcat(calls[..i], calls[i + 1..], version);
  }

  // ---------------------------------------------------------------- the invariant

  /** The code host `i` runs in each phase: only the canary changes before the end. */
  function CodeOf(cfg: Config, phase: Phase, i: nat): int {
    if phase == Complete || (i == CanaryHost(cfg) && (phase == Gate || phase == Rest || phase == Halted)) then 2 else 1
  }

  ghost predicate HostOk(cfg: Config, s: State, i: nat)
    requires i < |s.versions| == |s.patchedAt|
  {
    s.versions[i] == CodeOf(cfg, s.phase, i) && (s.patchedAt[i].Some? <==> s.versions[i] == 2)
  }

  /** A call being served carries its host's code. */
  ghost predicate CallOk(s: State, c: Call) {
    && c.host < |s.versions|
    && (c.phase != Out ==> c.version == 1 || c.version == 2)
    && (c.phase == Serve ==> c.version == s.versions[c.host])
  }

  ghost predicate Watched(cfg: Config, s: State, i: nat)
    requires Shape(cfg, s) && i < |s.patchedAt|
  {
    LastOtherIs(cfg.hosts, cfg.leader);
    var canary := s.patchedAt[CanaryHost(cfg)];
    i != CanaryHost(cfg) && s.patchedAt[i].Some? ==>
      canary.Some? && s.patchedAt[i].value >= canary.value + cfg.windowS
  }

  /** The canary has been watched since it took the patch. */
  ghost predicate Watching(cfg: Config, s: State)
    requires Shape(cfg, s)
  {
    LastOtherIs(cfg.hosts, cfg.leader);
    var canary := s.patchedAt[CanaryHost(cfg)];
    && (s.phase == Gate ==> canary == Some(s.t - s.phaseT))
    && (s.phase == Rest ==> canary.Some? && s.t - s.phaseT >= canary.value + cfg.windowS)
  }

  /** The code each host runs, and why. */
  ghost predicate Rollout(cfg: Config, s: State) {
    && Shape(cfg, s) && Watching(cfg, s)
    && (forall i :: 0 <= i < |s.versions| ==> HostOk(cfg, s, i))
    && (forall i :: 0 <= i < |s.versions| ==> Watched(cfg, s, i))
    && (s.phase == Halted ==> s.canaryFails)
    && (s.phase == Rest || s.phase == Complete ==> !s.canaryFails)
  }

  /** Calls are conserved, and so are the services begun on each code: one begun on the
      new code ends in a new reply, one begun on the old code in an old reply or drained. */
  ghost predicate Accounts(s: State) {
    && s.started == s.oldReplies + s.newReplies + s.drained + |s.calls|
    && s.begunOld == s.oldReplies + s.drained + InFlight(s.calls, 1)
    && s.begunNew == s.newReplies + InFlight(s.calls, 2)
  }

  ghost predicate Serving(s: State) {
    && (forall j :: 0 <= j < |s.calls| ==> CallOk(s, s.calls[j]))
    && (forall i :: 0 <= i < |s.versions| ==> s.versions[i] == 1 || s.versions[i] == 2)
    && Accounts(s)
  }

  ghost predicate Inv(cfg: Config, s: State) {
    Rollout(cfg, s) && Serving(s)
  }

  lemma ServingPlaced(s: State)
    requires Serving(s)
    ensures CallsPlaced(s)
  {
    forall j | 0 <= j < |s.calls| ensures s.calls[j].host < |s.versions| { assert CallOk(s, s.calls[j]); }
  }

  lemma InvPlaced(cfg: Config, s: State)
    requires Inv(cfg, s)
    ensures Shape(cfg, s) && CallsPlaced(s)
  {
    ServingPlaced(s);
  }

  // ---------------------------------------------------------------- patching keeps it

  lemma {:induction false} KeepInFlight(s: State, calls: seq<Call>, i: nat)
    requires i < |s.versions| && s.versions[i] == 1
    requires forall j :: 0 <= j < |calls| ==> CallOk(s, calls[j])
    ensures InFlight(Keep(calls, i), 1) == InFlight(calls, 1) - (|calls| - |Keep(calls, i)|)
    ensures InFlight(Keep(calls, i), 2) == InFlight(calls, 2)
  {
    if calls != [] {
      assert CallOk(s, calls[0]);
      var kept := Keep(calls[1..], i);
      forall j | 0 <= j < |calls[1..]| ensures CallOk(s, calls[1..][j]) { assert CallOk(s, calls[j + 1]); }
      KeepInFlight(s, calls[1..], i);
      if !(calls[0].host == i && calls[0].phase == Serve) { assert ([calls[0]] + kept)[1..] == kept; }
    }
  }

  lemma PatchServes(s: State, i: nat)
    requires Serving(s) && i < |s.versions| == |s.patchedAt| && s.versions[i] == 1
    ensures Serving(Patch(s, i))
  {
    var r := Patch(s, i);
    KeepInFlight(s, s.calls, i);
    KeepSubset(s.calls, i);
    forall j | 0 <= j < |r.calls| ensures CallOk(r, r.calls[j]) {
      assert r.calls[j] in s.calls;
      var k :| 0 <= k < |s.calls| && s.calls[k] == r.calls[j];
      assert CallOk(s, s.calls[k]);
    }
  }

  /** Nothing but the hosts' code and the calls they were serving changes. */
  ghost predicate OnlyPatches(s: State, r: State) {
    && |r.versions| == |s.versions| && |r.patchedAt| == |s.patchedAt|
    && r == s.(versions := r.versions, patchedAt := r.patchedAt, calls := r.calls, drained := r.drained)
  }

  /** The hosts from `i` on have taken the patch, those still on the old code just now. */
  ghost predicate Patched(s: State, i: nat, r: State) {
    && OnlyPatches(s, r) && |s.versions| == |s.patchedAt|
    && (forall k :: 0 <= k < |s.versions| ==> r.versions[k] == if k < i then s.versions[k] else 2)
    && (forall k :: 0 <= k < |s.versions| ==>
          r.patchedAt[k] == if k < i || s.versions[k] == 2 then s.patchedAt[k] else Some(s.t))
  }

  lemma PatchedNext(s: State, i: nat, next: State, r: State)
    requires i < |s.versions| == |s.patchedAt| && (s.versions[i] == 1 || s.versions[i] == 2)
    requires next == if s.versions[i] == 1 then Patch(s, i) else s
    requires Patched(next, i + 1, r)
    ensures Patched(s, i, r)
  {
    hide Keep;
  }

  lemma {:induction false} PatchFromIs(s: State, i: nat)
    requires Serving(s) && |s.versions| == |s.patchedAt|
    ensures Serving(PatchFrom(s, i)) && Patched(s, i, PatchFrom(s, i))
    decreases |s.versions| - i
  {
    if i < |s.versions| {
      hide Patched, Patch;
      var next := if s.versions[i] == 1 then Patch(s, i) else s;
      if s.versions[i] == 1 { PatchServes(s, i); }
      PatchShape(s, i);
      PatchFromIs(next, i + 1);
      PatchedNext(s, i, next, PatchFrom(next, i + 1));
    }
  }

  lemma PatchShape(s: State, i: nat)
    requires i < |s.versions| == |s.patchedAt|
    ensures |Patch(s, i).versions| == |s.versions| == |Patch(s, i).patchedAt|
  {
  }

  lemma CanaryTakes(cfg: Config, s: State)
    requires Inv(cfg, s) && s.phase == Canary
    ensures 0 <= CanaryHost(cfg) < |s.versions| && Inv(cfg, Enter(Patch(s, CanaryHost(cfg)), Gate))
  {
    LastOtherIs(cfg.hosts, cfg.leader);
    var canary: nat := CanaryHost(cfg);
    var r := Enter(Patch(s, canary), Gate);
    assert HostOk(cfg, s, canary);
    PatchServes(s, canary);
    ServingSame(Patch(s, canary), r);
    forall i | 0 <= i < |r.versions| ensures HostOk(cfg, r, i) && Watched(cfg, r, i) {
      assert HostOk(cfg, s, i);
    }
  }

  lemma ServingSame(s: State, r: State)
    requires Serving(s) && r.versions == s.versions && r.calls == s.calls && r.begunOld == s.begunOld && r.begunNew == s.begunNew
    requires r.started == s.started && r.oldReplies == s.oldReplies && r.newReplies == s.newReplies && r.drained == s.drained
    ensures Serving(r)
  {
    forall j | 0 <= j < |r.calls| ensures CallOk(r, r.calls[j]) { assert CallOk(s, s.calls[j]); }
  }

  lemma RestTakes(cfg: Config, s: State)
    requires Inv(cfg, s) && s.phase == Rest && s.phaseT >= 0.0
    ensures Inv(cfg, Enter(PatchFrom(s, 0), Complete))
  {
    LastOtherIs(cfg.hosts, cfg.leader);
    var q := PatchFrom(s, 0);
    var r := Enter(q, Complete);
    PatchFromIs(s, 0);
    ServingSame(q, r);
    assert HostOk(cfg, s, CanaryHost(cfg));
    forall i | 0 <= i < |r.versions| ensures HostOk(cfg, r, i) && Watched(cfg, r, i) {
      assert HostOk(cfg, s, i);
    }
  }

  /** A change of phase alone. */
  lemma TurnKeeps(cfg: Config, s: State, phase: Phase)
    requires Inv(cfg, s)
    requires match phase
             case Forwarding => s.phase == Sending
             case Canary => s.phase == Forwarding
             case Rest => s.phase == Gate && !s.canaryFails && s.phaseT >= cfg.windowS
             case Halted => s.phase == Gate && s.canaryFails
             case _ => false
    ensures Inv(cfg, Enter(s, phase))
  {
    var r := Enter(s, phase);
    ServingSame(s, r);
    forall i | 0 <= i < |r.versions| ensures HostOk(cfg, r, i) && Watched(cfg, r, i) {
      assert HostOk(cfg, s, i) && Watched(cfg, s, i);
    }
  }

  lemma LaterKeeps(cfg: Config, s: State, dt: real)
    requires Inv(cfg, s)
    ensures s.phase != Idle && s.phase != Complete && s.phase != Halted ==> Inv(cfg, s.(t := s.t + dt, phaseT := s.phaseT + dt))
    ensures s.phase == Idle || s.phase == Complete || s.phase == Halted ==> Inv(cfg, s.(t := s.t + dt))
  {
    var r := s.(t := s.t + dt, phaseT := if s.phase == Idle || s.phase == Complete || s.phase == Halted then s.phaseT else s.phaseT + dt);
    ServingSame(s, r);
    forall i | 0 <= i < |r.versions| ensures HostOk(cfg, r, i) && Watched(cfg, r, i) {
      assert HostOk(cfg, s, i) && Watched(cfg, s, i);
    }
  }

  lemma ReleaseKeeps(cfg: Config, s: State, dt: real)
    requires Inv(cfg, s)
    ensures Inv(cfg, AfterRelease(cfg, s, dt))
  {
    hide Inv, Patch, PatchFrom;
    InvPlaced(cfg, s);
    LaterKeeps(cfg, s, dt);
    var s1 := s.(t := s.t + dt, phaseT := s.phaseT + dt);
    match s.phase
    case Idle | Complete | Halted =>
    case Sending => if s1.phaseT >= SEND_HOP { TurnKeeps(cfg, s1, Forwarding); }
    case Forwarding => if s1.phaseT >= HOP { TurnKeeps(cfg, s1, Canary); }
    case Canary => if s1.phaseT >= HOP { CanaryTakes(cfg, s1); }
    case Gate => if s1.phaseT >= cfg.windowS { TurnKeeps(cfg, s1, if s1.canaryFails then Halted else Rest); }
    case Rest => if s1.phaseT >= HOP { RestTakes(cfg, s1); }
  }

  // ---------------------------------------------------------------- calls keep it

  /** The rollout is untouched. */
  ghost predicate SameRollout(s: State, r: State) {
    && r.t == s.t && r.phase == s.phase && r.phaseT == s.phaseT && r.canaryFails == s.canaryFails
    && r.versions == s.versions && r.patchedAt == s.patchedAt
  }

  lemma RolloutSame(cfg: Config, s: State, r: State)
    requires Rollout(cfg, s) && SameRollout(s, r)
    ensures Rollout(cfg, r)
  {
    forall i | 0 <= i < |r.versions| ensures HostOk(cfg, r, i) && Watched(cfg, r, i) {
      assert HostOk(cfg, s, i) && Watched(cfg, s, i);
    }
  }

  lemma RolloutShape(cfg: Config, s: State)
    requires Rollout(cfg, s)
    ensures Shape(cfg, s)
  {
  }

  lemma TakeCallServes(cfg: Config, s: State)
    requires Serving(s) && cfg.hosts == |s.versions| > 0
    ensures Serving(TakeCall(cfg, s)) && SameRollout(s, TakeCall(cfg, s))
  {
    var r := TakeCall(cfg, s);
    var c := r.calls[|s.calls|];
    InFlightConcat(s.calls, [c], 1);
    InFlightConcat(s.calls, [c], 2);
    InFlightOne(c, 1);
    InFlightOne(c, 2);
    forall j | 0 <= j < |r.calls| ensures CallOk(r, r.calls[j]) {
      if j < |s.calls| { assert CallOk(s, s.calls[j]); }
    }
  }

  lemma {:induction false} TakeCallsServe(cfg: Config, s: State)
    requires Serving(s) && cfg.hosts == |s.versions| > 0
    ensures Serving(TakeCalls(cfg, s)) && SameRollout(s, TakeCalls(cfg, s))
    decreases s.acc.Floor
  {
    if s.acc >= 1.0 {
      CallClock(cfg, s);
      TakeCallServes(cfg, s);
      TakeCallsServe(cfg, TakeCall(cfg, s));
    }
  }

  /** A call changed in place. */
  lemma ChangedServes(s: State, r: State, i: nat, c: Call)
    requires Serving(s) && i < |s.calls| && r.calls == s.calls[i := c] && SameRollout(s, r) && CallOk(r, c)
    requires r.started == s.started && r.oldReplies == s.oldReplies && r.newReplies == s.newReplies && r.drained == s.drained
    requires r.begunOld == s.begunOld + Weight(c, 1) - Weight(s.calls[i], 1)
    requires r.begunNew == s.begunNew + Weight(c, 2) - Weight(s.calls[i], 2)
    ensures Serving(r)
  {
    InFlightUpdate(s.calls, i, c, 1);
    InFlightUpdate(s.calls, i, c, 2);
    forall j | 0 <= j < |r.calls| ensures CallOk(r, r.calls[j]) {
      if j != i { assert CallOk(s, s.calls[j]); }
    }
  }

  lemma ReplyServes(s: State, i: nat)
    requires Serving(s) && i < |s.calls| && s.calls[i].phase == Back
    ensures Serving(Reply(s, i)) && SameRollout(s, Reply(s, i))
  {
    var r := Reply(s, i);
    assert CallOk(s, s.calls[i]);
    InFlightRemove(s.calls, i, 1);
    InFlightRemove(s.calls, i, 2);
    forall j | 0 <= j < |r.calls| ensures CallOk(r, r.calls[j]) {
      assert CallOk(s, s.calls[if j < i then j else j + 1]);
    }
  }

  lemma StepCallServes(cfg: Config, s: State, i: nat, dt: real)
    requires Serving(s) && i < |s.calls|
    ensures s.calls[i].host < |s.versions|
    ensures Serving(StepCall(cfg, s, i, dt)) && SameRollout(s, StepCall(cfg, s, i, dt))
  {
    assert CallOk(s, s.calls[i]);
    var c, r := s.calls[i].(elapsed := s.calls[i].elapsed + dt, age := s.calls[i].age + dt), StepCall(cfg, s, i, dt);
    if c.elapsed >= c.dur && c.phase == Back {
      ReplyServes(s, i);
    } else {
      assert r.calls == s.calls[i := r.calls[i]];
      ChangedServes(s, r, i, r.calls[i]);
    }
  }

  lemma {:induction false} StepCallsServe(cfg: Config, s: State, i: nat, dt: real)
    requires Serving(s) && i <= |s.calls| && CallsPlaced(s)
    ensures Serving(StepCalls(cfg, s, i, dt)) && SameRollout(s, StepCalls(cfg, s, i, dt))
    decreases i
  {
    if i > 0 {
      StepCallServes(cfg, s, i - 1, dt);
      var next := StepCall(cfg, s, i - 1, dt);
      ServingPlaced(next);
      StepCallsServe(cfg, next, i - 1, dt);
    }
  }

  lemma TrafficKeeps(cfg: Config, s: State, dt: real)
    requires Inv(cfg, s) && CallsPlaced(s)
    ensures Inv(cfg, Traffic(cfg, s, dt)) && SameRollout(s, Traffic(cfg, s, dt))
  {
    hide Rollout, Serving, TakeCalls, StepCalls;
    RolloutShape(cfg, s);
    var s1 := s.(acc := s.acc + Load(cfg, dt));
    ServingSame(s, s1);
    TakeCallsServe(cfg, s1);
    var s2 := TakeCalls(cfg, s1);
    ServingPlaced(s2);
    StepCallsServe(cfg, s2, |s2.calls|, dt);
    RolloutSame(cfg, s, StepCalls(cfg, s2, |s2.calls|, dt));
  }

  /** A step once the release has moved to `r`. */
  lemma StepIsTraffic(cfg: Config, s: State, dt0: real, r: State)
    requires Shape(cfg, s) && CallsPlaced(s) && r == AfterRelease(cfg, s, Capped(dt0)) && CallsPlaced(r)
    ensures Step(cfg, s, dt0) == Traffic(cfg, r, Capped(dt0))
  {
    hide StepRelease, Traffic;
  }

  /** Both parts of a step, about the state `r` between them. */
  lemma StepParts(cfg: Config, s: State, dt0: real) returns (r: State)
    requires Inv(cfg, s)
    ensures Shape(cfg, s) && CallsPlaced(s) && r == AfterRelease(cfg, s, Capped(dt0))
    ensures Inv(cfg, Step(cfg, s, dt0)) && SameRollout(r, Step(cfg, s, dt0))
  {
    hide Inv, StepRelease, Traffic;
    InvPlaced(cfg, s);
    r := AfterRelease(cfg, s, Capped(dt0));
    ReleaseKeeps(cfg, s, Capped(dt0));
    InvPlaced(cfg, r);
    TrafficKeeps(cfg, r, Capped(dt0));
    StepIsTraffic(cfg, s, dt0, r);
  }

  lemma StepKeeps(cfg: Config, s: State, dt0: real)
    requires Inv(cfg, s)
    ensures CallsPlaced(s) && Inv(cfg, Step(cfg, s, dt0))
  {
    hide Inv, AfterRelease, Traffic;
    var _ := StepParts(cfg, s, dt0);
  }

  lemma StartKeeps(cfg: Config, s: State, canaryFails: bool)
    requires Inv(cfg, s)
    ensures Inv(cfg, Start(s, canaryFails))
  {
    var r := Start(s, canaryFails);
    ServingSame(s, r);
    forall i | 0 <= i < |r.versions| ensures HostOk(cfg, r, i) && Watched(cfg, r, i) {
      assert HostOk(cfg, s, i) && Watched(cfg, s, i);
    }
  }

  lemma CreateIs(cfg: Config)
    requires cfg.hosts >= 2
    ensures Inv(cfg, Create(cfg))
  {
    LastOtherIs(cfg.hosts, cfg.leader);
  }

  // ---------------------------------------------------------------- every run

  datatype Event = Begin(canaryFails: bool) | Tick(dt: real)

  function Apply(cfg: Config, s: State, e: Event): (r: State)
    requires Inv(cfg, s)
    ensures Inv(cfg, r)
  {
    match e
    case Begin(fails) =>
      StartKeeps(cfg, s, fails);
      Start(s, fails)
    case Tick(dt) =>
      StepKeeps(cfg, s, dt);
      Step(cfg, s, dt)
  }

  function Run(cfg: Config, s: State, es: seq<Event>): (r: State)
    requires Inv(cfg, s)
    ensures Inv(cfg, r)
    decreases |es|
  {
    if es == [] then s else Run(cfg, Apply(cfg, s, es[0]), es[1..])
  }

  /** How far the release has got. */
  function Rank(phase: Phase): nat {
    match phase
    case Idle => 0
    case Sending => 1
    case Forwarding => 2
    case Canary => 3
    case Gate => 4
    case Rest => 5
    case Halted => 6
    case Complete => 6
  }

  ghost predicate Onward(s: State, r: State) {
    r.phase == s.phase || Rank(s.phase) < Rank(r.phase)
  }

  lemma ReleaseOnward(cfg: Config, s: State, dt: real)
    requires Shape(cfg, s)
    ensures Onward(s, AfterRelease(cfg, s, dt))
  {
  }

  lemma StepOnward(cfg: Config, s: State, dt0: real)
    requires Inv(cfg, s)
    ensures CallsPlaced(s) && Onward(s, Step(cfg, s, dt0))
  {
    hide Inv, AfterRelease, Traffic;
    var r := StepParts(cfg, s, dt0);
    ReleaseOnward(cfg, s, Capped(dt0));
  }

  lemma ApplyOnward(cfg: Config, s: State, e: Event)
    requires Inv(cfg, s)
    ensures Onward(s, Apply(cfg, s, e))
  {
    if e.Tick? { StepOnward(cfg, s, e.dt); }
  }

  /** The release only goes on: phases never go back, a halted or complete release stays
      as it is, and no host returns to the old code. */
  lemma {:induction false} RunOnward(cfg: Config, s: State, es: seq<Event>)
    requires Inv(cfg, s)
    ensures var r := Run(cfg, s, es);
            && Rank(s.phase) <= Rank(r.phase)
            && (s.phase == Halted || s.phase == Complete ==> r.phase == s.phase && r.versions == s.versions)
            && |r.versions| == |s.versions| && forall i :: 0 <= i < |s.versions| ==> s.versions[i] <= r.versions[i]
    decreases |es|
  {
    hide Inv, Apply;
    if es == [] {
    } else {
      var next := Apply(cfg, s, es[0]);
      ApplyOnward(cfg, s, es[0]);
      RunOnward(cfg, next, es[1..]);
      VersionsByPhase(cfg, s, next);
    }
  }

  lemma VersionsByPhase(cfg: Config, s: State, r: State)
    requires Inv(cfg, s) && Inv(cfg, r) && Onward(s, r)
    ensures |r.versions| == |s.versions| && forall i :: 0 <= i < |s.versions| ==> s.versions[i] <= r.versions[i]
    ensures r.phase == s.phase ==> r.versions == s.versions
  {
    forall i | 0 <= i < |s.versions| ensures s.versions[i] <= r.versions[i] && (r.phase == s.phase ==> s.versions[i] == r.versions[i]) {
      assert HostOk(cfg, s, i) && HostOk(cfg, r, i);
    }
  }

  /** Canary first, in every run from the start: until the rest step is over no host but
      the canary runs the new code; a halted release, which is one whose canary failed,
      has exactly the canary on it, a complete one has every host; and no host took it
      before the canary had been on it for the whole window. */
  lemma RunCanaryFirst(cfg: Config, es: seq<Event>, i: nat)
    requires cfg.hosts >= 2 && i < cfg.hosts
    ensures Inv(cfg, Create(cfg)) && 0 <= CanaryHost(cfg) < cfg.hosts && CanaryHost(cfg) != cfg.leader
    ensures var r := Run(cfg, Create(cfg), es);
            && |r.versions| == |r.patchedAt| == cfg.hosts
            && (r.phase != Complete && i != CanaryHost(cfg) ==> r.versions[i] == 1)
            && (r.phase == Halted ==> r.canaryFails && (r.versions[i] == 2 <==> i == CanaryHost(cfg)))
            && (r.phase == Complete ==> !r.canaryFails && r.versions[i] == 2)
            && (r.versions[i] == 2 <==> r.patchedAt[i].Some?)
            && (r.versions[i] == 2 && i != CanaryHost(cfg) ==>
                  r.patchedAt[CanaryHost(cfg)].Some?
                  && r.patchedAt[i].value - r.patchedAt[CanaryHost(cfg)].value >= cfg.windowS)
  {
    CreateIs(cfg);
    LastOtherIs(cfg.hosts, cfg.leader);
    var r := Run(cfg, Create(cfg), es);
    assert HostOk(cfg, r, i) && Watched(cfg, r, i);
  }

  /** Calls and services are accounted for in every run, and a call being served runs its
      host's code. */
  lemma RunAccounts(cfg: Config, es: seq<Event>, j: nat)
    requires cfg.hosts >= 2
    ensures Inv(cfg, Create(cfg))
    ensures var r := Run(cfg, Create(cfg), es);
            && r.started == r.oldReplies + r.newReplies + r.drained + |r.calls|
            && r.begunOld == r.oldReplies + r.drained + InFlight(r.calls, 1)
            && r.begunNew == r.newReplies + InFlight(r.calls, 2)
            && (j < |r.calls| && r.calls[j].phase == Serve ==>
                  r.calls[j].host < |r.versions| && r.calls[j].version == r.versions[r.calls[j].host])
  {
    CreateIs(cfg);
    var r := Run(cfg, Create(cfg), es);
    if j < |r.calls| { assert CallOk(r, r.calls[j]); }
  }

  // ---------------------------------------------------------------- the simulation object

  lemma {:induction false} KeepLast(calls: seq<Call>, c: Call, i: nat)
    ensures Keep(calls + [c], i) == Keep(calls, i) + if c.host == i && c.phase == Serve then [] else [c]
  {
    if calls == [] {
      assert calls + [c] == [c] && [c][1..] == [];
    } else {
      assert (calls + [c])[1..] == calls[1..] + [c];
      KeepLast(calls[1..], c, i);
    }
  }

  lemma KeepNext(calls: seq<Call>, j: nat, i: nat)
    requires j < |calls|
    ensures Keep(calls[..j + 1], i) == Keep(calls[..j], i) + if calls[j].host == i && calls[j].phase == Serve then [] else [calls[j]]
  {
    assert calls[..j + 1] == calls[..j] + [calls[j]];
    KeepLast(calls[..j], calls[j], i);
  }

  lemma TakeCallsNext(cfg: Config, s: State)
    requires cfg.hosts > 0
    ensures TakeCalls(cfg, s) == if s.acc >= 1.0 then TakeCalls(cfg, TakeCall(cfg, s)) else s
  {
    if s.acc >= 1.0 { CallClock(cfg, s); }
  }

  class Release {
    const cfg: Config
    var t: real
    var acc: real
    var rr: nat
    var draws: nat
    var phase: Phase
    var phaseT: real
    var canaryFails: bool
    const canaryHost: int
    var versions: seq<int>
    var calls: seq<Call>
    var started: nat
    var oldReplies: nat
    var newReplies: nat
    var drained: nat
    ghost var begunOld: nat
    ghost var begunNew: nat
    ghost var patchedAt: seq<Option<real>>

    ghost function View(): State
      reads this
    {
      State(t, acc, rr, draws, phase, phaseT, canaryFails, versions, calls, started, oldReplies, newReplies, drained,
            begunOld, begunNew, patchedAt)
    }

    ghost predicate Valid()
      reads this
    {
      Inv(cfg, View()) && canaryHost == CanaryHost(cfg)
    }

    /** With a single host there is no canary, and the release would fail at its first step. */
    constructor (cfg: Config)
      requires cfg.hosts >= 2
      ensures Valid() && this.cfg == cfg && View() == Create(cfg)
    {
      this.cfg := cfg;
      var canary := -1;
      for i := 0 to cfg.hosts
        invariant canary == LastOther(i, cfg.leader)
      {
        if i != cfg.leader {
          canary := i;
        }
      }
      canaryHost := canary;
      t, acc, rr, draws, phase, phaseT, canaryFails := 0.0, 0.0, 0, 0, Idle, 0.0, false;
      versions, calls := seq(cfg.hosts, _ => 1), [];
      started, oldReplies, newReplies, drained, begunOld, begunNew := 0, 0, 0, 0, 0, 0;
      patchedAt := seq(cfg.hosts, _ => None);
      new;
      CreateIs(cfg);
    }

    method StartRelease(canaryFails: bool)
      requires Valid()
      modifies this
      ensures Valid() && View() == Start(old(View()), canaryFails)
    {
      StartKeeps(cfg, View(), canaryFails);
      if phase != Idle {
        return;
      }
      this.canaryFails := canaryFails;
      phase, phaseT := Sending, 0.0;
    }

    method PatchHost(i: nat)
      requires i < |versions| == |patchedAt|
      modifies this
      ensures View() == Patch(old(View()), i)
    {
      versions := versions[i := 2];
      patchedAt := patchedAt[i := Some(t)];
      var all, kept := calls, [];
      assert Keep(all[..0], i) == [];
      hide Keep;
      for j := 0 to |all|
        invariant kept == Keep(all[..j], i) && |kept| <= j
        invariant drained == old(drained) + (j - |kept|)
        modifies `drained
      {
        KeepNext(all, j, i);
        if all[j].host == i && all[j].phase == Serve {
          drained := drained + 1;
        } else {
          kept := kept + [all[j]];
        }
      }
      assert all[..|all|] == all;
      calls := kept;
    }

    method PatchRest()
      requires |versions| == |patchedAt|
      modifies this
      ensures View() == PatchFrom(old(View()), 0)
    {
      var i := 0;
      while i < |versions|
        invariant i <= |versions| == |patchedAt|
        invariant PatchFrom(View(), i) == PatchFrom(old(View()), 0)
        decreases |versions| - i
      {
        ghost var before := View();
        if versions[i] == 1 {
          PatchHost(i);
        }
        assert |versions| == |before.versions|;
        i := i + 1;
      }
    }

    method RollOut(dt: real)
      requires Shape(cfg, View()) && canaryHost == CanaryHost(cfg)
      modifies this
      ensures View() == StepRelease(cfg, old(View()), dt)
    {
      hide Patch, PatchFrom;
      if phase == Idle || phase == Complete || phase == Halted {
        return;
      }
      phaseT := phaseT + dt;
      LastOtherIs(cfg.hosts, cfg.leader);
      if phase == Sending && phaseT >= SEND_HOP {
        phase, phaseT := Forwarding, 0.0;
      } else if phase == Forwarding && phaseT >= HOP {
        phase, phaseT := Canary, 0.0;
      } else if phase == Canary && phaseT >= HOP {
        PatchHost(canaryHost);
        phase, phaseT := Gate, 0.0;
      } else if phase == Gate && phaseT >= cfg.windowS {
        phase := if canaryFails then Halted else Rest;
        phaseT := 0.0;
      } else if phase == Rest && phaseT >= HOP {
        PatchRest();
        phase, phaseT := Complete, 0.0;
      }
    }

    method AdvanceCall(i: nat, dt: real)
      requires i < |calls| && calls[i].host < |versions|
      modifies this
      ensures View() == StepCall(cfg, old(View()), i, dt)
    {
      var c := calls[i].(elapsed := calls[i].elapsed + dt, age := calls[i].age + dt);
      if c.elapsed < c.dur {
        calls := calls[i := c];
        return;
      }
      match c.phase
      case Out =>
        var version := versions[c.host];
        calls := calls[i := c.(phase := Serve, elapsed := 0.0, version := version, dur := ServiceTime(cfg, draws))];
        draws := draws + 1;
        if version == 2 { begunNew := begunNew + 1; } else { begunOld := begunOld + 1; }
      case Serve => calls := calls[i := c.(phase := Back, elapsed := 0.0, dur := TRAVEL)];
      case Back =>
        if c.version == 2 { newReplies := newReplies + 1; } else { oldReplies := oldReplies + 1; }
        calls := RemoveAt(calls, i);
    }

    method TakeNew()
      requires cfg.hosts > 0
      modifies this
      ensures View() == TakeCalls(cfg, old(View()))
    {
      hide TakeCalls;
      while acc >= 1.0
        invariant TakeCalls(cfg, View()) == TakeCalls(cfg, old(View()))
        decreases acc.Floor
      {
        ghost var s := View();
        CallClock(cfg, s);
        TakeCallsNext(cfg, s);
        acc := acc - 1.0;
        calls := calls + [Call(rr % cfg.hosts, Out, 0.0, TRAVEL, 1, started, 0.0)];
        started := started + 1;
        rr := rr + 1;
        assert View() == TakeCall(cfg, s);
      }
      TakeCallsNext(cfg, View());
    }

    method AdvanceAll(dt: real)
      requires Serving(View()) && CallsPlaced(View())
      modifies this
      ensures View() == StepCalls(cfg, old(View()), |old(calls)|, dt)
    {
      ghost var goal := StepCalls(cfg, View(), |calls|, dt);
      var i := |calls|;
      while i > 0
        invariant 0 <= i <= |calls| && Serving(View()) && CallsPlaced(View())
        invariant StepCalls(cfg, View(), i, dt) == goal
        decreases i
      {
        StepCallServes(cfg, View(), i - 1, dt);
        ServingPlaced(StepCall(cfg, View(), i - 1, dt));
        AdvanceCall(i - 1, dt);
        i := i - 1;
      }
    }

    method Carry(dt: real)
      requires Inv(cfg, View()) && CallsPlaced(View())
      modifies this
      ensures View() == Traffic(cfg, old(View()), dt)
    {
      hide Rollout, Serving, TakeCalls, StepCalls;
      RolloutShape(cfg, View());
      acc := acc + Load(cfg, dt);
      ServingSame(old(View()), View());
      TakeCallsServe(cfg, View());
      TakeNew();
      ServingPlaced(View());
      AdvanceAll(dt);
    }

    /** One frame of the simulation. */
    method StepBy(dt0: real)
      requires Valid()
      modifies this
      ensures Valid()
      ensures CallsPlaced(old(View())) && View() == Step(cfg, old(View()), dt0)
    {
      hide Inv, StepRelease, Traffic;
      var dt := Capped(dt0);
      ghost var s := View();
      InvPlaced(cfg, s);
      ghost var r := StepParts(cfg, s, dt0);
      ReleaseKeeps(cfg, s, dt);
      t := t + dt;
      RollOut(dt);
      InvPlaced(cfg, r);
      Carry(dt);
      StepIsTraffic(cfg, s, dt0, r);
    }
  }
}
