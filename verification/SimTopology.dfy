/** Role placement with failover of a single-holder role, and a patch that must be let
    through (assets/explainer/sim-topology.js). The three role names are taken to differ; a host's
    pool and labels are reduced to the three questions asked of them. `attempts`,
    `activations` and `Patch.age` are history: the sessions tried, the patches the nodes
    admitted with the hosts as they were then, and the time since a patch set out. */
module SimTopology {
  import opened Options
  import opened Simulations

  /** A machine: is it in the serving pool, may it hold the single role. */
  datatype Machine = Machine(serves: bool, labelled: bool)

  datatype Config = Config(machines: seq<Machine>, initiator: nat, sessionsPerS: real, legS: real, suspectS: real)

  datatype Host = Host(up: bool, since: real, code: int)

  datatype Role = Initiates | Every | Single

  datatype Chip = Chip(role: Role, host: int, from: int, movedAt: real)

  datatype Session = Session(stock: nat, single: nat, legs: seq<(nat, nat)>, leg: nat, elapsed: real)

  datatype PatchPhase = ToGate | Refused | ToLeader | FanOut | AtNodes | Activated | NodeRefused

  datatype Patch = Patch(phase: PatchPhase, t: real, grant: bool, verdict: Option<bool>, age: real)

  datatype Activation = Activation(patch: Patch, hosts: seq<Host>)

  datatype State = State(
    t: real, acc: real, rr: nat, hosts: seq<Host>, chips: seq<Chip>, flow: bool, sessions: seq<Session>,
    patch: Option<Patch>, finished: nat, cancelled: nat, refused: nat, attempts: nat, activations: seq<Activation>)

  const CHIP_S := 0.7
  const STAGGER := 0.22
  const TO_GATE := 0.9
  const TO_LEADER := 0.8
  const FAN_OUT := 0.9

  ghost predicate Sane(cfg: Config) {
    cfg.initiator < |cfg.machines|
  }

  function Create(cfg: Config): State {
    State(0.0, 0.0, 0, seq(|cfg.machines|, _ => Host(true, 0.0, 1)), [], false, [], None, 0, 0, 0, 0, [])
  }

  // ---------------------------------------------------------------- placement

  predicate MayHold(cfg: Config, s: State, i: nat)
    requires i < |cfg.machines| == |s.hosts|
  {
    cfg.machines[i].serves && s.hosts[i].up && cfg.machines[i].labelled
  }

  /** The last of the first `n` machines that may hold the single role now, or -1. */
  function RankSingle(cfg: Config, s: State, n: nat): (best: int)
    requires n <= |cfg.machines| == |s.hosts|
    ensures best == -1 || (0 <= best < n && MayHold(cfg, s, best))
    ensures forall i :: best < i < n && i >= 0 ==> !MayHold(cfg, s, i)
  {
    if n == 0 then -1 else if MayHold(cfg, s, n - 1) then n - 1 else RankSingle(cfg, s, n - 1)
  }

  function NextChip(s: State, role: Role, host: int): Chip {
    Chip(role, host, -1, s.t + STAGGER * |s.chips| as real)
  }

  /** The every-host role on the serving machines from `i` on. */
  function PlaceEvery(cfg: Config, s: State, i: nat): (r: State)
    ensures r == s.(chips := r.chips)
    decreases |cfg.machines| - i
  {
    if i >= |cfg.machines| then s
    else if cfg.machines[i].serves then PlaceEvery(cfg, s.(chips := s.chips + [NextChip(s, Every, i)]), i + 1)
    else PlaceEvery(cfg, s, i + 1)
  }

  function Place(cfg: Config, s: State): State
    requires |cfg.machines| == |s.hosts|
  {
    if s.chips != [] then s
    else
      var s1 := PlaceEvery(cfg, s.(chips := [NextChip(s, Initiates, cfg.initiator)]), 0);
      s1.(chips := s1.chips + [NextChip(s1, Single, RankSingle(cfg, s1, |cfg.machines|))])
  }

  // ---------------------------------------------------------------- hosts stop and start

  predicate RunsOn(x: Session, i: nat) {
    x.stock == i || x.single == i
  }

  function Surviving(xs: seq<Session>, i: nat): (r: seq<Session>)
    ensures |r| <= |xs| && forall x :: x in r <==> x in xs && !RunsOn(x, i)
  {
    if xs == [] then []
    else
      assert forall x :: x in xs <==> x == xs[0] || x in xs[1..];
      if RunsOn(xs[0], i) then Surviving(xs[1..], i) else [xs[0]] + Surviving(xs[1..], i)
  }

  function Stop(s: State, i: nat): State
    requires i < |s.hosts|
  {
    if !s.hosts[i].up then s
    else s.(hosts := s.hosts[i := s.hosts[i].(up := false, since := s.t)],
            sessions := Surviving(s.sessions, i),
            cancelled := s.cancelled + (|s.sessions| - |Surviving(s.sessions, i)|))
  }

  function Offered(c: Chip, i: nat, t: real): Chip {
    if c.host == i && c.role == Every then c.(from := i, movedAt := t) else c
  }

  function OfferAgain(chips: seq<Chip>, i: nat, t: real): (r: seq<Chip>)
    ensures |r| == |chips| && forall k :: 0 <= k < |chips| ==> r[k] == Offered(chips[k], i, t)
  {
    if chips == [] then [] else [Offered(chips[0], i, t)] + OfferAgain(chips[1..], i, t)
  }

  function Start(s: State, i: nat): State
    requires i < |s.hosts|
  {
    if s.hosts[i].up then s
    else s.(hosts := s.hosts[i := s.hosts[i].(up := true, since := s.t)], chips := OfferAgain(s.chips, i, s.t))
  }

  // ---------------------------------------------------------------- the patch

  function SendPatch(s: State, grant: bool): State {
    s.(patch := Some(Patch(ToGate, 0.0, grant, None, 0.0)))
  }

  function Upgrade(hosts: seq<Host>): (r: seq<Host>)
    ensures |r| == |hosts| && forall i :: 0 <= i < |r| ==> r[i] == if hosts[i].up then hosts[i].(code := 2) else hosts[i]
  {
    if hosts == [] then []
    else [if hosts[0].up then hosts[0].(code := 2) else hosts[0]] + Upgrade(hosts[1..])
  }

  function Decide(s: State): State
    requires s.patch.Some?
  {
    var p := s.patch.value;
    match p.verdict
    case None => s
    case Some(true) =>
      s.(patch := Some(p.(phase := Activated, t := 0.0)), hosts := Upgrade(s.hosts), activations := s.activations + [Activation(p, s.hosts)])
    case Some(false) => s.(patch := Some(p.(phase := NodeRefused, t := 0.0)))
  }

  function ResolveNodes(s: State, admit: bool): State {
    if s.patch.None? then s
    else
      var r := s.(patch := Some(s.patch.value.(verdict := Some(admit))));
      if r.patch.value.phase == AtNodes then Decide(r) else r
  }

  function StepPatch(s: State, dt: real): State {
    if s.patch.None? then s
    else
      var p := s.patch.value.(t := s.patch.value.t + dt, age := s.patch.value.age + dt);
      if p.phase == ToGate && p.t >= TO_GATE then
        s.(patch := Some(p.(phase := if p.grant then ToLeader else Refused, t := 0.0)))
      else if p.phase == ToLeader && p.t >= TO_LEADER then s.(patch := Some(p.(phase := FanOut, t := 0.0)))
      else if p.phase == FanOut && p.t >= FAN_OUT then Decide(s.(patch := Some(p.(phase := AtNodes, t := 0.0))))
      else s.(patch := Some(p))
  }

  // ---------------------------------------------------------------- sessions

  /** The first chip of a role, as its position. */
  function ChipOf(chips: seq<Chip>, role: Role): (k: nat)
    ensures k <= |chips| && (k < |chips| ==> chips[k].role == role)
    ensures forall j :: 0 <= j < k ==> chips[j].role != role
  {
    if chips == [] then 0 else if chips[0].role == role then 0 else 1 + ChipOf(chips[1..], role)
  }

  /** The first chip of the every-host role on host `i`, as its position. */
  function EveryChip(chips: seq<Chip>, i: nat): (k: nat)
    ensures k <= |chips| && (k < |chips| ==> chips[k].role == Every && chips[k].host == i)
  {
    if chips == [] then 0 else if chips[0].role == Every && chips[0].host == i then 0 else 1 + EveryChip(chips[1..], i)
  }

  predicate Settled(s: State, k: nat) {
    k < |s.chips| && s.t >= s.chips[k].movedAt + CHIP_S
  }

  predicate Offers(cfg: Config, s: State, i: nat)
    requires i < |cfg.machines| == |s.hosts|
  {
    cfg.machines[i].serves && s.hosts[i].up && Settled(s, EveryChip(s.chips, i))
  }

  /** The hosts offering the every-host role, among the first `n`. */
  function Offering(cfg: Config, s: State, n: nat): (r: seq<nat>)
    requires n <= |cfg.machines| == |s.hosts|
    ensures forall i: nat :: i in r <==> i < n && Offers(cfg, s, i)
  {
    if n == 0 then [] else if Offers(cfg, s, n - 1) then Offering(cfg, s, n - 1) + [n - 1] else Offering(cfg, s, n - 1)
  }

  /** Does the single role's host take a session? */
  predicate SingleReady(s: State) {
    var k := ChipOf(s.chips, Single);
    k < |s.chips| && 0 <= s.chips[k].host < |s.hosts| && s.hosts[s.chips[k].host].up && Settled(s, k)
  }

  function Legs(from: nat, stock: nat, led: nat): seq<(nat, nat)> {
    (if from != stock then [(from, stock), (stock, from)] else [])
    + (if stock != led then [(stock, led)] else []) + (if led != from then [(led, from)] else [])
  }

  function NewSession(cfg: Config, s: State): State
    requires Sane(cfg) && |cfg.machines| == |s.hosts|
  {
    var offering := Offering(cfg, s, |s.hosts|);
    if !s.hosts[cfg.initiator].up || offering == [] || !SingleReady(s) then
      s.(refused := s.refused + 1, attempts := s.attempts + 1)
    else
      var stock := offering[s.rr % |offering|];
      var led := s.chips[ChipOf(s.chips, Single)].host;
      s.(rr := s.rr + 1, attempts := s.attempts + 1,
         sessions := s.sessions + [Session(stock, led, Legs(cfg.initiator, stock, led), 0, 0.0)])
  }

  function TakeOne(cfg: Config, s: State): State
    requires Sane(cfg) && |cfg.machines| == |s.hosts|
  {
    NewSession(cfg, s.(acc := s.acc - 1.0))
  }

  lemma TakeClock(cfg: Config, s: State)
    requires Sane(cfg) && |cfg.machines| == |s.hosts| && s.acc >= 1.0
    ensures TakeOne(cfg, s).acc.Floor == s.acc.Floor - 1 && |TakeOne(cfg, s).hosts| == |s.hosts|
  {
  }

  function TakeSessions(cfg: Config, s: State): (r: State)
    requires Sane(cfg) && |cfg.machines| == |s.hosts|
    ensures |r.hosts| == |s.hosts|
    decreases s.acc.Floor
  {
    if s.acc >= 1.0 then
      TakeClock(cfg, s);
      TakeSessions(cfg, TakeOne(cfg, s))
    else s
  }

  function StepSession(cfg: Config, s: State, j: nat, dt: real): (r: State)
    requires j < |s.sessions|
    ensures |s.sessions| - 1 <= |r.sessions| && r.hosts == s.hosts
  {
    var x := s.sessions[j];
    if x.elapsed + dt < cfg.legS then s.(sessions := s.sessions[j := x.(elapsed := x.elapsed + dt)])
    else if x.leg + 1 >= |x.legs| then s.(finished := s.finished + 1, sessions := RemoveAt(s.sessions, j))
    else s.(sessions := s.sessions[j := x.(elapsed := 0.0, leg := x.leg + 1)])
  }

  /** Steps the sessions below position `i`, the last first. */
  function StepSessions(cfg: Config, s: State, i: nat, dt: real): (r: State)
    requires i <= |s.sessions|
    ensures r.hosts == s.hosts
    decreases i
  {
    if i == 0 then s else StepSessions(cfg, StepSession(cfg, s, i - 1, dt), i - 1, dt)
  }

  /** The single role's host has been given up on. */
  predicate GivenUp(cfg: Config, s: State) {
    var k := ChipOf(s.chips, Single);
    k < |s.chips| && 0 <= s.chips[k].host < |s.hosts|
    && !s.hosts[s.chips[k].host].up && s.t - s.hosts[s.chips[k].host].since >= cfg.suspectS
  }

  function MoveSingle(cfg: Config, s: State): State
    requires |cfg.machines| == |s.hosts|
  {
    var next := RankSingle(cfg, s, |cfg.machines|);
    if GivenUp(cfg, s) && next >= 0 then
      var k := ChipOf(s.chips, Single);
      s.(chips := s.chips[k := s.chips[k].(from := s.chips[k].host, host := next, movedAt := s.t)])
    else s
  }

  function Load(cfg: Config, dt: real): real {
    dt * cfg.sessionsPerS
  }

  function Arrivals(cfg: Config, s: State, dt: real): (r: State)
    requires Sane(cfg) && |cfg.machines| == |s.hosts|
    ensures |r.hosts| == |s.hosts|
  {
    if s.flow then TakeSessions(cfg, s.(acc := s.acc + Load(cfg, dt))) else s
  }

  /** The sessions' part of a frame. */
  function Traffic(cfg: Config, s: State, dt: real): State
    requires Sane(cfg) && |cfg.machines| == |s.hosts|
  {
    var s1 := Arrivals(cfg, s, dt);
    StepSessions(cfg, s1, |s1.sessions|, dt)
  }

  function Step(cfg: Config, s: State, dt0: real): State
    requires Sane(cfg) && |cfg.machines| == |s.hosts|
  {
    var dt := Capped(dt0);
    StepPatch(Traffic(cfg, MoveSingle(cfg, s.(t := s.t + dt)), dt), dt)
  }

  // ---------------------------------------------------------------- the invariant

  ghost predicate SessionOk(cfg: Config, s: State, x: Session) {
    && x.stock < |s.hosts| == |cfg.machines| && s.hosts[x.stock].up && cfg.machines[x.stock].serves
    && x.single < |s.hosts| && s.hosts[x.single].up && cfg.machines[x.single].serves && cfg.machines[x.single].labelled
  }

  /** The single role is placed nowhere or on a labelled, serving machine. */
  ghost predicate ChipOk(cfg: Config, c: Chip) {
    c.role == Single ==>
      c.host == -1 || (0 <= c.host < |cfg.machines| && cfg.machines[c.host].serves && cfg.machines[c.host].labelled)
  }

  /** The time a patch has been under way before its phase's clock started. */
  function Behind(phase: PatchPhase): real {
    match phase
    case ToGate => 0.0
    case Refused => TO_GATE
    case ToLeader => TO_GATE
    case FanOut => TO_GATE + TO_LEADER
    case AtNodes => TO_GATE + TO_LEADER + FAN_OUT
    case Activated => 0.0
    case NodeRefused => 0.0
  }

  ghost predicate PatchOk(p: Patch) {
    && (p.phase != ToGate ==> (p.phase == Refused <==> !p.grant))
    && (p.phase == AtNodes ==> p.verdict.None?)
    && (p.phase != Activated && p.phase != NodeRefused ==> p.age - p.t >= Behind(p.phase))
  }

  /** A patch that was granted, reached the nodes and was admitted there. */
  ghost predicate Cleared(p: Patch) {
    p.grant && p.phase == AtNodes && p.verdict == Some(true) && p.age - p.t >= TO_GATE + TO_LEADER + FAN_OUT
  }

  /** Host `i` was up when this patch was activated. */
  ghost predicate Caught(a: Activation, i: nat) {
    i < |a.hosts| && a.hosts[i].up
  }

  ghost predicate CaughtOne(activations: seq<Activation>, i: nat) {
    exists k :: 0 <= k < |activations| && Caught(activations[k], i)
  }

  ghost predicate CodeOk(s: State, i: nat)
    requires i < |s.hosts|
  {
    s.hosts[i].code == if CaughtOne(s.activations, i) then 2 else 1
  }

  ghost predicate Inv(cfg: Config, s: State) {
    && |cfg.machines| == |s.hosts|
    && (forall j :: 0 <= j < |s.sessions| ==> SessionOk(cfg, s, s.sessions[j]))
    && ChipsOk(cfg, s.chips)
    && (forall k :: 0 <= k < |s.activations| ==> Cleared(s.activations[k].patch))
    && (forall i :: 0 <= i < |s.hosts| ==> CodeOk(s, i))
    && (s.patch.Some? ==> PatchOk(s.patch.value))
    && s.attempts == s.finished + s.cancelled + s.refused + |s.sessions|
  }

  /** What the invariant says of hosts, chips, activations and the patch is unchanged. */
  ghost predicate SameFloor(s: State, r: State) {
    r.hosts == s.hosts && r.chips == s.chips && r.patch == s.patch && r.activations == s.activations
  }

  lemma FloorKeeps(cfg: Config, s: State, r: State)
    requires Inv(cfg, s) && SameFloor(s, r)
    requires forall j :: 0 <= j < |r.sessions| ==> SessionOk(cfg, s, r.sessions[j])
    requires r.attempts == r.finished + r.cancelled + r.refused + |r.sessions|
    ensures Inv(cfg, r)
  {
    forall j | 0 <= j < |r.sessions| ensures SessionOk(cfg, r, r.sessions[j]) { assert SessionOk(cfg, s, r.sessions[j]); }
    forall i | 0 <= i < |r.hosts| ensures CodeOk(r, i) { assert CodeOk(s, i); }
  }

  ghost predicate ChipsOk(cfg: Config, chips: seq<Chip>) {
    forall k :: 0 <= k < |chips| ==> ChipOk(cfg, chips[k])
  }

  lemma ChipAdded(cfg: Config, chips: seq<Chip>, c: Chip)
    requires ChipsOk(cfg, chips) && ChipOk(cfg, c)
    ensures ChipsOk(cfg, chips + [c])
  {
    forall k | 0 <= k < |chips + [c]| ensures ChipOk(cfg, (chips + [c])[k]) {
      if k < |chips| { assert ChipOk(cfg, chips[k]); }
    }
  }

  lemma {:induction false} PlaceEveryOk(cfg: Config, s: State, i: nat)
    requires ChipsOk(cfg, s.chips)
    ensures ChipsOk(cfg, PlaceEvery(cfg, s, i).chips)
    decreases |cfg.machines| - i
  {
    if i < |cfg.machines| {
      if cfg.machines[i].serves { ChipAdded(cfg, s.chips, NextChip(s, Every, i)); }
      PlaceEveryOk(cfg, if cfg.machines[i].serves then s.(chips := s.chips + [NextChip(s, Every, i)]) else s, i + 1);
    }
  }

  /** Nothing but the chips changes. */
  lemma ChipsKeep(cfg: Config, s: State, r: State)
    requires Inv(cfg, s) && r == s.(chips := r.chips, t := r.t)
    requires ChipsOk(cfg, r.chips)
    ensures Inv(cfg, r)
  {
    forall j | 0 <= j < |r.sessions| ensures SessionOk(cfg, r, r.sessions[j]) { assert SessionOk(cfg, s, s.sessions[j]); }
    forall i | 0 <= i < |r.hosts| ensures CodeOk(r, i) { assert CodeOk(s, i); }
  }

  lemma PlaceKeeps(cfg: Config, s: State)
    requires Inv(cfg, s)
    ensures Inv(cfg, Place(cfg, s))
  {
    if s.chips == [] {
      var s0 := s.(chips := [NextChip(s, Initiates, cfg.initiator)]);
      PlaceEveryOk(cfg, s0, 0);
      var s1 := PlaceEvery(cfg, s0, 0);
      ChipAdded(cfg, s1.chips, NextChip(s1, Single, RankSingle(cfg, s1, |cfg.machines|)));
      ChipsKeep(cfg, s, Place(cfg, s));
    }
  }

  lemma StopKeeps(cfg: Config, s: State, i: nat)
    requires Inv(cfg, s) && i < |s.hosts|
    ensures Inv(cfg, Stop(s, i))
  {
    var r := Stop(s, i);
    if s.hosts[i].up {
      forall j | 0 <= j < |r.sessions| ensures SessionOk(cfg, r, r.sessions[j]) {
        assert r.sessions[j] in s.sessions;
        var k :| 0 <= k < |s.sessions| && s.sessions[k] == r.sessions[j];
        assert SessionOk(cfg, s, s.sessions[k]);
      }
      forall h | 0 <= h < |r.hosts| ensures CodeOk(r, h) { assert CodeOk(s, h); }
    }
  }

  lemma StartKeeps(cfg: Config, s: State, i: nat)
    requires Inv(cfg, s) && i < |s.hosts|
    ensures Inv(cfg, Start(s, i))
  {
    var r := Start(s, i);
    forall j | 0 <= j < |r.sessions| ensures SessionOk(cfg, r, r.sessions[j]) { assert SessionOk(cfg, s, s.sessions[j]); }
    forall k | 0 <= k < |r.chips| ensures ChipOk(cfg, r.chips[k]) { assert ChipOk(cfg, s.chips[k]); }
    forall h | 0 <= h < |r.hosts| ensures CodeOk(r, h) { assert CodeOk(s, h); }
  }

  /** A patch changed, and nothing else. */
  lemma PatchKeeps(cfg: Config, s: State, p: Patch)
    requires Inv(cfg, s) && PatchOk(p)
    ensures Inv(cfg, s.(patch := Some(p)))
  {
    var r := s.(patch := Some(p));
    forall j | 0 <= j < |r.sessions| ensures SessionOk(cfg, r, r.sessions[j]) { assert SessionOk(cfg, s, s.sessions[j]); }
    forall h | 0 <= h < |r.hosts| ensures CodeOk(r, h) { assert CodeOk(s, h); }
  }

  lemma CaughtAlso(activations: seq<Activation>, a: Activation, i: nat)
    ensures CaughtOne(activations + [a], i) <==> CaughtOne(activations, i) || Caught(a, i)
  {
    var more := activations + [a];
    assert more[|activations|] == a;
    if CaughtOne(activations, i) {
      var k :| 0 <= k < |activations| && Caught(activations[k], i);
      assert more[k] == activations[k];
    }
  }

  /** The nodes decide on a patch `p` that has reached them. */
  lemma DecideKeeps(cfg: Config, s: State, p: Patch)
    requires Inv(cfg, s) && p.phase == AtNodes && PatchOk(p.(verdict := None))
    ensures Inv(cfg, Decide(s.(patch := Some(p))))
  {
    var r := Decide(s.(patch := Some(p)));
    if p.verdict.None? {
      PatchKeeps(cfg, s, p);
    } else if p.verdict == Some(false) {
      PatchKeeps(cfg, s, p.(phase := NodeRefused, t := 0.0));
    } else {
      forall j | 0 <= j < |r.sessions| ensures SessionOk(cfg, r, r.sessions[j]) { assert SessionOk(cfg, s, s.sessions[j]); }
      forall h | 0 <= h < |r.hosts| ensures CodeOk(r, h) {
        assert CodeOk(s, h);
        CaughtAlso(s.activations, Activation(p, s.hosts), h);
      }
    }
  }

  lemma ResolveKeeps(cfg: Config, s: State, admit: bool)
    requires Inv(cfg, s)
    ensures Inv(cfg, ResolveNodes(s, admit))
  {
    if s.patch.Some? {
      var p := s.patch.value.(verdict := Some(admit));
      if p.phase == AtNodes { DecideKeeps(cfg, s, p); } else { PatchKeeps(cfg, s, p); }
    }
  }

  lemma StepPatchKeeps(cfg: Config, s: State, dt: real)
    requires Inv(cfg, s)
    ensures Inv(cfg, StepPatch(s, dt))
  {
    if s.patch.Some? {
      var p := s.patch.value.(t := s.patch.value.t + dt, age := s.patch.value.age + dt);
      assert PatchOk(s.patch.value);
      hide Inv, Decide;
      if p.phase == ToGate && p.t >= TO_GATE {
        PatchKeeps(cfg, s, p.(phase := if p.grant then ToLeader else Refused, t := 0.0));
      } else if p.phase == ToLeader && p.t >= TO_LEADER {
        PatchKeeps(cfg, s, p.(phase := FanOut, t := 0.0));
      } else if p.phase == FanOut && p.t >= FAN_OUT {
        DecideKeeps(cfg, s, p.(phase := AtNodes, t := 0.0));
      } else {
        PatchKeeps(cfg, s, p);
      }
    }
  }

  lemma NewSessionKeeps(cfg: Config, s: State)
    requires Inv(cfg, s) && Sane(cfg)
    ensures Inv(cfg, NewSession(cfg, s)) && SameFloor(s, NewSession(cfg, s))
  {
    var r, offering, k := NewSession(cfg, s), Offering(cfg, s, |s.hosts|), ChipOf(s.chips, Single);
    if k < |s.chips| { assert ChipOk(cfg, s.chips[k]); }
    if offering != [] { assert offering[s.rr % |offering|] in offering; }
    forall j | 0 <= j < |r.sessions| ensures SessionOk(cfg, s, r.sessions[j]) {
      if j < |s.sessions| { assert SessionOk(cfg, s, s.sessions[j]); }
    }
    FloorKeeps(cfg, s, r);
  }

  lemma {:induction false} TakeSessionsKeep(cfg: Config, s: State)
    requires Inv(cfg, s) && Sane(cfg)
    ensures Inv(cfg, TakeSessions(cfg, s)) && SameFloor(s, TakeSessions(cfg, s))
    decreases s.acc.Floor
  {
    if s.acc >= 1.0 {
      TakeClock(cfg, s);
      var s1 := s.(acc := s.acc - 1.0);
      FloorKeeps(cfg, s, s1);
      NewSessionKeeps(cfg, s1);
      TakeSessionsKeep(cfg, TakeOne(cfg, s));
    }
  }

  lemma StepSessionKeeps(cfg: Config, s: State, j: nat, dt: real)
    requires Inv(cfg, s) && j < |s.sessions|
    ensures Inv(cfg, StepSession(cfg, s, j, dt)) && SameFloor(s, StepSession(cfg, s, j, dt))
  {
    var r := StepSession(cfg, s, j, dt);
    assert SessionOk(cfg, s, s.sessions[j]);
    forall i | 0 <= i < |r.sessions| ensures SessionOk(cfg, s, r.sessions[i]) {
      assert SessionOk(cfg, s, s.sessions[if |r.sessions| == |s.sessions| || i < j then i else i + 1]);
    }
    FloorKeeps(cfg, s, r);
  }

  lemma {:induction false} StepSessionsKeep(cfg: Config, s: State, i: nat, dt: real)
    requires Inv(cfg, s) && i <= |s.sessions|
    ensures Inv(cfg, StepSessions(cfg, s, i, dt)) && SameFloor(s, StepSessions(cfg, s, i, dt))
    decreases i
  {
    if i > 0 {
      StepSessionKeeps(cfg, s, i - 1, dt);
      StepSessionsKeep(cfg, StepSession(cfg, s, i - 1, dt), i - 1, dt);
    }
  }

  lemma MoveSingleKeeps(cfg: Config, s: State)
    requires Inv(cfg, s)
    ensures Inv(cfg, MoveSingle(cfg, s))
  {
    var r := MoveSingle(cfg, s);
    forall k | 0 <= k < |r.chips| ensures ChipOk(cfg, r.chips[k]) { assert ChipOk(cfg, s.chips[k]); }
    ChipsKeep(cfg, s, r);
  }

  lemma ArrivalsKeep(cfg: Config, s: State, dt: real)
    requires Inv(cfg, s) && Sane(cfg)
    ensures Inv(cfg, Arrivals(cfg, s, dt)) && SameFloor(s, Arrivals(cfg, s, dt))
  {
    if s.flow {
      FloorKeeps(cfg, s, s.(acc := s.acc + Load(cfg, dt)));
      TakeSessionsKeep(cfg, s.(acc := s.acc + Load(cfg, dt)));
    }
  }

  lemma TrafficKeeps(cfg: Config, s: State, dt: real)
    requires Inv(cfg, s) && Sane(cfg)
    ensures Inv(cfg, Traffic(cfg, s, dt)) && SameFloor(s, Traffic(cfg, s, dt))
  {
    ArrivalsKeep(cfg, s, dt);
    var s1 := Arrivals(cfg, s, dt);
    StepSessionsKeep(cfg, s1, |s1.sessions|, dt);
  }

  /** The state once the clock has moved and the single role has followed. */
  lemma AfterMove(cfg: Config, s: State, dt: real) returns (r: State)
    requires Inv(cfg, s)
    ensures |cfg.machines| == |s.hosts| == |r.hosts|
    ensures r == MoveSingle(cfg, s.(t := s.t + dt)) && Inv(cfg, r)
  {
    ChipsKeep(cfg, s, s.(t := s.t + dt));
    MoveSingleKeeps(cfg, s.(t := s.t + dt));
    r := MoveSingle(cfg, s.(t := s.t + dt));
  }

  lemma StepKeeps(cfg: Config, s: State, dt0: real)
    requires Inv(cfg, s) && Sane(cfg)
    ensures Inv(cfg, Step(cfg, s, dt0))
  {
    hide Inv, MoveSingle, Traffic, StepPatch;
    var dt := Capped(dt0);
    var s1 := AfterMove(cfg, s, dt);
    TrafficKeeps(cfg, s1, dt);
    StepPatchKeeps(cfg, Traffic(cfg, s1, dt), dt);
  }

  // ---------------------------------------------------------------- every run

  datatype Event = DoPlace | SetFlow(flow: bool) | DoStop(host: nat) | DoStart(host: nat)
    | DoSend(grant: bool) | DoResolve(admit: bool) | Tick(dt: real)

  function Apply(cfg: Config, s: State, e: Event): (r: State)
    requires Sane(cfg) && Inv(cfg, s)
    ensures Inv(cfg, r)
  {
    match e
    case DoPlace =>
      PlaceKeeps(cfg, s);
      Place(cfg, s)
    case SetFlow(flow) =>
      FloorKeeps(cfg, s, s.(flow := flow));
      s.(flow := flow)
    case DoStop(i) =>
      if i < |s.hosts| then
        StopKeeps(cfg, s, i);
        Stop(s, i)
      else s
    case DoStart(i) =>
      if i < |s.hosts| then
        StartKeeps(cfg, s, i);
        Start(s, i)
      else s
    case DoSend(grant) =>
      PatchKeeps(cfg, s, SendPatch(s, grant).patch.value);
      SendPatch(s, grant)
    case DoResolve(admit) =>
      ResolveKeeps(cfg, s, admit);
      ResolveNodes(s, admit)
    case Tick(dt) =>
      StepKeeps(cfg, s, dt);
      Step(cfg, s, dt)
  }

  function Run(cfg: Config, s: State, es: seq<Event>): (r: State)
    requires Sane(cfg) && Inv(cfg, s)
    ensures Inv(cfg, r)
    decreases |es|
  {
    if es == [] then s else Run(cfg, Apply(cfg, s, es[0]), es[1..])
  }

  lemma CreateIs(cfg: Config)
    ensures Inv(cfg, Create(cfg))
  {
  }

  // ---------------------------------------------------------------- moves of the single role

  /** Where the single role is, or -1. */
  function SingleHost(s: State): int {
    var k := ChipOf(s.chips, Single);
    if k < |s.chips| then s.chips[k].host else -1
  }

  lemma {:induction false} ChipOfAlike(a: seq<Chip>, b: seq<Chip>)
    requires |a| == |b| && forall k :: 0 <= k < |a| ==> a[k].role == b[k].role
    ensures ChipOf(a, Single) == ChipOf(b, Single)
  {
    if a != [] { ChipOfAlike(a[1..], b[1..]); }
  }

  lemma OfferKeepsSingle(s: State, i: nat)
    requires i < |s.hosts|
    ensures SingleHost(Start(s, i)) == SingleHost(s)
  {
    var r := Start(s, i);
    ChipOfAlike(s.chips, r.chips);
  }

  lemma MoveSingleIs(cfg: Config, s: State)
    requires Inv(cfg, s)
    ensures var r := MoveSingle(cfg, s);
            SingleHost(r) == if GivenUp(cfg, s) && RankSingle(cfg, s, |s.hosts|) >= 0
                             then RankSingle(cfg, s, |s.hosts|) else SingleHost(s)
  {
    ChipOfAlike(s.chips, MoveSingle(cfg, s).chips);
  }

  lemma PatchChips(s: State, dt: real)
    ensures StepPatch(s, dt).chips == s.chips
  {
  }

  lemma StepChips(cfg: Config, s: State, dt0: real)
    requires Inv(cfg, s) && Sane(cfg)
    ensures Step(cfg, s, dt0).chips == MoveSingle(cfg, s.(t := s.t + Capped(dt0))).chips
  {
    hide Inv, MoveSingle, Traffic, StepPatch;
    var dt := Capped(dt0);
    var s1 := AfterMove(cfg, s, dt);
    TrafficKeeps(cfg, s1, dt);
    PatchChips(Traffic(cfg, s1, dt), dt);
  }

  /** The last machine that may hold the single role. */
  ghost predicate Ranks(cfg: Config, s: State, i: int)
    requires |cfg.machines| == |s.hosts|
  {
    0 <= i < |s.hosts| && MayHold(cfg, s, i) && forall k :: i < k < |s.hosts| ==> !MayHold(cfg, s, k)
  }

  lemma RanksIs(cfg: Config, s: State, i: int)
    requires |cfg.machines| == |s.hosts| && i == RankSingle(cfg, s, |s.hosts|) >= 0
    ensures Ranks(cfg, s, i)
  {
  }

  /** The single role's host was down for `suspectS` at time `t`. */
  ghost predicate DownLong(cfg: Config, s: State, t: real) {
    var i := SingleHost(s);
    0 <= i < |s.hosts| && !s.hosts[i].up && t - s.hosts[i].since >= cfg.suspectS
  }

  lemma TickMoves(cfg: Config, s: State, dt: real)
    requires Sane(cfg) && Inv(cfg, s)
    ensures var r := Step(cfg, s, dt);
            && |r.chips| == |s.chips|
            && (SingleHost(r) != SingleHost(s) ==> DownLong(cfg, s, s.t + Capped(dt)) && Ranks(cfg, s, SingleHost(r)))
  {
    var s1 := s.(t := s.t + Capped(dt));
    ChipsKeep(cfg, s, s1);
    StepChips(cfg, s, dt);
    MoveSingleIs(cfg, s1);
    if GivenUp(cfg, s1) && RankSingle(cfg, s1, |s.hosts|) >= 0 {
      RanksIs(cfg, s1, RankSingle(cfg, s1, |s.hosts|));
      RanksSame(cfg, s1, s, RankSingle(cfg, s1, |s.hosts|));
    }
  }

  lemma RanksSame(cfg: Config, s: State, r: State, i: int)
    requires |cfg.machines| == |s.hosts| && r.hosts == s.hosts && Ranks(cfg, s, i)
    ensures Ranks(cfg, r, i)
  {
    forall k | i < k < |r.hosts| ensures !MayHold(cfg, r, k) { assert !MayHold(cfg, s, k); }
  }

  /** Once placed, the single role moves only on the clock, only off a host that has been
      down for `suspectS`, and only to the last host that is up, serving and labelled. */
  lemma SingleMoves(cfg: Config, s: State, e: Event)
    requires Sane(cfg) && Inv(cfg, s) && s.chips != []
    ensures var r := Apply(cfg, s, e);
            && |r.chips| == |s.chips|
            && (SingleHost(r) != SingleHost(s) ==>
                  e.Tick? && DownLong(cfg, s, s.t + Capped(e.dt)) && Ranks(cfg, s, SingleHost(r)))
  {
    match e
    case DoStart(i) => if i < |s.hosts| { OfferKeepsSingle(s, i); }
    case Tick(dt) => TickMoves(cfg, s, dt);
    case DoResolve(admit) => ResolveChips(s, admit);
    case _ =>
  }

  lemma ResolveChips(s: State, admit: bool)
    ensures ResolveNodes(s, admit).chips == s.chips
  {
  }

  /** A role that found no host when it was placed is never placed. */
  lemma {:induction false} NeverPlaced(cfg: Config, s: State, es: seq<Event>)
    requires Sane(cfg) && Inv(cfg, s) && s.chips != [] && SingleHost(s) == -1
    ensures SingleHost(Run(cfg, s, es)) == -1
    decreases |es|
  {
    if es != [] {
      SingleMoves(cfg, s, es[0]);
      NeverPlaced(cfg, Apply(cfg, s, es[0]), es[1..]);
    }
  }

  // ---------------------------------------------------------------- who holds the roles of a session

  ghost predicate Holds(chips: seq<Chip>, role: Role, i: int) {
    exists k :: 0 <= k < |chips| && chips[k].role == role && chips[k].host == i
  }

  /** The session runs between the initiator, a host offering the every-host role and the
      holder of the single role. */
  ghost predicate HeldBy(cfg: Config, s: State, x: Session) {
    && Holds(s.chips, Initiates, cfg.initiator) && Holds(s.chips, Every, x.stock)
    && SingleHost(s) == x.single && x.legs == Legs(cfg.initiator, x.stock, x.single)
  }

  ghost predicate AllHeld(cfg: Config, s: State) {
    && (s.chips != [] ==> Holds(s.chips, Initiates, cfg.initiator))
    && forall j :: 0 <= j < |s.sessions| ==> HeldBy(cfg, s, s.sessions[j])
  }

  /** Hosts and roles of the chips stay, but perhaps for the single role's host. */
  ghost predicate SameRoles(a: seq<Chip>, b: seq<Chip>) {
    |a| == |b| && forall k :: 0 <= k < |a| ==> b[k].role == a[k].role && (a[k].role != Single ==> b[k].host == a[k].host)
  }

  lemma StillHolds(a: seq<Chip>, b: seq<Chip>, role: Role, i: int)
    requires SameRoles(a, b) && role != Single && Holds(a, role, i)
    ensures Holds(b, role, i)
  {
    var k :| 0 <= k < |a| && a[k].role == role && a[k].host == i;
    assert b[k].role == role && b[k].host == i;
  }

  lemma StillHeld(cfg: Config, s: State, r: State, x: Session, y: Session)
    requires HeldBy(cfg, s, x) && SameRoles(s.chips, r.chips) && SingleHost(r) == SingleHost(s)
    requires y.stock == x.stock && y.single == x.single && y.legs == x.legs
    ensures HeldBy(cfg, r, y)
  {
    StillHolds(s.chips, r.chips, Initiates, cfg.initiator);
    StillHolds(s.chips, r.chips, Every, x.stock);
  }

  /** Some sessions end and time passes for the others, and the roles stay. */
  lemma FewerHeld(cfg: Config, s: State, r: State)
    requires AllHeld(cfg, s) && SameRoles(s.chips, r.chips) && SingleHost(r) == SingleHost(s)
    requires forall x :: x in r.sessions ==> x in s.sessions
    ensures AllHeld(cfg, r)
  {
    if r.chips != [] { StillHolds(s.chips, r.chips, Initiates, cfg.initiator); }
    forall j | 0 <= j < |r.sessions| ensures HeldBy(cfg, r, r.sessions[j]) {
      assert r.sessions[j] in s.sessions;
      var k :| 0 <= k < |s.sessions| && s.sessions[k] == r.sessions[j];
      StillHeld(cfg, s, r, s.sessions[k], r.sessions[j]);
    }
  }

  lemma {:induction false} PlaceEveryGrows(cfg: Config, s: State, i: nat)
    ensures s.chips <= PlaceEvery(cfg, s, i).chips
    decreases |cfg.machines| - i
  {
    if i < |cfg.machines| {
      PlaceEveryGrows(cfg, if cfg.machines[i].serves then s.(chips := s.chips + [NextChip(s, Every, i)]) else s, i + 1);
    }
  }

  lemma SessionsNeedChips(cfg: Config, s: State)
    requires AllHeld(cfg, s)
    ensures s.sessions != [] ==> s.chips != []
  {
    if s.sessions != [] { assert HeldBy(cfg, s, s.sessions[0]); }
  }

  lemma PlaceHolds(cfg: Config, s: State)
    requires Inv(cfg, s) && AllHeld(cfg, s)
    ensures AllHeld(cfg, Place(cfg, s))
  {
    if s.chips == [] {
      var s0 := s.(chips := [NextChip(s, Initiates, cfg.initiator)]);
      PlaceEveryGrows(cfg, s0, 0);
      SessionsNeedChips(cfg, s);
      assert Place(cfg, s).chips[0] == s0.chips[0];
    }
  }

  lemma NewSessionHolds(cfg: Config, s: State)
    requires Inv(cfg, s) && Sane(cfg) && AllHeld(cfg, s)
    ensures AllHeld(cfg, NewSession(cfg, s))
  {
    var r, offering, k := NewSession(cfg, s), Offering(cfg, s, |s.hosts|), ChipOf(s.chips, Single);
    forall j | 0 <= j < |r.sessions| ensures HeldBy(cfg, r, r.sessions[j]) {
      if j < |s.sessions| {
        StillHeld(cfg, s, r, s.sessions[j], s.sessions[j]);
      } else {
        var stock := offering[s.rr % |offering|];
        assert stock in offering && Offers(cfg, s, stock);
        assert s.chips[EveryChip(s.chips, stock)].host == stock;
      }
    }
  }

  lemma {:induction false} TakeSessionsHold(cfg: Config, s: State)
    requires Inv(cfg, s) && Sane(cfg) && AllHeld(cfg, s)
    ensures AllHeld(cfg, TakeSessions(cfg, s))
    decreases s.acc.Floor
  {
    if s.acc >= 1.0 {
      hide Inv, AllHeld, NewSession;
      var s1 := s.(acc := s.acc - 1.0);
      TakeOneHolds(cfg, s, s1);
      TakeClock(cfg, s);
      TakeSessionsHold(cfg, TakeOne(cfg, s));
    }
  }

  lemma TakeOneHolds(cfg: Config, s: State, s1: State)
    requires Inv(cfg, s) && Sane(cfg) && AllHeld(cfg, s) && s1 == s.(acc := s1.acc)
    ensures |cfg.machines| == |s.hosts| == |s1.hosts|
    ensures Inv(cfg, NewSession(cfg, s1)) && AllHeld(cfg, NewSession(cfg, s1))
  {
    FloorKeeps(cfg, s, s1);
    FewerHeld(cfg, s, s1);
    NewSessionKeeps(cfg, s1);
    NewSessionHolds(cfg, s1);
  }

  lemma StepSessionHolds(cfg: Config, s: State, j: nat, dt: real)
    requires j < |s.sessions| && AllHeld(cfg, s)
    ensures AllHeld(cfg, StepSession(cfg, s, j, dt))
  {
    var r := StepSession(cfg, s, j, dt);
    forall i | 0 <= i < |r.sessions| ensures HeldBy(cfg, r, r.sessions[i]) {
      var x := s.sessions[if |r.sessions| == |s.sessions| || i < j then i else i + 1];
      StillHeld(cfg, s, r, x, r.sessions[i]);
    }
  }

  lemma {:induction false} StepSessionsHold(cfg: Config, s: State, i: nat, dt: real)
    requires i <= |s.sessions| && AllHeld(cfg, s)
    ensures AllHeld(cfg, StepSessions(cfg, s, i, dt))
    decreases i
  {
    if i > 0 {
      StepSessionHolds(cfg, s, i - 1, dt);
      StepSessionsHold(cfg, StepSession(cfg, s, i - 1, dt), i - 1, dt);
    }
  }

  lemma SessionsKeepHolder(cfg: Config, s: State)
    requires Inv(cfg, s) && AllHeld(cfg, s)
    ensures s.sessions != [] ==> !GivenUp(cfg, s)
  {
    if s.sessions != [] { assert SessionOk(cfg, s, s.sessions[0]) && HeldBy(cfg, s, s.sessions[0]); }
  }

  /** The single role moves only off a host that is down, and no session is left there. */
  lemma MoveHolds(cfg: Config, s: State)
    requires Inv(cfg, s) && AllHeld(cfg, s)
    ensures AllHeld(cfg, MoveSingle(cfg, s))
  {
    var r := MoveSingle(cfg, s);
    SessionsKeepHolder(cfg, s);
    if r.chips != [] { StillHolds(s.chips, r.chips, Initiates, cfg.initiator); }
  }

  lemma TrafficHolds(cfg: Config, s: State, dt: real)
    requires Inv(cfg, s) && Sane(cfg) && AllHeld(cfg, s)
    ensures AllHeld(cfg, Traffic(cfg, s, dt))
  {
    hide AllHeld, TakeSessions, StepSessions;
    ArrivalsHold(cfg, s, dt);
    var s1 := Arrivals(cfg, s, dt);
    StepSessionsHold(cfg, s1, |s1.sessions|, dt);
  }

  lemma ArrivalsHold(cfg: Config, s: State, dt: real)
    requires Inv(cfg, s) && Sane(cfg) && AllHeld(cfg, s)
    ensures AllHeld(cfg, Arrivals(cfg, s, dt))
  {
    if s.flow {
      var s1 := s.(acc := s.acc + Load(cfg, dt));
      FloorKeeps(cfg, s, s1);
      FewerHeld(cfg, s, s1);
      TakeSessionsHold(cfg, s1);
    }
  }

  lemma TickHolds(cfg: Config, s: State, dt0: real)
    requires Inv(cfg, s) && Sane(cfg) && AllHeld(cfg, s)
    ensures AllHeld(cfg, Step(cfg, s, dt0))
  {
    hide Inv, AllHeld, MoveSingle, Traffic, StepPatch;
    var dt := Capped(dt0);
    var s0 := s.(t := s.t + dt);
    ClockHolds(cfg, s, s0);
    MoveHolds(cfg, s0);
    var s1 := AfterMove(cfg, s, dt);
    TrafficHolds(cfg, s1, dt);
    var s2 := Traffic(cfg, s1, dt);
    PatchHolds(cfg, s2, dt);
  }

  lemma ClockHolds(cfg: Config, s: State, r: State)
    requires Inv(cfg, s) && AllHeld(cfg, s) && r == s.(t := r.t)
    ensures Inv(cfg, r) && AllHeld(cfg, r)
  {
    ChipsKeep(cfg, s, r);
    FewerHeld(cfg, s, r);
  }

  lemma PatchHolds(cfg: Config, s: State, dt: real)
    requires AllHeld(cfg, s)
    ensures AllHeld(cfg, StepPatch(s, dt))
  {
    FewerHeld(cfg, s, StepPatch(s, dt));
  }

  lemma StopHolds(cfg: Config, s: State, i: nat)
    requires AllHeld(cfg, s) && i < |s.hosts|
    ensures AllHeld(cfg, Stop(s, i))
  {
    FewerHeld(cfg, s, Stop(s, i));
  }

  lemma StartHolds(cfg: Config, s: State, i: nat)
    requires AllHeld(cfg, s) && i < |s.hosts|
    ensures AllHeld(cfg, Start(s, i))
  {
    OfferKeepsSingle(s, i);
    FewerHeld(cfg, s, Start(s, i));
  }

  lemma ApplyHolds(cfg: Config, s: State, e: Event)
    requires Sane(cfg) && Inv(cfg, s) && AllHeld(cfg, s)
    ensures AllHeld(cfg, Apply(cfg, s, e))
  {
    hide Inv, AllHeld, Place, Stop, Start, Step;
    match e
    case DoPlace => PlaceHolds(cfg, s);
    case DoStop(i) => if i < |s.hosts| { StopHolds(cfg, s, i); }
    case DoStart(i) => if i < |s.hosts| { StartHolds(cfg, s, i); }
    case Tick(dt) => TickHolds(cfg, s, dt);
    case _ => FewerHeld(cfg, s, Apply(cfg, s, e));
  }

  lemma {:induction false} RunHolds(cfg: Config, s: State, es: seq<Event>)
    requires Sane(cfg) && Inv(cfg, s) && AllHeld(cfg, s)
    ensures AllHeld(cfg, Run(cfg, s, es))
    decreases |es|
  {
    if es != [] {
      hide AllHeld, Apply;
      ApplyHolds(cfg, s, es[0]);
      RunHolds(cfg, Apply(cfg, s, es[0]), es[1..]);
    }
  }

  /** In every run: a session runs between the initiator, a host that offers the every-host
      role and the holder of the single role, the last two up and eligible; attempts are
      conserved; and a host runs the new code exactly if it was up when some patch was
      activated that was granted, spent the three hops getting to the nodes, and was
      admitted there, and the old code otherwise. A patch that was not granted never gets
      past the gate. */
  lemma RunSafe(cfg: Config, es: seq<Event>, j: nat, i: nat)
    requires Sane(cfg)
    ensures Inv(cfg, Create(cfg))
    ensures var r := Run(cfg, Create(cfg), es);
            && |r.hosts| == |cfg.machines|
            && (j < |r.sessions| ==>
                  var x := r.sessions[j];
                  && x.stock < |r.hosts| && r.hosts[x.stock].up && cfg.machines[x.stock].serves
                  && x.single < |r.hosts| && r.hosts[x.single].up && cfg.machines[x.single].serves && cfg.machines[x.single].labelled
                  && Holds(r.chips, Initiates, cfg.initiator) && Holds(r.chips, Every, x.stock) && x.single == SingleHost(r)
                  && x.legs == Legs(cfg.initiator, x.stock, x.single))
            && r.attempts == r.finished + r.cancelled + r.refused + |r.sessions|
            && (i < |r.hosts| ==>
                  && (r.hosts[i].code == 1 || r.hosts[i].code == 2)
                  && (r.hosts[i].code == 2 <==> exists k :: 0 <= k < |r.activations| && Caught(r.activations[k], i)))
            && (forall k :: 0 <= k < |r.activations| ==> Cleared(r.activations[k].patch))
            && (r.patch.Some? && !r.patch.value.grant ==> r.patch.value.phase == ToGate || r.patch.value.phase == Refused)
  {
    CreateIs(cfg);
    RunHolds(cfg, Create(cfg), es);
    var r := Run(cfg, Create(cfg), es);
    if j < |r.sessions| { assert SessionOk(cfg, r, r.sessions[j]) && HeldBy(cfg, r, r.sessions[j]); }
    if i < |r.hosts| { assert CodeOk(r, i); }
  }

  // ---------------------------------------------------------------- the initiator of a session

  /** Host `i` sends or receives one of the session's messages. */
  ghost predicate OnLegs(x: Session, i: nat) {
    exists k :: 0 <= k < |x.legs| && (x.legs[k].0 == i || x.legs[k].1 == i)
  }

  lemma LegsAre(from: nat, x: Session, i: nat)
    requires x.legs == Legs(from, x.stock, x.single)
    ensures OnLegs(x, i) <==> x.legs != [] && (i == from || i == x.stock || i == x.single)
    ensures x.legs == [] <==> from == x.stock == x.single
  {
    var legs := x.legs;
    if from != x.stock {
      assert legs[0] == (from, x.stock);
      if from != x.single { assert legs[|legs| - 1] == (x.single, from); }
    } else if x.stock != x.single {
      assert legs[0] == (x.stock, x.single);
    }
  }

  /** A stop cancels the sessions that have the host on a leg, all but those it takes part
      in as their initiator only. */
  lemma StopCancelsIff(cfg: Config, s: State, i: nat, x: Session)
    requires i < |s.hosts| && s.hosts[i].up && x in s.sessions && HeldBy(cfg, s, x) && OnLegs(x, i)
    ensures x !in Stop(s, i).sessions <==> x.stock == i || x.single == i
    ensures x in Stop(s, i).sessions ==> i == cfg.initiator
  {
    LegsAre(cfg.initiator, x, i);
  }

  /** So in every run the hosts on a session's legs are all up exactly if the initiator is,
      and a stop of a host cancels the sessions on it exactly if they do not run there as
      their initiator only. */
  lemma RunInitiator(cfg: Config, es: seq<Event>, x: Session, i: nat)
    requires Sane(cfg)
    ensures Inv(cfg, Create(cfg))
    ensures var r := Run(cfg, Create(cfg), es);
            x in r.sessions ==>
              && |r.hosts| == |cfg.machines|
              && (forall h: nat :: OnLegs(x, h) ==> h < |r.hosts|)
              && ((forall h: nat :: OnLegs(x, h) ==> r.hosts[h].up) <==> r.hosts[cfg.initiator].up)
              && (i < |r.hosts| && r.hosts[i].up && OnLegs(x, i) ==>
                    (x in Stop(r, i).sessions <==> i == cfg.initiator && i != x.stock && i != x.single))
  {
    CreateIs(cfg);
    RunHolds(cfg, Create(cfg), es);
    var r := Run(cfg, Create(cfg), es);
    if x in r.sessions {
      var j :| 0 <= j < |r.sessions| && r.sessions[j] == x;
      assert SessionOk(cfg, r, r.sessions[j]) && HeldBy(cfg, r, r.sessions[j]);
      forall h: nat ensures OnLegs(x, h) <==> x.legs != [] && (h == cfg.initiator || h == x.stock || h == x.single) {
        LegsAre(cfg.initiator, x, h);
      }
      LegsAre(cfg.initiator, x, i);
      if i < |r.hosts| && r.hosts[i].up && OnLegs(x, i) { StopCancelsIff(cfg, r, i, x); }
    }
  }

  // ---------------------------------------------------------------- a run that leaves a session behind

  /** An initiator, and one machine for both other roles. */
  function Two(): Config {
    Config([Machine(false, false), Machine(true, true)], 0, 10.0, 1.0, 1.0)
  }

  /** The roles are placed, and no session has been opened. */
  function Waiting(t: real, flow: bool): State {
    State(t, 0.0, 0, [Host(true, 0.0, 1), Host(true, 0.0, 1)],
          [Chip(Initiates, 0, -1, 0.0), Chip(Every, 1, -1, 0.22), Chip(Single, 1, -1, 0.44)],
          flow, [], None, 0, 0, 0, 0, [])
  }

  function Ticks(n: nat): seq<Event> {
    if n == 0 then [] else [Tick(0.1)] + Ticks(n - 1)
  }

  lemma {:induction false} RunConcat(cfg: Config, s: State, a: seq<Event>, b: seq<Event>)
    requires Sane(cfg) && Inv(cfg, s)
    ensures Run(cfg, s, a + b) == Run(cfg, Run(cfg, s, a), b)
    decreases |a|
  {
    if a == [] {
      assert a + b == b;
    } else {
      assert (a + b)[0] == a[0] && (a + b)[1..] == a[1..] + b;
      RunConcat(cfg, Apply(cfg, s, a[0]), a[1..], b);
    }
  }

  lemma RunOne(cfg: Config, s: State, e: Event, es: seq<Event>)
    requires Sane(cfg) && Inv(cfg, s)
    ensures Run(cfg, s, [e] + es) == Run(cfg, Apply(cfg, s, e), es)
  {
    assert ([e] + es)[1..] == es;
  }

  lemma TwoPlaced()
    ensures Inv(Two(), Create(Two())) && Place(Two(), Create(Two())) == Waiting(0.0, false)
  {
    var cfg, s := Two(), Create(Two());
    CreateIs(cfg);
    assert s.hosts == [Host(true, 0.0, 1), Host(true, 0.0, 1)];
    var s0 := s.(chips := [NextChip(s, Initiates, 0)]);
    var s1 := s0.(chips := s0.chips + [NextChip(s0, Every, 1)]);
    assert PlaceEvery(cfg, s1, 2) == s1;
    assert PlaceEvery(cfg, s0, 1) == s1;
    assert PlaceEvery(cfg, s0, 0) == s1;
    assert MayHold(cfg, s1, 1);
    assert RankSingle(cfg, s1, 2) == 1;
  }

  lemma IdleTick(t: real)
    ensures Step(Two(), Waiting(t, false), 0.1) == Waiting(t + 0.1, false)
  {
  }

  lemma {:induction false} IdleTicks(t: real, n: nat)
    requires Inv(Two(), Waiting(t, false))
    ensures Run(Two(), Waiting(t, false), Ticks(n)) == Waiting(t + 0.1 * n as real, false)
    decreases n
  {
    hide Inv, Step, Run, Waiting;
    if n > 0 {
      var next := Apply(Two(), Waiting(t, false), Tick(0.1));
      IdleTick(t);
      RunOne(Two(), Waiting(t, false), Tick(0.1), Ticks(n - 1));
      assert next == Waiting(t + 0.1, false);
      IdleTicks(t + 0.1, n - 1);
    } else {
      RunNone(Two(), Waiting(t, false));
    }
  }

  /** The session just opened. */
  function Opened(): State {
    Waiting(1.3, true).(rr := 1, attempts := 1, sessions := [Session(1, 1, [(0, 1), (1, 0), (1, 0)], 0, 0.1)])
  }

  lemma OpenTick()
    ensures Step(Two(), Waiting(1.2, true), 0.1) == Opened()
  {
    var cfg := Two();
    var s1 := Waiting(1.3, true).(acc := 1.0);
    assert MoveSingle(cfg, Waiting(1.3, true)) == Waiting(1.3, true);
    assert 0.1 * cfg.sessionsPerS == 1.0;
    var s2 := s1.(acc := 0.0);
    ChipPlaces(s2);
    assert !Offers(cfg, s2, 0) && Offers(cfg, s2, 1);
    assert Offering(cfg, s2, 0) == [] && Offering(cfg, s2, 1) == [] && Offering(cfg, s2, 2) == [1];
    assert Legs(0, 1, 1) == [(0, 1), (1, 0), (1, 0)];
    var s3 := Opened().(sessions := [Session(1, 1, [(0, 1), (1, 0), (1, 0)], 0, 0.0)]);
    assert NewSession(cfg, s2) == s3;
    assert TakeSessions(cfg, s3) == s3;
    assert TakeSessions(cfg, s1) == s3;
    assert StepSession(cfg, s3, 0, 0.1) == Opened();
    assert StepSessions(cfg, s3, 1, 0.1) == Opened();
  }

  lemma ChipPlaces(s: State)
    requires s.chips == Waiting(0.0, true).chips
    ensures ChipOf(s.chips, Single) == 2 && EveryChip(s.chips, 1) == 1
  {
    assert s.chips[1..][0] == s.chips[1] && s.chips[1..][1..][0] == s.chips[2];
  }

  lemma RunFrom(cfg: Config, s: State, es: seq<Event>, k: nat)
    requires Sane(cfg) && Inv(cfg, s) && k < |es|
    ensures Run(cfg, s, es[k..]) == Run(cfg, Apply(cfg, s, es[k]), es[k + 1..])
  {
    assert es[k..][0] == es[k] && es[k..][1..] == es[k + 1..];
  }

  lemma RunThree(cfg: Config, s: State, es: seq<Event>)
    requires Sane(cfg) && Inv(cfg, s) && |es| == 3
    ensures Run(cfg, s, es) == Apply(cfg, Apply(cfg, Apply(cfg, s, es[0]), es[1]), es[2])
  {
    hide Inv, Apply, Run;
    assert es[0..] == es && es[3..] == [];
    RunFrom(cfg, s, es, 0);
    var s1 := Apply(cfg, s, es[0]);
    RunFrom(cfg, s1, es, 1);
    var s2 := Apply(cfg, s1, es[1]);
    RunFrom(cfg, s2, es, 2);
    RunNone(cfg, Apply(cfg, s2, es[2]));
  }

  function Settling(): seq<Event> {
    [DoPlace] + Ticks(12)
  }

  function LeftBehind(): seq<Event> {
    Settling() + Leaving()
  }

  function Leaving(): (es: seq<Event>)
    ensures |es| == 3
  {
    [SetFlow(true), Tick(0.1), DoStop(0)]
  }

  lemma SettlingRun()
    ensures Inv(Two(), Create(Two())) && Run(Two(), Create(Two()), Settling()) == Waiting(1.2, false)
  {
    hide Inv, Step, Run, Place, Create, Waiting, Ticks;
    TwoPlaced();
    RunOne(Two(), Create(Two()), DoPlace, Ticks(12));
    assert Apply(Two(), Create(Two()), DoPlace) == Waiting(0.0, false);
    IdleTicks(0.0, 12);
  }

  lemma LastThree()
    requires Inv(Two(), Waiting(1.2, false))
    ensures Run(Two(), Waiting(1.2, false), Leaving()) == Stop(Opened(), 0)
  {
    hide Inv, Run, Apply, Stop;
    RunThree(Two(), Waiting(1.2, false), Leaving());
    FlowOn();
    OpenApplied();
    StopApplied();
  }

  lemma FlowOn()
    requires Inv(Two(), Waiting(1.2, false))
    ensures Apply(Two(), Waiting(1.2, false), SetFlow(true)) == Waiting(1.2, true)
  {
    hide Inv;
  }

  lemma OpenApplied()
    requires Inv(Two(), Waiting(1.2, true))
    ensures Apply(Two(), Waiting(1.2, true), Tick(0.1)) == Opened()
  {
    hide Inv, Step;
    OpenTick();
  }

  lemma StopApplied()
    requires Inv(Two(), Opened())
    ensures Apply(Two(), Opened(), DoStop(0)) == Stop(Opened(), 0)
  {
    hide Inv, Stop;
  }

  /** The roles are placed and settle, a session opens, and its initiator stops: the session
      goes on, with legs to a host that is down. */
  lemma InitiatorLeaves()
    ensures Inv(Two(), Create(Two()))
    ensures var r := Run(Two(), Create(Two()), LeftBehind());
            |r.sessions| == 1 && OnLegs(r.sessions[0], 0) && |r.hosts| == 2 && !r.hosts[0].up
  {
    hide Inv, Run, Stop, Create, Waiting, Settling, Leaving, Opened, OnLegs;
    SettlingRun();
    RunConcat(Two(), Create(Two()), Settling(), Leaving());
    LastThree();
    StopLeaves();
  }

  lemma RunNone(cfg: Config, s: State)
    requires Sane(cfg) && Inv(cfg, s)
    ensures Run(cfg, s, []) == s
  {
  }

  lemma StopLeaves()
    ensures var r := Stop(Opened(), 0);
            |r.sessions| == 1 && OnLegs(r.sessions[0], 0) && |r.hosts| == 2 && !r.hosts[0].up
  {
    var x := Opened().sessions[0];
    assert Surviving([x], 0) == [x];
    assert x.legs[0].0 == 0;
  }

  // ---------------------------------------------------------------- the simulation object

  lemma {:induction false} SurvivingLast(xs: seq<Session>, x: Session, i: nat)
    ensures Surviving(xs + [x], i) == Surviving(xs, i) + if RunsOn(x, i) then [] else [x]
  {
    if xs == [] {
      assert xs + [x] == [x] && [x][1..] == [];
    } else {
      assert (xs + [x])[1..] == xs[1..] + [x];
      SurvivingLast(xs[1..], x, i);
    }
  }

  lemma SurvivingNext(xs: seq<Session>, j: nat, i: nat)
    requires j < |xs|
    ensures Surviving(xs[..j + 1], i) == Surviving(xs[..j], i) + if RunsOn(xs[j], i) then [] else [xs[j]]
  {
    assert xs[..j + 1] == xs[..j] + [xs[j]];
    SurvivingLast(xs[..j], xs[j], i);
  }

  class Topology {
    const cfg: Config
    var t: real
    var acc: real
    var rr: nat
    var hosts: seq<Host>
    var chips: seq<Chip>
    var flow: bool
    var sessions: seq<Session>
    var patch: Option<Patch>
    var finished: nat
    var cancelled: nat
    var refused: nat
    ghost var attempts: nat
    ghost var activations: seq<Activation>

    ghost function View(): State
      reads this
    {
      State(t, acc, rr, hosts, chips, flow, sessions, patch, finished, cancelled, refused, attempts, activations)
    }

    ghost predicate Valid()
      reads this
    {
      Sane(cfg) && Inv(cfg, View())
    }

    constructor (cfg: Config)
      requires Sane(cfg)
      ensures Valid() && this.cfg == cfg && View() == Create(cfg)
    {
      this.cfg := cfg;
      t, acc, rr, chips, flow, sessions, patch := 0.0, 0.0, 0, [], false, [], None;
      hosts := seq(|cfg.machines|, _ => Host(true, 0.0, 1));
      finished, cancelled, refused, attempts, activations := 0, 0, 0, 0, [];
      new;
      CreateIs(cfg);
    }

    method FindSingle() returns (best: int)
      requires |cfg.machines| == |hosts|
      ensures best == RankSingle(cfg, View(), |cfg.machines|)
    {
      best := -1;
      for i := 0 to |cfg.machines|
        invariant best == RankSingle(cfg, View(), i)
      {
        if cfg.machines[i].serves && hosts[i].up && cfg.machines[i].labelled {
          best := i;
        }
      }
    }

    method PlaceRoles()
      requires Valid()
      modifies this
      ensures Valid() && View() == Place(cfg, old(View()))
    {
      PlaceKeeps(cfg, View());
      PlaceChips();
    }

    method PlaceChips()
      requires |cfg.machines| == |hosts|
      modifies this
      ensures View() == Place(cfg, old(View()))
    {
      if chips != [] {
        return;
      }
      chips := [Chip(Initiates, cfg.initiator, -1, t + STAGGER * |chips| as real)];
      ghost var goal := PlaceEvery(cfg, View(), 0);
      var i := 0;
      while i < |cfg.machines|
        invariant i <= |cfg.machines| && PlaceEvery(cfg, View(), i) == goal
        invariant View() == old(View()).(chips := chips)
      {
        if cfg.machines[i].serves {
          chips := chips + [Chip(Every, i, -1, t + STAGGER * |chips| as real)];
        }
        i := i + 1;
      }
      var best := FindSingle();
      chips := chips + [Chip(Single, best, -1, t + STAGGER * |chips| as real)];
    }

    method StopHost(i: nat)
      requires Valid() && i < |hosts|
      modifies this
      ensures Valid() && View() == Stop(old(View()), i)
    {
      StopKeeps(cfg, View(), i);
      TakeDown(i);
    }

    method TakeDown(i: nat)
      requires i < |hosts|
      modifies this
      ensures View() == Stop(old(View()), i)
    {
      if !hosts[i].up {
        return;
      }
      hosts := hosts[i := hosts[i].(up := false, since := t)];
      var all, kept := sessions, [];
      assert Surviving(all[..0], i) == [];
      hide Surviving;
      for j := 0 to |all|
        invariant kept == Surviving(all[..j], i) && |kept| <= j
        invariant cancelled == old(cancelled) + (j - |kept|)
        modifies `cancelled
      {
        SurvivingNext(all, j, i);
        if all[j].stock != i && all[j].single != i {
          kept := kept + [all[j]];
        } else {
          cancelled := cancelled + 1;
        }
      }
      assert all[..|all|] == all;
      sessions := kept;
    }

    method StartHost(i: nat)
      requires Valid() && i < |hosts|
      modifies this
      ensures Valid() && View() == Start(old(View()), i)
    {
      StartKeeps(cfg, View(), i);
      if hosts[i].up {
        return;
      }
      hosts := hosts[i := hosts[i].(up := true, since := t)];
      chips := OfferAgain(chips, i, t);
    }

    method Send(grant: bool)
      requires Valid()
      modifies this
      ensures Valid() && View() == SendPatch(old(View()), grant)
    {
      PatchKeeps(cfg, View(), SendPatch(View(), grant).patch.value);
      patch := Some(Patch(ToGate, 0.0, grant, None, 0.0));
    }

    method Resolve(admit: bool)
      requires Valid()
      modifies this
      ensures Valid() && View() == ResolveNodes(old(View()), admit)
    {
      ResolveKeeps(cfg, View(), admit);
      if patch == None {
        return;
      }
      patch := Some(patch.value.(verdict := Some(admit)));
      if patch.value.phase == AtNodes {
        DecideNow();
      }
    }

    method DecideNow()
      requires patch.Some?
      modifies this
      ensures View() == Decide(old(View()))
    {
      var p := patch.value;
      if p.verdict == Some(true) {
        patch := Some(p.(phase := Activated, t := 0.0));
        activations := activations + [Activation(p, hosts)];
        hosts := Upgrade(hosts);
      } else if p.verdict == Some(false) {
        patch := Some(p.(phase := NodeRefused, t := 0.0));
      }
    }

    method AdvancePatch(dt: real)
      modifies this
      ensures View() == StepPatch(old(View()), dt)
    {
      if patch == None {
        return;
      }
      var p := patch.value.(t := patch.value.t + dt, age := patch.value.age + dt);
      patch := Some(p);
      if p.phase == ToGate && p.t >= TO_GATE {
        patch := Some(p.(phase := if p.grant then ToLeader else Refused, t := 0.0));
      } else if p.phase == ToLeader && p.t >= TO_LEADER {
        patch := Some(p.(phase := FanOut, t := 0.0));
      } else if p.phase == FanOut && p.t >= FAN_OUT {
        patch := Some(p.(phase := AtNodes, t := 0.0));
        DecideNow();
      }
    }

    method FindOffering() returns (offering: seq<nat>)
      requires |cfg.machines| == |hosts|
      ensures offering == Offering(cfg, View(), |hosts|)
    {
      offering := [];
      for i := 0 to |hosts|
        invariant offering == Offering(cfg, View(), i)
      {
        var k := EveryChip(chips, i);
        if cfg.machines[i].serves && hosts[i].up && k < |chips| && t >= chips[k].movedAt + CHIP_S {
          offering := offering + [i];
        }
      }
    }

    method OpenSession()
      requires Sane(cfg) && |cfg.machines| == |hosts|
      modifies this
      ensures View() == NewSession(cfg, old(View()))
    {
      var offering := FindOffering();
      attempts := attempts + 1;
      var k := ChipOf(chips, Single);
      if !hosts[cfg.initiator].up || offering == []
         || !(k < |chips| && 0 <= chips[k].host < |hosts| && hosts[chips[k].host].up && t >= chips[k].movedAt + CHIP_S) {
        refused := refused + 1;
        return;
      }
      var stock := offering[rr % |offering|];
      rr := rr + 1;
      sessions := sessions + [Session(stock, chips[k].host, Legs(cfg.initiator, stock, chips[k].host), 0, 0.0)];
    }

    method AdvanceSession(j: nat, dt: real)
      requires j < |sessions|
      modifies this
      ensures View() == StepSession(cfg, old(View()), j, dt)
    {
      var x := sessions[j];
      if x.elapsed + dt < cfg.legS {
        sessions := sessions[j := x.(elapsed := x.elapsed + dt)];
      } else if x.leg + 1 >= |x.legs| {
        finished := finished + 1;
        sessions := RemoveAt(sessions, j);
      } else {
        sessions := sessions[j := x.(elapsed := 0.0, leg := x.leg + 1)];
      }
    }

    method ReplaceSingle()
      requires |cfg.machines| == |hosts|
      modifies this
      ensures View() == MoveSingle(cfg, old(View())) && hosts == old(hosts)
    {
      var k := ChipOf(chips, Single);
      if k < |chips| && 0 <= chips[k].host < |hosts| {
        var h := hosts[chips[k].host];
        if !h.up && t - h.since >= cfg.suspectS {
          var next := FindSingle();
          if next >= 0 {
            chips := chips[k := chips[k].(from := chips[k].host, host := next, movedAt := t)];
          }
        }
      }
    }

    method TakeNew(dt: real)
      requires Sane(cfg) && |cfg.machines| == |hosts|
      modifies this
      ensures View() == Arrivals(cfg, old(View()), dt)
    {
      if !flow {
        return;
      }
      acc := acc + Load(cfg, dt);
      ghost var goal := TakeSessions(cfg, View());
      while acc >= 1.0
        invariant |cfg.machines| == |hosts| && TakeSessions(cfg, View()) == goal
        decreases acc.Floor
      {
        TakeClock(cfg, View());
        TakeNext();
      }
    }

    method TakeNext()
      requires Sane(cfg) && |cfg.machines| == |hosts|
      modifies this
      ensures View() == TakeOne(cfg, old(View()))
    {
      acc := acc - 1.0;
      OpenSession();
    }

    method AdvanceAll(dt: real)
      modifies this
      ensures View() == StepSessions(cfg, old(View()), |old(sessions)|, dt)
    {
      ghost var goal := StepSessions(cfg, View(), |sessions|, dt);
      var i := |sessions|;
      while i > 0
        invariant 0 <= i <= |sessions| && StepSessions(cfg, View(), i, dt) == goal
        decreases i
      {
        AdvanceSession(i - 1, dt);
        i := i - 1;
      }
    }

    method Frame(dt0: real)
      requires Sane(cfg) && |cfg.machines| == |hosts|
      modifies this
      ensures View() == Step(cfg, old(View()), dt0)
    {
      hide MoveSingle, Arrivals, StepSessions, StepPatch;
      var dt := Capped(dt0);
      t := t + dt;
      ReplaceSingle();
      TakeNew(dt);
      AdvanceAll(dt);
      AdvancePatch(dt);
    }

    /** One frame of the simulation. */
    method StepBy(dt0: real)
      requires Valid()
      modifies this
      ensures Valid() && View() == Step(cfg, old(View()), dt0)
    {
      StepKeeps(cfg, View(), dt0);
      Frame(dt0);
    }
  }
}
