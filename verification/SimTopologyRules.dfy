/** The topology simulation against its rules: where the roles are placed, when the single
    role moves and where to, how long a patch takes, which hosts a session runs between, and
    what each counter counts. */
module SimTopologyRules {
  import opened Options
  import opened Simulations
  import opened SimTopology
  import opened Clocks

  // ---------------------------------------------------------------- who may hold the single role

  ghost predicate Eligible(cfg: Config, hosts: seq<Host>, i: int) {
    0 <= i < |hosts| && i < |cfg.machines| && cfg.machines[i].serves && cfg.machines[i].labelled && hosts[i].up
  }

  /** The last eligible host. */
  ghost predicate Highest(cfg: Config, hosts: seq<Host>, i: int) {
    Eligible(cfg, hosts, i) && forall j :: i < j < |hosts| ==> !Eligible(cfg, hosts, j)
  }

  ghost predicate NoneEligible(cfg: Config, hosts: seq<Host>) {
    forall j :: 0 <= j < |hosts| ==> !Eligible(cfg, hosts, j)
  }

  lemma RankIs(cfg: Config, s: State)
    requires |cfg.machines| == |s.hosts|
    ensures var i := RankSingle(cfg, s, |cfg.machines|);
            (i >= 0 ==> Highest(cfg, s.hosts, i)) && (i < 0 ==> i == -1 && NoneEligible(cfg, s.hosts))
  {
    forall j | 0 <= j < |s.hosts| ensures MayHold(cfg, s, j) <==> Eligible(cfg, s.hosts, j) { }
  }

  // ---------------------------------------------------------------- placement

  /** The k-th role to be placed at time `t` lands 0.22 seconds after the one before. */
  ghost predicate Lands(c: Chip, k: nat, t: real) {
    c.from == -1 && c.movedAt == t + 0.22 * k as real
  }

  /** From position 1 on, the every-host role on the serving machines below `n`, in order. */
  ghost predicate EveryPlaced(cfg: Config, chips: seq<Chip>, n: nat)
    requires n <= |cfg.machines|
  {
    && (forall k :: 0 < k < |chips| ==> chips[k].role == Every && 0 <= chips[k].host < n && cfg.machines[chips[k].host].serves)
    && (forall j, k :: 0 < j < k < |chips| ==> chips[j].host < chips[k].host)
    && (forall i :: 0 <= i < n && cfg.machines[i].serves ==> OnHost(chips, i))
  }

  ghost predicate OnHost(chips: seq<Chip>, i: int) {
    exists k :: 0 < k < |chips| && chips[k].host == i
  }

  ghost predicate Landing(chips: seq<Chip>, t: real) {
    forall k :: 0 <= k < |chips| ==> Lands(chips[k], k, t)
  }

  lemma EveryMore(cfg: Config, chips: seq<Chip>, i: nat, c: Chip)
    requires i < |cfg.machines| && |chips| >= 1 && EveryPlaced(cfg, chips, i)
    requires cfg.machines[i].serves && c.role == Every && c.host == i
    ensures EveryPlaced(cfg, chips + [c], i + 1)
  {
    var more := chips + [c];
    forall j | 0 <= j < i + 1 && cfg.machines[j].serves ensures OnHost(more, j) {
      if j < i {
        assert OnHost(chips, j);
        var k :| 0 < k < |chips| && chips[k].host == j;
        assert more[k].host == j;
      } else {
        assert more[|chips|].host == j;
      }
    }
  }

  lemma EveryNone(cfg: Config, chips: seq<Chip>, i: nat)
    requires i < |cfg.machines| && EveryPlaced(cfg, chips, i) && !cfg.machines[i].serves
    ensures EveryPlaced(cfg, chips, i + 1)
  {
  }

  lemma {:induction false} PlaceEveryIs(cfg: Config, s: State, i: nat)
    requires i <= |cfg.machines| && |s.chips| >= 1 && EveryPlaced(cfg, s.chips, i) && Landing(s.chips, s.t)
    ensures var r := PlaceEvery(cfg, s, i).chips;
            EveryPlaced(cfg, r, |cfg.machines|) && Landing(r, s.t) && s.chips <= r
    decreases |cfg.machines| - i
  {
    hide EveryPlaced;
    if i < |cfg.machines| {
      if cfg.machines[i].serves {
        EveryMore(cfg, s.chips, i, NextChip(s, Every, i));
        PlaceEveryIs(cfg, s.(chips := s.chips + [NextChip(s, Every, i)]), i + 1);
      } else {
        EveryNone(cfg, s.chips, i);
        PlaceEveryIs(cfg, s, i + 1);
      }
    }
  }

  /** The roles are placed once: the initiator's on its host, the every-host role on every
      serving machine in order, and the single role last, on the last eligible host or
      nowhere; each lands 0.22 seconds after the one before. */
  lemma PlaceIs(cfg: Config, s: State)
    requires Sane(cfg) && Inv(cfg, s)
    ensures var r := Apply(cfg, s, DoPlace);
            && r == s.(chips := r.chips)
            && (s.chips != [] ==> r.chips == s.chips)
            && (s.chips == [] ==>
                  && |r.chips| >= 2 && Landing(r.chips, s.t)
                  && r.chips[0].role == Initiates && r.chips[0].host == cfg.initiator
                  && EveryPlaced(cfg, r.chips[..|r.chips| - 1], |cfg.machines|)
                  && var last := r.chips[|r.chips| - 1];
                     && last.role == Single
                     && (if NoneEligible(cfg, s.hosts) then last.host == -1 else Highest(cfg, s.hosts, last.host)))
  {
    hide EveryPlaced, Highest, NoneEligible, RankSingle;
    if s.chips == [] {
      var s0 := s.(chips := [NextChip(s, Initiates, cfg.initiator)]);
      EveryStart(cfg, s0.chips);
      PlaceEveryIs(cfg, s0, 0);
      var s1 := PlaceEvery(cfg, s0, 0);
      RankIs(cfg, s1);
      SomeOrNone(cfg, s1.hosts);
      assert Apply(cfg, s, DoPlace).chips[..|s1.chips|] == s1.chips;
    }
  }

  lemma EveryStart(cfg: Config, chips: seq<Chip>)
    requires |chips| == 1
    ensures EveryPlaced(cfg, chips, 0)
  {
  }

  lemma SomeOrNone(cfg: Config, hosts: seq<Host>)
    ensures forall i :: Highest(cfg, hosts, i) ==> !NoneEligible(cfg, hosts)
  {
  }

  // ---------------------------------------------------------------- the single role over time

  /** The single role's chip is the k-th. */
  ghost predicate SingleAt(chips: seq<Chip>, k: nat) {
    k < |chips| && chips[k].role == Single && forall j :: 0 <= j < k ==> chips[j].role != Single
  }

  /** By time `now` the role's host has been down for the suspect time. */
  ghost predicate Late(cfg: Config, hosts: seq<Host>, c: Chip, now: real) {
    0 <= c.host < |hosts| && !hosts[c.host].up && now - hosts[c.host].since >= cfg.suspectS
  }

  lemma {:induction false} SingleFound(chips: seq<Chip>, k: nat)
    requires SingleAt(chips, k)
    ensures ChipOf(chips, Single) == k
  {
  }

  /** In a frame the single role moves exactly if its host has been down for the suspect time
      and some host is eligible: to the last one that is, then and there. No other role
      moves. */
  lemma StepSingle(cfg: Config, s: State, dt: real, k: nat)
    requires Inv(cfg, s) && Sane(cfg) && SingleAt(s.chips, k)
    ensures var r, c, now := Step(cfg, s, dt), s.chips[k], s.t + Frame(dt);
            && |r.chips| == |s.chips| && SingleAt(r.chips, k) && r.chips == s.chips[k := r.chips[k]]
            && (if Late(cfg, s.hosts, c, now) && !NoneEligible(cfg, s.hosts)
                then Highest(cfg, s.hosts, r.chips[k].host) && r.chips[k] == Chip(Single, r.chips[k].host, c.host, now)
                else r.chips[k] == c)
  {
    hide Inv, Step, Highest, NoneEligible, RankSingle;
    var s1 := s.(t := s.t + Frame(dt));
    InvHosts(cfg, s);
    StepChips(cfg, s, dt);
    SingleFound(s.chips, k);
    RankIs(cfg, s1);
    SomeOrNone(cfg, s.hosts);
  }

  lemma InvHosts(cfg: Config, s: State)
    requires Inv(cfg, s)
    ensures |s.hosts| == |cfg.machines|
  {
  }

  /** A frame leaves the hosts up or down as they were. */
  ghost predicate SameUp(a: seq<Host>, b: seq<Host>) {
    |a| == |b| && forall i :: 0 <= i < |a| ==> b[i].up == a[i].up && b[i].since == a[i].since
  }

  lemma StepHosts(cfg: Config, s: State, dt: real)
    requires Inv(cfg, s) && Sane(cfg)
    ensures SameUp(s.hosts, Step(cfg, s, dt).hosts) && Step(cfg, s, dt).t == s.t + Frame(dt)
  {
    hide Inv, MoveSingle, Traffic, StepPatch;
    var d := Frame(dt);
    var s1 := AfterMove(cfg, s, d);
    MoveHosts(cfg, s.(t := s.t + d));
    TrafficKeeps(cfg, s1, d);
    TrafficClock(cfg, s1, d);
    PatchUp(Traffic(cfg, s1, d), d);
  }

  lemma MoveHosts(cfg: Config, s: State)
    requires |cfg.machines| == |s.hosts|
    ensures MoveSingle(cfg, s) == s.(chips := MoveSingle(cfg, s).chips)
  {
  }

  lemma PatchUp(s: State, d: real)
    ensures SameUp(s.hosts, StepPatch(s, d).hosts) && StepPatch(s, d).t == s.t
  {
  }

  lemma {:induction false} SessionsClock(cfg: Config, s: State, i: nat, d: real)
    requires i <= |s.sessions|
    ensures StepSessions(cfg, s, i, d).t == s.t
    decreases i
  {
    if i > 0 { SessionsClock(cfg, StepSession(cfg, s, i - 1, d), i - 1, d); }
  }

  lemma {:induction false} TakeT(cfg: Config, s: State)
    requires Sane(cfg) && |cfg.machines| == |s.hosts|
    ensures TakeSessions(cfg, s).t == s.t
    decreases s.acc.Floor
  {
    hide NewSession;
    if s.acc >= 1.0 {
      TakeClock(cfg, s);
      TakeOneT(cfg, s);
      TakeT(cfg, TakeOne(cfg, s));
    }
  }

  lemma TakeOneT(cfg: Config, s: State)
    requires Sane(cfg) && |cfg.machines| == |s.hosts|
    ensures TakeOne(cfg, s).t == s.t
  {
  }

  lemma TrafficClock(cfg: Config, s: State, d: real)
    requires Sane(cfg) && |cfg.machines| == |s.hosts|
    ensures Traffic(cfg, s, d).t == s.t
  {
    hide TakeSessions, StepSessions;
    TakeT(cfg, s.(acc := s.acc + Load(cfg, d)));
    var s1 := Arrivals(cfg, s, d);
    SessionsClock(cfg, s1, |s1.sessions|, d);
  }

  // ---------------------------------------------------------------- runs of frames

  function Frames(dts: seq<real>): seq<Event> {
    if dts == [] then [] else [Tick(dts[0])] + Frames(dts[1..])
  }

  lemma FrameFirst(cfg: Config, s: State, dts: seq<real>)
    requires Sane(cfg) && Inv(cfg, s) && dts != []
    ensures Inv(cfg, Step(cfg, s, dts[0]))
    ensures Run(cfg, s, Frames(dts)) == Run(cfg, Step(cfg, s, dts[0]), Frames(dts[1..]))
  {
    hide Inv, Step;
    StepKeeps(cfg, s, dts[0]);
    assert Frames(dts)[1..] == Frames(dts[1..]);
  }

  lemma UpAlike(cfg: Config, a: seq<Host>, b: seq<Host>)
    requires SameUp(a, b)
    ensures forall i :: Eligible(cfg, b, i) <==> Eligible(cfg, a, i)
    ensures forall i :: Highest(cfg, b, i) <==> Highest(cfg, a, i)
    ensures NoneEligible(cfg, b) <==> NoneEligible(cfg, a)
  {
  }

  lemma SameUpTwice(a: seq<Host>, b: seq<Host>, c: seq<Host>)
    requires SameUp(a, b) && SameUp(b, c)
    ensures SameUp(a, c)
  {
  }

  /** The single role `c` on a stopped host `i`, `now` being long after or not: still there, or
      moved on to the last eligible host. */
  ghost predicate FailedOver(cfg: Config, hosts: seq<Host>, c: Chip, i: nat, now: real) {
    i < |hosts| && !hosts[i].up && c.role == Single
    && if now - hosts[i].since >= cfg.suspectS && !NoneEligible(cfg, hosts)
       then Highest(cfg, hosts, c.host) else c.host == i
  }

  lemma FailOverOn(cfg: Config, s: State, dt: real, k: nat, i: nat)
    requires Inv(cfg, s) && Sane(cfg) && SingleAt(s.chips, k) && FailedOver(cfg, s.hosts, s.chips[k], i, s.t) && dt > 0.0
    ensures var r := Step(cfg, s, dt); SingleAt(r.chips, k) && FailedOver(cfg, r.hosts, r.chips[k], i, r.t)
  {
    hide Inv, Step, Highest, NoneEligible, SingleAt, Eligible;
    InvHosts(cfg, s);
    SingleIn(s.chips, k);
    StepSingle(cfg, s, dt, k);
    SingleIn(Step(cfg, s, dt).chips, k);
    StepHosts(cfg, s, dt);
    UpAlike(cfg, s.hosts, Step(cfg, s, dt).hosts);
    HighestUp(cfg, s.hosts, s.chips[k].host);
  }

  lemma SingleIn(chips: seq<Chip>, k: nat)
    requires SingleAt(chips, k)
    ensures k < |chips|
  {
  }

  lemma HighestUp(cfg: Config, hosts: seq<Host>, i: int)
    ensures Highest(cfg, hosts, i) ==> 0 <= i < |hosts| && hosts[i].up
  {
  }

  lemma {:induction false} FailOverThrough(cfg: Config, s: State, dts: seq<real>, k: nat, i: nat)
    requires Inv(cfg, s) && Sane(cfg) && SingleAt(s.chips, k) && Passing(dts)
    requires i < |s.hosts| && !s.hosts[i].up && s.chips[k].host == i && s.t == s.hosts[i].since && dts != []
    ensures var r := Run(cfg, s, Frames(dts));
            && SameUp(s.hosts, r.hosts) && r.t == s.t + Elapsed(dts)
            && SingleAt(r.chips, k) && FailedOver(cfg, r.hosts, r.chips[k], i, r.t)
  {
    hide Inv, Step, SingleAt, FailedOver, SameUp;
    InvHosts(cfg, s);
    FrameFirst(cfg, s, dts);
    StepHosts(cfg, s, dts[0]);
    FirstFailOver(cfg, s, dts[0], k, i);
    StillOver(cfg, Step(cfg, s, dts[0]), dts[1..], k, i);
    SameUpTwice(s.hosts, Step(cfg, s, dts[0]).hosts, Run(cfg, s, Frames(dts)).hosts);
  }

  lemma FirstFailOver(cfg: Config, s: State, dt: real, k: nat, i: nat)
    requires Inv(cfg, s) && Sane(cfg) && SingleAt(s.chips, k)
    requires i < |s.hosts| && !s.hosts[i].up && s.chips[k].host == i
    ensures var r := Step(cfg, s, dt); SingleAt(r.chips, k) && FailedOver(cfg, r.hosts, r.chips[k], i, r.t)
  {
    hide Inv, Step, Highest, NoneEligible, SingleAt, Eligible;
    InvHosts(cfg, s);
    SingleIn(s.chips, k);
    StepSingle(cfg, s, dt, k);
    SingleIn(Step(cfg, s, dt).chips, k);
    SingleRole(s.chips, k);
    StepHosts(cfg, s, dt);
    UpAlike(cfg, s.hosts, Step(cfg, s, dt).hosts);
  }

  lemma SingleRole(chips: seq<Chip>, k: nat)
    requires SingleAt(chips, k)
    ensures k < |chips| && chips[k].role == Single
  {
  }

  lemma {:induction false} StillOver(cfg: Config, s: State, dts: seq<real>, k: nat, i: nat)
    requires Inv(cfg, s) && Sane(cfg) && SingleAt(s.chips, k) && FailedOver(cfg, s.hosts, s.chips[k], i, s.t) && Passing(dts)
    ensures var r := Run(cfg, s, Frames(dts));
            && SameUp(s.hosts, r.hosts) && r.t == s.t + Elapsed(dts)
            && SingleAt(r.chips, k) && FailedOver(cfg, r.hosts, r.chips[k], i, r.t)
    decreases |dts|
  {
    hide Inv, Step, SingleAt, FailedOver;
    InvHosts(cfg, s);
    if dts != [] {
      FrameFirst(cfg, s, dts);
      StepHosts(cfg, s, dts[0]);
      FailOverOn(cfg, s, dts[0], k, i);
      var next := Step(cfg, s, dts[0]);
      StillOver(cfg, next, dts[1..], k, i);
      SameUpTwice(s.hosts, next.hosts, Run(cfg, next, Frames(dts[1..])).hosts);
    }
  }

  /** When the host of the single role stops, the role is still there until the suspect time
      has passed and on the last eligible host from then on, for as long as nothing else
      happens; with no host eligible it stays. */
  lemma RunFailsOver(cfg: Config, s: State, k: nat, dts: seq<real>)
    requires Sane(cfg) && Inv(cfg, s) && SingleAt(s.chips, k) && Passing(dts) && dts != []
    requires 0 <= s.chips[k].host < |s.hosts| && s.hosts[s.chips[k].host].up
    ensures var i := s.chips[k].host;
            var stopped := Apply(cfg, s, DoStop(i));
            var r := Run(cfg, stopped, Frames(dts));
            && |r.chips| > k && r.chips[k].role == Single
            && (if Elapsed(dts) >= cfg.suspectS && !NoneEligible(cfg, stopped.hosts)
                then Highest(cfg, stopped.hosts, r.chips[k].host) else r.chips[k].host == i)
  {
    hide Inv, SingleAt, Highest, NoneEligible, Run, Surviving;
    SingleRole(s.chips, k);
    var i: nat := s.chips[k].host;
    var stopped := Apply(cfg, s, DoStop(i));
    StopIs(cfg, s, i);
    FailOverThrough(cfg, stopped, dts, k, i);
    var r := Run(cfg, stopped, Frames(dts));
    SingleRole(r.chips, k);
    UpAlike(cfg, stopped.hosts, r.hosts);
  }

  // ---------------------------------------------------------------- hosts stop and start

  /** The sessions that do not run on host `i`, in order. */
  function OffHost(xs: seq<Session>, i: int): seq<Session> {
    if xs == [] then []
    else (if xs[0].stock == i || xs[0].single == i then [] else [xs[0]]) + OffHost(xs[1..], i)
  }

  lemma {:induction false} SurvivingIs(xs: seq<Session>, i: nat)
    ensures Surviving(xs, i) == OffHost(xs, i) && |OffHost(xs, i)| <= |xs|
  {
    if xs != [] { SurvivingIs(xs[1..], i); }
  }

  /** A host that is up and stops is down from now on, and each session that has it as the
      host of either role is cancelled. */
  lemma StopIs(cfg: Config, s: State, i: nat)
    requires Sane(cfg) && Inv(cfg, s)
    ensures var r := Apply(cfg, s, DoStop(i));
            && |OffHost(s.sessions, i)| <= |s.sessions|
            && (if i < |s.hosts| && s.hosts[i].up
                then r == s.(hosts := s.hosts[i := s.hosts[i].(up := false, since := s.t)], sessions := OffHost(s.sessions, i),
                             cancelled := s.cancelled + |s.sessions| - |OffHost(s.sessions, i)|)
                else r == s)
  {
    hide Inv, Surviving;
    SurvivingIs(s.sessions, i);
  }

  /** A host that is down and starts is up from now on and offers its every-host roles anew;
      it takes no other role. */
  lemma StartIs(cfg: Config, s: State, i: nat)
    requires Sane(cfg) && Inv(cfg, s)
    ensures var r := Apply(cfg, s, DoStart(i));
            if i < |s.hosts| && !s.hosts[i].up
            then && r == s.(hosts := s.hosts[i := s.hosts[i].(up := true, since := s.t)], chips := r.chips)
                 && |r.chips| == |s.chips|
                 && forall k :: 0 <= k < |s.chips| ==>
                      r.chips[k] == if s.chips[k].role == Every && s.chips[k].host == i
                                    then Chip(Every, i, i, s.t) else s.chips[k]
            else r == s
  {
    hide Inv;
  }

  // ---------------------------------------------------------------- a patch on its way

  /** How long a patch is on each way. */
  function Takes(phase: PatchPhase): real {
    match phase
    case ToGate => 0.9
    case ToLeader => 0.8
    case FanOut => 0.9
    case _ => 0.0
  }

  predicate Travels(phase: PatchPhase) {
    phase == ToGate || phase == ToLeader || phase == FanOut
  }

  /** Where a way ends: at the gate only a granted patch gets through; at the nodes it waits
      for their verdict unless there is one. */
  function Then(p: Patch): PatchPhase {
    match p.phase
    case ToGate => if p.grant then ToLeader else Refused
    case ToLeader => FanOut
    case FanOut => (match p.verdict case None => AtNodes case Some(admit) => if admit then Activated else NodeRefused)
    case phase => phase
  }

  /** The hosts once a patch is activated: those that are up run the new code. */
  ghost predicate Upgraded(a: seq<Host>, b: seq<Host>) {
    |a| == |b| && forall i :: 0 <= i < |a| ==> b[i] == if a[i].up then a[i].(code := 2) else a[i]
  }

  /** In a frame a patch is further on its way, or at its end if its time is up; the hosts
      change code only when it is activated. */
  ghost predicate PatchFollows(s: State, r: State, d: real) {
    match s.patch
    case None => r.patch == None && r.hosts == s.hosts
    case Some(p) =>
      var over := Travels(p.phase) && p.t + d >= Takes(p.phase);
      && r.patch == Some(p.(phase := if over then Then(p) else p.phase, t := if over then 0.0 else p.t + d, age := p.age + d))
      && (if over && Then(p) == Activated then Upgraded(s.hosts, r.hosts) else r.hosts == s.hosts)
  }

  lemma PatchIs(s: State, d: real)
    ensures PatchFollows(s, StepPatch(s, d), d)
  {
    hide Upgrade;
  }

  lemma StepPatches(cfg: Config, s: State, dt: real)
    requires Inv(cfg, s) && Sane(cfg)
    ensures PatchFollows(s, Step(cfg, s, dt), Frame(dt))
  {
    hide Inv, MoveSingle, Traffic, StepPatch, PatchFollows;
    var d := Frame(dt);
    var s1 := AfterMove(cfg, s, d);
    MoveHosts(cfg, s.(t := s.t + d));
    TrafficKeeps(cfg, s1, d);
    PatchIs(Traffic(cfg, s1, d), d);
    PatchSame(s, Traffic(cfg, s1, d), Step(cfg, s, dt), d);
  }

  lemma PatchSame(s: State, m: State, r: State, d: real)
    requires PatchFollows(m, r, d) && m.patch == s.patch && m.hosts == s.hosts
    ensures PatchFollows(s, r, d)
  {
  }

  /** The verdict of the nodes counts at once if the patch has reached them, and otherwise
      when it does. */
  lemma ResolveIs(cfg: Config, s: State, admit: bool)
    requires Inv(cfg, s) && Sane(cfg)
    ensures var r := Apply(cfg, s, DoResolve(admit));
            match s.patch
            case None => r == s
            case Some(p) =>
              if p.phase != AtNodes then r == s.(patch := Some(p.(verdict := Some(admit))))
              else
                && r == s.(patch := r.patch, hosts := r.hosts, activations := r.activations)
                && r.patch == Some(p.(verdict := Some(admit), phase := if admit then Activated else NodeRefused, t := 0.0))
                && (if admit then Upgraded(s.hosts, r.hosts) else r.hosts == s.hosts)
  {
    hide Inv, Upgrade;
  }

  lemma SendIs(cfg: Config, s: State, grant: bool)
    requires Inv(cfg, s) && Sane(cfg)
    ensures Apply(cfg, s, DoSend(grant)) == s.(patch := Some(Patch(ToGate, 0.0, grant, None, 0.0)))
  {
    hide Inv;
  }

  // ---------------------------------------------------------------- every patch arrives

  /** The longest a granted patch takes to the nodes from the start of a phase, the last frame
      of each way counted in full. */
  function ToNodes(phase: PatchPhase): real {
    match phase
    case ToGate => 1.0 + 0.9 + 1.0
    case ToLeader => 0.9 + 1.0
    case FanOut => 1.0
    case _ => 0.0
  }

  /** A granted patch, sent `e` seconds ago and without a verdict yet. */
  ghost predicate UnderWay(p: Patch, e: real) {
    && p.grant && p.verdict.None? && p.age == e
    && match p.phase
       case ToGate => p.t == e && (e == 0.0 || e < 0.9)
       case ToLeader => 0.0 <= p.t < 0.8 && e - p.t >= 0.9
       case FanOut => 0.0 <= p.t < 0.9 && e - p.t >= 0.9 + 0.8
       case AtNodes => e >= 0.9 + 0.8 + 0.9
       case _ => false
  }

  lemma WayOn(s: State, r: State, d: real, e: real)
    requires s.patch.Some? && UnderWay(s.patch.value, e) && PatchFollows(s, r, d) && 0.0 < d <= 0.1
    ensures r.patch.Some? && UnderWay(r.patch.value, e + d) && r.hosts == s.hosts
    ensures var p, q := s.patch.value, r.patch.value;
            if p.phase == AtNodes then q.phase == AtNodes else ToNodes(q.phase) - (if q.phase == AtNodes then 0.0 else q.t)
                                                               <= ToNodes(p.phase) - p.t - d
  {
  }

  lemma {:induction false} WayThrough(cfg: Config, s: State, dts: seq<real>, e: real)
    requires Inv(cfg, s) && Sane(cfg) && s.patch.Some? && UnderWay(s.patch.value, e) && Passing(dts)
    ensures var r := Run(cfg, s, Frames(dts));
            && r.patch.Some? && UnderWay(r.patch.value, e + Elapsed(dts)) && r.hosts == s.hosts
            && (s.patch.value.phase == AtNodes || Elapsed(dts) >= ToNodes(s.patch.value.phase) - s.patch.value.t ==>
                  r.patch.value.phase == AtNodes)
    decreases |dts|
  {
    hide Inv, Step, UnderWay, PatchFollows, Frame;
    InvHosts(cfg, s);
    if dts != [] {
      FrameFirst(cfg, s, dts);
      StepPatches(cfg, s, dts[0]);
      var next := Step(cfg, s, dts[0]);
      FrameLength(dts[0]);
      WayOn(s, next, Frame(dts[0]), e);
      WayThrough(cfg, next, dts[1..], e + Frame(dts[0]));
      assert e + Elapsed(dts) == e + Frame(dts[0]) + Elapsed(dts[1..]);
    } else {
      WayLeft(s.patch.value, e);
    }
  }

  lemma FrameLength(dt: real)
    requires dt > 0.0
    ensures 0.0 < Frame(dt) <= 0.1
  {
  }

  lemma WayLeft(p: Patch, e: real)
    requires UnderWay(p, e)
    ensures p.phase != AtNodes ==> ToNodes(p.phase) - p.t > 0.0
  {
  }

  /** A granted patch reaches the nodes, not before 2.6 seconds and within 2.9, and changes
      nothing until their verdict. */
  lemma RunArrives(cfg: Config, s: State, dts: seq<real>)
    requires Inv(cfg, s) && Sane(cfg) && Passing(dts)
    ensures var r := Run(cfg, Apply(cfg, s, DoSend(true)), Frames(dts));
            && r.patch.Some? && r.patch.value.age == Elapsed(dts) && r.hosts == s.hosts
            && (Elapsed(dts) >= 2.9 ==> r.patch.value.phase == AtNodes)
            && (r.patch.value.phase == AtNodes ==> Elapsed(dts) >= 2.6)
  {
    hide Inv, Run;
    SendIs(cfg, s, true);
    WayThrough(cfg, Apply(cfg, s, DoSend(true)), dts, 0.0);
  }

  ghost predicate AtGate(p: Patch, e: real) {
    !p.grant && (if p.phase == ToGate then p.t == e && (e == 0.0 || e < 0.9) else p.phase == Refused && e >= 0.9)
  }

  lemma GateOn(s: State, r: State, d: real, e: real)
    requires s.patch.Some? && AtGate(s.patch.value, e) && PatchFollows(s, r, d) && 0.0 < d
    ensures r.patch.Some? && AtGate(r.patch.value, e + d) && r.hosts == s.hosts
  {
  }

  lemma {:induction false} GateThrough(cfg: Config, s: State, dts: seq<real>, e: real)
    requires Inv(cfg, s) && Sane(cfg) && s.patch.Some? && AtGate(s.patch.value, e) && Passing(dts)
    ensures var r := Run(cfg, s, Frames(dts)); r.patch.Some? && AtGate(r.patch.value, e + Elapsed(dts)) && r.hosts == s.hosts
    decreases |dts|
  {
    hide Inv, Step, AtGate, PatchFollows, Frame;
    InvHosts(cfg, s);
    if dts != [] {
      FrameFirst(cfg, s, dts);
      StepPatches(cfg, s, dts[0]);
      FrameLength(dts[0]);
      GateOn(s, Step(cfg, s, dts[0]), Frame(dts[0]), e);
      GateThrough(cfg, Step(cfg, s, dts[0]), dts[1..], e + Frame(dts[0]));
      assert e + Elapsed(dts) == e + Frame(dts[0]) + Elapsed(dts[1..]);
    }
  }

  /** A patch that is not granted is refused at the gate after 0.9 seconds and reaches no
      host. */
  lemma RunRefused(cfg: Config, s: State, dts: seq<real>)
    requires Inv(cfg, s) && Sane(cfg) && Passing(dts) && dts != []
    ensures var r := Run(cfg, Apply(cfg, s, DoSend(false)), Frames(dts));
            r.patch.Some? && (r.patch.value.phase == (if Elapsed(dts) >= 0.9 then Refused else ToGate)) && r.hosts == s.hosts
  {
    hide Inv, Run;
    SendIs(cfg, s, false);
    GateThrough(cfg, Apply(cfg, s, DoSend(false)), dts, 0.0);
    ElapsedPositive(dts);
  }

  // ---------------------------------------------------------------- what a session needs

  ghost predicate EveryAt(chips: seq<Chip>, i: nat, k: nat) {
    && k < |chips| && chips[k].role == Every && chips[k].host == i
    && forall j :: 0 <= j < k ==> chips[j].role != Every || chips[j].host != i
  }

  /** A role that has landed 0.7 seconds ago or more. */
  ghost predicate Landed(chips: seq<Chip>, k: nat, now: real) {
    k < |chips| && now >= chips[k].movedAt + 0.7
  }

  /** Host `i` offers the every-host role. */
  ghost predicate OffersRole(cfg: Config, hosts: seq<Host>, chips: seq<Chip>, now: real, i: nat) {
    && i < |hosts| && i < |cfg.machines| && cfg.machines[i].serves && hosts[i].up
    && exists k: nat :: EveryAt(chips, i, k) && Landed(chips, k, now)
  }

  /** Host `h` holds the single role and is up. */
  ghost predicate HoldsSingle(hosts: seq<Host>, chips: seq<Chip>, now: real, h: nat) {
    h < |hosts| && hosts[h].up && exists k: nat :: SingleAt(chips, k) && chips[k].host == h && Landed(chips, k, now)
  }

  ghost predicate Ascending(xs: seq<nat>) {
    forall j, k :: 0 <= j < k < |xs| ==> xs[j] < xs[k]
  }

  /** The hosts that offer the every-host role, in order. */
  ghost predicate Lineup(cfg: Config, hosts: seq<Host>, chips: seq<Chip>, now: real, xs: seq<nat>) {
    && Ascending(xs)
    && (forall i: nat :: i in xs <==> OffersRole(cfg, hosts, chips, now, i))
  }

  /** Every role of a session is held by a host that is up. */
  ghost predicate Ready(cfg: Config, hosts: seq<Host>, chips: seq<Chip>, now: real) {
    && cfg.initiator < |hosts| && hosts[cfg.initiator].up
    && (exists i: nat :: OffersRole(cfg, hosts, chips, now, i)) && (exists h: nat :: HoldsSingle(hosts, chips, now, h))
  }

  /** The messages between different hosts. */
  function Sent(legs: seq<(nat, nat)>): seq<(nat, nat)> {
    if legs == [] then [] else (if legs[0].0 == legs[0].1 then [] else [legs[0]]) + Sent(legs[1..])
  }

  /** Session number `rr` as it opens: on the next offering host in turn, with the messages
      want, have, book and booked to send. */
  ghost predicate OpensAs(cfg: Config, hosts: seq<Host>, chips: seq<Chip>, now: real, rr: nat, x: Session) {
    && HoldsSingle(hosts, chips, now, x.single)
    && (exists xs :: |xs| > 0 && Lineup(cfg, hosts, chips, now, xs) && x.stock == xs[rr % |xs|])
    && x.legs == Sent([(cfg.initiator, x.stock), (x.stock, cfg.initiator), (x.stock, x.single), (x.single, cfg.initiator)])
    && x.leg == 0 && x.elapsed == 0.0
  }

  lemma LegsSent(from: nat, stock: nat, led: nat)
    ensures Legs(from, stock, led) == Sent([(from, stock), (stock, from), (stock, led), (led, from)])
  {
    hide Sent;
    SentFirst((from, stock), [(stock, from), (stock, led), (led, from)]);
    assert [(from, stock)] + [(stock, from), (stock, led), (led, from)]
        == [(from, stock), (stock, from), (stock, led), (led, from)];
    SentFirst((stock, from), [(stock, led), (led, from)]);
    assert [(stock, from)] + [(stock, led), (led, from)] == [(stock, from), (stock, led), (led, from)];
    SentFirst((stock, led), [(led, from)]);
    assert [(stock, led)] + [(led, from)] == [(stock, led), (led, from)];
    SentFirst((led, from), []);
    assert [(led, from)] + [] == [(led, from)];
    SentNone();
  }

  lemma SentFirst(x: (nat, nat), rest: seq<(nat, nat)>)
    ensures Sent([x] + rest) == (if x.0 == x.1 then [] else [x]) + Sent(rest)
  {
    assert ([x] + rest)[1..] == rest;
  }

  lemma SentNone()
    ensures Sent([]) == []
  {
  }

  lemma {:induction false} EveryFound(chips: seq<Chip>, i: nat)
    ensures var k := EveryChip(chips, i);
            && (k < |chips| ==> EveryAt(chips, i, k))
            && (k == |chips| ==> forall j :: 0 <= j < |chips| ==> chips[j].role != Every || chips[j].host != i)
  {
    if chips != [] && !(chips[0].role == Every && chips[0].host == i) {
      EveryFound(chips[1..], i);
      assert forall j :: 0 < j < |chips| ==> chips[j] == chips[1..][j - 1];
    }
  }

  lemma OffersIs(cfg: Config, s: State, i: nat)
    requires i < |cfg.machines| == |s.hosts|
    ensures Offers(cfg, s, i) <==> OffersRole(cfg, s.hosts, s.chips, s.t, i)
  {
    hide EveryChip;
    EveryFound(s.chips, i);
    var k := EveryChip(s.chips, i);
    if Offers(cfg, s, i) { assert EveryAt(s.chips, i, k) && Landed(s.chips, k, s.t); }
    if OffersRole(cfg, s.hosts, s.chips, s.t, i) {
      var j: nat :| EveryAt(s.chips, i, j) && Landed(s.chips, j, s.t);
      assert !(j < k) && !(k < j);
    }
  }

  lemma {:induction false} OfferingIs(cfg: Config, s: State, n: nat)
    requires n <= |cfg.machines| == |s.hosts|
    ensures Ascending(Offering(cfg, s, n))
  {
    hide Offers, Ascending;
    if n > 0 {
      OfferingIs(cfg, s, n - 1);
      AscendingMore(Offering(cfg, s, n - 1), n - 1);
    } else {
      AscendingNone();
    }
  }

  lemma AscendingMore(xs: seq<nat>, x: nat)
    requires Ascending(xs) && forall y :: y in xs ==> y < x
    ensures Ascending(xs + [x])
  {
    var ys := xs + [x];
    forall j, k | 0 <= j < k < |ys| ensures ys[j] < ys[k] {
      if k == |xs| { assert xs[j] in xs; }
    }
  }

  lemma AscendingNone()
    ensures Ascending([])
  {
  }

  lemma LineupIs(cfg: Config, s: State)
    requires |cfg.machines| == |s.hosts|
    ensures Lineup(cfg, s.hosts, s.chips, s.t, Offering(cfg, s, |s.hosts|))
  {
    hide Offers;
    OfferingIs(cfg, s, |s.hosts|);
    forall i: nat ensures i in Offering(cfg, s, |s.hosts|) <==> OffersRole(cfg, s.hosts, s.chips, s.t, i) {
      if i < |s.hosts| { OffersIs(cfg, s, i); }
    }
  }

  lemma {:induction false} NoSingle(chips: seq<Chip>)
    ensures ChipOf(chips, Single) < |chips| ==> SingleAt(chips, ChipOf(chips, Single))
    ensures ChipOf(chips, Single) == |chips| ==> forall k: nat :: !SingleAt(chips, k)
  {
  }

  lemma SingleReadyIs(s: State)
    ensures var k := ChipOf(s.chips, Single);
            SingleReady(s) <==> k < |s.chips| && s.chips[k].host >= 0 && HoldsSingle(s.hosts, s.chips, s.t, s.chips[k].host)
    ensures forall h: nat :: HoldsSingle(s.hosts, s.chips, s.t, h) ==>
              ChipOf(s.chips, Single) < |s.chips| && s.chips[ChipOf(s.chips, Single)].host == h
  {
    hide ChipOf;
    NoSingle(s.chips);
    var k := ChipOf(s.chips, Single);
    forall h: nat | HoldsSingle(s.hosts, s.chips, s.t, h) ensures k < |s.chips| && s.chips[k].host == h {
      var j: nat :| SingleAt(s.chips, j) && s.chips[j].host == h && Landed(s.chips, j, s.t);
      SingleFound(s.chips, j);
    }
    if SingleReady(s) { assert SingleAt(s.chips, k) && Landed(s.chips, k, s.t); }
  }

  /** What becomes of one attempt: a session, or a refusal if a role is not to be had. */
  ghost predicate Tried(cfg: Config, s: State, r: State) {
    if Ready(cfg, s.hosts, s.chips, s.t)
    then
      && |r.sessions| == |s.sessions| + 1 && r.sessions == s.sessions + [r.sessions[|s.sessions|]]
      && OpensAs(cfg, s.hosts, s.chips, s.t, s.rr, r.sessions[|s.sessions|])
      && r == s.(rr := s.rr + 1, attempts := s.attempts + 1, sessions := r.sessions)
    else r == s.(refused := s.refused + 1, attempts := s.attempts + 1)
  }

  lemma ReadyIs(cfg: Config, s: State)
    requires Sane(cfg) && |cfg.machines| == |s.hosts|
    ensures Ready(cfg, s.hosts, s.chips, s.t) <==>
              s.hosts[cfg.initiator].up && Offering(cfg, s, |s.hosts|) != [] && SingleReady(s)
  {
    hide Offering, ChipOf, OffersRole, HoldsSingle, SingleReady;
    LineupIs(cfg, s);
    SingleReadyIs(s);
    var xs := Offering(cfg, s, |s.hosts|);
    if xs != [] {
      var i: nat := xs[0];
      assert i in xs && OffersRole(cfg, s.hosts, s.chips, s.t, i);
    }
    if SingleReady(s) {
      var h: nat := s.chips[ChipOf(s.chips, Single)].host;
      assert HoldsSingle(s.hosts, s.chips, s.t, h);
    }
  }

  lemma TryIs(cfg: Config, s: State)
    requires Sane(cfg) && |cfg.machines| == |s.hosts|
    ensures Tried(cfg, s, NewSession(cfg, s))
  {
    hide Offering, ChipOf, OffersRole, HoldsSingle, SingleReady, Ready, Sent, Legs, Lineup;
    ReadyIs(cfg, s);
    LineupIs(cfg, s);
    SingleReadyIs(s);
    var r, xs := NewSession(cfg, s), Offering(cfg, s, |s.hosts|);
    if Ready(cfg, s.hosts, s.chips, s.t) {
      SingleHeld(s);
      LegsSent(cfg.initiator, xs[s.rr % |xs|], s.chips[ChipOf(s.chips, Single)].host);
      assert r.sessions[|s.sessions|].stock == xs[s.rr % |xs|];
    }
  }

  lemma SingleHeld(s: State)
    requires SingleReady(s)
    ensures ChipOf(s.chips, Single) < |s.chips| && s.chips[ChipOf(s.chips, Single)].host >= 0
  {
  }

  // ---------------------------------------------------------------- sessions in a frame

  predicate Ends(legS: real, x: Session, d: real) {
    x.elapsed + d >= legS && x.leg + 1 >= |x.legs|
  }

  function Further(legS: real, x: Session, d: real): Session {
    if x.elapsed + d < legS then x.(elapsed := x.elapsed + d) else x.(leg := x.leg + 1, elapsed := 0.0)
  }

  /** The sessions after a frame: those on their last message and out of time have ended, and
      the others are further on, in the same order. */
  function Advanced(legS: real, xs: seq<Session>, d: real): seq<Session> {
    if xs == [] then []
    else (if Ends(legS, xs[0], d) then [] else [Further(legS, xs[0], d)]) + Advanced(legS, xs[1..], d)
  }

  function Enders(legS: real, xs: seq<Session>, d: real): nat {
    if xs == [] then 0 else (if Ends(legS, xs[0], d) then 1 else 0) + Enders(legS, xs[1..], d)
  }

  lemma {:induction false} AdvancedLast(legS: real, xs: seq<Session>, x: Session, d: real)
    ensures Advanced(legS, xs + [x], d) == Advanced(legS, xs, d) + (if Ends(legS, x, d) then [] else [Further(legS, x, d)])
    ensures Enders(legS, xs + [x], d) == Enders(legS, xs, d) + (if Ends(legS, x, d) then 1 else 0)
  {
    hide Ends, Further;
    if xs == [] {
      assert xs + [x] == [x] && [x][1..] == [];
    } else {
      assert (xs + [x])[1..] == xs[1..] + [x];
      AdvancedLast(legS, xs[1..], x, d);
    }
  }

  /** Session `i` has been stepped. */
  lemma OneAdvances(cfg: Config, s: State, i: nat, d: real)
    requires i < |s.sessions|
    ensures var x, r := s.sessions[i], StepSession(cfg, s, i, d);
            && r == s.(sessions := r.sessions, finished := r.finished) && i <= |r.sessions|
            && r.sessions[..i] == s.sessions[..i]
            && r.sessions[i..] == (if Ends(cfg.legS, x, d) then [] else [Further(cfg.legS, x, d)]) + s.sessions[i + 1..]
            && r.finished == s.finished + if Ends(cfg.legS, x, d) then 1 else 0
  {
  }

  lemma {:induction false} SessionsAdvance(cfg: Config, s: State, i: nat, d: real)
    requires i <= |s.sessions|
    ensures var r := StepSessions(cfg, s, i, d);
            && r == s.(sessions := r.sessions, finished := r.finished)
            && r.sessions == Advanced(cfg.legS, s.sessions[..i], d) + s.sessions[i..]
            && r.finished == s.finished + Enders(cfg.legS, s.sessions[..i], d)
    decreases i
  {
    hide StepSession, Ends, Further, Advanced, Enders;
    if i == 0 {
      AdvancedNone(cfg.legS, d);
      assert s.sessions[..0] == [] && s.sessions[0..] == s.sessions;
    } else {
      var next := StepSession(cfg, s, i - 1, d);
      OneAdvances(cfg, s, i - 1, d);
      SessionsAdvance(cfg, next, i - 1, d);
      AdvancedLast(cfg.legS, s.sessions[..i - 1], s.sessions[i - 1], d);
      assert s.sessions[..i] == s.sessions[..i - 1] + [s.sessions[i - 1]];
    }
  }

  lemma AdvancedNone(legS: real, d: real)
    ensures Advanced(legS, [], d) == [] && Enders(legS, [], d) == 0
  {
  }

  // ---------------------------------------------------------------- attempts in a frame

  /** The `n` attempts of a frame, from state `s` to `r`: all open a session, each in its turn,
      or all are refused. */
  ghost predicate AllTried(cfg: Config, s: State, r: State, newly: seq<Session>) {
    && r == s.(acc := r.acc, rr := r.rr, attempts := r.attempts, refused := r.refused, sessions := s.sessions + newly)
    && s.attempts <= r.attempts && r.acc < 1.0 && r.acc + r.attempts as real == s.acc + s.attempts as real
    && (s.acc >= 0.0 ==> r.acc >= 0.0)
    && (if Ready(cfg, s.hosts, s.chips, s.t)
        then |newly| == r.attempts - s.attempts && r.rr == s.rr + |newly| && r.refused == s.refused
             && forall k :: 0 <= k < |newly| ==> OpensAs(cfg, s.hosts, s.chips, s.t, s.rr + k, newly[k])
        else newly == [] && r.rr == s.rr && r.refused == s.refused + r.attempts - s.attempts)
  }

  lemma {:induction false} TakeAll(cfg: Config, s: State) returns (newly: seq<Session>)
    requires Sane(cfg) && |cfg.machines| == |s.hosts|
    ensures AllTried(cfg, s, TakeSessions(cfg, s), newly)
    decreases s.acc.Floor
  {
    hide Ready, OpensAs, NewSession;
    if s.acc >= 1.0 {
      TakeClock(cfg, s);
      TryIs(cfg, s.(acc := s.acc - 1.0));
      var next := TakeOne(cfg, s);
      var rest := TakeAll(cfg, next);
      newly := (if Ready(cfg, s.hosts, s.chips, s.t) then [next.sessions[|s.sessions|]] else []) + rest;
      TriedMore(cfg, s, next, TakeSessions(cfg, next), rest, newly);
    } else {
      newly := [];
      assert s.sessions + [] == s.sessions;
    }
  }

  lemma TriedMore(cfg: Config, s: State, next: State, r: State, rest: seq<Session>, newly: seq<Session>)
    requires s.acc >= 1.0 && Tried(cfg, s.(acc := s.acc - 1.0), next) && AllTried(cfg, next, r, rest)
    requires Ready(cfg, s.hosts, s.chips, s.t) ==> |next.sessions| > |s.sessions|
    requires newly == (if Ready(cfg, s.hosts, s.chips, s.t) then [next.sessions[|s.sessions|]] else []) + rest
    ensures AllTried(cfg, s, r, newly)
  {
    hide Ready, OpensAs;
    if Ready(cfg, s.hosts, s.chips, s.t) {
      assert s.sessions + newly == next.sessions + rest;
      forall k | 0 <= k < |newly| ensures OpensAs(cfg, s.hosts, s.chips, s.t, s.rr + k, newly[k]) {
        if k > 0 { assert newly[k] == rest[k - 1]; }
      }
    }
  }

  /** A frame's sessions: the attempts that its share of the load makes are all opened, on the
      offering hosts in turn, or all refused, as the roles are held after it; then every
      session sends or waits on, and those at the end of their last message are finished. */
  lemma StepTraffic(cfg: Config, s: State, dt: real) returns (newly: seq<Session>)
    requires Inv(cfg, s) && Sane(cfg)
    ensures var r, d := Step(cfg, s, dt), Frame(dt);
            && r.flow == s.flow && r.cancelled == s.cancelled && s.attempts <= r.attempts
            && r.sessions == Advanced(cfg.legS, s.sessions + newly, d)
            && r.finished == s.finished + Enders(cfg.legS, s.sessions + newly, d)
            && (if s.flow then r.acc + r.attempts as real == s.acc + s.attempts as real + Share(cfg.sessionsPerS, d) && r.acc < 1.0
                else r.acc == s.acc && r.attempts == s.attempts)
            && (s.acc >= 0.0 && Share(cfg.sessionsPerS, d) >= 0.0 ==> r.acc >= 0.0)
            && (if Ready(cfg, s.hosts, r.chips, r.t)
                then |newly| == r.attempts - s.attempts && r.rr == s.rr + |newly| && r.refused == s.refused
                     && forall k :: 0 <= k < |newly| ==> OpensAs(cfg, s.hosts, r.chips, r.t, s.rr + k, newly[k])
                else newly == [] && r.rr == s.rr && r.refused == s.refused + r.attempts - s.attempts)
  {
    hide Inv, MoveSingle, StepPatch, TakeSessions, StepSessions, Ready, OpensAs, Advanced, Enders, Share;
    var d := Frame(dt);
    var m := AfterMove(cfg, s, d);
    MoveHosts(cfg, s.(t := s.t + d));
    LoadShare(cfg, d);
    var a := Arrivals(cfg, m, d);
    if s.flow {
      newly := TakeAll(cfg, m.(acc := m.acc + Load(cfg, d)));
    } else {
      newly := [];
      assert m.sessions + [] == m.sessions;
    }
    SessionsAdvance(cfg, a, |a.sessions|, d);
    assert a.sessions[..|a.sessions|] == a.sessions && a.sessions[|a.sessions|..] == [];
    PatchRest(Traffic(cfg, m, d), d);
  }

  lemma PatchRest(s: State, d: real)
    ensures var r := StepPatch(s, d); r == s.(patch := r.patch, hosts := r.hosts, activations := r.activations)
  {
  }

  lemma LoadShare(cfg: Config, d: real)
    ensures Load(cfg, d) == Share(cfg.sessionsPerS, d)
  {
  }

  // ---------------------------------------------------------------- the load

  /** The time of a run's frames while sessions flow. */
  function FlowTime(es: seq<Event>, flow: bool): real {
    if es == [] then 0.0
    else
      match es[0]
      case SetFlow(on) => FlowTime(es[1..], on)
      case Tick(dt) => (if flow then Frame(dt) else 0.0) + FlowTime(es[1..], flow)
      case _ => FlowTime(es[1..], flow)
  }

  predicate Forward(es: seq<Event>) {
    forall i :: 0 <= i < |es| && es[i].Tick? ==> es[i].dt >= 0.0
  }

  /** The attempts there have been and the fraction of the next are the load's share of the
      time that sessions have flowed. */
  ghost predicate OnLoad(cfg: Config, s: State, t: real) {
    s.acc + s.attempts as real == Share(cfg.sessionsPerS, t) && s.acc < 1.0 && s.acc >= 0.0
  }

  lemma TickLoad(cfg: Config, s: State, dt: real, t: real)
    requires Inv(cfg, s) && Sane(cfg) && OnLoad(cfg, s, t) && cfg.sessionsPerS >= 0.0 && dt >= 0.0
    ensures var r := Step(cfg, s, dt); r.flow == s.flow && OnLoad(cfg, r, if s.flow then t + Frame(dt) else t)
  {
    hide Inv, Step, Share, Ready, OpensAs, Advanced, Enders;
    InvHosts(cfg, s);
    Shares(cfg.sessionsPerS, t, Frame(dt));
    var newly := StepTraffic(cfg, s, dt);
  }

  /** What an event does to the flow and to the load: only a frame makes attempts, and only
      `SetFlow` turns the flow on or off. */
  lemma EventLoad(cfg: Config, s: State, e: Event, t: real)
    requires Inv(cfg, s) && Sane(cfg) && OnLoad(cfg, s, t) && cfg.sessionsPerS >= 0.0 && (e.Tick? ==> e.dt >= 0.0)
    ensures var r := Apply(cfg, s, e);
            && r.flow == (if e.SetFlow? then e.flow else s.flow)
            && OnLoad(cfg, r, if e.Tick? && s.flow then t + Frame(e.dt) else t)
            && (!e.Tick? ==> r.t == s.t && r.finished == s.finished && r.refused == s.refused && r.attempts == s.attempts
                             && r.rr == s.rr && (!e.DoStop? ==> r.cancelled == s.cancelled && r.sessions == s.sessions))
  {
    hide Inv, Step, Share, EveryPlaced, Highest, NoneEligible, Landing, OffHost;
    match e
    case DoPlace => PlaceIs(cfg, s);
    case SetFlow(on) => assert Apply(cfg, s, e) == s.(flow := on);
    case DoStop(i) => StopIs(cfg, s, i);
    case DoStart(i) => StartIs(cfg, s, i);
    case DoSend(grant) => SendIs(cfg, s, grant);
    case DoResolve(admit) => ResolveIs(cfg, s, admit);
    case Tick(dt) => TickLoad(cfg, s, dt, t);
  }

  lemma {:induction false} LoadThrough(cfg: Config, s: State, es: seq<Event>, t: real)
    requires Inv(cfg, s) && Sane(cfg) && OnLoad(cfg, s, t) && cfg.sessionsPerS >= 0.0 && Forward(es)
    ensures OnLoad(cfg, Run(cfg, s, es), t + FlowTime(es, s.flow))
    decreases |es|
  {
    hide Inv, Apply, OnLoad, Frame;
    if es != [] {
      var next := Apply(cfg, s, es[0]);
      EventLoad(cfg, s, es[0], t);
      var u := if es[0].Tick? && s.flow then t + Frame(es[0].dt) else t;
      assert Forward(es[1..]);
      LoadThrough(cfg, next, es[1..], u);
      assert u + FlowTime(es[1..], next.flow) == t + FlowTime(es, s.flow);
    }
  }

  /** In every run as many sessions are attempted as the load asks for in the time that they
      flow; at the start every host is up on the old code, no role is placed and nothing
      flows. */
  lemma RunLoad(cfg: Config, es: seq<Event>)
    requires Sane(cfg) && cfg.sessionsPerS >= 0.0 && Forward(es)
    ensures Inv(cfg, Create(cfg)) && Create(cfg).chips == [] && Create(cfg).patch == None
    ensures Create(cfg).hosts == seq(|cfg.machines|, _ => Host(true, 0.0, 1)) && Create(cfg).t == 0.0
    ensures var r := Run(cfg, Create(cfg), es);
            r.attempts == Share(cfg.sessionsPerS, FlowTime(es, false)).Floor
  {
    hide Inv, Run, FlowTime, Share, OnLoad;
    CreateIs(cfg);
    CreateLoad(cfg);
    LoadThrough(cfg, Create(cfg), es, 0.0);
    WholeLoad(cfg, Run(cfg, Create(cfg), es), FlowTime(es, false));
  }

  lemma CreateLoad(cfg: Config)
    ensures OnLoad(cfg, Create(cfg), 0.0)
  {
    Shares(cfg.sessionsPerS, 0.0, 0.0);
  }

  lemma WholeLoad(cfg: Config, s: State, t: real)
    requires OnLoad(cfg, s, 0.0 + t)
    ensures s.attempts == Share(cfg.sessionsPerS, t).Floor
  {
    hide Share;
    assert 0.0 + t == t;
    WholePart(s.acc, s.attempts, Share(cfg.sessionsPerS, t));
  }
}
