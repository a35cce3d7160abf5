/** One actor and its mailbox, with crashes and one hot deploy
    (assets/explainer/sim-mailbox.js).

    History the page does not keep: message numbers in arrival order (`arrived`), the
    messages handled since the last crash (`log`) and the number it started from (`base`),
    the marker's place in the queue (`marker`) and whether a crash lost it (`lost`). The
    k-th random draw is `cfg.rand(k)`. */
module SimMailbox {
  import opened Options
  import opened Simulations

  datatype Item = Msg(id: nat, epoch: int) | Marker

  datatype Handled = Handled(id: nat, epoch: int, version: int)

  datatype Config = Config(
    arrivalS: real, serviceS: real, migrateS: real, restartS: Option<real>,
    backlog: nat, parked: nat, holds: bool, rand: nat -> real)

  datatype State = State(
    t: real, draws: nat, holds: bool, queue: seq<Item>, nextArrival: real, service: real,
    version: int, epoch: int, deployed: bool, migrating: bool, migrateLeft: real, held: bool,
    up: bool, downFor: real, restarts: nat, dropped: nat, total: nat, parked: nat, serving: int,
    handledOld: nat, handledNew: nat,
    arrived: nat, base: nat, log: seq<Handled>, marker: Option<nat>, lost: bool)

  /** Arrivals are a positive time apart, and draws lie in [0, 1). */
  ghost predicate Sane(cfg: Config) {
    cfg.arrivalS > 0.0 && forall k: nat :: 0.0 <= cfg.rand(k) < 1.0
  }

  // ---------------------------------------------------------------- events

  function Create(cfg: Config): State {
    State(0.0, 0, cfg.holds, seq(cfg.backlog, i requires i >= 0 => Msg(i, 1)), cfg.arrivalS, 0.0,
          1, 1, false, false, 0.0, false, true, 0.0, 0, 0, 0, cfg.parked, -1, 0, 0,
          cfg.backlog, 0, [], None, false)
  }

  function Deploy(s: State): State {
    if s.deployed || !s.up then s
    else s.(deployed := true, epoch := 2, queue := s.queue + [Marker], marker := Some(|s.queue|))
  }

  function ReleaseHold(s: State): State {
    s.(holds := false)
  }

  function Crash(s: State): State {
    if !s.up then s
    else s.(up := false, downFor := 0.0, queue := [], service := 0.0, total := 0, parked := 0, serving := -1,
            migrating := false, held := false, handledOld := 0, handledNew := 0,
            base := s.arrived, log := [], marker := None, lost := s.lost || s.marker.Some?)
  }

  // ---------------------------------------------------------------- one step

  /** The time to the next arrival. */
  function Gap(cfg: Config, k: nat): real {
    cfg.arrivalS * (0.8 + 0.4 * cfg.rand(k))
  }

  function Arrive(cfg: Config, s: State): State {
    var r := s.(nextArrival := s.nextArrival + Gap(cfg, s.draws), draws := s.draws + 1);
    if s.up then r.(queue := s.queue + [Msg(s.arrived, s.epoch)], arrived := s.arrived + 1)
    else r.(dropped := s.dropped + 1)
  }

  /** How many arrivals can still be due. */
  function Due(cfg: Config, nextArrival: real): int
    requires cfg.arrivalS > 0.0
  {
    if nextArrival > 0.0 then 0 else (-nextArrival / (0.8 * cfg.arrivalS)).Floor + 1
  }

  lemma Product(a: real, b: real)
    requires a > 0.0 && b >= 0.0
    ensures a * (0.8 + 0.4 * b) >= 0.8 * a
  {
    assert a * (0.8 + 0.4 * b) == 0.8 * a + 0.4 * (a * b);
  }

  lemma Quotient(x: real, g: real, m: real)
    requires m > 0.0 && g >= m
    ensures (x - g) / m <= x / m - 1.0
  {
    assert (x - g) / m == x / m - g / m;
    assert g / m >= 1.0;
  }

  lemma ArriveClock(cfg: Config, s: State)
    requires Sane(cfg) && s.nextArrival <= 0.0
    ensures 0 <= Due(cfg, Arrive(cfg, s).nextArrival) < Due(cfg, s.nextArrival)
  {
    var m, g := 0.8 * cfg.arrivalS, Gap(cfg, s.draws);
    Product(cfg.arrivalS, cfg.rand(s.draws));
    Quotient(-s.nextArrival, g, m);
    NonnegativeQuotient(-s.nextArrival, m);
    if s.nextArrival + g <= 0.0 { NonnegativeQuotient(-(s.nextArrival + g), m); }
  }

  lemma NonnegativeQuotient(x: real, m: real)
    requires x >= 0.0 && m > 0.0
    ensures x / m >= 0.0
  {
  }

  function Arrivals(cfg: Config, s: State): State
    requires Sane(cfg)
    decreases Due(cfg, s.nextArrival)
  {
    if s.nextArrival > 0.0 then s
    else
      ArriveClock(cfg, s);
      Arrivals(cfg, Arrive(cfg, s))
  }

  function Restart(cfg: Config, s: State, dt: real): State {
    var r := s.(downFor := s.downFor + dt);
    var restartS := if cfg.restartS.Some? then cfg.restartS.value else 1.0;
    if r.downFor >= restartS then r.(up := true, restarts := r.restarts + 1) else r
  }

  function Migrate(s: State, dt: real): State
    requires s.queue != []
  {
    var r := s.(migrateLeft := s.migrateLeft - dt);
    if r.migrateLeft <= 0.0 then r.(migrating := false, version := 2, queue := s.queue[1..], marker := None) else r
  }

  function AtMarker(cfg: Config, s: State): State {
    if s.holds then s.(held := true) else s.(held := false, migrating := true, migrateLeft := cfg.migrateS)
  }

  /** A parked session, drawn at random. */
  function Pick(cfg: Config, k: nat, parked: nat): int {
    (cfg.rand(k) * parked as real).Floor
  }

  function Choose(cfg: Config, s: State): State {
    if s.serving < 0 && s.parked > 0
    then s.(serving := Pick(cfg, s.draws, s.parked), draws := s.draws + 1) else s
  }

  function MoveUp(marker: Option<nat>): Option<nat> {
    if marker.Some? && marker.value > 0 then Some(marker.value - 1) else None
  }

  /** The head of the queue is counted. */
  function Tallied(s: State): State
    requires s.queue != [] && s.queue[0].Msg?
  {
    var m, onOld := s.queue[0], s.version == 1;
    s.(total := s.total + 1, log := s.log + [Handled(m.id, m.epoch, s.version)],
       handledOld := s.handledOld + (if onOld then 1 else 0), handledNew := s.handledNew + (if onOld then 0 else 1))
  }

  function Finish(cfg: Config, s: State): State
    requires s.queue != [] && s.queue[0].Msg?
  {
    Tallied(s).(service := 0.0, serving := -1, queue := s.queue[1..], marker := MoveUp(s.marker),
                parked := if s.parked < cfg.parked then s.parked + 1 else s.parked)
  }

  /** Time spent on the head of the queue. */
  function Spend(cfg: Config, s: State, dt: real): State
    requires s.queue != [] && s.queue[0].Msg?
  {
    var r := s.(service := s.service + dt);
    if r.service >= cfg.serviceS then Finish(cfg, r) else r
  }

  function Serve(cfg: Config, s: State, dt: real): State
    requires s.queue != [] && s.queue[0].Msg?
  {
    Spend(cfg, Choose(cfg, s), dt)
  }

  /** What the actor does with its time once the arrivals are in. */
  function Work(cfg: Config, s: State, dt: real): State
    requires s.migrating ==> s.queue != []
  {
    if !s.up then Restart(cfg, s, dt)
    else if s.migrating then Migrate(s, dt)
    else if s.queue == [] then s
    else if s.queue[0].Marker? then AtMarker(cfg, s)
    else Serve(cfg, s, dt)
  }

  lemma {:induction false} ArrivalsKeepQueue(cfg: Config, s: State)
    requires Sane(cfg)
    ensures var r := Arrivals(cfg, s); r.migrating == s.migrating && s.queue <= r.queue
    decreases Due(cfg, s.nextArrival)
  {
    if s.nextArrival <= 0.0 {
      ArriveClock(cfg, s);
      ArrivalsKeepQueue(cfg, Arrive(cfg, s));
    }
  }

  function Step(cfg: Config, s: State, dt0: real): State
    requires Sane(cfg) && (s.migrating ==> s.queue != [])
  {
    var dt := Capped(dt0);
    var s1 := s.(t := s.t + dt, nextArrival := s.nextArrival - dt);
    ArrivalsKeepQueue(cfg, s1);
    Work(cfg, Arrivals(cfg, s1), dt)
  }

  // ---------------------------------------------------------------- the invariant

  /** The queue in arrival order, the marker between the two epochs while it is queued. */
  ghost predicate ItemOk(s: State, i: nat)
    requires i < |s.queue|
  {
    var first := s.base + |s.log|;
    if s.marker.None? then s.queue[i] == Msg(first + i, s.epoch)
    else if i < s.marker.value then s.queue[i] == Msg(first + i, 1)
    else if i == s.marker.value then s.queue[i] == Marker
    else s.queue[i] == Msg(first + i - 1, 2)
  }

  /** A handled message ran on the code of its epoch, unless the marker was lost. */
  ghost predicate LogOk(s: State, i: nat)
    requires i < |s.log|
  {
    s.log[i].id == s.base + i && (if s.lost then s.log[i].version == 1 && s.log[i].epoch == 2
                                  else s.log[i].version == s.log[i].epoch)
  }

  function Count(log: seq<Handled>, version: int): nat {
    if log == [] then 0 else Count(log[..|log| - 1], version) + if log[|log| - 1].version == version then 1 else 0
  }

  ghost predicate Stage(s: State) {
    && (s.version == 1 || s.version == 2) && s.epoch == (if s.deployed then 2 else 1)
    && (s.marker.Some? ==> s.marker.value < |s.queue| && s.up)
    && (if s.deployed
        then (s.marker.Some? && s.version == 1 && !s.lost) || (s.marker.None? && s.version == 2 && !s.lost)
             || (s.marker.None? && s.version == 1 && s.lost)
        else s.marker.None? && s.version == 1 && !s.lost)
    && (s.migrating || s.held ==> s.marker == Some(0)) && !(s.migrating && s.held)
    && (!s.up ==> s.queue == [])
  }

  ghost predicate Inv(cfg: Config, s: State) {
    && Stage(s)
    && (forall i :: 0 <= i < |s.queue| ==> ItemOk(s, i))
    && (forall i :: 0 <= i < |s.log| ==> LogOk(s, i))
    && s.arrived == s.base + |s.log| + |s.queue| - (if s.marker.Some? then 1 else 0)
    && s.total == |s.log| == s.handledOld + s.handledNew && s.handledOld == Count(s.log, 1)
    && s.parked <= cfg.parked && (s.serving == -1 || 0 <= s.serving < s.parked)
  }

  lemma CreateIs(cfg: Config)
    ensures Inv(cfg, Create(cfg))
  {
  }

  lemma DeployKeeps(cfg: Config, s: State)
    requires Inv(cfg, s)
    ensures Inv(cfg, Deploy(s))
  {
    var r := Deploy(s);
    forall i | 0 <= i < |r.queue| ensures ItemOk(r, i) { if i < |s.queue| { assert ItemOk(s, i); } }
    forall i | 0 <= i < |r.log| ensures LogOk(r, i) { assert LogOk(s, i); }
  }

  lemma CrashKeeps(cfg: Config, s: State)
    requires Inv(cfg, s)
    ensures Inv(cfg, Crash(s)) && Crash(s).lost == (s.lost || s.marker.Some?)
  {
  }

  /** Nothing but clocks, holds and the choice of session changes. */
  ghost predicate SameMail(s: State, r: State) {
    && r.queue == s.queue && r.log == s.log && r.marker == s.marker && r.base == s.base && r.arrived == s.arrived
    && r.epoch == s.epoch && r.version == s.version && r.deployed == s.deployed && r.lost == s.lost
    && r.total == s.total && r.handledOld == s.handledOld && r.handledNew == s.handledNew
  }

  lemma MailKeeps(cfg: Config, s: State, r: State)
    requires Inv(cfg, s) && SameMail(s, r) && Stage(r)
    requires r.parked <= cfg.parked && (r.serving == -1 || 0 <= r.serving < r.parked)
    ensures Inv(cfg, r)
  {
    forall i | 0 <= i < |r.queue| ensures ItemOk(r, i) { assert ItemOk(s, i); }
    forall i | 0 <= i < |r.log| ensures LogOk(r, i) { assert LogOk(s, i); }
  }

  lemma ArriveKeeps(cfg: Config, s: State)
    requires Inv(cfg, s)
    ensures Inv(cfg, Arrive(cfg, s))
  {
    var r := Arrive(cfg, s);
    forall i | 0 <= i < |r.queue| ensures ItemOk(r, i) { if i < |s.queue| { assert ItemOk(s, i); } }
    forall i | 0 <= i < |r.log| ensures LogOk(r, i) { assert LogOk(s, i); }
  }

  /** Nothing is handled by arrivals. */
  ghost predicate OnlyArrivals(s: State, r: State) {
    r.log == s.log && r.marker == s.marker && r.lost == s.lost && r.version == s.version && r.migrating == s.migrating
    && r.held == s.held && r.up == s.up && r.holds == s.holds && r.t == s.t
  }

  lemma {:induction false} ArrivalsKeep(cfg: Config, s: State)
    requires Sane(cfg) && Inv(cfg, s)
    ensures Inv(cfg, Arrivals(cfg, s)) && OnlyArrivals(s, Arrivals(cfg, s))
    decreases Due(cfg, s.nextArrival)
  {
    if s.nextArrival <= 0.0 {
      ArriveClock(cfg, s);
      ArriveKeeps(cfg, s);
      ArrivalsKeep(cfg, Arrive(cfg, s));
    }
  }

  lemma MigrateKeeps(cfg: Config, s: State, dt: real)
    requires Inv(cfg, s) && s.migrating
    ensures s.queue != [] && Inv(cfg, Migrate(s, dt))
  {
    var r := Migrate(s, dt);
    forall i | 0 <= i < |r.queue| ensures ItemOk(r, i) {
      assert ItemOk(s, i + if r.migrating then 0 else 1);
    }
    forall i | 0 <= i < |r.log| ensures LogOk(r, i) { assert LogOk(s, i); }
  }

  lemma Scaled(x: real, n: nat)
    requires 0.0 <= x < 1.0 && n > 0
    ensures 0 <= (x * n as real).Floor < n
  {
    assert 0.0 <= x * n as real < n as real;
  }

  lemma ChooseKeeps(cfg: Config, s: State)
    requires Inv(cfg, s) && Sane(cfg)
    ensures Inv(cfg, Choose(cfg, s))
  {
    if s.parked > 0 { Scaled(cfg.rand(s.draws), s.parked); }
    MailKeeps(cfg, s, Choose(cfg, s));
  }

  lemma FinishKeeps(cfg: Config, s: State)
    requires Inv(cfg, s) && s.up && s.queue != [] && s.queue[0].Msg?
    ensures Inv(cfg, Finish(cfg, s))
  {
    var r := Finish(cfg, s);
    assert ItemOk(s, 0);
    forall i | 0 <= i < |r.queue| ensures ItemOk(r, i) { assert ItemOk(s, i + 1); }
    forall i | 0 <= i < |r.log| ensures LogOk(r, i) { if i < |s.log| { assert LogOk(s, i); } }
    assert r.log[..|r.log| - 1] == s.log;
  }

  lemma SpendKeeps(cfg: Config, s: State, dt: real)
    requires Inv(cfg, s) && s.up && s.queue != [] && s.queue[0].Msg?
    ensures Inv(cfg, Spend(cfg, s, dt))
  {
    var r := s.(service := s.service + dt);
    MailKeeps(cfg, s, r);
    if r.service >= cfg.serviceS { FinishKeeps(cfg, r); }
  }

  lemma ServeKeeps(cfg: Config, s: State, dt: real)
    requires Inv(cfg, s) && Sane(cfg) && s.up && s.queue != [] && s.queue[0].Msg?
    ensures Inv(cfg, Serve(cfg, s, dt))
  {
    ChooseKeeps(cfg, s);
    SpendKeeps(cfg, Choose(cfg, s), dt);
  }

  lemma WorkKeeps(cfg: Config, s: State, dt: real)
    requires Inv(cfg, s) && Sane(cfg)
    ensures (s.migrating ==> s.queue != []) && Inv(cfg, Work(cfg, s, dt))
  {
    if s.queue != [] { assert ItemOk(s, 0); }
    if !s.up {
      MailKeeps(cfg, s, Restart(cfg, s, dt));
    } else if s.migrating {
      MigrateKeeps(cfg, s, dt);
    } else if s.queue != [] && s.queue[0].Marker? {
      MailKeeps(cfg, s, AtMarker(cfg, s));
    } else if s.queue != [] {
      ServeKeeps(cfg, s, dt);
    }
  }

  /** The clock has moved by `dt` and the arrivals are in. */
  lemma AfterArrivals(cfg: Config, s: State, dt: real) returns (r: State)
    requires Inv(cfg, s) && Sane(cfg)
    ensures (s.migrating ==> s.queue != []) && (r.migrating ==> r.queue != []) && Inv(cfg, r)
    ensures r == Arrivals(cfg, s.(t := s.t + dt, nextArrival := s.nextArrival - dt))
    ensures OnlyArrivals(s, r.(t := s.t))
  {
    var s1 := s.(t := s.t + dt, nextArrival := s.nextArrival - dt);
    MailKeeps(cfg, s, s1);
    ArrivalsKeep(cfg, s1);
    ArrivalsKeepQueue(cfg, s1);
    r := Arrivals(cfg, s1);
  }

  lemma StepKeeps(cfg: Config, s: State, dt0: real)
    requires Inv(cfg, s) && Sane(cfg)
    ensures (s.migrating ==> s.queue != []) && Inv(cfg, Step(cfg, s, dt0))
  {
    hide Inv, Work, Arrivals;
    var r := AfterArrivals(cfg, s, Capped(dt0));
    WorkKeeps(cfg, r, Capped(dt0));
  }

  // ---------------------------------------------------------------- every run

  datatype Event = DoDeploy | DoReleaseHold | DoCrash | Tick(dt: real)

  function Apply(cfg: Config, s: State, e: Event): (r: State)
    requires Sane(cfg) && Inv(cfg, s)
    ensures Inv(cfg, r)
  {
    match e
    case DoDeploy =>
      DeployKeeps(cfg, s);
      Deploy(s)
    case DoReleaseHold =>
      MailKeeps(cfg, s, ReleaseHold(s));
      ReleaseHold(s)
    case DoCrash =>
      CrashKeeps(cfg, s);
      Crash(s)
    case Tick(dt) =>
      StepKeeps(cfg, s, dt);
      Step(cfg, s, dt)
  }

  function Run(cfg: Config, s: State, es: seq<Event>): (r: State)
    requires Sane(cfg) && Inv(cfg, s)
    ensures Inv(cfg, r)
    decreases |es|
  {
    if es == [] then s else Run(cfg, Apply(cfg, s, es[0]), es[1..])
  }

  /** Some crash of the run finds the marker still queued. */
  predicate CrashAtMarker(cfg: Config, s: State, es: seq<Event>)
    requires Sane(cfg) && Inv(cfg, s)
    decreases |es|
  {
    es != [] && ((es[0] == DoCrash && Marker in s.queue) || CrashAtMarker(cfg, Apply(cfg, s, es[0]), es[1..]))
  }

  lemma MarkerQueued(cfg: Config, s: State)
    requires Inv(cfg, s)
    ensures Marker in s.queue <==> s.marker.Some?
    ensures s.marker.Some? ==> s.queue[s.marker.value] == Marker
  {
    forall i | 0 <= i < |s.queue| ensures s.queue[i] == Marker <==> s.marker == Some(i) { assert ItemOk(s, i); }
  }

  lemma TickLost(cfg: Config, s: State, dt: real)
    requires Sane(cfg) && Inv(cfg, s)
    ensures (s.migrating ==> s.queue != []) && Step(cfg, s, dt).lost == s.lost
  {
    hide Inv, Work, Arrivals;
    var r := AfterArrivals(cfg, s, Capped(dt));
    WorkLost(cfg, r, Capped(dt));
  }

  lemma WorkLost(cfg: Config, s: State, dt: real)
    requires s.migrating ==> s.queue != []
    ensures Work(cfg, s, dt).lost == s.lost
  {
  }

  lemma StepLost(cfg: Config, s: State, e: Event)
    requires Sane(cfg) && Inv(cfg, s)
    ensures Apply(cfg, s, e).lost <==> s.lost || (e == DoCrash && Marker in s.queue)
  {
    if e.Tick? { TickLost(cfg, s, e.dt); } else { MarkerQueued(cfg, s); }
  }

  /** The marker is lost exactly when a crash finds it queued. */
  lemma {:induction false} LostIff(cfg: Config, s: State, es: seq<Event>)
    requires Sane(cfg) && Inv(cfg, s)
    ensures Run(cfg, s, es).lost <==> s.lost || CrashAtMarker(cfg, s, es)
    decreases |es|
  {
    if es != [] {
      StepLost(cfg, s, es[0]);
      LostIff(cfg, Apply(cfg, s, es[0]), es[1..]);
    }
  }

  /** Such a run exists for every actor: deployed, then crashed at once. */
  lemma MarkerCanBeLost(cfg: Config)
    requires Sane(cfg)
    ensures Inv(cfg, Create(cfg)) && CrashAtMarker(cfg, Create(cfg), [DoDeploy, DoCrash])
  {
    CreateIs(cfg);
    var s1, es := Apply(cfg, Create(cfg), DoDeploy), [DoDeploy, DoCrash];
    assert s1.queue[|s1.queue| - 1] == Marker;
    assert es[1..] == [DoCrash];
    assert CrashAtMarker(cfg, s1, [DoCrash]);
  }

  /** Over every run from the start, crashes included: `total` counts what was handled; the
      handled and the queued messages are those accepted since the last crash, in arrival
      order, none missing; and every handled message ran on the code of its epoch if no
      crash found the marker queued. If one did, the new code never runs: every message
      handled since belongs to the new epoch and ran on the old code. */
  lemma RunHandles(cfg: Config, es: seq<Event>)
    requires Sane(cfg)
    ensures Inv(cfg, Create(cfg))
    ensures var r := Run(cfg, Create(cfg), es);
            && r.total == r.handledOld + r.handledNew == |r.log| && r.handledOld == Count(r.log, 1)
            && (forall i :: 0 <= i < |r.log| ==> r.log[i].id == r.base + i)
            && (!CrashAtMarker(cfg, Create(cfg), es) ==>
                  forall i :: 0 <= i < |r.log| ==> r.log[i].version == r.log[i].epoch)
            && (CrashAtMarker(cfg, Create(cfg), es) ==>
                  r.version == 1 && Marker !in r.queue
                  && forall i :: 0 <= i < |r.log| ==> r.log[i].version == 1 && r.log[i].epoch == 2)
  {
    CreateIs(cfg);
    LostIff(cfg, Create(cfg), es);
    var r := Run(cfg, Create(cfg), es);
    MarkerQueued(cfg, r);
    forall i | 0 <= i < |r.log|
      ensures r.log[i].id == r.base + i && (if r.lost then r.log[i].version == 1 && r.log[i].epoch == 2
                                            else r.log[i].version == r.log[i].epoch)
    {
      assert LogOk(r, i);
    }
  }

  /** Over every run: once deployed and until the migration ends there is exactly one
      marker, with the old epoch before it and the new one behind, unless a crash took it;
      before and after there is none and all the queue is of one epoch. */
  lemma RunQueue(cfg: Config, es: seq<Event>, i: nat)
    requires Sane(cfg)
    ensures Inv(cfg, Create(cfg))
    ensures var r := Run(cfg, Create(cfg), es);
            && (r.marker.Some? <==> r.deployed && r.version == 1 && !r.lost)
            && (r.marker.Some? ==> r.marker.value < |r.queue|)
            && (i < |r.queue| ==>
                  match r.queue[i]
                  case Marker => r.marker == Some(i)
                  case Msg(id, epoch) =>
                    && (r.marker.Some? ==> i != r.marker.value && epoch == if i < r.marker.value then 1 else 2)
                    && (r.marker.None? ==> epoch == r.epoch)
                    && id == r.base + |r.log| + i - if r.marker.Some? && i > r.marker.value then 1 else 0)
  {
    CreateIs(cfg);
    var r := Run(cfg, Create(cfg), es);
    MarkerQueued(cfg, r);
    if i < |r.queue| { assert ItemOk(r, i); }
  }

  /** A step handles at most one message, the head of the queue, and none while the actor
      is down, migrating or held at its marker. */
  lemma StepHandles(cfg: Config, s: State, dt: real)
    requires Sane(cfg) && Inv(cfg, s)
    ensures (s.migrating ==> s.queue != []) && Inv(cfg, Step(cfg, s, dt))
    ensures var r := Step(cfg, s, dt);
            r.log == s.log || (|r.log| == |s.log| + 1 && r.log[..|s.log|] == s.log && s.up && !s.migrating && !s.held)
  {
    hide Inv, Work, Arrivals;
    StepKeeps(cfg, s, dt);
    var r := AfterArrivals(cfg, s, Capped(dt));
    WorkHandles(cfg, r, Capped(dt));
  }

  lemma WorkHandles(cfg: Config, s: State, dt: real)
    requires Sane(cfg) && Inv(cfg, s) && (s.migrating ==> s.queue != [])
    ensures var r := Work(cfg, s, dt);
            r.log == s.log || (|r.log| == |s.log| + 1 && r.log[..|s.log|] == s.log && s.up && !s.migrating && !s.held)
  {
    if s.queue != [] { assert ItemOk(s, 0); }
    if s.held { MarkerQueued(cfg, s); }
  }

  // ---------------------------------------------------------------- the simulation object

  /** The running code and the deploy's progress. */
  datatype Code = Code(version: int, epoch: int, deployed: bool, migrating: bool, migrateLeft: real, held: bool)

  datatype Life = Life(up: bool, downFor: real, restarts: nat)

  datatype Tally = Tally(older: nat, newer: nat)

  datatype Past = Past(base: nat, log: seq<Handled>, marker: Option<nat>, lost: bool)

  class Mailbox {
    const cfg: Config
    var t: real
    var draws: nat
    var holds: bool
    var queue: seq<Item>
    var nextArrival: real
    var service: real
    var code: Code
    var life: Life
    var dropped: nat
    var total: nat
    var parked: nat
    var serving: int
    var handled: Tally
    var arrived: nat
    ghost var past: Past

    ghost function View(): State
      reads this
    {
      State(t, draws, holds, queue, nextArrival, service,
            code.version, code.epoch, code.deployed, code.migrating, code.migrateLeft, code.held,
            life.up, life.downFor, life.restarts, dropped, total, parked, serving, handled.older, handled.newer,
            arrived, past.base, past.log, past.marker, past.lost)
    }

    ghost predicate Valid()
      reads this
    {
      Sane(cfg) && Inv(cfg, View())
    }

    constructor (cfg: Config)
      requires Sane(cfg)
      ensures Valid() && this.cfg == cfg && View() == Create(cfg)
    {
      this.cfg := cfg;
      t, draws, holds, nextArrival, service := 0.0, 0, cfg.holds, cfg.arrivalS, 0.0;
      code, life := Code(1, 1, false, false, 0.0, false), Life(true, 0.0, 0);
      dropped, total, parked, serving, handled := 0, 0, cfg.parked, -1, Tally(0, 0);
      past := Past(0, [], None, false);
      var q := [];
      for i := 0 to cfg.backlog
        invariant q == seq(i, k requires k >= 0 => Msg(k, 1))
      {
        q := q + [Msg(i, 1)];
      }
      queue, arrived := q, cfg.backlog;
      new;
      CreateIs(cfg);
    }

    method PushMarker()
      requires Valid()
      modifies this
      ensures Valid() && View() == Deploy(old(View()))
    {
      DeployKeeps(cfg, View());
      if code.deployed || !life.up {
        return;
      }
      code := code.(deployed := true, epoch := 2);
      past := past.(marker := Some(|queue|));
      queue := queue + [Marker];
    }

    method LetGo()
      requires Valid()
      modifies this
      ensures Valid() && View() == ReleaseHold(old(View()))
    {
      MailKeeps(cfg, View(), ReleaseHold(View()));
      holds := false;
    }

    method CrashActor()
      requires Valid()
      modifies this
      ensures Valid() && View() == Crash(old(View()))
    {
      hide Inv;
      CrashKeeps(cfg, View());
      if !life.up {
        return;
      }
      life := life.(up := false, downFor := 0.0);
      Forget();
      code := code.(migrating := false, held := false);
      past := Past(arrived, [], None, past.lost || past.marker.Some?);
    }

    /** The memory of a crashed actor is gone. */
    method Forget()
      modifies this`queue, this`service, this`total, this`parked, this`serving, this`handled
      ensures View() == old(View()).(queue := [], service := 0.0, total := 0, parked := 0, serving := -1,
                                     handledOld := 0, handledNew := 0)
    {
      queue, service, total, parked, serving, handled := [], 0.0, 0, 0, -1, Tally(0, 0);
    }

    method TakeArrivals()
      requires Sane(cfg)
      modifies this
      ensures View() == Arrivals(cfg, old(View()))
    {
      while nextArrival <= 0.0
        invariant Arrivals(cfg, View()) == Arrivals(cfg, old(View()))
        decreases Due(cfg, nextArrival)
      {
        ArriveClock(cfg, View());
        TakeArrival();
      }
    }

    method TakeArrival()
      modifies this
      ensures View() == Arrive(cfg, old(View()))
    {
      nextArrival := nextArrival + Gap(cfg, draws);
      draws := draws + 1;
      if life.up {
        queue := queue + [Msg(arrived, code.epoch)];
        arrived := arrived + 1;
      } else {
        dropped := dropped + 1;
      }
    }

    method ChooseSession()
      modifies this`serving, this`draws
      ensures View() == Choose(cfg, old(View()))
    {
      if serving < 0 && parked > 0 {
        serving, draws := Pick(cfg, draws, parked), draws + 1;
      }
    }

    method SpendTime(dt: real)
      requires queue != [] && queue[0].Msg?
      modifies this
      ensures View() == Spend(cfg, old(View()), dt)
    {
      service := service + dt;
      if service >= cfg.serviceS {
        FinishHead();
      }
    }

    method HandleHead(dt: real)
      requires queue != [] && queue[0].Msg?
      modifies this
      ensures View() == Serve(cfg, old(View()), dt)
    {
      ChooseSession();
      SpendTime(dt);
    }

    method CountHead()
      requires queue != [] && queue[0].Msg?
      modifies this`total, this`past, this`handled
      ensures View() == Tallied(old(View()))
    {
      total := total + 1;
      past := past.(log := past.log + [Handled(queue[0].id, queue[0].epoch, code.version)]);
      handled := if code.version == 1 then handled.(older := handled.older + 1) else handled.(newer := handled.newer + 1);
    }

    method FinishHead()
      requires queue != [] && queue[0].Msg?
      modifies this
      ensures View() == Finish(cfg, old(View()))
    {
      CountHead();
      past := past.(marker := MoveUp(past.marker));
      service, serving, queue := 0.0, -1, queue[1..];
      parked := if parked < cfg.parked then parked + 1 else parked;
    }

    method Recover(dt: real)
      modifies this`life
      ensures View() == Restart(cfg, old(View()), dt)
    {
      life := life.(downFor := life.downFor + dt);
      if life.downFor >= (if cfg.restartS.Some? then cfg.restartS.value else 1.0) {
        life := life.(up := true, restarts := life.restarts + 1);
      }
    }

    method DoWork(dt: real)
      requires code.migrating ==> queue != []
      modifies this
      ensures View() == Work(cfg, old(View()), dt)
    {
      if !life.up {
        Recover(dt);
      } else if code.migrating {
        code := code.(migrateLeft := code.migrateLeft - dt);
        if code.migrateLeft <= 0.0 {
          code := code.(migrating := false, version := 2);
          queue := queue[1..];
          past := past.(marker := None);
        }
      } else if queue != [] && queue[0].Marker? {
        if holds {
          code := code.(held := true);
        } else {
          code := code.(held := false, migrating := true, migrateLeft := cfg.migrateS);
        }
      } else if queue != [] {
        HandleHead(dt);
      }
    }

    method Frame(dt0: real)
      requires Sane(cfg) && (code.migrating ==> queue != [])
      modifies this
      ensures View() == Step(cfg, old(View()), dt0)
    {
      hide Work, Arrivals;
      var dt := Capped(dt0);
      ghost var s1 := View().(t := t + dt, nextArrival := nextArrival - dt);
      ghost var goal := Step(cfg, View(), dt0);
      ArrivalsKeepQueue(cfg, s1);
      assert goal == Work(cfg, Arrivals(cfg, s1), dt);
      t, nextArrival := t + dt, nextArrival - dt;
      assert View() == s1;
      TakeArrivals();
      DoWork(dt);
    }

    /** One frame of the simulation. */
    method StepBy(dt0: real)
      requires Valid()
      modifies this
      ensures Valid()
      ensures (old(View()).migrating ==> old(queue) != []) && View() == Step(cfg, old(View()), dt0)
    {
      StepKeeps(cfg, View(), dt0);
      Frame(dt0);
    }
  }
}
