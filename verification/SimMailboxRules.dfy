/** The mailbox simulation against its rules, told by the clock and by what a reader of the
    page sees: when messages arrive, when a held marker waits, how long a migration, a
    restart and a message take, and what a crash leaves. */
module SimMailboxRules {
  import opened Options
  import opened Simulations
  import opened SimMailbox
  import opened Clocks

  // ---------------------------------------------------------------- arrivals

  /** The time between two arrivals, four to six fifths of the mean. */
  function Spacing(cfg: Config, k: nat): real {
    cfg.arrivalS * (0.8 + 0.4 * cfg.rand(k))
  }

  /** The time `n` arrivals take, the first drawn by the k-th draw. */
  function Lapse(cfg: Config, k: nat, n: nat): real
    decreases n
  {
    if n == 0 then 0.0 else Spacing(cfg, k) + Lapse(cfg, k + 1, n - 1)
  }

  /** `n` messages numbered from `id` on. */
  function Fresh(id: nat, n: nat, epoch: int): seq<Item> {
    seq(n, i requires i >= 0 => Msg(id + i, epoch))
  }

  /** `n` arrivals are due at `next` and no more. */
  ghost predicate DueExactly(cfg: Config, k: nat, next: real, n: nat) {
    next + Lapse(cfg, k, n) > 0.0 && forall m: nat :: m < n ==> next + Lapse(cfg, k, m) <= 0.0
  }

  /** State `a` is `s` after `n` arrivals: queued, in order and in the epoch of the day, by
      an actor that is up, dropped by one that is not. */
  ghost predicate Arrived(cfg: Config, s: State, a: State, n: nat) {
    && DueExactly(cfg, s.draws, s.nextArrival, n)
    && a == s.(nextArrival := s.nextArrival + Lapse(cfg, s.draws, n), draws := s.draws + n,
               queue := if s.up then s.queue + Fresh(s.arrived, n, s.epoch) else s.queue,
               arrived := if s.up then s.arrived + n else s.arrived,
               dropped := if s.up then s.dropped else s.dropped + n)
  }

  lemma {:induction false} ArrivalsAre(cfg: Config, s: State) returns (n: nat)
    requires Sane(cfg)
    ensures Arrived(cfg, s, Arrivals(cfg, s), n)
    decreases Due(cfg, s.nextArrival)
  {
    if s.nextArrival > 0.0 {
      n := 0;
      assert s.queue + Fresh(s.arrived, 0, s.epoch) == s.queue;
    } else {
      ArriveClock(cfg, s);
      var s1 := Arrive(cfg, s);
      var m := ArrivalsAre(cfg, s1);
      n := m + 1;
      OneMore(cfg, s, s1, Arrivals(cfg, s1), m);
    }
  }

  lemma OneMore(cfg: Config, s: State, s1: State, a: State, m: nat)
    requires s.nextArrival <= 0.0 && s1 == Arrive(cfg, s) && Arrived(cfg, s1, a, m)
    ensures Arrived(cfg, s, a, m + 1)
  {
    GapIs(cfg, s.draws);
    hide Spacing, Gap;
    var k, n := s.draws, m + 1;
    assert s1.nextArrival == s.nextArrival + Spacing(cfg, k);
    forall j: nat | j < n ensures s.nextArrival + Lapse(cfg, k, j) <= 0.0 {
      if j > 0 { assert s1.nextArrival + Lapse(cfg, k + 1, j - 1) <= 0.0; }
    }
    if s.up {
      assert s.queue + Fresh(s.arrived, n, s.epoch)
          == (s.queue + [Msg(s.arrived, s.epoch)]) + Fresh(s.arrived + 1, m, s.epoch);
    }
  }

  lemma GapIs(cfg: Config, k: nat)
    ensures Gap(cfg, k) == Spacing(cfg, k)
  {
  }

  // ---------------------------------------------------------------- one frame

  predicate AtHead(s: State) {
    s.queue != [] && s.queue[0] == Marker
  }

  /** A crashed actor is up again once it has been down for its restart time, a second where
      none is given. */
  ghost predicate Recovering(cfg: Config, a: State, r: State, d: real) {
    var up := a.downFor + d >= (match cfg.restartS case Some(x) => x case None => 1.0);
    r == a.(downFor := a.downFor + d, up := up, restarts := a.restarts + if up then 1 else 0)
  }

  /** A migration takes its time and then leaves the marker and the old code behind. */
  ghost predicate MovingOn(a: State, r: State, d: real) {
    && a.queue != []
    && (a.migrateLeft > d ==> r == a.(migrateLeft := a.migrateLeft - d))
    && (a.migrateLeft <= d ==>
          r == a.(migrateLeft := a.migrateLeft - d, migrating := false, version := 2, queue := a.queue[1..], marker := None))
  }

  /** At its marker an actor that is held waits; one that is not begins to migrate. */
  ghost predicate Stopped(cfg: Config, a: State, r: State) {
    && (a.holds ==> r == a.(held := true))
    && (!a.holds ==> r == a.(held := false, migrating := true, migrateLeft := cfg.migrateS))
  }

  /** Session `x` of the parked ones is where the k-th draw falls. */
  ghost predicate FallsOn(cfg: Config, k: nat, parked: nat, x: int) {
    x as real <= cfg.rand(k) * (parked as real) < x as real + 1.0
  }

  /** A session is drawn if there is none and one is parked. */
  ghost predicate Chosen(cfg: Config, a: State, c: State) {
    && (a.serving < 0 && a.parked > 0 ==>
          c == a.(draws := a.draws + 1, serving := c.serving) && FallsOn(cfg, a.draws, a.parked, c.serving))
    && (a.serving >= 0 || a.parked == 0 ==> c == a)
  }

  /** A message is handled once it has had its service, by a parked session drawn for it
      where there is one; then the next message is at the head of the queue. */
  ghost predicate Serviced(cfg: Config, a: State, r: State, d: real)
    requires a.queue != [] && a.queue[0].Msg?
  {
    && (a.service + d < cfg.serviceS ==> Chosen(cfg, a.(service := a.service + d), r))
    && (a.service + d >= cfg.serviceS ==>
          r.draws == (if a.serving < 0 && a.parked > 0 then a.draws + 1 else a.draws) && Done(cfg, a, r))
  }

  ghost predicate Done(cfg: Config, a: State, r: State)
    requires a.queue != [] && a.queue[0].Msg?
  {
    var m := a.queue[0];
    r == a.(draws := r.draws, service := 0.0, serving := -1, queue := a.queue[1..], marker := r.marker,
            total := a.total + 1, log := a.log + [Handled(m.id, m.epoch, a.version)],
            handledOld := r.handledOld, handledNew := r.handledNew,
            parked := if a.parked < cfg.parked then a.parked + 1 else a.parked)
  }

  /** What a frame of `d` does once its messages are in. */
  ghost predicate Worked(cfg: Config, a: State, r: State, d: real) {
    if !a.up then Recovering(cfg, a, r, d)
    else if a.migrating then MovingOn(a, r, d)
    else if a.queue == [] then r == a
    else if a.queue[0] == Marker then Stopped(cfg, a, r)
    else Serviced(cfg, a, r, d)
  }

  lemma WorkIs(cfg: Config, a: State, d: real)
    requires a.migrating ==> a.queue != []
    ensures Worked(cfg, a, Work(cfg, a, d), d)
  {
    hide Serviced, Serve;
    if a.queue != [] && a.queue[0].Msg? { ServeIs(cfg, a, d); }
  }

  lemma ServeIs(cfg: Config, a: State, d: real)
    requires a.queue != [] && a.queue[0].Msg?
    ensures Serviced(cfg, a, Serve(cfg, a, d), d)
  {
    hide Finish, Choose, Chosen, Done;
    var c, later := Choose(cfg, a), a.(service := a.service + d);
    ChooseIs(cfg, a);
    ChooseIs(cfg, later);
    ChooseLater(cfg, a, d);
    ChosenKeeps(cfg, a, c);
    if a.service + d >= cfg.serviceS { FinishIs(cfg, a, c.(service := a.service + d)); }
  }

  lemma ChooseIs(cfg: Config, a: State)
    ensures Chosen(cfg, a, Choose(cfg, a))
  {
  }

  lemma ChooseLater(cfg: Config, a: State, d: real)
    ensures Choose(cfg, a.(service := a.service + d)) == Choose(cfg, a).(service := a.service + d)
  {
    hide Pick;
    var x := a.service + d;
    if a.serving < 0 && a.parked > 0 {
      assert a.(service := x).(serving := Pick(cfg, a.draws, a.parked), draws := a.draws + 1)
          == a.(serving := Pick(cfg, a.draws, a.parked), draws := a.draws + 1).(service := x);
    }
  }

  lemma ChosenKeeps(cfg: Config, a: State, c: State)
    requires Chosen(cfg, a, c)
    ensures c == a.(draws := c.draws, serving := c.serving)
    ensures c.draws == if a.serving < 0 && a.parked > 0 then a.draws + 1 else a.draws
  {
  }

  lemma FinishIs(cfg: Config, a: State, c: State)
    requires a.queue != [] && a.queue[0].Msg? && c == a.(draws := c.draws, serving := c.serving, service := c.service)
    ensures Done(cfg, a, Finish(cfg, c)) && Finish(cfg, c).draws == c.draws
  {
  }

  /** A frame is the arrivals of its time, each in its turn, and then one of five: a crashed
      actor comes nearer to its restart, a migration to its end and a message to its; an
      actor at its marker waits or begins to migrate; and an empty mailbox stays so. */
  lemma StepFollows(cfg: Config, s: State, dt: real) returns (a: State, n: nat)
    requires Inv(cfg, s) && Sane(cfg)
    ensures (s.migrating ==> s.queue != []) && Inv(cfg, a) && Inv(cfg, Step(cfg, s, dt))
    ensures Arrived(cfg, s.(t := s.t + Frame(dt), nextArrival := s.nextArrival - Frame(dt)), a, n)
    ensures Worked(cfg, a, Step(cfg, s, dt), Frame(dt))
  {
    hide Inv, Work, Worked, Arrivals, Arrived;
    StepKeeps(cfg, s, dt);
    a := AfterArrivals(cfg, s, Capped(dt));
    n := ArrivalsAre(cfg, s.(t := s.t + Frame(dt), nextArrival := s.nextArrival - Frame(dt)));
    WorkIs(cfg, a, Frame(dt));
  }

  /** A step that begins a migration finds the actor free, with the marker at the head of its
      queue; one that makes it wait finds it held there; and a live actor with the marker at
      the head is migrating after the step if it is free and waiting if it is held. */
  lemma StepHolds(cfg: Config, s: State, dt: real)
    requires Inv(cfg, s) && Sane(cfg)
    ensures s.migrating ==> s.queue != []
    ensures var r := Step(cfg, s, dt);
            && r.holds == s.holds
            && (r.version != s.version ==> s.migrating && r.version == 2)
            && (r.migrating && !s.migrating ==> !s.holds && AtHead(r) && r.migrateLeft == cfg.migrateS)
            && (r.held && !s.held ==> s.holds && AtHead(r))
            && (s.up && !s.migrating && AtHead(s) ==> r.held == s.holds && r.migrating == !s.holds)
  {
    hide Inv, Step, Fresh, DueExactly;
    var a, n := StepFollows(cfg, s, dt);
  }

  // ---------------------------------------------------------------- runs of frames

  function Ticks(dts: seq<real>): seq<Event> {
    if dts == [] then [] else [Tick(dts[0])] + Ticks(dts[1..])
  }

  lemma TickFirst(cfg: Config, s: State, dts: seq<real>)
    requires Sane(cfg) && Inv(cfg, s) && dts != []
    ensures (s.migrating ==> s.queue != []) && Inv(cfg, Step(cfg, s, dts[0]))
    ensures Run(cfg, s, Ticks(dts)) == Run(cfg, Step(cfg, s, dts[0]), Ticks(dts[1..]))
  {
    hide Inv, Step;
    StepKeeps(cfg, s, dts[0]);
    assert Ticks(dts)[1..] == Ticks(dts[1..]);
  }

  /** What frames only move forward: handled messages stay handled, the new code and a live
      actor stay, and a live actor is not restarted. */
  ghost predicate Onward(s: State, r: State) {
    s.log <= r.log && (s.version == 2 ==> r.version == 2) && (s.up ==> r.up && r.restarts == s.restarts)
  }

  lemma StepOnward(cfg: Config, s: State, dt: real)
    requires Inv(cfg, s) && Sane(cfg)
    ensures (s.migrating ==> s.queue != []) && Onward(s, Step(cfg, s, dt))
  {
    hide Inv, Step, Fresh, DueExactly;
    var a, n := StepFollows(cfg, s, dt);
  }

  lemma {:induction false} RunOnward(cfg: Config, s: State, dts: seq<real>)
    requires Inv(cfg, s) && Sane(cfg)
    ensures Onward(s, Run(cfg, s, Ticks(dts)))
    decreases |dts|
  {
    hide Inv, Step;
    if dts != [] {
      TickFirst(cfg, s, dts);
      StepOnward(cfg, s, dts[0]);
      RunOnward(cfg, Step(cfg, s, dts[0]), dts[1..]);
    }
  }

  // ---------------------------------------------------------------- a migration

  lemma StepMigrates(cfg: Config, s: State, dt: real)
    requires Inv(cfg, s) && Sane(cfg) && s.migrating
    ensures s.queue != []
    ensures var r := Step(cfg, s, dt);
            if s.migrateLeft > Frame(dt)
            then r.migrating && r.up && r.migrateLeft == s.migrateLeft - Frame(dt) && r.log == s.log && r.version == 1
            else !r.migrating && r.version == 2
  {
    UpAtOld(cfg, s);
    hide Inv, Step, Fresh, DueExactly;
    var a, n := StepFollows(cfg, s, dt);
  }

  lemma UpAtOld(cfg: Config, s: State)
    requires Inv(cfg, s) && s.migrating
    ensures s.up && s.version == 1
  {
  }

  /** A migration lasts as long as it takes, with nothing handled meanwhile, and leaves the
      new code for good. */
  lemma {:induction false} RunMigrates(cfg: Config, s: State, dts: seq<real>)
    requires Inv(cfg, s) && Sane(cfg) && s.migrating && Passing(dts) && dts != []
    ensures var r := Run(cfg, s, Ticks(dts));
            && (r.version == 2 <==> Elapsed(dts) >= s.migrateLeft)
            && (Elapsed(dts) < s.migrateLeft ==> r.migrating && r.log == s.log)
    decreases |dts|
  {
    hide Inv, Step, Frame;
    TickFirst(cfg, s, dts);
    StepMigrates(cfg, s, dts[0]);
    ElapsedPositive(dts[1..]);
    var next := Step(cfg, s, dts[0]);
    if s.migrateLeft <= Frame(dts[0]) {
      RunOnward(cfg, next, dts[1..]);
    } else if dts[1..] != [] {
      RunMigrates(cfg, next, dts[1..]);
    }
  }

  // ---------------------------------------------------------------- a restart

  function RestartTime(cfg: Config): real {
    match cfg.restartS case Some(x) => x case None => 1.0
  }

  lemma StepRestarts(cfg: Config, s: State, dt: real)
    requires Inv(cfg, s) && Sane(cfg) && !s.up
    ensures s.migrating ==> s.queue != []
    ensures var r := Step(cfg, s, dt);
            && r.downFor == s.downFor + Frame(dt) && r.up == (r.downFor >= RestartTime(cfg))
            && r.restarts == s.restarts + (if r.up then 1 else 0) && r.log == s.log && r.queue == []
  {
    DownEmpty(cfg, s);
    hide Inv, Step, Fresh, DueExactly;
    var a, n := StepFollows(cfg, s, dt);
  }

  lemma DownEmpty(cfg: Config, s: State)
    requires Inv(cfg, s) && !s.up
    ensures s.queue == []
  {
  }

  /** A crashed actor is up again exactly when its restart time has passed, restarted once;
      until then its mailbox is empty and nothing is handled. */
  lemma {:induction false} RunRestarts(cfg: Config, s: State, dts: seq<real>)
    requires Inv(cfg, s) && Sane(cfg) && !s.up && Passing(dts) && dts != []
    ensures var r := Run(cfg, s, Ticks(dts));
            && (r.up <==> s.downFor + Elapsed(dts) >= RestartTime(cfg))
            && r.restarts == s.restarts + (if r.up then 1 else 0)
            && (!r.up ==> r.queue == [] && r.log == s.log)
    decreases |dts|
  {
    hide Inv, Step, Frame;
    TickFirst(cfg, s, dts);
    StepRestarts(cfg, s, dts[0]);
    ElapsedPositive(dts[1..]);
    var next := Step(cfg, s, dts[0]);
    if next.up {
      RunOnward(cfg, next, dts[1..]);
    } else if dts[1..] != [] {
      RunRestarts(cfg, next, dts[1..]);
    }
  }

  // ---------------------------------------------------------------- a message

  lemma StepServes(cfg: Config, s: State, dt: real)
    requires Inv(cfg, s) && Sane(cfg) && s.up && !s.migrating && s.queue != [] && s.queue[0].Msg?
    ensures var r, m := Step(cfg, s, dt), s.queue[0];
            if s.service + Frame(dt) < cfg.serviceS
            then && s.queue <= r.queue && r.up && !r.migrating && r.service == s.service + Frame(dt)
                 && r.log == s.log && r.version == s.version
            else r.log == s.log + [Handled(m.id, m.epoch, s.version)] && r.service == 0.0 && s.queue[1..] <= r.queue
  {
    hide Inv, Step, DueExactly, FallsOn;
    var a, n := StepFollows(cfg, s, dt);
    assert a.queue[1..] == s.queue[1..] + Fresh(s.arrived, n, s.epoch);
  }

  /** The message at the head of the queue is handled, and on the code of the day, exactly
      when the actor has spent its service time on it. */
  lemma {:induction false} RunServes(cfg: Config, s: State, dts: seq<real>)
    requires Inv(cfg, s) && Sane(cfg) && s.up && !s.migrating && s.queue != [] && s.queue[0].Msg?
    requires Passing(dts) && dts != []
    ensures var r, m := Run(cfg, s, Ticks(dts)), s.queue[0];
            && (s.service + Elapsed(dts) < cfg.serviceS ==> r.log == s.log)
            && (s.service + Elapsed(dts) >= cfg.serviceS ==> s.log + [Handled(m.id, m.epoch, s.version)] <= r.log)
    decreases |dts|
  {
    hide Inv, Step, Frame;
    TickFirst(cfg, s, dts);
    StepServes(cfg, s, dts[0]);
    ElapsedPositive(dts[1..]);
    var next := Step(cfg, s, dts[0]);
    if s.service + Frame(dts[0]) >= cfg.serviceS {
      RunOnward(cfg, next, dts[1..]);
    } else if dts[1..] != [] {
      RunServes(cfg, next, dts[1..]);
    }
  }

  // ---------------------------------------------------------------- the hold and the deploy

  /** A held actor is on the old code and moves nothing. */
  ghost predicate HeldBack(s: State) {
    s.holds ==> s.version == 1 && !s.migrating
  }

  lemma EventHolds(cfg: Config, s: State, e: Event)
    requires Inv(cfg, s) && Sane(cfg) && HeldBack(s)
    ensures HeldBack(Apply(cfg, s, e)) && (Apply(cfg, s, e).holds <==> s.holds && e != DoReleaseHold)
  {
    hide Inv, Step;
    if e.Tick? { StepHolds(cfg, s, e.dt); }
  }

  lemma {:induction false} HoldsThrough(cfg: Config, s: State, es: seq<Event>)
    requires Inv(cfg, s) && Sane(cfg) && HeldBack(s)
    ensures HeldBack(Run(cfg, s, es)) && (Run(cfg, s, es).holds <==> s.holds && DoReleaseHold !in es)
    decreases |es|
  {
    hide Inv, Apply, HeldBack;
    if es != [] {
      EventHolds(cfg, s, es[0]);
      HoldsThrough(cfg, Apply(cfg, s, es[0]), es[1..]);
    }
  }

  /** An actor held from the start stays held until the hold is released, and in every run
      until then it is on the old code and no migration is under way. */
  lemma RunHolds(cfg: Config, es: seq<Event>)
    requires Sane(cfg)
    ensures Inv(cfg, Create(cfg))
    ensures var r := Run(cfg, Create(cfg), es);
            (r.holds <==> cfg.holds && DoReleaseHold !in es) && (r.holds ==> r.version == 1 && !r.migrating)
  {
    CreateIs(cfg);
    HoldsThrough(cfg, Create(cfg), es);
  }

  /** The longest a free actor takes to the new code: what is left of the message it is
      handling, the messages before the marker and the migration, and the last frame of
      each in full. */
  function ToGo(cfg: Config, s: State): real {
    if s.migrating then Wait(s.migrateLeft) + 0.1
    else if s.marker.None? || s.marker.value == 0 then 0.1 + Wait(cfg.migrateS) + 0.1
    else Wait(cfg.serviceS - s.service) + 0.1 + Times(s.marker.value - 1, Wait(cfg.serviceS) + 0.1)
         + 0.1 + Wait(cfg.migrateS) + 0.1
  }

  lemma MarkerAt(cfg: Config, s: State, i: nat)
    requires Inv(cfg, s) && i < |s.queue|
    ensures s.queue[i] == Marker <==> s.marker == Some(i)
  {
    assert ItemOk(s, i);
  }

  lemma WayIs(cfg: Config, s: State)
    requires Inv(cfg, s) && s.marker.Some?
    ensures s.up && s.version == 1 && !s.lost && s.deployed && s.marker.value < |s.queue|
    ensures s.migrating ==> s.marker == Some(0)
  {
  }

  lemma WayLeft(cfg: Config, s: State)
    requires Inv(cfg, s) && s.deployed && !s.lost
    ensures s.version == 2 || s.marker.Some?
  {
  }

  lemma ToGoPositive(cfg: Config, s: State)
    ensures ToGo(cfg, s) > 0.0
  {
    if s.marker.Some? { TimesNonnegative(s.marker.value - 1, Wait(cfg.serviceS) + 0.1); }
  }

  lemma StepToGo(cfg: Config, s: State, dt: real)
    requires Inv(cfg, s) && Sane(cfg) && s.marker.Some? && !s.holds && dt > 0.0
    ensures (s.migrating ==> s.queue != []) && ToGo(cfg, s) > 0.0
    ensures var r := Step(cfg, s, dt);
            r.version == 2 || (r.marker.Some? && !r.holds && ToGo(cfg, r) <= ToGo(cfg, s) - Frame(dt))
  {
    WayIs(cfg, s);
    MarkerAt(cfg, s, 0);
    MarkerAt(cfg, s, s.marker.value);
    ToGoPositive(cfg, s);
    hide Inv, Step, ToGo, Worked, Fresh, DueExactly;
    var a, n := StepFollows(cfg, s, dt);
    WorkToGo(cfg, s, a, Step(cfg, s, dt), n, Frame(dt));
  }

  lemma WorkToGo(cfg: Config, s: State, a: State, r: State, n: nat, d: real)
    requires Inv(cfg, a) && Inv(cfg, r) && 0.0 < d <= 0.1 && Worked(cfg, a, r, d)
    requires Arrived(cfg, s.(t := s.t + d, nextArrival := s.nextArrival - d), a, n)
    requires s.up && s.version == 1 && !s.lost && s.deployed && !s.holds && s.marker.Some? && s.marker.value < |s.queue|
    requires s.queue[s.marker.value] == Marker && (s.queue[0] == Marker <==> s.marker == Some(0))
    requires s.migrating ==> s.marker == Some(0)
    ensures r.version == 2 || (r.marker.Some? && !r.holds && ToGo(cfg, r) <= ToGo(cfg, s) - d)
  {
    WayLeft(cfg, r);
    hide Inv, Fresh, DueExactly, FallsOn;
    var v := s.marker.value;
    assert a.queue[v] == Marker;
    if !s.migrating && v > 0 {
      if s.service + d >= cfg.serviceS {
        assert r.queue[v - 1] == Marker;
        MarkerAt(cfg, r, v - 1);
      }
    }
  }

  /** A deploy gets through: a free actor with the marker in its queue is on the new code
      once the messages before the marker and the migration have had their time. */
  lemma {:induction false} RunMovesOn(cfg: Config, s: State, dts: seq<real>)
    requires Inv(cfg, s) && Sane(cfg) && s.marker.Some? && !s.holds && Passing(dts)
    requires Elapsed(dts) >= ToGo(cfg, s)
    ensures Run(cfg, s, Ticks(dts)).version == 2
    decreases |dts|
  {
    hide Inv, Step, Frame, ToGo;
    ToGoPositive(cfg, s);
    TickFirst(cfg, s, dts);
    StepToGo(cfg, s, dts[0]);
    var next := Step(cfg, s, dts[0]);
    if next.version == 2 {
      RunOnward(cfg, next, dts[1..]);
    } else {
      RunMovesOn(cfg, next, dts[1..]);
    }
  }

  /** A deploy reaches an actor exactly if it is up and has had none: from then on messages
      belong to the new epoch, and the marker stands between them and those in the queue. */
  lemma DeployIs(cfg: Config, s: State)
    requires Inv(cfg, s) && Sane(cfg)
    ensures var r := Apply(cfg, s, DoDeploy);
            if s.up && s.epoch == 1
            then r == s.(deployed := true, epoch := 2, queue := s.queue + [Marker], marker := Some(|s.queue|))
            else r == s
  {
  }

  // ---------------------------------------------------------------- crashes

  /** A crash leaves an actor as if it were new, without a backlog or a session; only its
      clocks, its counters, its code and the deploy are remembered. One that is down is
      left alone. */
  lemma CrashIs(cfg: Config, s: State)
    requires Inv(cfg, s) && Sane(cfg)
    ensures var r, anew := Apply(cfg, s, DoCrash), Create(cfg.(backlog := 0, parked := 0, holds := s.holds));
            && (!s.up ==> r == s)
            && (s.up ==>
                  r == anew.(up := false, t := s.t, draws := s.draws, nextArrival := s.nextArrival,
                               version := s.version, epoch := s.epoch, deployed := s.deployed, migrateLeft := s.migrateLeft,
                               restarts := s.restarts, dropped := s.dropped, arrived := s.arrived, base := s.arrived,
                               lost := s.lost || Marker in s.queue))
  {
    MarkerQueued(cfg, s);
    hide Inv;
  }

  /** The crashes of a run that find the actor up. */
  function Crashes(cfg: Config, s: State, es: seq<Event>): nat
    requires Sane(cfg) && Inv(cfg, s)
    decreases |es|
  {
    if es == [] then 0
    else (if es[0] == DoCrash && s.up then 1 else 0) + Crashes(cfg, Apply(cfg, s, es[0]), es[1..])
  }

  function Lives(s: State): nat {
    s.restarts + if s.up then 0 else 1
  }

  lemma EventLives(cfg: Config, s: State, e: Event)
    requires Inv(cfg, s) && Sane(cfg)
    ensures Lives(Apply(cfg, s, e)) == Lives(s) + if e == DoCrash && s.up then 1 else 0
  {
    hide Inv, Step;
    if e.Tick? {
      if s.up { StepOnward(cfg, s, e.dt); } else { StepRestarts(cfg, s, e.dt); }
    }
  }

  lemma {:induction false} LivesThrough(cfg: Config, s: State, es: seq<Event>)
    requires Inv(cfg, s) && Sane(cfg)
    ensures Lives(Run(cfg, s, es)) == Lives(s) + Crashes(cfg, s, es)
    decreases |es|
  {
    hide Inv, Apply;
    if es != [] {
      EventLives(cfg, s, es[0]);
      LivesThrough(cfg, Apply(cfg, s, es[0]), es[1..]);
    }
  }

  /** The sessions: all of them until the first crash, and then one more with every message
      handled. */
  ghost predicate Sessions(cfg: Config, s: State, crashed: bool) {
    s.parked == if !crashed || |s.log| > cfg.parked then cfg.parked else |s.log|
  }

  lemma DoneSessions(cfg: Config, a: State, r: State, crashed: bool)
    requires a.queue != [] && a.queue[0].Msg? && Done(cfg, a, r) && Sessions(cfg, a, crashed)
    ensures Sessions(cfg, r, crashed) && r.up == a.up
  {
    assert |r.log| == |a.log| + 1;
  }

  lemma ServiceSessions(cfg: Config, a: State, r: State, d: real, crashed: bool)
    requires a.queue != [] && a.queue[0].Msg? && Serviced(cfg, a, r, d) && Sessions(cfg, a, crashed)
    ensures Sessions(cfg, r, crashed) && r.up == a.up
  {
    hide Done, Chosen;
    if a.service + d >= cfg.serviceS {
      DoneSessions(cfg, a, r, crashed);
    } else {
      ChosenKeeps(cfg, a.(service := a.service + d), r);
    }
  }

  lemma EventSessions(cfg: Config, s: State, e: Event, crashed: bool)
    requires Inv(cfg, s) && Sane(cfg) && Sessions(cfg, s, crashed) && (!crashed ==> s.up)
    ensures var r := Apply(cfg, s, e);
            Sessions(cfg, r, crashed || e == DoCrash) && (!crashed && e != DoCrash ==> r.up)
  {
    hide Inv, Step, Fresh, DueExactly, Serviced;
    if e.Tick? {
      var a, n := StepFollows(cfg, s, e.dt);
      if a.up && !a.migrating && a.queue != [] && a.queue[0].Msg? {
        ServiceSessions(cfg, a, Step(cfg, s, e.dt), Frame(e.dt), crashed);
      }
    }
  }

  lemma {:induction false} SessionsThrough(cfg: Config, s: State, es: seq<Event>, crashed: bool)
    requires Inv(cfg, s) && Sane(cfg) && Sessions(cfg, s, crashed) && (!crashed ==> s.up)
    ensures Sessions(cfg, Run(cfg, s, es), crashed || DoCrash in es)
    decreases |es|
  {
    hide Inv, Apply, Sessions;
    if es != [] {
      EventSessions(cfg, s, es[0], crashed);
      SessionsThrough(cfg, Apply(cfg, s, es[0]), es[1..], crashed || es[0] == DoCrash);
    }
  }

  /** In every run the actor has been restarted after every crash but the one that keeps it
      down, and the sessions lost in a crash form again one with every message. */
  lemma RunCrashes(cfg: Config, es: seq<Event>)
    requires Sane(cfg)
    ensures Inv(cfg, Create(cfg))
    ensures var r, n := Run(cfg, Create(cfg), es), Crashes(cfg, Create(cfg), es);
            && n == (if r.up then r.restarts else r.restarts + 1)
            && r.parked == (if DoCrash !in es || |r.log| > cfg.parked then cfg.parked else |r.log|)
  {
    CreateIs(cfg);
    LivesThrough(cfg, Create(cfg), es);
    SessionsThrough(cfg, Create(cfg), es, false);
  }

  // ---------------------------------------------------------------- the clock and the arrivals

  /** The time the frames of a run have counted for. */
  function Clock(es: seq<Event>): real {
    if es == [] then 0.0 else Lasting(es[0]) + Clock(es[1..])
  }

  function Lasting(e: Event): real {
    if e.Tick? then Frame(e.dt) else 0.0
  }

  predicate Forward(es: seq<Event>) {
    forall i :: 0 <= i < |es| ==> Lasting(es[i]) >= 0.0
  }

  /** The messages that have come, accepted or dropped. */
  function Come(cfg: Config, s: State): int {
    s.arrived - cfg.backlog + s.dropped
  }

  lemma SpacingBounds(cfg: Config, k: nat)
    requires Sane(cfg)
    ensures 0.8 * cfg.arrivalS <= Spacing(cfg, k) <= 1.2 * cfg.arrivalS
  {
    var x, y := cfg.arrivalS, cfg.rand(k);
    Product(x, y);
    assert x * (0.8 + 0.4 * y) == 0.8 * x + 0.4 * (x * y);
    assert x * y <= x;
  }

  lemma {:induction false} LapseBounds(cfg: Config, k: nat, n: nat)
    requires Sane(cfg)
    ensures Times(n, 0.8 * cfg.arrivalS) <= Lapse(cfg, k, n) <= Times(n, 1.2 * cfg.arrivalS)
    decreases n
  {
    if n > 0 {
      SpacingBounds(cfg, k);
      LapseBounds(cfg, k + 1, n - 1);
    }
  }

  /** After `c` arrivals in time `t` the next is due within what it can take. */
  ghost predicate Paced(cfg: Config, next: real, t: real, c: nat) {
    && next > 0.0
    && Times(c, 0.8 * cfg.arrivalS) <= next + t - cfg.arrivalS <= Times(c, 1.2 * cfg.arrivalS)
    && (c > 0 ==> cfg.arrivalS + Times(c - 1, 0.8 * cfg.arrivalS) <= t)
  }

  lemma PacedOn(cfg: Config, next: real, t: real, c: nat, d: real, k: nat, n: nat)
    requires Sane(cfg) && Paced(cfg, next, t, c) && DueExactly(cfg, k, next - d, n) && d >= 0.0
    ensures Paced(cfg, next - d + Lapse(cfg, k, n), t + d, c + n)
  {
    var lo, hi := 0.8 * cfg.arrivalS, 1.2 * cfg.arrivalS;
    LapseBounds(cfg, k, n);
    TimesMore(c, n, lo);
    TimesMore(c, n, hi);
    if n > 0 {
      LapseBounds(cfg, k, n - 1);
      TimesMore(c, n - 1, lo);
    }
  }

  /** The messages that have come, by the clock, and the time spent on those handled. */
  ghost predicate InTime(cfg: Config, s: State, t: real) {
    && s.t == t && Come(cfg, s) >= 0 && s.service >= 0.0 && Times(|s.log|, cfg.serviceS) + s.service <= t
    && Paced(cfg, s.nextArrival, t, Come(cfg, s))
  }

  lemma ServicePace(cfg: Config, a: State, r: State, d: real)
    requires a.queue != [] && a.queue[0].Msg? && Serviced(cfg, a, r, d)
    requires cfg.serviceS >= 0.0 && a.service >= 0.0 && d >= 0.0
    ensures r.service >= 0.0 && Times(|r.log|, cfg.serviceS) + r.service <= Times(|a.log|, cfg.serviceS) + a.service + d
    ensures r.t == a.t && r.nextArrival == a.nextArrival && r.arrived == a.arrived && r.dropped == a.dropped
  {
    hide FallsOn;
    if a.service + d >= cfg.serviceS { assert |r.log| == |a.log| + 1; }
  }

  lemma WorkPace(cfg: Config, a: State, r: State, d: real)
    requires Worked(cfg, a, r, d) && cfg.serviceS >= 0.0 && a.service >= 0.0 && d >= 0.0
    ensures r.service >= 0.0 && Times(|r.log|, cfg.serviceS) + r.service <= Times(|a.log|, cfg.serviceS) + a.service + d
    ensures r.t == a.t && r.nextArrival == a.nextArrival && r.arrived == a.arrived && r.dropped == a.dropped
  {
    hide Serviced, Times;
    if a.up && !a.migrating && a.queue != [] && a.queue[0].Msg? { ServicePace(cfg, a, r, d); }
  }

  lemma TickInTime(cfg: Config, s: State, dt: real, t: real)
    requires Inv(cfg, s) && Sane(cfg) && cfg.serviceS >= 0.0 && InTime(cfg, s, t) && Frame(dt) >= 0.0
    ensures (s.migrating ==> s.queue != []) && InTime(cfg, Step(cfg, s, dt), t + Frame(dt))
  {
    hide Inv, Step, Fresh, Worked, Paced, DueExactly, Times;
    var a, n := StepFollows(cfg, s, dt);
    PacedOn(cfg, s.nextArrival, t, Come(cfg, s), Frame(dt), s.draws, n);
    WorkPace(cfg, a, Step(cfg, s, dt), Frame(dt));
  }

  lemma EventInTime(cfg: Config, s: State, e: Event, t: real)
    requires Inv(cfg, s) && Sane(cfg) && cfg.serviceS >= 0.0 && InTime(cfg, s, t) && Lasting(e) >= 0.0
    ensures InTime(cfg, Apply(cfg, s, e), t + Lasting(e))
  {
    hide Inv, Step, Paced;
    TimesNonnegative(|s.log|, cfg.serviceS);
    if e.Tick? { TickInTime(cfg, s, e.dt, t); }
  }

  lemma {:induction false} InTimeThrough(cfg: Config, s: State, es: seq<Event>, t: real)
    requires Inv(cfg, s) && Sane(cfg) && cfg.serviceS >= 0.0 && InTime(cfg, s, t) && Forward(es)
    ensures InTime(cfg, Run(cfg, s, es), t + Clock(es))
    decreases |es|
  {
    hide Inv, Apply, InTime, Lasting;
    if es != [] {
      EventInTime(cfg, s, es[0], t);
      assert t + Clock(es) == t + Lasting(es[0]) + Clock(es[1..]);
      InTimeThrough(cfg, Apply(cfg, s, es[0]), es[1..], t + Lasting(es[0]));
    }
  }

  /** By time `t` the first message has come after the mean time and each further one 0.8 to
      1.2 mean times after the one before, and every message handled has had its service. */
  ghost predicate OnPace(cfg: Config, s: State, t: real) {
    var c := s.arrived - cfg.backlog + s.dropped;
    && s.t == t && c >= 0 && t < cfg.arrivalS + Times(c, 1.2 * cfg.arrivalS)
    && (c > 0 ==> cfg.arrivalS + Times(c - 1, 0.8 * cfg.arrivalS) <= t)
    && Times(s.total, cfg.serviceS) <= t
  }

  /** In every run the messages come four to six fifths of their mean time apart, the first
      after that time, whether the actor is up or not; and none is handled sooner than the
      service of those before it and its own allows. */
  lemma RunPace(cfg: Config, es: seq<Event>)
    requires Sane(cfg) && cfg.serviceS >= 0.0 && Forward(es)
    ensures Inv(cfg, Create(cfg))
    ensures OnPace(cfg, Run(cfg, Create(cfg), es), Clock(es))
  {
    hide Inv, Run, Create, InTime, Clock, OnPace;
    CreateInTime(cfg);
    InTimeThrough(cfg, Create(cfg), es, 0.0);
    TimeRead(cfg, Run(cfg, Create(cfg), es), Clock(es));
  }

  lemma CreateInTime(cfg: Config)
    requires Sane(cfg)
    ensures Inv(cfg, Create(cfg)) && InTime(cfg, Create(cfg), 0.0)
  {
    CreateIs(cfg);
  }

  lemma TimeRead(cfg: Config, s: State, t: real)
    requires Inv(cfg, s) && InTime(cfg, s, 0.0 + t)
    ensures OnPace(cfg, s, t)
  {
    assert s.total == |s.log| && 0.0 + t == t;
  }
}
