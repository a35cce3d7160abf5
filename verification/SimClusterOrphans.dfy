/** When a session loses its Ledger slot. The seat's slots are thrown away whenever the seat
    is vacated, and a session draining from an older holder is then still served by its
    Stock host but holds no Ledger slot. Here that is tied to the events a caller sees, and
    a run that gets there is followed step by step. */
module SimClusterOrphans {
  import opened Options
  import opened Simulations
  import opened SimCluster
  import opened SimClusterSafety

  // ---------------------------------------------------------------- events that vacate the seat

  /** By time `t` host `h` has been silent long enough to be given up on. */
  predicate Overdue(cfg: Config, h: Host, t: real) {
    && h.silent && t - h.since >= cfg.noticeS + cfg.suspectS
    && (h.status == Suspect || t - h.since >= cfg.noticeS)
  }

  /** The event is a crash of the answering holder, the return of a hung one, or a step in
      which a hung one becomes overdue. */
  predicate Vacates(cfg: Config, s: State, e: Event) {
    s.ledger.host.Some? && s.ledger.host.value < |s.hosts|
    && var h := s.hosts[s.ledger.host.value];
       match e
       case Fail(i, mode) => i == s.ledger.host.value && mode == Crash && Answering(h)
       case Return(i) => i == s.ledger.host.value && h.silent
       case Tick(dt) => Overdue(cfg, h, s.t + Capped(dt))
  }

  function Once(b: bool): nat {
    if b then 1 else 0
  }

  lemma DeclareDeadResets(cfg: Config, s: State, i: nat)
    requires i < |s.hosts|
    ensures DeclareDead(cfg, s, i).ledger.resets == s.ledger.resets + Once(s.ledger.host == Some(i))
  {
    CancelLedgerHost(SetHost(s, i, s.hosts[i].(status := Dead, silent := false)), i, 0);
  }

  lemma FailResets(cfg: Config, s: State, i: nat, mode: Mode)
    requires Inv(cfg, s) && i < |s.hosts|
    ensures Kill(cfg, s, i, mode).ledger.resets == s.ledger.resets + Once(Vacates(cfg, s, Fail(i, mode)))
  {
    hide Core, DeclareDead;
    if Answering(s.hosts[i]) && mode == Crash {
      CrashedKeeps(cfg, s, i);
      DeclareDeadResets(cfg, Crashed(cfg, s, i), i);
    }
  }

  lemma ReturnResets(cfg: Config, s: State, i: nat)
    requires Inv(cfg, s) && i < |s.hosts|
    ensures Revive(cfg, s, i).ledger.resets == s.ledger.resets + Once(Vacates(cfg, s, Return(i)))
  {
    hide Core, DeclareDead;
    assert SeatOk(cfg, s);
    if s.hosts[i].status != Dead { DeclareDeadResets(cfg, s, i); }
  }

  lemma HostResets(cfg: Config, s: State, i: nat)
    requires Inv(cfg, s) && i < |s.hosts|
    ensures HostStep(cfg, s, i).ledger.resets
         == s.ledger.resets + Once(s.ledger.host == Some(i) && Overdue(cfg, s.hosts[i], s.t))
  {
    hide Core, DeclareDead;
    assert SeatOk(cfg, s);
    DeclareDeadHosts(cfg, Notice(cfg, s, i), i);
    DeclareDeadResets(cfg, Notice(cfg, s, i), i);
  }

  /** Going through the hosts from `i` on vacates the seat if its holder is still to come
      and overdue. */
  lemma {:induction false} HostsResets(cfg: Config, s: State, i: nat)
    requires Inv(cfg, s)
    ensures HostsStep(cfg, s, i).ledger.resets
         == s.ledger.resets
            + Once(s.ledger.host.Some? && i <= s.ledger.host.value < |s.hosts|
                   && Overdue(cfg, s.hosts[s.ledger.host.value], s.t))
    decreases |s.hosts| - i
  {
    if i < |s.hosts| {
      hide Inv, HostStep, Overdue;
      OneHostSeat(cfg, s, i);
      HostResets(cfg, s, i);
      var r := HostStep(cfg, s, i);
      HostsResets(cfg, r, i + 1);
      if r.ledger.host.Some? && i < r.ledger.host.value < |r.hosts| {
        OverdueSame(cfg, s.hosts[r.ledger.host.value], r.hosts[r.ledger.host.value], s.t);
      }
    }
  }

  lemma OverdueSame(cfg: Config, a: Host, b: Host, t: real)
    requires b == a.(stock := b.stock)
    ensures Overdue(cfg, a, t) == Overdue(cfg, b, t)
  {
  }

  lemma TickResets(cfg: Config, s: State, dt0: real)
    requires Inv(cfg, s)
    ensures Step(cfg, s, dt0).ledger.resets == s.ledger.resets + Once(Vacates(cfg, s, Tick(dt0)))
  {
    hide Inv, HostsStep, Overdue, Calls, SessionsStep;
    var dt := Capped(dt0);
    ClockKeeps(cfg, s, s.t + dt, s.acc);
    var s0 := s.(t := s.t + dt, acc := s.acc);
    assert AfterHosts(cfg, s, dt) == HostsStep(cfg, s0, 0);
    HostsResets(cfg, s0, 0);
    StepTail(cfg, s, dt0);
    assert AfterSeat(cfg, s, dt).ledger.resets == AfterHosts(cfg, s, dt).ledger.resets;
  }

  /** The slots are thrown away by exactly those events. */
  lemma ResetsIff(cfg: Config, s: State, e: Event)
    requires Inv(cfg, s)
    ensures Apply(cfg, s, e).ledger.resets == s.ledger.resets + Once(Vacates(cfg, s, e))
  {
    hide Inv, Step, Kill, Revive;
    match e
    case Tick(dt) => TickResets(cfg, s, dt);
    case Fail(i, mode) => if i < |s.hosts| { FailResets(cfg, s, i, mode); }
    case Return(i) => if i < |s.hosts| { ReturnResets(cfg, s, i); }
  }

  // ---------------------------------------------------------------- losing a slot

  lemma OwnsIff(cfg: Config, s: State, x: Session)
    requires Inv(cfg, s) && x in s.sessions && x.phase == Serve
    ensures x.epoch <= s.ledger.resets && (OwnsLedgerSlot(s, x) <==> x.epoch == s.ledger.resets)
  {
    assert SessionOk(s, x, -1);
  }

  lemma SameService(cfg: Config, s: State, r: State, x: Session, y: Session)
    requires Inv(cfg, s) && Onward(s, r) && x in s.sessions && y in r.sessions && x.id == y.id
    requires x.phase == Serve && y.phase == Serve
    ensures y.epoch == x.epoch
  {
    assert x.id < s.nextId;
    assert Came(s.sessions, y);
    var o :| o in s.sessions && Ages(o, y);
    SameId(s.sessions, o, x);
  }

  /** A served session that owns its Ledger slot loses it to an event exactly when the
      event vacates the seat, and one that does not never gets it back. */
  lemma OrphanedIff(cfg: Config, s: State, e: Event, x: Session, y: Session)
    requires Inv(cfg, s) && x in s.sessions && x.phase == Serve
    requires y in Apply(cfg, s, e).sessions && y.id == x.id && y.phase == Serve
    ensures OwnsLedgerSlot(Apply(cfg, s, e), y) <==> OwnsLedgerSlot(s, x) && !Vacates(cfg, s, e)
  {
    hide Inv, Apply, Vacates, OwnsLedgerSlot, Onward;
    ApplyKeeps(cfg, s, e);
    ApplyOnward(cfg, s, e);
    ResetsIff(cfg, s, e);
    SameService(cfg, s, Apply(cfg, s, e), x, y);
    OwnsIff(cfg, s, x);
    OwnsIff(cfg, Apply(cfg, s, e), y);
  }

  // ---------------------------------------------------------------- who outlives an event

  /** The event takes its host down: a crash while it answers, or a return while it hangs. */
  predicate TakesDown(s: State, e: Event) {
    match e
    case Fail(i, mode) => i < |s.hosts| && mode == Crash && Answering(s.hosts[i])
    case Return(i) => i < |s.hosts| && s.hosts[i].silent
    case Tick(_) => false
  }

  lemma DeclareDeadCancels(cfg: Config, s: State, i: nat, x: Session)
    requires Core(cfg, s, -1) && i < |s.hosts| && x in s.sessions
    ensures x in DeclareDead(cfg, s, i).sessions <==> !ServedBy(x, i)
  {
    hide Core;
    var s1 := SetHost(s, i, s.hosts[i].(status := Dead, silent := false));
    HostChangeKeeps(cfg, s, i, s1.hosts[i], i);
    CancelFromKeeps(cfg, s1, i, i, 0);
    if !ServedBy(x, i) { CancelKeepsOthers(s1, i, 0, x); }
  }

  /** A failure or a return cancels the sessions its host was serving, in either role, if it
      takes the host down, and no others. */
  lemma CancelledIff(cfg: Config, s: State, e: Event, x: Session)
    requires Inv(cfg, s) && !e.Tick? && x in s.sessions
    ensures x !in Apply(cfg, s, e).sessions <==> TakesDown(s, e) && ServedBy(x, e.host)
  {
    hide Core, DeclareDead;
    assert SeatOk(cfg, s);
    if TakesDown(s, e) {
      if e.Fail? {
        CrashedKeeps(cfg, s, e.host);
        DeclareDeadCancels(cfg, Crashed(cfg, s, e.host), e.host, x);
      } else {
        DeclareDeadHosts(cfg, s, e.host);
        DeclareDeadCancels(cfg, s, e.host, x);
      }
    }
  }

  /** So a crash of the holder, or its return from a hang, orphans every session still
      draining from an older holder: it stays, it is still served, and its slot is gone. */
  lemma VacatedOrphans(cfg: Config, s: State, e: Event, x: Session)
    requires Inv(cfg, s) && !e.Tick? && Vacates(cfg, s, e)
    requires x in s.sessions && x.phase == Serve && x.host != s.ledger.host && x.ledgerHost != s.ledger.host
    ensures x in Apply(cfg, s, e).sessions && !OwnsLedgerSlot(Apply(cfg, s, e), x)
  {
    hide Inv, Apply, OwnsLedgerSlot;
    CancelledIff(cfg, s, e, x);
    OrphanedIff(cfg, s, e, x, x);
  }

  // ---------------------------------------------------------------- whole runs

  /** Some event of the run vacates the seat. */
  predicate VacatesIn(cfg: Config, s: State, events: seq<Event>)
    decreases |events|
  {
    events != [] && (Vacates(cfg, s, events[0]) || VacatesIn(cfg, Apply(cfg, s, events[0]), events[1..]))
  }

  lemma {:induction false} ResetsRun(cfg: Config, s: State, events: seq<Event>)
    requires Inv(cfg, s)
    ensures Run(cfg, s, events).ledger.resets >= s.ledger.resets
    ensures Run(cfg, s, events).ledger.resets == s.ledger.resets <==> !VacatesIn(cfg, s, events)
    decreases |events|
  {
    hide Inv, Apply, Vacates;
    if events != [] {
      ApplyKeeps(cfg, s, events[0]);
      ResetsIff(cfg, s, events[0]);
      ResetsRun(cfg, Apply(cfg, s, events[0]), events[1..]);
    }
  }

  /** The same over whole runs: between two moments of a run at which a session is being
      served, it has kept its Ledger slot exactly if it owned it and no event in between
      vacated the seat. */
  lemma RunOrphans(cfg: Config, before: seq<Event>, after: seq<Event>, x: Session, y: Session)
    requires x in Run(cfg, Create(cfg), before).sessions && x.phase == Serve
    requires y in Run(cfg, Create(cfg), before + after).sessions && y.id == x.id && y.phase == Serve
    ensures var s, r := Run(cfg, Create(cfg), before), Run(cfg, Create(cfg), before + after);
            OwnsLedgerSlot(r, y) <==> OwnsLedgerSlot(s, x) && !VacatesIn(cfg, s, after)
  {
    hide Inv, Run, Create, VacatesIn, OwnsLedgerSlot, Onward;
    var s := Run(cfg, Create(cfg), before);
    CreateKeeps(cfg);
    RunKeeps(cfg, Create(cfg), before);
    RunConcat(cfg, Create(cfg), before, after);
    RunKeeps(cfg, s, after);
    RunOnward(cfg, s, after);
    ResetsRun(cfg, s, after);
    SameService(cfg, s, Run(cfg, s, after), x, y);
    OwnsIff(cfg, s, x);
    OwnsIff(cfg, Run(cfg, s, after), y);
  }

  // ---------------------------------------------------------------- a run that orphans a session

  /** Two hosts that carry the books, one slot of each kind, and no waiting times. */
  function Pair(): Config {
    Config([true, true], 1, 1, 0.0, 0.0, 0.0, 0.0, 2.5, 100.0, 100.0, k => 0.0)
  }

  function Lower(stock: Option<nat>): Host {
    Host(true, Up, 1, false, 0.0, None, [stock])
  }

  function Fallen(): Host {
    Host(true, Dead, 1, false, 0.0, None, [None])
  }

  /** The upper host has crashed and the seat has moved down. */
  function MovedDown(t: real, acc: real, nextId: nat, draws: nat, stock: Option<nat>, slot: Option<nat>,
                     sessions: seq<Session>, started: nat): State {
    State(t, acc, nextId, started, draws, [Lower(stock), Fallen()], Ledger(Some(0), [slot], None, 1),
          sessions, Counters(started, 0, 0, 0))
  }

  function Empty(t: real, acc: real): State {
    MovedDown(t, acc, 1, 0, None, None, [], 0)
  }

  function Travelling(t: real, acc: real, elapsed: real): State {
    MovedDown(t, acc, 2, 0, None, None,
              [Session(1, [0, 1], 0, Some(0), None, None, None, Out, None, elapsed, TRAVEL, 0)], 1)
  }

  function Taken(): Session {
    Session(1, [0, 1], 0, Some(0), Some(0), Some(0), Some(0), Serve, None, 0.0, 100.0, 1)
  }

  /** The session is served by the lower host and holds its slot of the seat. */
  function Served(upper: Host, ledger: Ledger): State {
    State(0.7, 0.75, 2, 1, 1, [Lower(Some(1)), upper], ledger, [Taken()], Counters(1, 0, 0, 0))
  }

  lemma MovedTick(s: State)
    requires |s.hosts| == 2 && s.hosts[0].status == Up && !s.hosts[0].silent && s.hosts[0].books
    requires s.hosts[0].upSince == None && s.hosts[1] == Fallen()
    requires s.ledger.host == Some(0) || (s.ledger.host == None && s.ledger.moveAt == Some(0.0) && s.t >= 0.0)
    ensures AfterSeat(Pair(), s, 0.1)
         == s.(t := s.t + 0.1, acc := s.acc + 0.25,
               ledger := if s.ledger.host == None then s.ledger.(host := Some(0), moveAt := None) else s.ledger)
  {
    var cfg, s0 := Pair(), s.(t := s.t + 0.1);
    assert HostStep(cfg, s0, 0) == s0 && HostStep(cfg, s0, 1) == s0;
    assert HostsStep(cfg, s0, 2) == s0;
    assert HostsStep(cfg, s0, 1) == s0;
    assert HostsStep(cfg, s0, 0) == s0;
    assert Best(cfg, s0.t, s0.hosts, 1) == Some(0);
    assert Best(cfg, s0.t, s0.hosts, 2) == Some(0);
    assert 0.1 * cfg.loadPerS == 0.25;
  }

  lemma EmptyTick(t: real, acc: real)
    requires acc < 0.75
    ensures Step(Pair(), Empty(t, acc), 0.1) == Empty(t + 0.1, acc + 0.25)
  {
    MovedTick(Empty(t, acc));
  }

  lemma TwoHosts()
    ensures Create(Pair()) == State(0.0, 0.0, 1, 0, 0, [Lower(None), Lower(None)], Ledger(Some(1), [None], None, 0), [], Counters(0, 0, 0, 0))
  {
    assert Slots(1) == [None] && FreshHosts(Pair()) == [Lower(None), Lower(None)];
    assert LastBooks([true, true], 2) == Some(1);
  }

  function Struck(): State {
    State(0.0, 0.0, 1, 0, 0, [Lower(None), Fallen()], Ledger(None, [None], Some(0.0), 1), [], Counters(0, 0, 0, 0))
  }

  lemma FirstCrash()
    ensures Apply(Pair(), Create(Pair()), Fail(1, Crash)) == Struck()
  {
    var cfg, start := Pair(), Create(Pair());
    TwoHosts();
    hide Create;
    var hit := Crashed(cfg, start, 1);
    assert hit == start.(ledger := Ledger(Some(1), [None], Some(0.0), 0));
    var down := start.(hosts := [Lower(None), Fallen()], ledger := hit.ledger);
    assert SetHost(hit, 1, hit.hosts[1].(status := Dead, silent := false)) == down;
    assert CancelOn(down, 1) == down;
    assert Slots(1) == [None];
  }

  lemma FirstTick()
    ensures Step(Pair(), Struck(), 0.1) == Empty(0.1, 0.25)
  {
    MovedTick(Struck());
  }

  lemma CallTick(t: real)
    ensures Step(Pair(), Empty(t, 0.75), 0.1) == Travelling(t + 0.1, 0.0, 0.1)
  {
    var s1 := AfterSeat(Pair(), Empty(t, 0.75), 0.1);
    MovedTick(Empty(t, 0.75));
    assert Order(0, 2) == [0, 1];
    var s2 := Call(s1);
    assert s2 == Travelling(t + 0.1, 0.0, 0.0);
    assert Calls(s2) == s2;
    assert Calls(s1) == s2;
    OneSession(s2, 0.1);
  }

  /** The list holds one session. */
  lemma OneSession(s: State, dt: real)
    requires |s.sessions| == 1
    ensures SessionsStep(Pair(), s, 0, dt) == SessionStep(Pair(), s, 0, dt)
  {
    var r := SessionStep(Pair(), s, 0, dt);
    SessionStepSize(Pair(), s, 0, dt);
    assert SessionsStep(Pair(), r, |r.sessions|, dt) == r;
  }

  lemma TravelTick(t: real, acc: real, elapsed: real)
    requires acc < 0.75 && elapsed < 0.3
    ensures Step(Pair(), Travelling(t, acc, elapsed), 0.1) == Travelling(t + 0.1, acc + 0.25, elapsed + 0.1)
  {
    MovedTick(Travelling(t, acc, elapsed));
    OneSession(Travelling(t + 0.1, acc + 0.25, elapsed), 0.1);
  }

  lemma ArriveTick()
    ensures Step(Pair(), Travelling(0.6, 0.5, 0.3), 0.1) == Served(Fallen(), Ledger(Some(0), [Some(1)], None, 1))
  {
    var s := Travelling(0.7, 0.75, 0.3);
    MovedTick(Travelling(0.6, 0.5, 0.3));
    OneSession(s, 0.1);
    var s1 := Travelling(0.7, 0.75, 0.3 + 0.1);
    assert StockOffer(s1.hosts, s1.sessions[0]) == Some(0) && FirstFree(s1.ledger.slots) == Some(0);
    assert ServiceTime(Pair(), 0) == 100.0;
    var r := Accept(Pair(), s1, 0, 0, 0);
    assert s1.hosts[0].stock[0 := Some(1)] == [Some(1)] == s1.ledger.slots[0 := Some(1)];
    assert r.hosts == [Lower(Some(1)), Fallen()] && r.sessions == [Taken()];
    assert r == Served(Fallen(), Ledger(Some(0), [Some(1)], None, 1));
    assert SessionStep(Pair(), s, 0, 0.1) == Arrive(Pair(), s1, 0);
  }

  function Risen(): Host {
    Host(true, Up, 2, false, 0.7, Some(0.7), [None])
  }

  lemma RiseTick()
    ensures Step(Pair(), Apply(Pair(), Served(Fallen(), Ledger(Some(0), [Some(1)], None, 1)), Return(1)), 0.0)
         == Served(Risen(), Ledger(Some(1), [Some(1)], None, 1))
  {
    var cfg := Pair();
    var s := Apply(cfg, Served(Fallen(), Ledger(Some(0), [Some(1)], None, 1)), Return(1));
    assert s == Served(Fallen().(status := Restarting, since := 0.7), Ledger(Some(0), [Some(1)], None, 1));
    var s1 := Served(Risen(), Ledger(Some(0), [Some(1)], None, 1));
    assert Slots(1) == [None];
    assert ComeUp(cfg, s, 1) == s1;
    assert HostStep(cfg, s, 0) == s && HostStep(cfg, s, 1) == s1;
    assert HostsStep(cfg, s1, 2) == s1;
    assert HostsStep(cfg, s, 1) == s1;
    assert HostsStep(cfg, s, 0) == s1;
    assert s.(t := s.t + 0.0) == s;
    assert Best(cfg, s1.t, s1.hosts, 2) == Some(1);
    var s2 := Served(Risen(), Ledger(Some(1), [Some(1)], None, 1));
    assert AfterSeat(cfg, s, 0.0) == s2;
    assert Calls(s2) == s2;
    OneSession(s2, 0.0);
  }

  lemma LastCrash()
    ensures var r := Apply(Pair(), Served(Risen(), Ledger(Some(1), [Some(1)], None, 1)), Fail(1, Crash));
            Taken() in r.sessions && !OwnsLedgerSlot(r, Taken())
  {
    var cfg, s := Pair(), Served(Risen(), Ledger(Some(1), [Some(1)], None, 1));
    var hit := Crashed(cfg, s, 1);
    var down := SetHost(hit, 1, hit.hosts[1].(status := Dead, silent := false));
    assert !ServedBy(Taken(), 1);
    assert CancelFrom(down, 1, 1) == down;
    assert CancelOn(down, 1) == down;
    assert DeclareDead(cfg, hit, 1) == VacateSeat(cfg, down, 1);
    assert Slots(1) == [None];
    var r := Apply(cfg, s, Fail(1, Crash));
    assert r == VacateSeat(cfg, down, 1);
    assert r.sessions[0] == Taken();
  }

  /** A run from the start that orphans a session: the upper host crashes, a session is
      taken under the lower one, the upper one comes back, takes the seat and crashes. */
  function Orphaning(): seq<Event> {
    [Fail(1, Crash), Tick(0.1), Tick(0.1), Tick(0.1), Tick(0.1), Tick(0.1), Tick(0.1), Tick(0.1),
     Return(1), Tick(0.0), Fail(1, Crash)]
  }

  lemma {:induction false} RunFrom(cfg: Config, s: State, events: seq<Event>, k: nat, next: State)
    requires k < |events| && Apply(cfg, s, events[k]) == next
    ensures Run(cfg, s, events[k..]) == Run(cfg, next, events[k + 1..])
  {
    assert events[k..][0] == events[k] && events[k..][1..] == events[k + 1..];
  }

  lemma OrphanReached()
    ensures var r := Run(Pair(), Create(Pair()), Orphaning());
            exists x :: x in r.sessions && x.phase == Serve && !OwnsLedgerSlot(r, x)
  {
    hide Step, Apply, Create, Run, Empty, Travelling, Served, OwnsLedgerSlot;
    var cfg, es := Pair(), Orphaning();
    var start := Create(cfg);
    assert es[0..] == es;
    FirstCrash();
    RunFrom(cfg, start, es, 0, Struck());
    FirstTick();
    TickFrom(cfg, Struck(), es, 1, Empty(0.1, 0.25));
    EmptyTick(0.1, 0.25);
    TickFrom(cfg, Empty(0.1, 0.25), es, 2, Empty(0.2, 0.5));
    EmptyTick(0.2, 0.5);
    TickFrom(cfg, Empty(0.2, 0.5), es, 3, Empty(0.3, 0.75));
    CallTick(0.3);
    TickFrom(cfg, Empty(0.3, 0.75), es, 4, Travelling(0.4, 0.0, 0.1));
    TravelTick(0.4, 0.0, 0.1);
    TickFrom(cfg, Travelling(0.4, 0.0, 0.1), es, 5, Travelling(0.5, 0.25, 0.2));
    TravelTick(0.5, 0.25, 0.2);
    TickFrom(cfg, Travelling(0.5, 0.25, 0.2), es, 6, Travelling(0.6, 0.5, 0.3));
    ArriveTick();
    var served := Served(Fallen(), Ledger(Some(0), [Some(1)], None, 1));
    TickFrom(cfg, Travelling(0.6, 0.5, 0.3), es, 7, served);
    var rising := Apply(cfg, served, Return(1));
    RunFrom(cfg, served, es, 8, rising);
    RiseTick();
    var risen := Served(Risen(), Ledger(Some(1), [Some(1)], None, 1));
    TickFrom(cfg, rising, es, 9, risen);
    var r := Apply(cfg, risen, Fail(1, Crash));
    RunFrom(cfg, risen, es, 10, r);
    LastCrash();
    RunEnd(cfg, r, es[11..]);
    assert Taken() in r.sessions;
  }

  lemma TickFrom(cfg: Config, s: State, events: seq<Event>, k: nat, next: State)
    requires k < |events| && events[k].Tick? && Step(cfg, s, events[k].dt) == next
    ensures Run(cfg, s, events[k..]) == Run(cfg, next, events[k + 1..])
  {
    RunFrom(cfg, s, events, k, next);
  }

  lemma RunEnd(cfg: Config, s: State, events: seq<Event>)
    requires events == []
    ensures Run(cfg, s, events) == s
  {
  }
}
