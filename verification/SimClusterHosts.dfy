/** The hosts of the cluster simulation and its Ledger seat by the clock: when a hung host is
    suspected and given up on, when a returning one is up, and which host the seat is on. */
module SimClusterHosts {
  import opened Options
  import opened Simulations
  import opened SimCluster
  import opened SimClusterSafety
  import opened Clocks

  // ---------------------------------------------------------------- one host, one frame

  /** A hung host is up until it is noticed, then under suspicion, then dead. */
  function Standing(cfg: Config, age: real): Status {
    if age < cfg.noticeS then Up else if age < cfg.noticeS + cfg.suspectS then Suspect else Dead
  }

  /** Host `g` is host `h` at time `now`, its Stock slots aside. */
  ghost predicate HostFollows(cfg: Config, now: real, h: Host, g: Host) {
    && g.books == h.books && g.since == h.since
    && (match h.status
        case Up =>
          && g.incarnation == h.incarnation && g.upSince == h.upSince
          && (if !h.silent then g.status == Up && !g.silent
              else g.status == Standing(cfg, now - h.since) && g.silent == (g.status != Dead))
        case Suspect =>
          && g.incarnation == h.incarnation && g.upSince == h.upSince
          && (if now - h.since < cfg.noticeS + cfg.suspectS then g.status == Suspect && g.silent == h.silent
              else g.status == Dead && !g.silent)
        case Dead => g.status == Dead && g.silent == h.silent && g.incarnation == h.incarnation && g.upSince == h.upSince
        case Restarting =>
          && g.silent == h.silent
          && (if now - h.since < cfg.restartS
              then g.status == Restarting && g.incarnation == h.incarnation && g.upSince == h.upSince
              else g.status == Up && g.incarnation == h.incarnation + 1 && g.upSince == Some(now)))
  }

  lemma FollowsBut(cfg: Config, now: real, h: Host, g: Host, h2: Host, g2: Host)
    requires HostFollows(cfg, now, h, g) && h2 == h.(stock := h2.stock) && g2 == g.(stock := g2.stock)
    ensures HostFollows(cfg, now, h2, g2)
  {
  }

  lemma OneHostFollows(cfg: Config, s: State, i: nat)
    requires Inv(cfg, s) && i < |s.hosts|
    ensures HostFollows(cfg, s.t, s.hosts[i], HostStep(cfg, s, i).hosts[i])
  {
    hide Core, DeclareDead;
    var s1 := Notice(cfg, s, i);
    NoticeKeeps(cfg, s, i);
    DeclareDeadKeeps(cfg, s1, i);
  }

  lemma {:induction false} HostsFollow(cfg: Config, s: State, i: nat, k: nat)
    requires Inv(cfg, s) && i <= k < |s.hosts|
    ensures |HostsStep(cfg, s, i).hosts| == |s.hosts|
    ensures HostFollows(cfg, s.t, s.hosts[k], HostsStep(cfg, s, i).hosts[k])
    decreases |s.hosts| - i
  {
    hide Inv, HostStep, HostFollows;
    var s1 := HostStep(cfg, s, i);
    OneHostSeat(cfg, s, i);
    HostsStepSeat(cfg, s1, i + 1);
    if k == i {
      OneHostFollows(cfg, s, i);
      FollowsBut(cfg, s.t, s.hosts[k], s1.hosts[k], s.hosts[k], HostsStep(cfg, s, i).hosts[k]);
    } else {
      HostsFollow(cfg, s1, i + 1, k);
      FollowsBut(cfg, s.t, s1.hosts[k], HostsStep(cfg, s, i).hosts[k], s.hosts[k], HostsStep(cfg, s, i).hosts[k]);
    }
  }

  /** In every frame a hung host is suspected and given up on, and a returning one comes up,
      exactly when its time has come; nothing else changes about a host but its slots. */
  lemma StepHosts(cfg: Config, s: State, dt: real, k: nat)
    requires Inv(cfg, s) && k < |s.hosts|
    ensures var r := Step(cfg, s, dt);
            |r.hosts| == |s.hosts| && r.t == s.t + Frame(dt) && HostFollows(cfg, r.t, s.hosts[k], r.hosts[k])
  {
    hide Inv, HostsStep, AfterSeat, Step, HostFollows;
    var d := Capped(dt);
    var s0 := s.(t := s.t + d);
    ClockKeeps(cfg, s, s.t + d, s.acc);
    HostsFollow(cfg, s0, 0, k);
    HostsStepSeat(cfg, s0, 0);
    StepTail(cfg, s, dt);
    SeatHosts(cfg, s, d);
    var h, r := HostsStep(cfg, s0, 0), Step(cfg, s, dt);
    assert r.hosts[k] == h.hosts[k].(stock := r.hosts[k].stock);
    FollowsBut(cfg, r.t, s.hosts[k], h.hosts[k], s.hosts[k], r.hosts[k]);
  }

  lemma SeatHosts(cfg: Config, s: State, d: real)
    ensures var h, a := AfterHosts(cfg, s, d), AfterSeat(cfg, s, d);
            a.hosts == h.hosts && a.t == h.t
  {
    hide HostsStep, Best;
  }

  // ---------------------------------------------------------------- runs of frames

  function Ticks(dts: seq<real>): seq<Event> {
    if dts == [] then [] else [Tick(dts[0])] + Ticks(dts[1..])
  }

  lemma TickFirst(cfg: Config, s: State, dts: seq<real>)
    requires Inv(cfg, s) && dts != []
    ensures Inv(cfg, Step(cfg, s, dts[0]))
    ensures Run(cfg, s, Ticks(dts)) == Run(cfg, Step(cfg, s, dts[0]), Ticks(dts[1..]))
  {
    hide Inv, Step;
    StepTail(cfg, s, dts[0]);
    assert Ticks(dts)[1..] == Ticks(dts[1..]);
  }

  /** A hung host whose state is not ahead of its time. */
  ghost predicate Watched(cfg: Config, h: Host, since: real, now: real) {
    && h.since == since
    && match h.status
       case Up => h.silent
       case Suspect => h.silent && now - since >= cfg.noticeS
       case Dead => now - since >= cfg.noticeS && now - since >= cfg.noticeS + cfg.suspectS
       case Restarting => false
  }

  lemma WatchOn(cfg: Config, h: Host, g: Host, since: real, before: real, now: real)
    requires Watched(cfg, h, since, before) && HostFollows(cfg, now, h, g) && before <= now && cfg.suspectS >= 0.0
    ensures Watched(cfg, g, since, now) && g.status == Standing(cfg, now - since) && g.incarnation == h.incarnation
  {
  }

  lemma {:induction false} WatchThrough(cfg: Config, s: State, i: nat, since: real, dts: seq<real>)
    requires Inv(cfg, s) && i < |s.hosts| && Watched(cfg, s.hosts[i], since, s.t) && Passing(dts) && cfg.suspectS >= 0.0
    ensures var r := Run(cfg, s, Ticks(dts));
            && |r.hosts| == |s.hosts| && r.t == s.t + Elapsed(dts) && Watched(cfg, r.hosts[i], since, r.t)
            && (dts != [] ==> r.hosts[i].status == Standing(cfg, r.t - since))
    decreases |dts|
  {
    hide Inv, Step, Watched, HostFollows, Standing;
    if dts != [] {
      TickFirst(cfg, s, dts);
      StepHosts(cfg, s, dts[0], i);
      var next := Step(cfg, s, dts[0]);
      WatchOn(cfg, s.hosts[i], next.hosts[i], since, s.t, next.t);
      WatchThrough(cfg, next, i, since, dts[1..]);
    }
  }

  lemma HangBegins(cfg: Config, s: State, i: nat)
    requires Inv(cfg, s) && i < |s.hosts| && s.hosts[i].status == Up && !s.hosts[i].silent
    ensures var r := Apply(cfg, s, Fail(i, Hang));
            && r == s.(hosts := s.hosts[i := s.hosts[i].(since := s.t, silent := true)],
                       ledger := if s.ledger.host == Some(i)
                                 then s.ledger.(moveAt := Some(s.t + cfg.noticeS + cfg.suspectS)) else s.ledger)
            && Watched(cfg, r.hosts[i], s.t, s.t)
  {
    hide Inv;
  }

  /** What the others make of a host that has been hanging for a time. */
  ghost predicate Detected(cfg: Config, status: Status, e: real) {
    && (status == Up <==> e < cfg.noticeS)
    && (status == Suspect <==> cfg.noticeS <= e < cfg.noticeS + cfg.suspectS)
    && (status == Dead <==> e >= cfg.noticeS + cfg.suspectS)
  }

  /** However time is cut into frames, a host that hangs, in whatever run, is up to everyone
      else until the notice time has passed, then suspect for the suspicion time, and then
      dead. */
  lemma RunDetects(cfg: Config, before: seq<Event>, i: nat, dts: seq<real>)
    requires Passing(dts) && dts != [] && cfg.suspectS >= 0.0
    ensures var s := Run(cfg, Create(cfg), before);
            i < |s.hosts| && s.hosts[i].status == Up && !s.hosts[i].silent ==>
              var r, e := Run(cfg, Apply(cfg, s, Fail(i, Hang)), Ticks(dts)), Elapsed(dts);
              i < |r.hosts| && Detected(cfg, r.hosts[i].status, e)
  {
    hide Inv, Watched, Create, Kill, Run, Ticks, Elapsed, Standing, Detected;
    CreateKeeps(cfg);
    RunKeeps(cfg, Create(cfg), before);
    var s := Run(cfg, Create(cfg), before);
    if i < |s.hosts| && s.hosts[i].status == Up && !s.hosts[i].silent {
      HangBegins(cfg, s, i);
      ApplyKeeps(cfg, s, Fail(i, Hang));
      WatchThrough(cfg, Apply(cfg, s, Fail(i, Hang)), i, s.t, dts);
      StandingDetected(cfg, Elapsed(dts));
    }
  }

  lemma StandingDetected(cfg: Config, e: real)
    requires cfg.suspectS >= 0.0
    ensures Detected(cfg, Standing(cfg, e), e)
  {
  }

  /** A returning host before it is up. */
  ghost predicate ComingUp(cfg: Config, h: Host, since: real, now: real, was: nat) {
    if h.status == Restarting then h.since == since && h.incarnation == was && !h.silent
    else h.status == Up && !h.silent && h.incarnation == was + 1 && now - since >= cfg.restartS
  }

  lemma ReturnBegins(cfg: Config, s: State, i: nat)
    requires Inv(cfg, s) && i < |s.hosts| && s.hosts[i].status == Dead
    ensures var r := Apply(cfg, s, Return(i));
            r == s.(hosts := s.hosts[i := s.hosts[i].(status := Restarting, since := s.t)]) && !s.hosts[i].silent
  {
  }

  lemma {:induction false} ReturnThrough(cfg: Config, s: State, i: nat, since: real, was: nat, dts: seq<real>)
    requires Inv(cfg, s) && i < |s.hosts| && ComingUp(cfg, s.hosts[i], since, s.t, was) && Passing(dts)
    ensures var r := Run(cfg, s, Ticks(dts));
            && |r.hosts| == |s.hosts| && r.t == s.t + Elapsed(dts) && ComingUp(cfg, r.hosts[i], since, r.t, was)
            && (dts != [] ==> (r.hosts[i].status == Up <==> r.t - since >= cfg.restartS))
    decreases |dts|
  {
    hide Inv, Step, ComingUp, HostFollows;
    if dts != [] {
      TickFirst(cfg, s, dts);
      StepHosts(cfg, s, dts[0], i);
      var next := Step(cfg, s, dts[0]);
      ReturnOn(cfg, s.hosts[i], next.hosts[i], since, s.t, next.t, was);
      ReturnThrough(cfg, next, i, since, was, dts[1..]);
    }
  }

  lemma ReturnOn(cfg: Config, h: Host, g: Host, since: real, before: real, now: real, was: nat)
    requires ComingUp(cfg, h, since, before, was) && HostFollows(cfg, now, h, g) && before <= now
    ensures ComingUp(cfg, g, since, now, was) && (g.status == Up <==> now - since >= cfg.restartS)
  {
  }

  /** A dead host that returns is up again exactly when its restart time has passed, as its
      next incarnation. */
  lemma RunReturns(cfg: Config, before: seq<Event>, i: nat, dts: seq<real>)
    requires Passing(dts) && dts != []
    ensures var s := Run(cfg, Create(cfg), before);
            i < |s.hosts| && s.hosts[i].status == Dead ==>
              var r := Run(cfg, Apply(cfg, s, Return(i)), Ticks(dts));
              && i < |r.hosts|
              && (Elapsed(dts) < cfg.restartS ==> r.hosts[i].status == Restarting)
              && (Elapsed(dts) >= cfg.restartS ==>
                    r.hosts[i].status == Up && !r.hosts[i].silent && r.hosts[i].incarnation == s.hosts[i].incarnation + 1)
  {
    hide Inv, Create, Revive;
    CreateKeeps(cfg);
    RunKeeps(cfg, Create(cfg), before);
    var s := Run(cfg, Create(cfg), before);
    if i < |s.hosts| && s.hosts[i].status == Dead {
      ReturnBegins(cfg, s, i);
      ApplyKeeps(cfg, s, Return(i));
      ReturnThrough(cfg, Apply(cfg, s, Return(i)), i, s.t, s.hosts[i].incarnation, dts);
    }
  }

  // ---------------------------------------------------------------- failures and returns

  /** Only host `i` and the slots of the others have changed. */
  ghost predicate OnlyHost(s: State, r: State, i: nat) {
    |r.hosts| == |s.hosts| && forall k :: 0 <= k < |s.hosts| && k != i ==> r.hosts[k] == s.hosts[k].(stock := r.hosts[k].stock)
  }

  /** A host that answers can crash, and is dead at once, or hang; one that does not is past
      failing. The seat leaves a crashed holder, and the move away from a failed one is due
      after the suspicion time, and after a hang the notice time before it. */
  lemma FailIs(cfg: Config, s: State, i: nat, mode: Mode)
    requires Inv(cfg, s) && i < |s.hosts|
    ensures var h, r := s.hosts[i], Apply(cfg, s, Fail(i, mode));
            var held := s.ledger.host == Some(i);
            if h.status != Up || h.silent then r == s
            else
              && r.t == s.t && OnlyHost(s, r, i)
              && r.hosts[i] == h.(since := s.t, stock := r.hosts[i].stock, silent := mode == Hang,
                                  status := if mode == Hang then Up else Dead)
              && r.ledger.host == (if held && mode == Crash then None else s.ledger.host)
              && r.ledger.moveAt == (if !held then s.ledger.moveAt
                                     else if mode == Hang then Some(s.t + cfg.noticeS + cfg.suspectS)
                                     else Some(s.t + cfg.suspectS))
              && (mode == Hang ==> r.sessions == s.sessions && r.counters == s.counters)
  {
    hide Core, DeclareDead;
    var h := s.hosts[i];
    if h.status == Up && !h.silent && mode == Crash {
      CrashedKeeps(cfg, s, i);
      DeclareDeadKeeps(cfg, Crashed(cfg, s, i), i);
    }
  }

  /** A host that is up and answers, or on its way back already, cannot return; one that hangs
      is given up on first. */
  lemma ReturnIs(cfg: Config, s: State, i: nat)
    requires Inv(cfg, s) && i < |s.hosts|
    ensures var h, r := s.hosts[i], Apply(cfg, s, Return(i));
            if (h.status == Up && !h.silent) || h.status == Restarting then r == s
            else
              && r.t == s.t && OnlyHost(s, r, i)
              && r.hosts[i] == h.(since := s.t, status := Restarting, silent := false, stock := r.hosts[i].stock)
              && r.ledger.host == (if s.ledger.host == Some(i) then None else s.ledger.host)
              && r.ledger.moveAt == s.ledger.moveAt
  {
    hide Core, DeclareDead;
    if s.hosts[i].status != Dead { DeclareDeadKeeps(cfg, s, i); }
  }

  // ---------------------------------------------------------------- the seat

  /** A host that may hold the Ledger: it carries the books, is up and answers, and has been
      up since the start or for the settle time. */
  ghost predicate Fit(cfg: Config, now: real, g: Host) {
    && g.books && g.status == Up && !g.silent
    && match g.upSince { case None => true case Some(u) => now - u >= cfg.settleS }
  }

  /** No host from `k` on is fit. */
  ghost predicate NoneFit(cfg: Config, now: real, hosts: seq<Host>, k: nat) {
    forall i {:trigger hosts[i]} :: k <= i < |hosts| ==> !Fit(cfg, now, hosts[i])
  }

  /** The seat after a frame. The host that held it keeps it unless it is dead; a higher fit
      host takes it; and an empty seat goes to the highest fit host once its waiting time,
      if one is set, is over. */
  ghost predicate SeatFollows(cfg: Config, s: State, r: State) {
    var kept := if s.ledger.host.Some? && s.ledger.host.value < |r.hosts| && r.hosts[s.ledger.host.value].status == Dead
                then None else s.ledger.host;
    var due := s.ledger.moveAt.None? || r.t >= s.ledger.moveAt.value;
    match r.ledger.host
    case None => kept == None && r.ledger.moveAt == s.ledger.moveAt && (!due || NoneFit(cfg, r.t, r.hosts, 0))
    case Some(b) =>
      && b < |r.hosts| && NoneFit(cfg, r.t, r.hosts, b + 1)
      && (kept == Some(b) || Fit(cfg, r.t, r.hosts[b]))
      && (match kept
          case None => due && r.ledger.moveAt == None
          case Some(a) => a <= b && r.ledger.moveAt == s.ledger.moveAt)
  }

  lemma FitIs(cfg: Config, now: real, g: Host)
    ensures Counts(cfg, now, g) <==> Fit(cfg, now, g)
  {
  }

  lemma BestFit(cfg: Config, t: real, hosts: seq<Host>)
    ensures match Best(cfg, t, hosts, |hosts|)
            case Some(b) => b < |hosts| && Fit(cfg, t, hosts[b]) && NoneFit(cfg, t, hosts, b + 1)
            case None => NoneFit(cfg, t, hosts, 0)
  {
    BestIs(cfg, t, hosts, |hosts|);
    forall i | 0 <= i < |hosts| ensures Counts(cfg, t, hosts[i]) <==> Fit(cfg, t, hosts[i]) { FitIs(cfg, t, hosts[i]); }
  }

  lemma NoneFitFrom(cfg: Config, now: real, hosts: seq<Host>, k: nat, j: nat)
    requires NoneFit(cfg, now, hosts, k) && k <= j
    ensures NoneFit(cfg, now, hosts, j)
  {
  }

  /** The seat a pass over the hosts leaves: empty exactly if its holder is dead. */
  lemma HostsSeat(cfg: Config, s: State, d: real)
    requires Inv(cfg, s)
    ensures var h := AfterHosts(cfg, s, d);
            && |h.hosts| == |s.hosts| && h.ledger.moveAt == s.ledger.moveAt
            && h.ledger.host == (if s.ledger.host.Some? && s.ledger.host.value < |h.hosts|
                                    && h.hosts[s.ledger.host.value].status == Dead then None else s.ledger.host)
            && (h.ledger.host.Some? ==> h.ledger.host.value < |h.hosts|)
  {
    hide HostsStep, Core;
    AfterHostsSeat(cfg, s, d);
  }

  lemma PlaceFollows(cfg: Config, s: State, h: State)
    requires h.ledger.moveAt == s.ledger.moveAt && (h.ledger.host.Some? ==> h.ledger.host.value < |h.hosts|)
    requires h.ledger.host == (if s.ledger.host.Some? && s.ledger.host.value < |h.hosts|
                                  && h.hosts[s.ledger.host.value].status == Dead then None else s.ledger.host)
    ensures SeatFollows(cfg, s, PlaceLedger(cfg, h))
  {
    hide Best, Fit, NoneFit;
    BestFit(cfg, h.t, h.hosts);
    match Best(cfg, h.t, h.hosts, |h.hosts|)
    case None => if h.ledger.host.Some? { NoneFitFrom(cfg, h.t, h.hosts, 0, h.ledger.host.value + 1); }
    case Some(best) =>
      if h.ledger.host.Some? && best <= h.ledger.host.value {
        NoneFitFrom(cfg, h.t, h.hosts, best + 1, h.ledger.host.value + 1);
      }
  }

  lemma NoneFitBut(cfg: Config, now: real, a: seq<Host>, b: seq<Host>, k: nat)
    requires SameButStock(a, b) && NoneFit(cfg, now, a, k)
    ensures NoneFit(cfg, now, b, k)
  {
    forall i | k <= i < |b| ensures !Fit(cfg, now, b[i]) { assert !Fit(cfg, now, a[i]); }
  }

  lemma SeatFollowsBut(cfg: Config, s: State, a: State, b: State)
    requires SeatFollows(cfg, s, a) && SameSeat(a, b)
    ensures SeatFollows(cfg, s, b)
  {
    hide NoneFit;
    if s.ledger.host.Some? && s.ledger.host.value < |a.hosts| {
      var i := s.ledger.host.value;
      assert b.hosts[i] == a.hosts[i].(stock := b.hosts[i].stock);
    }
    if NoneFit(cfg, a.t, a.hosts, 0) { NoneFitBut(cfg, a.t, a.hosts, b.hosts, 0); }
    if a.ledger.host.Some? {
      var i := a.ledger.host.value;
      assert b.hosts[i] == a.hosts[i].(stock := b.hosts[i].stock);
      NoneFitBut(cfg, a.t, a.hosts, b.hosts, i + 1);
    }
  }

  /** In every frame of every run the seat is where its rule puts it. */
  lemma StepSeat(cfg: Config, s: State, dt: real)
    requires Inv(cfg, s)
    ensures SeatFollows(cfg, s, Step(cfg, s, dt))
  {
    hide Inv, AfterHosts, PlaceLedger, Step, SeatFollows, SameSeat;
    var d := Capped(dt);
    HostsSeat(cfg, s, d);
    var h := AfterHosts(cfg, s, d);
    PlaceFollows(cfg, s, h);
    SeatAcc(cfg, s, PlaceLedger(cfg, h), AfterSeat(cfg, s, d).acc);
    assert AfterSeat(cfg, s, d) == PlaceLedger(cfg, h).(acc := AfterSeat(cfg, s, d).acc);
    StepTail(cfg, s, dt);
    SeatFollowsBut(cfg, s, AfterSeat(cfg, s, d), Step(cfg, s, dt));
  }

  lemma SeatAcc(cfg: Config, s: State, a: State, acc: real)
    requires SeatFollows(cfg, s, a)
    ensures SeatFollows(cfg, s, a.(acc := acc))
  {
    hide NoneFit, Fit;
  }

  /** At the start the seat is on the highest host that carries the books, and every host is
      up, in its first incarnation and since the start. */
  lemma CreateHosts(cfg: Config, i: nat)
    requires i < |cfg.books|
    ensures var s := Create(cfg);
            && s.t == 0.0 && |s.hosts| == |cfg.books| && s.ledger.moveAt == None
            && s.hosts[i].status == Up && !s.hosts[i].silent && s.hosts[i].incarnation == 1
            && s.hosts[i].upSince == None && s.hosts[i].books == cfg.books[i]
            && s.hosts[i].stock == seq(cfg.stockCapacity, _ => None)
            && (cfg.books[i] ==> s.ledger.host.Some? && i <= s.ledger.host.value < |cfg.books| && cfg.books[s.ledger.host.value])
  {
    LastBooksIs(cfg.books, |cfg.books|);
    if cfg.books[i] { LastBooksFrom(cfg.books, |cfg.books|, i); }
  }

  lemma {:induction false} LastBooksFrom(books: seq<bool>, n: nat, i: nat)
    requires i < n <= |books| && books[i]
    ensures LastBooks(books, n).Some? && LastBooks(books, n).value >= i
  {
    if !books[n - 1] { LastBooksFrom(books, n - 1, i); }
  }
}
