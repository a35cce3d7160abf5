/** The cluster simulation (assets/explainer/sim-cluster.js).

    `State` is a snapshot of everything the simulation updates, and every operation of
    the source has a function from snapshots to snapshots. `SimClusterObject` updates its
    fields in place, as the source does, and is proved to compute those functions.
    Random draws come from `cfg.rand`, any sequence of reals; the k-th call of the
    source's generator returns `cfg.rand(k)`. `Ledger.resets` and `Session.epoch` are
    history: how often the Ledger slots were thrown away, and how often at the time the
    session took its slot. */
module SimCluster {
  import opened Options
  import opened Simulations

  datatype Status = Up | Suspect | Dead | Restarting

  datatype Host = Host(
    books: bool, status: Status, incarnation: nat, silent: bool,
    since: real, upSince: Option<real>, stock: seq<Option<nat>>)

  datatype Phase = Out | Serve | Back

  datatype Session = Session(
    id: nat, order: seq<nat>, next: nat, host: Option<nat>, ledgerHost: Option<nat>,
    stockSlot: Option<nat>, ledgerSlot: Option<nat>, phase: Phase, from: Option<nat>,
    elapsed: real, dur: real, epoch: nat)

  datatype Ledger = Ledger(host: Option<nat>, slots: seq<Option<nat>>, moveAt: Option<real>, resets: nat)

  datatype Counters = Counters(started: nat, completed: nat, cancelled: nat, refused: nat)

  datatype Config = Config(
    books: seq<bool>, stockCapacity: nat, ledgerCapacity: nat,
    noticeS: real, suspectS: real, settleS: real, restartS: real,
    loadPerS: real, sessionLo: real, sessionHi: real, rand: nat -> real)

  datatype State = State(
    t: real, acc: real, nextId: nat, rr: nat, draws: nat,
    hosts: seq<Host>, ledger: Ledger, sessions: seq<Session>, counters: Counters)

  const TRAVEL := 0.4
  const BOUNCE := 0.2

  // ---------------------------------------------------------------- creation

  function Slots(n: nat): seq<Option<nat>> {
    seq(n, _ => None)
  }

  function FreshHost(cfg: Config, books: bool): Host {
    Host(books, Up, 1, false, 0.0, None, Slots(cfg.stockCapacity))
  }

  function FreshHosts(cfg: Config): seq<Host> {
    seq(|cfg.books|, i requires 0 <= i < |cfg.books| => FreshHost(cfg, cfg.books[i]))
  }

  /** The last of the first `n` hosts that carries the books. */
  function LastBooks(books: seq<bool>, n: nat): Option<nat>
    requires n <= |books|
  {
    if n == 0 then None
    else if books[n - 1] then Some(n - 1)
    else LastBooks(books, n - 1)
  }

  function Create(cfg: Config): State {
    State(0.0, 0.0, 1, 0, 0,
          FreshHosts(cfg),
          Ledger(LastBooks(cfg.books, |cfg.books|), Slots(cfg.ledgerCapacity), None, 0),
          [], Counters(0, 0, 0, 0))
  }

  // ---------------------------------------------------------------- small questions

  predicate Answering(h: Host) {
    h.status == Up && !h.silent
  }

  predicate Tryable(h: Host) {
    h.status == Up || h.status == Suspect
  }

  /** Index of the first free slot: `indexOf(null)`. */
  function FirstFree(slots: seq<Option<nat>>): (r: Option<nat>)
    ensures r.Some? ==> r.value < |slots| && slots[r.value] == None
  {
    if slots == [] then None
    else if slots[0] == None then Some(0)
    else
      match FirstFree(slots[1..])
      case Some(k) => Some(k + 1)
      case None => None
  }

  predicate LedgerReady(s: State) {
    && s.ledger.host.Some? && s.ledger.host.value < |s.hosts|
    && Answering(s.hosts[s.ledger.host.value]) && FirstFree(s.ledger.slots).Some?
  }

  // ---------------------------------------------------------------- sessions

  function Remove(s: State, j: nat): State
    requires j < |s.sessions|
  {
    s.(sessions := RemoveAt(s.sessions, j))
  }

  /** Frees `slot` if it still holds `id`. */
  function FreeSlot(slots: seq<Option<nat>>, slot: Option<nat>, id: nat): seq<Option<nat>> {
    if slot.Some? && slot.value < |slots| && slots[slot.value] == Some(id) then slots[slot.value := None]
    else slots
  }

  function FreeStock(hosts: seq<Host>, x: Session): seq<Host> {
    if x.host.Some? && x.host.value < |hosts| then
      var h := x.host.value;
      hosts[h := hosts[h].(stock := FreeSlot(hosts[h].stock, x.stockSlot, x.id))]
    else hosts
  }

  function Release(s: State, j: nat): State
    requires j < |s.sessions|
  {
    var x := s.sessions[j];
    s.(hosts := FreeStock(s.hosts, x),
       ledger := s.ledger.(slots := FreeSlot(s.ledger.slots, x.ledgerSlot, x.id)),
       sessions := s.sessions[j := x.(stockSlot := None, ledgerSlot := None)])
  }

  function Refuse(s: State, j: nat): State
    requires j < |s.sessions|
  {
    Remove(s, j).(counters := s.counters.(refused := s.counters.refused + 1))
  }

  /** First position from `next` on whose host is worth trying, or the length. */
  function NextTryable(hosts: seq<Host>, order: seq<nat>, next: nat): nat
    decreases |order| - next
  {
    if next < |order| && !(order[next] < |hosts| && Tryable(hosts[order[next]]))
    then NextTryable(hosts, order, next + 1)
    else next
  }

  function Route(s: State, j: nat, from: Option<nat>): State
    requires j < |s.sessions|
  {
    var x := s.sessions[j];
    var next := NextTryable(s.hosts, x.order, x.next);
    if next >= |x.order| then Refuse(s, j)
    else
      var dur := if from == None then TRAVEL else BOUNCE;
      var y := x.(next := next, host := Some(x.order[next]), phase := Out, from := from, elapsed := 0.0, dur := dur);
      s.(sessions := s.sessions[j := y])
  }

  /** The stock slot a caller arriving at its host would get. */
  function StockOffer(hosts: seq<Host>, x: Session): Option<nat> {
    if x.host.Some? && x.host.value < |hosts| && Answering(hosts[x.host.value])
    then FirstFree(hosts[x.host.value].stock) else None
  }

  function ServiceTime(cfg: Config, draw: nat): real {
    Between(cfg.sessionLo, cfg.sessionHi, cfg.rand(draw))
  }

  /** The session is taken on: one stock slot, one Ledger slot, a service time. */
  function Accept(cfg: Config, s: State, j: nat, slot: nat, seat: nat): State
    requires j < |s.sessions|
    requires s.sessions[j].host.Some? && s.sessions[j].host.value < |s.hosts|
    requires slot < |s.hosts[s.sessions[j].host.value].stock| && seat < |s.ledger.slots|
  {
    var x := s.sessions[j];
    var h := x.host.value;
    var dur := ServiceTime(cfg, s.draws);
    var y := x.(stockSlot := Some(slot), ledgerSlot := Some(seat), ledgerHost := s.ledger.host,
                phase := Serve, elapsed := 0.0, dur := dur, epoch := s.ledger.resets);
    s.(hosts := s.hosts[h := s.hosts[h].(stock := s.hosts[h].stock[slot := Some(x.id)])],
       ledger := s.ledger.(slots := s.ledger.slots[seat := Some(x.id)]),
       sessions := s.sessions[j := y],
       draws := s.draws + 1)
  }

  function Arrive(cfg: Config, s: State, j: nat): State
    requires j < |s.sessions|
  {
    var x := s.sessions[j];
    match StockOffer(s.hosts, x)
    case None => Route(s.(sessions := s.sessions[j := x.(next := x.next + 1)]), j, x.host)
    case Some(slot) =>
      if !LedgerReady(s) then Refuse(s, j)
      else Accept(cfg, s, j, slot, FirstFree(s.ledger.slots).value)
  }

  // ---------------------------------------------------------------- failures

  predicate ServedBy(x: Session, i: nat) {
    x.phase == Serve && (x.host == Some(i) || x.ledgerHost == Some(i))
  }

  /** Release, removal and count of one cancelled session. */
  function CancelOne(s: State, j: nat): State
    requires j < |s.sessions|
  {
    Remove(Release(s, j), j).(counters := s.counters.(cancelled := s.counters.cancelled + 1))
  }

  /** Goes through the sessions from position `j` on; a cancelled one leaves the list, so
      the next one takes its position. */
  function CancelFrom(s: State, i: nat, j: nat): State
    decreases |s.sessions| - j
  {
    if j >= |s.sessions| then s
    else if ServedBy(s.sessions[j], i) then CancelFrom(CancelOne(s, j), i, j)
    else CancelFrom(s, i, j + 1)
  }

  function CancelOn(s: State, i: nat): State {
    CancelFrom(s, i, 0)
  }

  function SetHost(s: State, i: nat, h: Host): State
    requires i < |s.hosts|
  {
    s.(hosts := s.hosts[i := h])
  }

  /** Empties the Ledger seat, throwing its slots away, if host `i` holds it. */
  function VacateSeat(cfg: Config, s: State, i: nat): State {
    if s.ledger.host == Some(i) then
      s.(ledger := s.ledger.(host := None, slots := Slots(cfg.ledgerCapacity), resets := s.ledger.resets + 1))
    else s
  }

  function DeclareDead(cfg: Config, s: State, i: nat): State
    requires i < |s.hosts|
  {
    VacateSeat(cfg, CancelOn(SetHost(s, i, s.hosts[i].(status := Dead, silent := false)), i), i)
  }

  datatype Mode = Crash | Hang

  function SetMoveAt(s: State, i: nat, at: real): State {
    if s.ledger.host == Some(i) then s.(ledger := s.ledger.(moveAt := Some(at))) else s
  }

  function Kill(cfg: Config, s: State, i: nat, mode: Mode): State
    requires i < |s.hosts|
  {
    var h := s.hosts[i];
    if h.status != Up || h.silent then s
    else if mode == Hang then
      SetMoveAt(SetHost(s, i, h.(since := s.t, silent := true)), i, s.t + cfg.noticeS + cfg.suspectS)
    else
      DeclareDead(cfg, SetMoveAt(SetHost(s, i, h.(since := s.t)), i, s.t + cfg.suspectS), i)
  }

  function Revive(cfg: Config, s: State, i: nat): State
    requires i < |s.hosts|
  {
    var h := s.hosts[i];
    if (h.status == Up && !h.silent) || h.status == Restarting then s
    else
      var s2 := if h.status != Dead then DeclareDead(cfg, s, i) else s;
      if i < |s2.hosts| then SetHost(s2, i, s2.hosts[i].(status := Restarting, since := s2.t)) else s2
  }

  // ---------------------------------------------------------------- the Ledger seat

  predicate Counts(cfg: Config, t: real, h: Host) {
    h.books && Answering(h) && (h.upSince == None || t - h.upSince.value >= cfg.settleS)
  }

  /** Highest-ranked of the first `n` hosts that counts. */
  function Best(cfg: Config, t: real, hosts: seq<Host>, n: nat): Option<nat>
    requires n <= |hosts|
  {
    if n == 0 then None
    else if Counts(cfg, t, hosts[n - 1]) then Some(n - 1)
    else Best(cfg, t, hosts, n - 1)
  }

  function PlaceLedger(cfg: Config, s: State): State {
    match Best(cfg, s.t, s.hosts, |s.hosts|)
    case None => s
    case Some(best) =>
      match s.ledger.host
      case None =>
        if s.ledger.moveAt == None || s.t >= s.ledger.moveAt.value
        then s.(ledger := s.ledger.(host := Some(best), moveAt := None))
        else s
      case Some(holder) =>
        if best > holder then s.(ledger := s.ledger.(host := Some(best))) else s
  }

  // ---------------------------------------------------------------- one step

  /** A hung host falls under suspicion, ... */
  function Notice(cfg: Config, s: State, i: nat): State
    requires i < |s.hosts|
  {
    var h := s.hosts[i];
    if h.status == Up && h.silent && s.t - h.since >= cfg.noticeS
    then SetHost(s, i, h.(status := Suspect)) else s
  }

  /** ... a suspect is declared dead, ... */
  function GiveUp(cfg: Config, s: State, i: nat): State
    requires i < |s.hosts|
  {
    var h := s.hosts[i];
    if h.status == Suspect && s.t - h.since >= cfg.noticeS + cfg.suspectS
    then DeclareDead(cfg, s, i) else s
  }

  /** ... and a revived host comes up empty. */
  function ComeUp(cfg: Config, s: State, i: nat): State
    requires i < |s.hosts|
  {
    var h := s.hosts[i];
    if h.status == Restarting && s.t - h.since >= cfg.restartS
    then SetHost(s, i, h.(status := Up, incarnation := h.incarnation + 1, upSince := Some(s.t),
                          stock := Slots(cfg.stockCapacity)))
    else s
  }

  lemma {:induction false} CancelFromHosts(s: State, i: nat, j: nat)
    ensures |CancelFrom(s, i, j).hosts| == |s.hosts|
    decreases |s.sessions| - j
  {
    if j < |s.sessions| {
      if ServedBy(s.sessions[j], i) {
        CancelFromHosts(CancelOne(s, j), i, j);
      } else {
        CancelFromHosts(s, i, j + 1);
      }
    }
  }

  lemma DeclareDeadHosts(cfg: Config, s: State, i: nat)
    requires i < |s.hosts|
    ensures |DeclareDead(cfg, s, i).hosts| == |s.hosts|
  {
    CancelFromHosts(SetHost(s, i, s.hosts[i].(status := Dead, silent := false)), i, 0);
  }

  function HostStep(cfg: Config, s: State, i: nat): (r: State)
    requires i < |s.hosts|
    ensures |r.hosts| == |s.hosts|
  {
    var s1 := Notice(cfg, s, i);
    DeclareDeadHosts(cfg, s1, i);
    ComeUp(cfg, GiveUp(cfg, s1, i), i)
  }

  function HostsStep(cfg: Config, s: State, i: nat): State
    decreases |s.hosts| - i
  {
    if i >= |s.hosts| then s else HostsStep(cfg, HostStep(cfg, s, i), i + 1)
  }

  function Order(start: nat, n: nat): seq<nat>
    requires n > 0
  {
    seq(n, k requires 0 <= k < n => (start + k) % n)
  }

  /** A session that will try the `n` hosts in turn, starting at `rr`. */
  function NewSession(id: nat, rr: nat, n: nat): Session {
    Session(id, if n == 0 then [] else Order(rr % n, n), 0, None, None, None, None, Out, None, 0.0, TRAVEL, 0)
  }

  /** The state with a caller just put on the list, before it is sent anywhere. */
  function Listed(s: State): State {
    s.(acc := s.acc - 1.0, rr := s.rr + 1, nextId := s.nextId + 1,
       counters := s.counters.(started := s.counters.started + 1),
       sessions := s.sessions + [NewSession(s.nextId, s.rr, |s.hosts|)])
  }

  /** One caller: numbered, put on the list, sent to the next host in turn. */
  function Call(s: State): State {
    Route(Listed(s), |s.sessions|, None)
  }

  lemma CallClock(s: State)
    ensures Call(s).acc == s.acc - 1.0
  {
  }

  function Calls(s: State): State
    decreases s.acc.Floor
  {
    if s.acc >= 1.0 then
      CallClock(s);
      Calls(Call(s))
    else s
  }

  predicate Stalled(s: State, x: Session) {
    && x.phase == Serve
    && ((x.host.Some? && x.host.value < |s.hosts| && s.hosts[x.host.value].silent)
        || (x.ledgerHost.Some? && x.ledgerHost.value < |s.hosts| && s.hosts[x.ledgerHost.value].silent))
  }

  function Completed(s: State, j: nat): State
    requires j < |s.sessions|
  {
    Remove(s, j).(counters := s.counters.(completed := s.counters.completed + 1))
  }

  function GoBack(s: State, j: nat): State
    requires j < |s.sessions|
  {
    var s1 := Release(s, j);
    s1.(sessions := s1.sessions[j := s1.sessions[j].(phase := Back, elapsed := 0.0, dur := TRAVEL)])
  }

  /** One session, `dt` later. */
  function SessionStep(cfg: Config, s: State, j: nat, dt: real): State
    requires j < |s.sessions|
  {
    var x := s.sessions[j];
    if Stalled(s, x) then s
    else
      var s1 := s.(sessions := s.sessions[j := x.(elapsed := x.elapsed + dt)]);
      if x.elapsed + dt < x.dur then s1
      else
        match x.phase
        case Out => Arrive(cfg, s1, j)
        case Serve => GoBack(s1, j)
        case Back => Completed(s1, j)
  }

  lemma SessionStepSize(cfg: Config, s: State, j: nat, dt: real)
    requires j < |s.sessions|
    ensures |s.sessions| - 1 <= |SessionStep(cfg, s, j, dt).sessions| <= |s.sessions|
  {
  }

  /** Goes through the sessions from position `j` on; one that leaves the list hands its
      position to the next. */
  function SessionsStep(cfg: Config, s: State, j: nat, dt: real): State
    decreases |s.sessions| - j
  {
    if j >= |s.sessions| then s
    else
      SessionStepSize(cfg, s, j, dt);
      var s1 := SessionStep(cfg, s, j, dt);
      if |s1.sessions| < |s.sessions| then SessionsStep(cfg, s1, j, dt)
      else SessionsStep(cfg, s1, j + 1, dt)
  }

  /** The clock moves and the hosts follow, ... */
  function AfterHosts(cfg: Config, s: State, dt: real): State {
    HostsStep(cfg, s.(t := s.t + dt), 0)
  }

  /** ... the Ledger seat is settled and the load grows, ... */
  function AfterSeat(cfg: Config, s: State, dt: real): State {
    var s1 := PlaceLedger(cfg, AfterHosts(cfg, s, dt));
    s1.(acc := s1.acc + dt * cfg.loadPerS)
  }

  /** ... callers set out, and sessions move on. */
  function Step(cfg: Config, s: State, dt0: real): State {
    var dt := Capped(dt0);
    SessionsStep(cfg, Calls(AfterSeat(cfg, s, dt)), 0, dt)
  }

  // ---------------------------------------------------------------- runs

  datatype Event = Tick(dt: real) | Fail(host: nat, mode: Mode) | Return(host: nat)

  /** One call of `step`, `kill` or `revive`; hosts are named by index. */
  function Apply(cfg: Config, s: State, e: Event): State {
    match e
    case Tick(dt) => Step(cfg, s, dt)
    case Fail(i, mode) => if i < |s.hosts| then Kill(cfg, s, i, mode) else s
    case Return(i) => if i < |s.hosts| then Revive(cfg, s, i) else s
  }

  function Run(cfg: Config, s: State, events: seq<Event>): State
    decreases |events|
  {
    if events == [] then s else Run(cfg, Apply(cfg, s, events[0]), events[1..])
  }
}
