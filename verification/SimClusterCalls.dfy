/** The sessions of the cluster simulation against their rules: which hosts a caller tries
    and in what order, what decides between a place, the next host and a refusal, how long
    each way and each service takes, and how many callers set out. */
module SimClusterCalls {
  import opened Options
  import opened Simulations
  import opened SimCluster
  import opened SimClusterSafety
  import opened SimClusterOrphans
  import opened SimClusterCounts
  import opened SimClusterHosts
  import opened Clocks

  // ---------------------------------------------------------------- hosts as a caller finds them

  /** Worth trying: up, as far as anyone knows, or under suspicion. */
  ghost predicate Worth(hosts: seq<Host>, i: nat) {
    i < |hosts| && (hosts[i].status == Up || hosts[i].status == Suspect)
  }

  ghost predicate Open(hosts: seq<Host>, h: Option<nat>) {
    h.Some? && h.value < |hosts| && hosts[h.value].status == Up && !hosts[h.value].silent
  }

  ghost predicate Hung(hosts: seq<Host>, h: Option<nat>) {
    h.Some? && h.value < |hosts| && hosts[h.value].silent
  }

  ghost predicate Down(hosts: seq<Host>, h: Option<nat>) {
    h.Some? && h.value < |hosts| && (hosts[h.value].status == Dead || hosts[h.value].status == Restarting)
  }

  /** `k` is the first free slot. */
  ghost predicate Lowest(slots: seq<Option<nat>>, k: nat) {
    k < |slots| && slots[k] == None && forall j :: 0 <= j < k ==> slots[j].Some?
  }

  ghost predicate Full(slots: seq<Option<nat>>) {
    forall j :: 0 <= j < |slots| ==> slots[j].Some?
  }

  // ---------------------------------------------------------------- a caller at a host

  /** Session `y` is `x` on its way from its host to the next one worth trying. */
  ghost predicate Bounced(hosts: seq<Host>, x: Session, y: Session) {
    && x.next < y.next < |x.order| && Worth(hosts, x.order[y.next])
    && (forall k :: x.next < k < y.next ==> !Worth(hosts, x.order[k]))
    && y == x.(next := y.next, host := Some(x.order[y.next]), from := x.host, phase := Out, elapsed := 0.0, dur := 0.2)
  }

  ghost predicate NoneWorth(hosts: seq<Host>, order: seq<nat>, from: nat) {
    forall k :: from <= k < |order| ==> !Worth(hosts, order[k])
  }

  /** The k-th service takes a time drawn between the two bounds. */
  function Service(cfg: Config, k: nat): real {
    cfg.sessionLo + cfg.rand(k) * (cfg.sessionHi - cfg.sessionLo)
  }

  lemma {:induction false} FirstFreeIs(slots: seq<Option<nat>>)
    ensures match FirstFree(slots)
            case Some(k) => Lowest(slots, k)
            case None => Full(slots)
  {
    if slots != [] && slots[0] != None {
      FirstFreeIs(slots[1..]);
      assert forall j :: 0 < j < |slots| ==> slots[j] == slots[1..][j - 1];
    }
  }

  lemma NextWorth(hosts: seq<Host>, order: seq<nat>, next: nat)
    ensures var r := NextTryable(hosts, order, next);
            && r >= next && (r < |order| ==> Worth(hosts, order[r]))
            && forall k :: next <= k < r && k < |order| ==> !Worth(hosts, order[k])
  {
    NextTryableIs(hosts, order, next);
  }

  /** What becomes of session `j` when it reaches its host: a place there and at the Ledger,
      the first free one of each, and a service time of its own; or the way to the next host
      worth trying; or a refusal. */
  ghost predicate Arrived(cfg: Config, s: State, r: State, j: nat)
    requires j < |s.sessions|
  {
    var x := s.sessions[j];
    if !Open(s.hosts, x.host) || Full(s.hosts[x.host.value].stock) then
      if NoneWorth(s.hosts, x.order, x.next + 1) then Turns(s, r, j)
      else
        && |r.sessions| == |s.sessions| && Bounced(s.hosts, x, r.sessions[j])
        && r == s.(sessions := s.sessions[j := r.sessions[j]])
    else if !Open(s.hosts, s.ledger.host) || Full(s.ledger.slots) then Turns(s, r, j)
    else |r.sessions| == |s.sessions| && Placed(cfg, s, r, j, r.sessions[j])
  }

  ghost predicate Turns(s: State, r: State, j: nat)
    requires j < |s.sessions|
  {
    r == s.(sessions := RemoveAt(s.sessions, j), counters := s.counters.(refused := s.counters.refused + 1))
  }

  /** Session `j` is served as `y`. */
  ghost predicate Placed(cfg: Config, s: State, r: State, j: nat, y: Session)
    requires j < |s.sessions| && Open(s.hosts, s.sessions[j].host)
  {
    var x := s.sessions[j];
    var h := x.host.value;
    && y.stockSlot.Some? && Lowest(s.hosts[h].stock, y.stockSlot.value)
    && y.ledgerSlot.Some? && Lowest(s.ledger.slots, y.ledgerSlot.value)
    && y == x.(phase := Serve, elapsed := 0.0, dur := Service(cfg, s.draws), stockSlot := y.stockSlot,
               ledgerSlot := y.ledgerSlot, ledgerHost := s.ledger.host, epoch := s.ledger.resets)
    && r == s.(hosts := s.hosts[h := s.hosts[h].(stock := s.hosts[h].stock[y.stockSlot.value := Some(x.id)])],
               ledger := s.ledger.(slots := s.ledger.slots[y.ledgerSlot.value := Some(x.id)]),
               sessions := s.sessions[j := y], draws := s.draws + 1)
  }

  lemma BounceIs(s: State, j: nat)
    requires j < |s.sessions| && s.sessions[j].phase == Out
    ensures var x := s.sessions[j];
            var r := Route(s.(sessions := s.sessions[j := x.(next := x.next + 1)]), j, x.host);
            if NoneWorth(s.hosts, x.order, x.next + 1) then Turns(s, r, j)
            else x.host.Some? ==>
              && |r.sessions| == |s.sessions| && Bounced(s.hosts, x, r.sessions[j])
              && r == s.(sessions := s.sessions[j := r.sessions[j]])
  {
    hide Worth;
    var x := s.sessions[j];
    var s1 := s.(sessions := s.sessions[j := x.(next := x.next + 1)]);
    NextWorth(s.hosts, x.order, x.next + 1);
    var next := NextTryable(s.hosts, x.order, x.next + 1);
    if next >= |x.order| {
      assert RemoveAt(s1.sessions, j) == RemoveAt(s.sessions, j);
    } else {
      assert Worth(s.hosts, x.order[next]);
      assert s1.sessions[j := Route(s1, j, x.host).sessions[j]] == s.sessions[j := Route(s1, j, x.host).sessions[j]];
    }
  }

  lemma AcceptIs(cfg: Config, s: State, j: nat, slot: nat, seat: nat)
    requires j < |s.sessions| && Open(s.hosts, s.sessions[j].host)
    requires Lowest(s.hosts[s.sessions[j].host.value].stock, slot) && Lowest(s.ledger.slots, seat)
    ensures var r := Accept(cfg, s, j, slot, seat);
            |r.sessions| == |s.sessions| && Placed(cfg, s, r, j, r.sessions[j])
  {
    assert ServiceTime(cfg, s.draws) == Service(cfg, s.draws);
    hide ServiceTime, Service, Lowest;
  }

  lemma ArriveIs(cfg: Config, s: State, j: nat)
    requires j < |s.sessions| && s.sessions[j].phase == Out && s.sessions[j].host.Some?
    ensures Arrived(cfg, s, Arrive(cfg, s, j), j)
  {
    hide Route, Accept, FirstFree, Placed, Bounced, NoneWorth, Turns;
    var x := s.sessions[j];
    if x.host.value < |s.hosts| { OfferIs(s.hosts[x.host.value].stock); }
    OfferIs(s.ledger.slots);
    BounceIs(s, j);
    RefuseIs(s, j);
    match StockOffer(s.hosts, x)
    case None =>
    case Some(slot) => if LedgerReady(s) { AcceptIs(cfg, s, j, slot, FirstFree(s.ledger.slots).value); }
  }

  lemma OfferIs(slots: seq<Option<nat>>)
    ensures FirstFree(slots).None? <==> Full(slots)
    ensures FirstFree(slots).Some? ==> Lowest(slots, FirstFree(slots).value)
  {
    FirstFreeIs(slots);
  }

  lemma RefuseIs(s: State, j: nat)
    requires j < |s.sessions|
    ensures Turns(s, Refuse(s, j), j)
  {
  }

  // ---------------------------------------------------------------- a session in a frame

  /** Session `y` is `x` after a frame of `d` that ends in state `r`: waiting while a host that
      serves it hangs, further on its way or with its service, or, its time being up, served,
      on the way to another host, or on its way back. */
  ghost predicate Follows(r: State, x: Session, y: Session, d: real) {
    if x.phase == Serve && (Hung(r.hosts, x.host) || Hung(r.hosts, x.ledgerHost)) then y == x
    else if x.elapsed + d < x.dur then y == x.(elapsed := x.elapsed + d)
    else
      match x.phase
      case Out => Taken(r, x, y) || Bounced(r.hosts, x, y)
      case Serve => y == x.(phase := Back, elapsed := 0.0, dur := 0.4, stockSlot := None, ledgerSlot := None)
      case Back => false
  }

  ghost predicate Taken(r: State, x: Session, y: Session) {
    && Open(r.hosts, x.host) && Open(r.hosts, r.ledger.host) && y.stockSlot.Some? && y.ledgerSlot.Some?
    && y == x.(phase := Serve, elapsed := 0.0, dur := y.dur, stockSlot := y.stockSlot, ledgerSlot := y.ledgerSlot,
               ledgerHost := r.ledger.host, epoch := r.ledger.resets)
  }

  /** Only the Stock slots, the Ledger slots and the sessions tell two states apart. */
  lemma FollowsSame(a: State, r: State, x: Session, y: Session, d: real)
    requires SameSeat(a, r) && Follows(a, x, y, d)
    ensures Follows(r, x, y, d)
  {
    SameHosts(a, r);
    hide SameSeat;
  }

  lemma SameHosts(a: State, r: State)
    requires SameSeat(a, r)
    ensures r.ledger.host == a.ledger.host && r.ledger.resets == a.ledger.resets
    ensures forall i: nat :: Worth(r.hosts, i) <==> Worth(a.hosts, i)
    ensures forall h :: (Open(r.hosts, h) <==> Open(a.hosts, h)) && (Hung(r.hosts, h) <==> Hung(a.hosts, h))
                        && (Down(r.hosts, h) <==> Down(a.hosts, h))
  {
    assert forall i :: 0 <= i < |a.hosts| ==> r.hosts[i] == a.hosts[i].(stock := r.hosts[i].stock);
  }

  /** The session's time is up. */
  predicate Over(x: Session, d: real) {
    x.elapsed + d >= x.dur
  }

  lemma AgedArrives(cfg: Config, s: State, j: nat, d: real)
    requires j < |s.sessions| && s.sessions[j].phase == Out && s.sessions[j].host.Some? && Over(s.sessions[j], d)
    ensures var x := s.sessions[j];
            var r := Arrive(cfg, s.(sessions := s.sessions[j := x.(elapsed := x.elapsed + d)]), j);
            if |r.sessions| < |s.sessions| then r.sessions == RemoveAt(s.sessions, j)
            else |r.sessions| == |s.sessions| && Follows(s, x, r.sessions[j], d) && r.sessions == s.sessions[j := r.sessions[j]]
  {
    hide Arrive, Worth, Lowest, Full, NoneWorth, Service;
    var x := s.sessions[j];
    var s1 := s.(sessions := s.sessions[j := x.(elapsed := x.elapsed + d)]);
    ArriveIs(cfg, s1, j);
    var r := Arrive(cfg, s1, j);
    assert RemoveAt(s1.sessions, j) == RemoveAt(s.sessions, j);
    if |r.sessions| == |s.sessions| { assert s1.sessions[j := r.sessions[j]] == s.sessions[j := r.sessions[j]]; }
  }

  /** One session, one frame. */
  lemma OneFollows(cfg: Config, s: State, j: nat, d: real)
    requires j < |s.sessions| && s.sessions[j].host.Some?
    ensures var x, r := s.sessions[j], SessionStep(cfg, s, j, d);
            && (|| (|r.sessions| == |s.sessions| && r.sessions == s.sessions[j := r.sessions[j]]
                    && Follows(s, x, r.sessions[j], d))
                || (r.sessions == RemoveAt(s.sessions, j) && x.phase != Serve && Over(x, d)))
            && (x.phase == Back ==> (|r.sessions| == |s.sessions| <==> !Over(x, d)))
  {
    hide Arrive, Taken, Bounced;
    var x := s.sessions[j];
    StalledIs(s, x);
    if x.phase == Out && Over(x, d) {
      AgedArrives(cfg, s, j, d);
    } else if x.phase == Serve && !Stalled(s, x) && Over(x, d) {
      BackIs(cfg, s, j, d);
    } else if x.phase == Back && Over(x, d) {
      EndIs(cfg, s, j, d);
    }
  }

  lemma StalledIs(s: State, x: Session)
    ensures Stalled(s, x) <==> x.phase == Serve && (Hung(s.hosts, x.host) || Hung(s.hosts, x.ledgerHost))
  {
  }

  lemma BackIs(cfg: Config, s: State, j: nat, d: real)
    requires j < |s.sessions| && s.sessions[j].phase == Serve && !Stalled(s, s.sessions[j]) && Over(s.sessions[j], d)
    ensures var x, r := s.sessions[j], SessionStep(cfg, s, j, d);
            && |r.sessions| == |s.sessions|
            && r.sessions == s.sessions[j := x.(phase := Back, elapsed := 0.0, dur := 0.4, stockSlot := None, ledgerSlot := None)]
  {
    hide FreeStock, FreeSlot;
  }

  lemma EndIs(cfg: Config, s: State, j: nat, d: real)
    requires j < |s.sessions| && s.sessions[j].phase == Back && Over(s.sessions[j], d)
    ensures SessionStep(cfg, s, j, d).sessions == RemoveAt(s.sessions, j)
  {
    var x := s.sessions[j];
    assert RemoveAt(s.sessions[j := x.(elapsed := x.elapsed + d)], j) == RemoveAt(s.sessions, j);
  }

  // ---------------------------------------------------------------- all sessions in a frame

  lemma {:induction false} Prefix(cfg: Config, s: State, j: nat, d: real)
    requires j <= |s.sessions|
    ensures s.sessions[..j] <= SessionsStep(cfg, s, j, d).sessions
    decreases |s.sessions| - j
  {
    hide SessionStep;
    if j < |s.sessions| {
      SessionStepSize(cfg, s, j, d);
      SessionStepMoves(cfg, s, j, d);
      var next := SessionStep(cfg, s, j, d);
      PrefixKept(s, j, next);
      if |next.sessions| < |s.sessions| {
        Prefix(cfg, next, j, d);
      } else {
        Prefix(cfg, next, j + 1, d);
        assert s.sessions[..j] <= next.sessions[..j + 1];
      }
    }
  }

  lemma PrefixKept(s: State, j: nat, r: State)
    requires j < |s.sessions| && MovesOn(s, j, r)
    ensures j <= |r.sessions| && r.sessions[..j] == s.sessions[..j]
    ensures |r.sessions| == |s.sessions| - 1 || |r.sessions| == |s.sessions|
    ensures forall k :: j < k < |s.sessions| ==> s.sessions[k] == r.sessions[if |r.sessions| < |s.sessions| then k - 1 else k]
    ensures |r.sessions| < |s.sessions| ==> r.sessions == RemoveAt(s.sessions, j)
  {
  }

  /** Session `x` of `s` in `r`: gone, or further on. */
  ghost predicate Became(s: State, r: State, x: Session, d: real) {
    && (x.id in Ids(r.sessions) ==> exists y :: y in r.sessions && y.id == x.id && Follows(s, x, y, d))
    && (x.id !in Ids(r.sessions) ==> x.phase != Serve && Over(x, d))
    && (x.phase == Back ==> (x.id in Ids(r.sessions) <==> !Over(x, d)))
  }

  lemma BecameSame(a: State, s: State, r: State, x: Session, d: real)
    requires SameSeat(s, a) && Became(a, r, x, d)
    ensures Became(s, r, x, d)
  {
    hide SameSeat, Follows;
    if x.id in Ids(r.sessions) {
      var y :| y in r.sessions && y.id == x.id && Follows(a, x, y, d);
      SameBack(s, a);
      FollowsSame(a, s, x, y, d);
    }
  }

  lemma SameBack(a: State, b: State)
    requires SameSeat(a, b)
    ensures SameSeat(b, a)
  {
    forall i | 0 <= i < |a.hosts| ensures a.hosts[i] == b.hosts[i].(stock := a.hosts[i].stock) {
      assert b.hosts[i] == a.hosts[i].(stock := b.hosts[i].stock);
    }
  }

  lemma HostSet(cfg: Config, s: State, j: nat)
    requires Core(cfg, s, -1) && j < |s.sessions|
    ensures s.sessions[j].host.Some?
  {
    assert SessionOk(s, s.sessions[j], -1);
  }

  /** The session whose turn it is. */
  lemma TurnFollows(cfg: Config, s: State, j: nat, d: real)
    requires Core(cfg, s, -1) && j < |s.sessions|
    ensures Became(s, SessionsStep(cfg, s, j, d), s.sessions[j], d)
  {
    hide Core, SessionStep, Follows, Ended;
    var x, next, r := s.sessions[j], SessionStep(cfg, s, j, d), SessionsStep(cfg, s, j, d);
    HostSet(cfg, s, j);
    CoreRises(cfg, s);
    OneFollows(cfg, s, j, d);
    SessionStepSize(cfg, s, j, d);
    SessionStepKeeps(cfg, s, j, d);
    SessionStepMoves(cfg, s, j, d);
    if |next.sessions| < |s.sessions| {
      assert r == SessionsStep(cfg, next, j, d);
      SessionsEnd(cfg, next, j, d);
      EndedIds(next, r, j);
      InRemovedOut(s.sessions, j);
    } else {
      assert r == SessionsStep(cfg, next, j + 1, d);
      Prefix(cfg, next, j + 1, d);
      var y := next.sessions[j];
      assert r.sessions[..j + 1][j] == y && y in r.sessions;
      MovedId(s, j, next);
    }
  }

  lemma MovedId(s: State, j: nat, r: State)
    requires j < |s.sessions| && MovesOn(s, j, r) && |r.sessions| == |s.sessions|
    ensures r.sessions[j].id == s.sessions[j].id
  {
  }

  lemma InRemovedOut(xs: seq<Session>, j: nat)
    requires Rising(xs) && j < |xs|
    ensures xs[j].id !in Ids(RemoveAt(xs, j))
  {
    InRemoved(xs, j);
  }

  lemma EndedIds(a: State, b: State, j: nat)
    requires Ended(a, b, j)
    ensures Ids(b.sessions) <= Ids(a.sessions)
  {
  }

  lemma {:induction false} SessionsFollow(cfg: Config, s: State, j: nat, d: real, k: nat)
    requires Core(cfg, s, -1) && j <= k < |s.sessions|
    ensures Became(s, SessionsStep(cfg, s, j, d), s.sessions[k], d)
    decreases |s.sessions| - j
  {
    hide Core, SessionStep, Became, SameSeat, MovesOn;
    if k == j {
      TurnFollows(cfg, s, j, d);
    } else {
      var next := SessionStep(cfg, s, j, d);
      SessionStepSize(cfg, s, j, d);
      SessionStepKeeps(cfg, s, j, d);
      SessionStepMoves(cfg, s, j, d);
      SessionStepSeat(cfg, s, j, d);
      PrefixKept(s, j, next);
      if |next.sessions| < |s.sessions| {
        SessionsFollow(cfg, next, j, d, k - 1);
      } else {
        SessionsFollow(cfg, next, j + 1, d, k);
      }
      BecameSame(next, s, SessionsStep(cfg, s, j, d), s.sessions[k], d);
    }
  }

  // ---------------------------------------------------------------- who is cancelled in a frame

  lemma OneHostCancels(cfg: Config, s: State, i: nat, x: Session)
    requires Inv(cfg, s) && i < |s.hosts| && x in s.sessions && x !in HostStep(cfg, s, i).sessions
    ensures ServedBy(x, i) && HostStep(cfg, s, i).hosts[i].status == Dead
  {
    hide Core, DeclareDead;
    var s1 := Notice(cfg, s, i);
    NoticeKeeps(cfg, s, i);
    DeclareDeadKeeps(cfg, s1, i);
    DeclareDeadCancels(cfg, s1, i, x);
  }

  lemma {:induction false} HostsCancel(cfg: Config, s: State, i: nat, x: Session)
    requires Inv(cfg, s) && x in s.sessions && x !in HostsStep(cfg, s, i).sessions
    ensures x.phase == Serve
    ensures Down(HostsStep(cfg, s, i).hosts, x.host) || Down(HostsStep(cfg, s, i).hosts, x.ledgerHost)
    decreases |s.hosts| - i
  {
    hide Inv, HostStep;
    if i < |s.hosts| {
      var next := HostStep(cfg, s, i);
      OneHostSeat(cfg, s, i);
      if x !in next.sessions {
        OneHostCancels(cfg, s, i, x);
        HostsStepSeat(cfg, next, i + 1);
      } else {
        HostsCancel(cfg, next, i + 1, x);
      }
    }
  }

  lemma ServedAlive(cfg: Config, s: State, x: Session)
    requires Inv(cfg, s) && x in s.sessions && x.phase == Serve
    ensures !Down(s.hosts, x.host) && !Down(s.hosts, x.ledgerHost)
  {
    assert SessionOk(s, x, -1);
  }

  // ---------------------------------------------------------------- callers setting out

  /** The hosts in turn, the first of them the caller's own: the n-th caller's is host
      `n - 1`, counted around. */
  ghost predicate InTurn(order: seq<nat>, n: nat, id: nat) {
    && |order| == n && id >= 1 && (n > 0 ==> order[0] == (id - 1) % n)
    && forall j :: 0 < j < n ==> order[j] == if order[j - 1] + 1 == n then 0 else order[j - 1] + 1
  }

  /** Session `x` is a caller on its way for `e` seconds: it tries the hosts in turn, from its
      own on, and is on its way to the first worth trying. */
  ghost predicate Caller(hosts: seq<Host>, x: Session, e: real) {
    && InTurn(x.order, |hosts|, x.id)
    && x.next < |hosts| && Worth(hosts, x.order[x.next]) && (forall j :: 0 <= j < x.next ==> !Worth(hosts, x.order[j]))
    && x == Session(x.id, x.order, x.next, Some(x.order[x.next]), None, None, None, Out, None, e, 0.4, 0)
  }

  ghost predicate SomeWorth(hosts: seq<Host>) {
    exists i :: 0 <= i < |hosts| && Worth(hosts, i)
  }

  lemma OrderIs(rr: nat, n: nat)
    requires n > 0
    ensures InTurn(Order(rr % n, n), n, rr + 1)
  {
    var a := rr % n;
    forall j | 0 <= j < n ensures Order(a, n)[j] == if a + j < n then a + j else a + j - n { ModWrap(a + j, n); }
  }

  lemma OrderCovers(hosts: seq<Host>, rr: nat)
    requires SomeWorth(hosts)
    ensures exists j :: 0 <= j < |hosts| && Worth(hosts, Order(rr % |hosts|, |hosts|)[j])
  {
    var n := |hosts|;
    var i :| 0 <= i < n && Worth(hosts, i);
    var a := rr % n;
    var j := if i >= a then i - a else i + n - a;
    ModWrap(a + j, n);
    assert Order(a, n)[j] == i;
  }

  lemma CallIs(s: State)
    requires s.rr + 1 == s.nextId
    ensures var r := Call(s);
            && r.hosts == s.hosts && r.rr + 1 == r.nextId == s.nextId + 1
            && (if SomeWorth(s.hosts)
                then exists y :: r.sessions == s.sessions + [y] && y.id == s.nextId && Caller(s.hosts, y, 0.0)
                else r.sessions == s.sessions)
  {
    hide Worth, InTurn, Order;
    var l, j, n := Listed(s), |s.sessions|, |s.hosts|;
    var x := l.sessions[j];
    NextWorth(s.hosts, x.order, 0);
    if n > 0 { OrderIs(s.rr, n); }
    if SomeWorth(s.hosts) {
      OrderCovers(s.hosts, s.rr);
      var y := Call(s).sessions[j];
      assert Call(s).sessions == s.sessions + [y];
      assert Caller(s.hosts, y, 0.0);
    } else {
      assert RemoveAt(l.sessions, j) == s.sessions;
    }
  }

  ghost predicate OutAt(a: State, c: State, k: nat) {
    var j := |a.sessions| + k;
    j < |c.sessions| && c.sessions[j].id == a.nextId + k && Caller(a.hosts, c.sessions[j], 0.0)
  }

  /** The callers of `c` beyond those of `a`, one for each number. */
  ghost predicate AllOut(a: State, c: State) {
    && c.hosts == a.hosts && a.nextId <= c.nextId && c.rr + 1 == c.nextId
    && (if SomeWorth(a.hosts)
        then |c.sessions| == |a.sessions| + c.nextId - a.nextId && a.sessions <= c.sessions
             && forall k :: 0 <= k < c.nextId - a.nextId ==> OutAt(a, c, k)
        else c.sessions == a.sessions)
  }

  lemma {:induction false} CallsOut(s: State)
    requires s.rr + 1 == s.nextId
    ensures AllOut(s, Calls(s))
    decreases s.acc.Floor
  {
    hide Call, Caller, SomeWorth;
    if s.acc >= 1.0 {
      CallIs(s);
      CallClock(s);
      CallsOut(Call(s));
      OutTwice(s, Call(s), Calls(Call(s)));
    }
  }

  lemma OutTwice(s: State, m: State, c: State)
    requires AllOut(m, c) && m.hosts == s.hosts && m.rr + 1 == m.nextId == s.nextId + 1
    requires if SomeWorth(s.hosts)
             then exists y :: m.sessions == s.sessions + [y] && y.id == s.nextId && Caller(s.hosts, y, 0.0)
             else m.sessions == s.sessions
    ensures AllOut(s, c)
  {
    hide Caller, SomeWorth;
    if SomeWorth(s.hosts) {
      var y :| m.sessions == s.sessions + [y] && y.id == s.nextId && Caller(s.hosts, y, 0.0);
      assert m.sessions == c.sessions[..|m.sessions|];
      assert c.sessions[|s.sessions|] == y;
      forall k | 0 <= k < c.nextId - s.nextId ensures OutAt(s, c, k) {
        if k > 0 { assert OutAt(m, c, k - 1); }
      }
    }
  }

  // ---------------------------------------------------------------- one frame

  /** The state `c` in which a frame's sessions move on: after the hosts, the seat and the
      callers. */
  lemma StepParts(cfg: Config, s: State, dt: real) returns (a: State, c: State)
    requires Inv(cfg, s)
    ensures Inv(cfg, a) && Inv(cfg, c) && Inv(cfg, Step(cfg, s, dt)) && NewOut(a, c) && SameSeat(c, Step(cfg, s, dt))
    ensures a == AfterSeat(cfg, s, Frame(dt)) && c == Calls(a) && Step(cfg, s, dt) == SessionsStep(cfg, c, 0, Frame(dt))
    ensures Ended(c, Step(cfg, s, dt), 0) && Frame(dt) <= 0.1 && a.hosts == c.hosts
    ensures a.sessions == HostsStep(cfg, s.(t := s.t + Frame(dt)), 0).sessions
    ensures a.hosts == HostsStep(cfg, s.(t := s.t + Frame(dt)), 0).hosts
  {
    hide Inv, AfterSeat, Calls, SessionsStep, NewOut, SameSeat, Ended, HostsStep, BelowNext;
    var d := Frame(dt);
    a := AfterSeat(cfg, s, d);
    c := Calls(a);
    AfterSeatKeeps(cfg, s, d);
    CallsKeeps(cfg, a);
    InvRises(cfg, a);
    CallsSetOut(a);
    InvCore(cfg, c);
    SessionsStepKeeps(cfg, c, 0, d);
    SessionsEnd(cfg, c, 0, d);
    StepTail(cfg, s, dt);
    SeatSame(cfg, s, d);
    SeatHosts(cfg, s, d);
  }

  lemma FromNewOut(a: State, c: State, k: nat)
    requires NewOut(a, c) && k < |a.sessions|
    ensures k < |c.sessions| && c.sessions[k] == a.sessions[k]
  {
  }

  /** A session that the hosts have left alone. */
  lemma KeptFollows(cfg: Config, s: State, dt: real, x: Session)
    requires Inv(cfg, s) && x in HostsStep(cfg, s.(t := s.t + Frame(dt)), 0).sessions
    ensures var r := Step(cfg, s, dt);
            && (x.phase == Serve ==> !Down(r.hosts, x.host) && !Down(r.hosts, x.ledgerHost))
            && Became(r, r, x, Frame(dt))
  {
    hide Inv, HostsStep, Step, Became, Down, SameSeat, Ended, NewOut;
    var a, c := StepParts(cfg, s, dt);
    var r := Step(cfg, s, dt);
    var k :| 0 <= k < |a.sessions| && a.sessions[k] == x;
    FromNewOut(a, c, k);
    InvCore(cfg, c);
    SessionsFollow(cfg, c, 0, Frame(dt), k);
    SameBack(c, r);
    BecameSame(c, r, r, x, Frame(dt));
    if x.phase == Serve {
      ServedAlive(cfg, a, x);
      SameHosts(c, r);
    }
  }

  /** What a frame does to a session: cancelled while served exactly if a host that serves it
      is dead after it, answered on its way back exactly if its time is up, turned away only
      when it reaches a host; and otherwise further on. */
  lemma StepFollows(cfg: Config, s: State, dt: real, x: Session)
    requires Inv(cfg, s) && x in s.sessions
    ensures var r, d := Step(cfg, s, dt), Frame(dt);
            && (x.phase == Serve ==> (x.id in Ids(r.sessions) <==> !Down(r.hosts, x.host) && !Down(r.hosts, x.ledgerHost)))
            && (x.phase == Back ==> (x.id in Ids(r.sessions) <==> x.elapsed + d < x.dur))
            && (x.phase == Out && x.elapsed + d < x.dur ==> x.id in Ids(r.sessions))
            && (x.id in Ids(r.sessions) ==> exists y :: y in r.sessions && y.id == x.id && Follows(r, x, y, d))
  {
    hide Inv, HostsStep, Step, SameSeat, Ended, NewOut, Follows, Rising, BelowNext, Down;
    var s0 := s.(t := s.t + Frame(dt));
    if x in HostsStep(cfg, s0, 0).sessions {
      KeptFollows(cfg, s, dt, x);
    } else {
      GoneFollows(cfg, s, dt, x);
    }
  }

  lemma GoneFollows(cfg: Config, s: State, dt: real, x: Session)
    requires Inv(cfg, s) && x in s.sessions && x !in HostsStep(cfg, s.(t := s.t + Frame(dt)), 0).sessions
    ensures var r := Step(cfg, s, dt);
            x.phase == Serve && x.id !in Ids(r.sessions) && (Down(r.hosts, x.host) || Down(r.hosts, x.ledgerHost))
  {
    hide Inv, HostsStep, Step, SameSeat, Ended, NewOut, Follows, Rising, BelowNext, Down, Cut;
    var a, c := StepParts(cfg, s, dt);
    var r, s0 := Step(cfg, s, dt), s.(t := s.t + Frame(dt));
    ClockKeeps(cfg, s, s.t + Frame(dt), s.acc);
    HostsCancel(cfg, s0, 0, x);
    SameHosts(c, r);
    InvRises(cfg, s);
    AfterSeatCuts(cfg, s, Frame(dt));
    NotAgain(s, a, c, x);
    EndedIds(c, r, 0);
  }

  lemma NotAgain(s: State, a: State, c: State, x: Session)
    requires Rising(s.sessions) && BelowNext(s) && Cut(s, a) && NewOut(a, c) && x in s.sessions && x !in a.sessions
    ensures x.id !in Ids(c.sessions)
  {
    IdsPrefix(a, c);
    if x.id in Ids(a.sessions) {
      var y :| y in a.sessions && y.id == x.id;
      SameId(s.sessions, x, y);
    }
  }

  lemma AfterSeatTurn(cfg: Config, s: State, d: real)
    requires Inv(cfg, s)
    ensures var a := AfterSeat(cfg, s, d); a.rr == s.rr && a.nextId == s.nextId && a.draws == s.draws
  {
    hide Inv, AfterSeat;
    AfterSeatCuts(cfg, s, d);
  }

  /** The callers of a frame: each number of it is on its way to the first host worth trying,
      in its own turn, or turned away if there is none. */
  lemma StepCallers(cfg: Config, s: State, dt: real, id: nat)
    requires Inv(cfg, s) && s.rr + 1 == s.nextId
    ensures var r := Step(cfg, s, dt);
            && r.rr + 1 == r.nextId
            && (s.nextId <= id < r.nextId ==>
                  if SomeWorth(r.hosts) then exists y :: y in r.sessions && y.id == id && Caller(r.hosts, y, Frame(dt))
                  else id !in Ids(r.sessions))
  {
    hide Inv, Step, SameSeat, NewOut, Ended, HostsStep, Caller, AfterSeat, Calls, SessionsStep, SomeWorth, AllOut;
    var a, c := StepParts(cfg, s, dt);
    var r, d := Step(cfg, s, dt), Frame(dt);
    AfterSeatTurn(cfg, s, d);
    CallsOut(a);
    SessionsTurn(cfg, c, 0, d);
    OutTurn(a, c);
    if s.nextId <= id < r.nextId { CallerFollows(cfg, a, c, d, id); }
  }

  lemma OutTurn(a: State, c: State)
    requires AllOut(a, c)
    ensures c.rr + 1 == c.nextId >= a.nextId
  {
  }

  lemma CallerFollows(cfg: Config, a: State, c: State, d: real, id: nat)
    requires Inv(cfg, a) && Inv(cfg, c) && AllOut(a, c) && a.nextId <= id < c.nextId && d <= 0.1
    ensures var r := SessionsStep(cfg, c, 0, d);
            if SomeWorth(r.hosts) then exists y :: y in r.sessions && y.id == id && Caller(r.hosts, y, d)
            else id !in Ids(r.sessions)
  {
    hide Inv, SameSeat, Became, SessionsStep, SomeWorth, Caller, Ended;
    var r := SessionsStep(cfg, c, 0, d);
    InvCore(cfg, c);
    SessionsStepKeeps(cfg, c, 0, d);
    SomeSame(c, r);
    if SomeWorth(a.hosts) {
      var k := |a.sessions| + (id - a.nextId);
      assert OutAt(a, c, id - a.nextId);
      SessionsFollow(cfg, c, 0, d, k);
      CallerOn(c, r, c.sessions[k], d);
    } else {
      SessionsEnd(cfg, c, 0, d);
      EndedIds(c, r, 0);
      NotYet(cfg, a, id);
    }
  }

  lemma NotYet(cfg: Config, s: State, id: nat)
    requires Inv(cfg, s) && id >= s.nextId
    ensures id !in Ids(s.sessions)
  {
    InvRises(cfg, s);
  }

  lemma SomeSame(a: State, r: State)
    requires SameSeat(a, r)
    ensures SomeWorth(r.hosts) <==> SomeWorth(a.hosts)
  {
    hide Worth;
    SameHosts(a, r);
  }

  lemma CallerOn(c: State, r: State, x: Session, d: real)
    requires SameSeat(c, r) && Caller(c.hosts, x, 0.0) && Became(c, r, x, d) && d <= 0.1
    ensures exists y :: y in r.sessions && y.id == x.id && Caller(r.hosts, y, d)
  {
    hide Worth;
    SameHosts(c, r);
    var y :| y in r.sessions && y.id == x.id && Follows(c, x, y, d);
    assert Caller(r.hosts, y, d);
  }

  lemma {:induction false} SessionsTurn(cfg: Config, s: State, j: nat, d: real)
    ensures var r := SessionsStep(cfg, s, j, d);
            r.rr == s.rr && r.nextId == s.nextId && r.acc == s.acc && r.counters.started == s.counters.started && r.t == s.t
    decreases |s.sessions| - j
  {
    hide SessionStep;
    if j < |s.sessions| {
      SessionStepSize(cfg, s, j, d);
      SessionTurn(cfg, s, j, d);
      var next := SessionStep(cfg, s, j, d);
      SessionsTurn(cfg, next, if |next.sessions| < |s.sessions| then j else j + 1, d);
    }
  }

  lemma SessionTurn(cfg: Config, s: State, j: nat, d: real)
    requires j < |s.sessions|
    ensures var r := SessionStep(cfg, s, j, d);
            r.rr == s.rr && r.nextId == s.nextId && r.acc == s.acc && r.counters.started == s.counters.started && r.t == s.t
  {
  }

  // ---------------------------------------------------------------- the load

  /** The callers there have been and the fraction of the next. */
  ghost predicate SameLoad(s: State, r: State) {
    r.acc == s.acc && r.counters.started == s.counters.started && r.t == s.t && r.nextId == s.nextId && r.rr == s.rr
  }

  lemma {:induction false} CancelLoad(s: State, i: nat, j: nat)
    ensures SameLoad(s, CancelFrom(s, i, j))
    decreases |s.sessions| - j
  {
    hide Release;
    if j < |s.sessions| {
      if ServedBy(s.sessions[j], i) {
        CancelOneLoad(s, j);
        CancelLoad(CancelOne(s, j), i, j);
      } else {
        CancelLoad(s, i, j + 1);
      }
    }
  }

  lemma CancelOneLoad(s: State, j: nat)
    requires j < |s.sessions|
    ensures SameLoad(s, CancelOne(s, j)) && |CancelOne(s, j).sessions| == |s.sessions| - 1
  {
  }

  lemma DeclareDeadLoad(cfg: Config, s: State, i: nat)
    requires i < |s.hosts|
    ensures SameLoad(s, DeclareDead(cfg, s, i))
  {
    hide CancelFrom;
    CancelLoad(SetHost(s, i, s.hosts[i].(status := Dead, silent := false)), i, 0);
  }

  lemma HostLoad(cfg: Config, s: State, i: nat)
    requires i < |s.hosts|
    ensures SameLoad(s, HostStep(cfg, s, i))
  {
    hide DeclareDead;
    DeclareDeadLoad(cfg, Notice(cfg, s, i), i);
    DeclareDeadHosts(cfg, Notice(cfg, s, i), i);
  }

  lemma {:induction false} HostsLoad(cfg: Config, s: State, i: nat)
    ensures SameLoad(s, HostsStep(cfg, s, i))
    decreases |s.hosts| - i
  {
    hide HostStep;
    if i < |s.hosts| {
      HostLoad(cfg, s, i);
      HostsLoad(cfg, HostStep(cfg, s, i), i + 1);
    }
  }

  /** What has set out and what is about to is the load's share of the time. */
  ghost predicate OnLoad(cfg: Config, s: State, t: real) {
    && s.t == t && s.acc + s.counters.started as real == Share(cfg.loadPerS, t) && s.acc < 1.0
    && s.rr + 1 == s.nextId && s.counters.started == s.rr
  }

  lemma {:induction false} CallsLoad(s: State)
    ensures var r := Calls(s);
            && r.acc + r.counters.started as real == s.acc + s.counters.started as real && r.acc < 1.0 && r.t == s.t
            && (s.acc >= 0.0 ==> r.acc >= 0.0)
            && r.rr - s.rr == r.nextId - s.nextId == r.counters.started - s.counters.started
    decreases s.acc.Floor
  {
    hide Call;
    if s.acc >= 1.0 {
      CallLoad(s);
      CallClock(s);
      CallsLoad(Call(s));
    }
  }

  lemma CallLoad(s: State)
    ensures var r := Call(s);
            && r.acc == s.acc - 1.0 && r.counters.started == s.counters.started + 1 && r.t == s.t
            && r.rr == s.rr + 1 && r.nextId == s.nextId + 1
  {
  }

  lemma AfterSeatLoad(cfg: Config, s: State, d: real)
    ensures var a := AfterSeat(cfg, s, d);
            a.acc == s.acc + Share(cfg.loadPerS, d) && SameLoad(s, a.(acc := s.acc, t := s.t)) && a.t == s.t + d
  {
    hide HostsStep, Best;
    HostsLoad(cfg, s.(t := s.t + d), 0);
  }

  lemma StepLoad(cfg: Config, s: State, dt: real, t: real)
    requires OnLoad(cfg, s, t)
    ensures OnLoad(cfg, Step(cfg, s, dt), t + Frame(dt))
    ensures s.acc >= 0.0 && cfg.loadPerS >= 0.0 && dt >= 0.0 ==> Step(cfg, s, dt).acc >= 0.0
  {
    hide AfterSeat, Calls, SessionsStep, Share;
    var d := Capped(dt);
    AfterSeatLoad(cfg, s, d);
    CallsLoad(AfterSeat(cfg, s, d));
    SessionsTurn(cfg, Calls(AfterSeat(cfg, s, d)), 0, d);
    Shares(cfg.loadPerS, t, d);
  }

  lemma KillLoad(cfg: Config, s: State, i: nat, mode: Mode)
    requires i < |s.hosts|
    ensures SameLoad(s, Kill(cfg, s, i, mode))
  {
    hide DeclareDead;
    var s1 := SetMoveAt(SetHost(s, i, s.hosts[i].(since := s.t)), i, s.t + cfg.suspectS);
    DeclareDeadLoad(cfg, s1, i);
  }

  lemma ReviveLoad(cfg: Config, s: State, i: nat)
    requires i < |s.hosts|
    ensures SameLoad(s, Revive(cfg, s, i))
  {
    hide DeclareDead;
    DeclareDeadLoad(cfg, s, i);
  }

  /** The time the frames of a run have counted for. */
  function Clock(es: seq<Event>): real {
    if es == [] then 0.0 else Lasting(es[0]) + Clock(es[1..])
  }

  function Lasting(e: Event): real {
    if e.Tick? then Frame(e.dt) else 0.0
  }

  predicate Forward(es: seq<Event>) {
    forall i :: 0 <= i < |es| ==> Lasting(es[i]) >= 0.0
  }

  lemma EventLoad(cfg: Config, s: State, e: Event, t: real)
    requires OnLoad(cfg, s, t)
    ensures OnLoad(cfg, Apply(cfg, s, e), t + Lasting(e))
    ensures s.acc >= 0.0 && cfg.loadPerS >= 0.0 && Lasting(e) >= 0.0 ==> Apply(cfg, s, e).acc >= 0.0
  {
    hide Step, Kill, Revive, Share;
    match e
    case Tick(dt) => StepLoad(cfg, s, dt, t);
    case Fail(i, mode) => if i < |s.hosts| { KillLoad(cfg, s, i, mode); }
    case Return(i) => if i < |s.hosts| { ReviveLoad(cfg, s, i); }
  }

  lemma {:induction false} LoadThrough(cfg: Config, s: State, es: seq<Event>, t: real)
    requires OnLoad(cfg, s, t)
    ensures OnLoad(cfg, Run(cfg, s, es), t + Clock(es))
    ensures s.acc >= 0.0 && cfg.loadPerS >= 0.0 && Forward(es) ==> Run(cfg, s, es).acc >= 0.0
    decreases |es|
  {
    hide Apply, OnLoad, Lasting;
    if es != [] {
      EventLoad(cfg, s, es[0], t);
      assert t + Clock(es) == t + Lasting(es[0]) + Clock(es[1..]);
      assert Forward(es) ==> Forward(es[1..]);
      LoadThrough(cfg, Apply(cfg, s, es[0]), es[1..], t + Lasting(es[0]));
    }
  }

  lemma CreateLoad(cfg: Config)
    ensures OnLoad(cfg, Create(cfg), 0.0) && Create(cfg).acc == 0.0
  {
    Shares(cfg.loadPerS, 0.0, 0.0);
  }

  /** As many callers set out in a run as the load asks for in its time, whatever fails
      meanwhile. */
  lemma RunLoad(cfg: Config, es: seq<Event>)
    requires cfg.loadPerS >= 0.0 && Forward(es)
    ensures var r := Run(cfg, Create(cfg), es);
            r.t == Clock(es) && r.counters.started == Share(cfg.loadPerS, Clock(es)).Floor && r.rr + 1 == r.nextId
  {
    hide Run, Create, Clock, Forward, Share, OnLoad;
    CreateLoad(cfg);
    LoadThrough(cfg, Create(cfg), es, 0.0);
    WholeLoad(cfg, Run(cfg, Create(cfg), es), Clock(es));
  }

  lemma WholeLoad(cfg: Config, s: State, t: real)
    requires OnLoad(cfg, s, 0.0 + t) && s.acc >= 0.0
    ensures s.t == t && s.counters.started == Share(cfg.loadPerS, t).Floor && s.rr + 1 == s.nextId
  {
    hide Share;
    assert 0.0 + t == t;
    WholePart(s.acc, s.counters.started, Share(cfg.loadPerS, t));
  }

  // ---------------------------------------------------------------- how long each way takes

  ghost predicate Drawn(cfg: Config, draws: nat, dur: real) {
    exists k: nat :: k < draws && dur == Service(cfg, k)
  }

  /** The way to the first host takes 0.4 seconds and each way to another 0.2; a service takes
      a drawn time, and the way back 0.4 seconds. */
  ghost predicate Timed(cfg: Config, draws: nat, x: Session) {
    && (x.elapsed < x.dur || x.elapsed == 0.0)
    && match x.phase
       case Out => x.dur == if x.from.None? then 0.4 else 0.2
       case Serve => Drawn(cfg, draws, x.dur)
       case Back => x.dur == 0.4
  }

  ghost predicate AllTimed(cfg: Config, s: State) {
    forall x :: x in s.sessions ==> Timed(cfg, s.draws, x)
  }

  lemma TimedLater(cfg: Config, m: nat, n: nat, x: Session)
    requires Timed(cfg, m, x) && m <= n
    ensures Timed(cfg, n, x)
  {
    if x.phase == Serve { var k: nat :| k < m && x.dur == Service(cfg, k); }
  }

  lemma SubsetTimed(cfg: Config, s: State, r: State)
    requires AllTimed(cfg, s) && r.draws == s.draws && forall y :: y in r.sessions ==> y in s.sessions
    ensures AllTimed(cfg, r)
  {
  }

  /** Session `j` aside, the sessions of `r` are those of `s`. */
  lemma OneTimed(cfg: Config, s: State, r: State, j: nat)
    requires AllTimed(cfg, s) && j < |s.sessions| && s.draws <= r.draws
    requires || r.sessions == RemoveAt(s.sessions, j)
             || (|r.sessions| == |s.sessions| && r.sessions == s.sessions[j := r.sessions[j]] && Timed(cfg, r.draws, r.sessions[j]))
    ensures AllTimed(cfg, r)
  {
    hide Timed;
    forall y | y in r.sessions ensures Timed(cfg, r.draws, y) {
      var k :| 0 <= k < |r.sessions| && r.sessions[k] == y;
      if |r.sessions| == |s.sessions| && k == j {
      } else {
        assert s.sessions[if |r.sessions| < |s.sessions| && k >= j then k + 1 else k] == y;
        TimedLater(cfg, s.draws, r.draws, y);
      }
    }
  }

  lemma ArriveTimed(cfg: Config, s: State, j: nat)
    requires j < |s.sessions| && s.sessions[j].phase == Out && s.sessions[j].host.Some?
    ensures var r := Arrive(cfg, s, j);
            && s.draws <= r.draws
            && (|| r.sessions == RemoveAt(s.sessions, j)
                || (|r.sessions| == |s.sessions| && r.sessions == s.sessions[j := r.sessions[j]] && Timed(cfg, r.draws, r.sessions[j])))
  {
    hide Arrive, Service, Worth, Lowest, Full, NoneWorth;
    ArriveIs(cfg, s, j);
    var r := Arrive(cfg, s, j);
    if r.draws > s.draws { assert r.sessions[j].dur == Service(cfg, s.draws); }
  }

  lemma SessionTimed(cfg: Config, s: State, j: nat, d: real)
    requires j < |s.sessions| && s.sessions[j].host.Some? && AllTimed(cfg, s)
    ensures AllTimed(cfg, SessionStep(cfg, s, j, d))
  {
    hide Arrive, AllTimed, Drawn;
    var x, r := s.sessions[j], SessionStep(cfg, s, j, d);
    JthTimed(cfg, s, j);
    var s1 := s.(sessions := s.sessions[j := x.(elapsed := x.elapsed + d)]);
    if !Stalled(s, x) && Over(x, d) {
      match x.phase {
        case Out =>
          ArriveTimed(cfg, s1, j);
          assert RemoveAt(s1.sessions, j) == RemoveAt(s.sessions, j);
          if |r.sessions| == |s.sessions| { assert s1.sessions[j := r.sessions[j]] == s.sessions[j := r.sessions[j]]; }
        case Serve => BackIs(cfg, s, j, d);
        case Back => EndIs(cfg, s, j, d);
      }
      SessionDraws(cfg, s, j, d);
    } else if Stalled(s, x) {
      assert s.sessions[j := r.sessions[j]] == s.sessions;
    }
    OneTimed(cfg, s, r, j);
  }

  lemma SessionDraws(cfg: Config, s: State, j: nat, d: real)
    requires j < |s.sessions|
    ensures s.draws <= SessionStep(cfg, s, j, d).draws
  {
  }

  lemma JthTimed(cfg: Config, s: State, j: nat)
    requires j < |s.sessions| && AllTimed(cfg, s)
    ensures Timed(cfg, s.draws, s.sessions[j])
  {
  }

  lemma {:induction false} SessionsTimed(cfg: Config, s: State, j: nat, d: real)
    requires Core(cfg, s, -1) && AllTimed(cfg, s)
    ensures AllTimed(cfg, SessionsStep(cfg, s, j, d))
    decreases |s.sessions| - j
  {
    hide Core, SessionStep, AllTimed;
    if j < |s.sessions| {
      HostSet(cfg, s, j);
      SessionStepSize(cfg, s, j, d);
      SessionStepKeeps(cfg, s, j, d);
      SessionTimed(cfg, s, j, d);
      var next := SessionStep(cfg, s, j, d);
      SessionsTimed(cfg, next, if |next.sessions| < |s.sessions| then j else j + 1, d);
    }
  }

  lemma CallTimed(cfg: Config, s: State)
    requires AllTimed(cfg, s)
    ensures AllTimed(cfg, Call(s))
  {
    hide NextTryable, Drawn;
    var l, j, r := Listed(s), |s.sessions|, Call(s);
    forall y | y in r.sessions ensures Timed(cfg, r.draws, y) {
      var k :| 0 <= k < |r.sessions| && r.sessions[k] == y;
      if k < j { assert y == s.sessions[k]; }
    }
  }

  lemma {:induction false} CallsTimed(cfg: Config, s: State)
    requires AllTimed(cfg, s)
    ensures AllTimed(cfg, Calls(s))
    decreases s.acc.Floor
  {
    hide Call, AllTimed;
    if s.acc >= 1.0 {
      CallTimed(cfg, s);
      CallClock(s);
      CallsTimed(cfg, Call(s));
    }
  }

  lemma CutTimed(cfg: Config, s: State, r: State)
    requires AllTimed(cfg, s) && Cut(s, r)
    ensures AllTimed(cfg, r)
  {
    SubsetTimed(cfg, s, r);
  }

  lemma EventTimed(cfg: Config, s: State, e: Event)
    requires Inv(cfg, s) && AllTimed(cfg, s)
    ensures AllTimed(cfg, Apply(cfg, s, e))
  {
    hide Inv, Step, Kill, Revive, AllTimed, Cut;
    match e
    case Tick(dt) => TickTimed(cfg, s, dt);
    case Fail(i, mode) => if i < |s.hosts| { KillCuts(cfg, s, i, mode); CutTimed(cfg, s, Kill(cfg, s, i, mode)); }
    case Return(i) => if i < |s.hosts| { ReviveCuts(cfg, s, i); CutTimed(cfg, s, Revive(cfg, s, i)); }
  }

  lemma TickTimed(cfg: Config, s: State, dt: real)
    requires Inv(cfg, s) && AllTimed(cfg, s)
    ensures AllTimed(cfg, Step(cfg, s, dt))
  {
    hide Inv, AfterSeat, Calls, SessionsStep, AllTimed, Cut;
    var d := Capped(dt);
    var a := AfterSeat(cfg, s, d);
    AfterSeatKeeps(cfg, s, d);
    AfterSeatCuts(cfg, s, d);
    CutTimed(cfg, s, a);
    CallsTimed(cfg, a);
    CallsKeeps(cfg, a);
    InvCore(cfg, Calls(a));
    SessionsTimed(cfg, Calls(a), 0, d);
  }

  lemma {:induction false} TimedThrough(cfg: Config, s: State, es: seq<Event>)
    requires Inv(cfg, s) && AllTimed(cfg, s)
    ensures AllTimed(cfg, Run(cfg, s, es))
    decreases |es|
  {
    hide Inv, Apply, AllTimed;
    if es != [] {
      EventTimed(cfg, s, es[0]);
      ApplyKeeps(cfg, s, es[0]);
      TimedThrough(cfg, Apply(cfg, s, es[0]), es[1..]);
    }
  }

  /** In every run every way takes its time: 0.4 seconds to the first host and back, 0.2 to
      each further host, and a drawn time for a service. */
  lemma RunTimed(cfg: Config, es: seq<Event>, x: Session)
    requires x in Run(cfg, Create(cfg), es).sessions
    ensures Timed(cfg, Run(cfg, Create(cfg), es).draws, x)
  {
    CreateKeeps(cfg);
    TimedThrough(cfg, Create(cfg), es);
  }
}
