/** What every run of the cluster simulation keeps: slot ownership, conservation of
    sessions, and the safety of the Ledger seat. */
module SimClusterSafety {
  import opened Options
  import opened Simulations
  import opened SimCluster

  // ---------------------------------------------------------------- the invariant

  ghost predicate Shape(cfg: Config, s: State) {
    && |s.hosts| == |cfg.books|
    && (forall i {:trigger s.hosts[i]} :: 0 <= i < |s.hosts| ==>
          s.hosts[i].books == cfg.books[i] && |s.hosts[i].stock| == cfg.stockCapacity)
    && |s.ledger.slots| == cfg.ledgerCapacity
  }

  ghost predicate Rising(xs: seq<Session>) {
    forall i, j :: 0 <= i < j < |xs| ==> xs[i].id < xs[j].id
  }

  ghost predicate Numbered(s: State) {
    Rising(s.sessions) && forall x :: x in s.sessions ==> x.id < s.nextId
  }

  /** Nothing is lost: every session started has ended one way, or is still there. */
  ghost predicate Conserved(s: State) {
    var c := s.counters;
    c.started == c.completed + c.cancelled + c.refused + |s.sessions|
  }

  /** A permutation of the hosts. */
  ghost predicate Permutation(order: seq<nat>, n: nat) {
    && |order| == n
    && (forall k :: 0 <= k < n ==> order[k] < n)
    && (forall a, b :: 0 <= a < b < n ==> order[a] != order[b])
  }

  ghost predicate Alive(s: State, i: nat, ex: int) {
    i < |s.hosts| && (Tryable(s.hosts[i]) || i == ex)
  }

  /** A session being served holds its stock slot, and holds its Ledger slot exactly when
      the slots have not been thrown away since; its hosts are alive (`ex` aside). */
  ghost predicate ServedOk(s: State, x: Session, ex: int) {
    && x.host.Some? && x.stockSlot.Some? && x.ledgerSlot.Some? && x.ledgerHost.Some?
    && Alive(s, x.host.value, ex) && Alive(s, x.ledgerHost.value, ex)
    && x.stockSlot.value < |s.hosts[x.host.value].stock|
    && s.hosts[x.host.value].stock[x.stockSlot.value] == Some(x.id)
    && x.ledgerSlot.value < |s.ledger.slots|
    && x.epoch <= s.ledger.resets
    && (x.epoch == s.ledger.resets <==> s.ledger.slots[x.ledgerSlot.value] == Some(x.id))
  }

  ghost predicate Holding(x: Session) {
    x.stockSlot.Some? || x.ledgerSlot.Some?
  }

  ghost predicate Routed(x: Session, n: nat) {
    Permutation(x.order, n) && x.next < n && x.host == Some(x.order[x.next])
  }

  ghost predicate SessionOk(s: State, x: Session, ex: int) {
    && Routed(x, |s.hosts|)
    && (if x.phase == Serve then ServedOk(s, x, ex) else !Holding(x))
  }

  ghost predicate StockOwner(xs: seq<Session>, i: nat, k: nat, id: nat) {
    exists x :: x in xs && x.id == id && x.host == Some(i) && x.stockSlot == Some(k)
  }

  ghost predicate LedgerOwner(xs: seq<Session>, k: nat, id: nat) {
    exists x :: x in xs && x.id == id && x.ledgerSlot == Some(k)
  }

  ghost predicate StockOwned(s: State) {
    forall i: nat, k: nat {:trigger s.hosts[i].stock[k]} ::
      i < |s.hosts| && k < |s.hosts[i].stock| && s.hosts[i].stock[k].Some? ==>
        StockOwner(s.sessions, i, k, s.hosts[i].stock[k].value)
  }

  ghost predicate LedgerOwned(s: State) {
    forall k: nat {:trigger s.ledger.slots[k]} ::
      k < |s.ledger.slots| && s.ledger.slots[k].Some? ==>
        LedgerOwner(s.sessions, k, s.ledger.slots[k].value)
  }

  ghost predicate Owned(s: State) {
    StockOwned(s) && LedgerOwned(s)
  }

  ghost predicate Core(cfg: Config, s: State, ex: int) {
    && Shape(cfg, s) && Numbered(s) && Conserved(s) && Owned(s)
    && forall x :: x in s.sessions ==> SessionOk(s, x, ex)
  }

  /** As `Core`, but session `j` holds nothing and may be between two hosts. */
  ghost predicate CoreBut(cfg: Config, s: State, ex: int, j: nat) {
    && Shape(cfg, s) && Numbered(s) && Conserved(s) && Owned(s)
    && j < |s.sessions| && !Holding(s.sessions[j]) && Permutation(s.sessions[j].order, |s.hosts|)
    && forall x :: x in s.sessions && x.id != s.sessions[j].id ==> SessionOk(s, x, ex)
  }

  // ---------------------------------------------------------------- lists of sessions

  lemma RemovedAt(xs: seq<Session>, j: nat)
    requires j < |xs|
    ensures |RemoveAt(xs, j)| == |xs| - 1
    ensures forall i :: 0 <= i < j ==> RemoveAt(xs, j)[i] == xs[i]
    ensures forall i :: j <= i < |xs| - 1 ==> RemoveAt(xs, j)[i] == xs[i + 1]
  {
  }

  lemma RemovedKeeps(xs: seq<Session>, j: nat, x: Session)
    requires j < |xs| && x in xs && x != xs[j]
    ensures x in RemoveAt(xs, j)
  {
    RemovedAt(xs, j);
    var i :| 0 <= i < |xs| && xs[i] == x;
    assert RemoveAt(xs, j)[if i < j then i else i - 1] == x;
  }

  lemma RemovedFrom(xs: seq<Session>, j: nat, x: Session)
    requires Rising(xs) && j < |xs| && x in RemoveAt(xs, j)
    ensures x in xs && x.id != xs[j].id
  {
    RemovedAt(xs, j);
    var i :| 0 <= i < |RemoveAt(xs, j)| && RemoveAt(xs, j)[i] == x;
    assert xs[if i < j then i else i + 1] == x;
  }

  lemma RemovedRises(xs: seq<Session>, j: nat)
    requires Rising(xs) && j < |xs|
    ensures Rising(RemoveAt(xs, j))
  {
    RemovedAt(xs, j);
  }

  lemma InRemoved(xs: seq<Session>, j: nat)
    requires Rising(xs) && j < |xs|
    ensures Rising(RemoveAt(xs, j))
    ensures forall x :: x in RemoveAt(xs, j) <==> x in xs && x.id != xs[j].id
  {
    RemovedRises(xs, j);
    forall x | x in xs && x.id != xs[j].id
      ensures x in RemoveAt(xs, j)
    {
      RemovedKeeps(xs, j, x);
    }
    forall x | x in RemoveAt(xs, j)
      ensures x in xs && x.id != xs[j].id
    {
      RemovedFrom(xs, j, x);
    }
  }

  lemma InUpdated(xs: seq<Session>, j: nat, y: Session)
    requires Rising(xs) && j < |xs| && y.id == xs[j].id
    ensures Rising(xs[j := y])
    ensures forall x :: x in xs[j := y] <==> x == y || (x in xs && x.id != y.id)
  {
    var ys := xs[j := y];
    assert ys[j] == y;
    forall x | x in xs && x.id != y.id
      ensures x in ys
    {
      var i :| 0 <= i < |xs| && xs[i] == x;
      assert ys[i] == x;
    }
    forall x | x in ys && x != y
      ensures x in xs && x.id != y.id
    {
      var i :| 0 <= i < |ys| && ys[i] == x;
      assert xs[i] == x;
    }
  }

  /** Owners survive as long as the sessions that hold something do. */
  lemma OwnersKept(s: State, xs: seq<Session>)
    requires Owned(s)
    requires forall x :: x in s.sessions && Holding(x) ==> x in xs
    ensures Owned(s.(sessions := xs))
  {
    var s2 := s.(sessions := xs);
    forall i: nat, k: nat | i < |s.hosts| && k < |s.hosts[i].stock| && s.hosts[i].stock[k].Some?
      ensures StockOwner(xs, i, k, s.hosts[i].stock[k].value)
    {
      assert StockOwner(s.sessions, i, k, s.hosts[i].stock[k].value);
    }
    forall k: nat | k < |s.ledger.slots| && s.ledger.slots[k].Some?
      ensures LedgerOwner(xs, k, s.ledger.slots[k].value)
    {
      assert LedgerOwner(s.sessions, k, s.ledger.slots[k].value);
    }
  }

  // ---------------------------------------------------------------- leaving and moving on

  lemma RemoveLoose(cfg: Config, s: State, ex: int, j: nat, c: Counters)
    requires CoreBut(cfg, s, ex, j)
    requires c.started == c.completed + c.cancelled + c.refused + |s.sessions| - 1
    ensures Core(cfg, Remove(s, j).(counters := c), ex)
  {
    InRemoved(s.sessions, j);
    OwnersKept(s, RemoveAt(s.sessions, j));
  }

  lemma SettleLoose(cfg: Config, s: State, ex: int, j: nat, y: Session)
    requires CoreBut(cfg, s, ex, j)
    requires y.id == s.sessions[j].id && y.phase != Serve && !Holding(y) && Routed(y, |s.hosts|)
    ensures Core(cfg, s.(sessions := s.sessions[j := y]), ex)
  {
    InUpdated(s.sessions, j, y);
    OwnersKept(s, s.sessions[j := y]);
    assert s.sessions[j] in s.sessions;
  }

  lemma {:induction false} NextTryableIs(hosts: seq<Host>, order: seq<nat>, next: nat)
    ensures var r := NextTryable(hosts, order, next);
            && r >= next
            && (r < |order| ==> order[r] < |hosts| && Tryable(hosts[order[r]]))
            && forall k :: next <= k < r && k < |order| ==> !(order[k] < |hosts| && Tryable(hosts[order[k]]))
    decreases |order| - next
  {
    if next < |order| && !(order[next] < |hosts| && Tryable(hosts[order[next]])) {
      NextTryableIs(hosts, order, next + 1);
    }
  }

  lemma RouteKeeps(cfg: Config, s: State, ex: int, j: nat, from: Option<nat>)
    requires CoreBut(cfg, s, ex, j)
    ensures Core(cfg, Route(s, j, from), ex)
  {
    var x := s.sessions[j];
    NextTryableIs(s.hosts, x.order, x.next);
    var next := NextTryable(s.hosts, x.order, x.next);
    if next >= |x.order| {
      RemoveLoose(cfg, s, ex, j, s.counters.(refused := s.counters.refused + 1));
    } else {
      var dur := if from == None then TRAVEL else BOUNCE;
      SettleLoose(cfg, s, ex, j,
                  x.(next := next, host := Some(x.order[next]), phase := Out, from := from, elapsed := 0.0, dur := dur));
    }
  }

  /** A session that is not being served can be looked at on its own. */
  lemma Loosen(cfg: Config, s: State, ex: int, j: nat, y: Session)
    requires Core(cfg, s, ex) && j < |s.sessions| && s.sessions[j].phase != Serve
    requires y.id == s.sessions[j].id && y.order == s.sessions[j].order && !Holding(y)
    ensures CoreBut(cfg, s.(sessions := s.sessions[j := y]), ex, j)
  {
    assert s.sessions[j] in s.sessions;
    InUpdated(s.sessions, j, y);
    OwnersKept(s, s.sessions[j := y]);
  }

  // ---------------------------------------------------------------- giving slots back

  lemma FreedStock(s: State, x: Session, i: nat, k: nat)
    requires x.host.Some? && x.host.value < |s.hosts| && i < |s.hosts| && k < |s.hosts[i].stock|
    ensures |FreeStock(s.hosts, x)| == |s.hosts|
    ensures |FreeStock(s.hosts, x)[i].stock| == |s.hosts[i].stock|
    ensures FreeStock(s.hosts, x)[i].stock[k]
            == if x.host == Some(i) && x.stockSlot == Some(k) && s.hosts[i].stock[k] == Some(x.id) then None
               else s.hosts[i].stock[k]
  {
  }

  lemma FreedHost(hosts: seq<Host>, x: Session, i: nat)
    requires i < |hosts|
    ensures |FreeStock(hosts, x)| == |hosts| && |FreeStock(hosts, x)[i].stock| == |hosts[i].stock|
    ensures FreeStock(hosts, x)[i] == hosts[i].(stock := FreeStock(hosts, x)[i].stock)
  {
  }

  lemma SameId(xs: seq<Session>, x: Session, y: Session)
    requires Rising(xs) && x in xs && y in xs && x.id == y.id
    ensures x == y
  {
    var i :| 0 <= i < |xs| && xs[i] == x;
    var j :| 0 <= j < |xs| && xs[j] == y;
    assert !(i < j) && !(j < i);
  }

  lemma ReleasedOther(cfg: Config, s: State, ex: int, j: nat, z: Session)
    requires Core(cfg, s, ex) && j < |s.sessions| && s.sessions[j].phase == Serve
    requires z in s.sessions && z.id != s.sessions[j].id
    ensures SessionOk(Release(s, j), z, ex)
  {
    var x := s.sessions[j];
    assert x in s.sessions && SessionOk(s, x, ex) && SessionOk(s, z, ex);
    if z.phase == Serve {
      FreedHost(s.hosts, x, z.host.value);
      FreedHost(s.hosts, x, z.ledgerHost.value);
      FreedStock(s, x, z.host.value, z.stockSlot.value);
    }
  }

  lemma ReleasedStock(cfg: Config, s: State, ex: int, j: nat)
    requires Core(cfg, s, ex) && j < |s.sessions| && s.sessions[j].phase == Serve
    ensures StockOwned(Release(s, j))
  {
    var x, s2 := s.sessions[j], Release(s, j);
    assert x in s.sessions && SessionOk(s, x, ex);
    InUpdated(s.sessions, j, x.(stockSlot := None, ledgerSlot := None));
    forall i: nat, k: nat | i < |s2.hosts| && k < |s2.hosts[i].stock| && s2.hosts[i].stock[k].Some?
      ensures StockOwner(s2.sessions, i, k, s2.hosts[i].stock[k].value)
    {
      FreedHost(s.hosts, x, i);
      FreedStock(s, x, i, k);
      var id := s.hosts[i].stock[k].value;
      assert StockOwner(s.sessions, i, k, id);
      var o :| o in s.sessions && o.id == id && o.host == Some(i) && o.stockSlot == Some(k);
      if o.id == x.id { SameId(s.sessions, o, x); }
      assert o in s2.sessions;
    }
  }

  lemma ReleasedLedger(cfg: Config, s: State, ex: int, j: nat)
    requires Core(cfg, s, ex) && j < |s.sessions| && s.sessions[j].phase == Serve
    ensures LedgerOwned(Release(s, j))
  {
    var x, s2 := s.sessions[j], Release(s, j);
    assert x in s.sessions && SessionOk(s, x, ex);
    InUpdated(s.sessions, j, x.(stockSlot := None, ledgerSlot := None));
    forall k: nat | k < |s2.ledger.slots| && s2.ledger.slots[k].Some?
      ensures LedgerOwner(s2.sessions, k, s2.ledger.slots[k].value)
    {
      var id := s.ledger.slots[k].value;
      assert LedgerOwner(s.sessions, k, id);
      var o :| o in s.sessions && o.id == id && o.ledgerSlot == Some(k);
      if o.id == x.id { SameId(s.sessions, o, x); }
      assert o in s2.sessions;
    }
  }

  /** Giving back both slots leaves a session that holds nothing. */
  lemma ReleaseLoosens(cfg: Config, s: State, ex: int, j: nat)
    requires Core(cfg, s, ex) && j < |s.sessions| && s.sessions[j].phase == Serve
    ensures CoreBut(cfg, Release(s, j), ex, j)
  {
    var x, s2 := s.sessions[j], Release(s, j);
    assert x in s.sessions && SessionOk(s, x, ex);
    var y := x.(stockSlot := None, ledgerSlot := None);
    InUpdated(s.sessions, j, y);
    ReleasedStock(cfg, s, ex, j);
    ReleasedLedger(cfg, s, ex, j);
    forall i | 0 <= i < |s2.hosts|
      ensures s2.hosts[i].books == cfg.books[i] && |s2.hosts[i].stock| == cfg.stockCapacity
    {
      FreedHost(s.hosts, x, i);
    }
    forall z | z in s2.sessions && z.id != y.id
      ensures SessionOk(s2, z, ex)
    {
      ReleasedOther(cfg, s, ex, j, z);
    }
  }

  lemma CancelOneKeeps(cfg: Config, s: State, ex: int, j: nat)
    requires Core(cfg, s, ex) && j < |s.sessions| && s.sessions[j].phase == Serve
    ensures Core(cfg, CancelOne(s, j), ex)
  {
    ReleaseLoosens(cfg, s, ex, j);
    RemoveLoose(cfg, Release(s, j), ex, j, s.counters.(cancelled := s.counters.cancelled + 1));
  }

  lemma GoBackKeeps(cfg: Config, s: State, ex: int, j: nat)
    requires Core(cfg, s, ex) && j < |s.sessions| && s.sessions[j].phase == Serve
    ensures Core(cfg, GoBack(s, j), ex)
  {
    var x := s.sessions[j];
    assert x in s.sessions && SessionOk(s, x, ex);
    ReleaseLoosens(cfg, s, ex, j);
    var s1 := Release(s, j);
    SettleLoose(cfg, s1, ex, j, s1.sessions[j].(phase := Back, elapsed := 0.0, dur := TRAVEL));
  }

  lemma CompletedKeeps(cfg: Config, s: State, ex: int, j: nat)
    requires Core(cfg, s, ex) && j < |s.sessions| && s.sessions[j].phase != Serve
    ensures Core(cfg, Completed(s, j), ex)
  {
    var x := s.sessions[j];
    assert x in s.sessions && SessionOk(s, x, ex);
    Loosen(cfg, s, ex, j, x);
    assert s.sessions[j := x] == s.sessions;
    RemoveLoose(cfg, s, ex, j, s.counters.(completed := s.counters.completed + 1));
  }

  // ---------------------------------------------------------------- taking slots

  lemma AcceptedOther(cfg: Config, s: State, ex: int, j: nat, slot: nat, seat: nat, z: Session)
    requires Core(cfg, s, ex) && Acceptable(s, j, slot, seat)
    requires z in s.sessions && z.id != s.sessions[j].id
    ensures SessionOk(Accept(cfg, s, j, slot, seat), z, ex)
  {
    assert SessionOk(s, z, ex);
  }

  /** What `arrive` has checked before it takes a session on. */
  ghost predicate Acceptable(s: State, j: nat, slot: nat, seat: nat) {
    && j < |s.sessions| && s.sessions[j].phase == Out && LedgerReady(s)
    && s.sessions[j].host.Some? && s.sessions[j].host.value < |s.hosts|
    && Answering(s.hosts[s.sessions[j].host.value])
    && slot < |s.hosts[s.sessions[j].host.value].stock| && s.hosts[s.sessions[j].host.value].stock[slot] == None
    && seat < |s.ledger.slots| && s.ledger.slots[seat] == None
  }

  lemma AcceptedOwned(cfg: Config, s: State, ex: int, j: nat, slot: nat, seat: nat)
    requires Core(cfg, s, ex) && Acceptable(s, j, slot, seat)
    ensures Owned(Accept(cfg, s, j, slot, seat))
  {
    var x, s2 := s.sessions[j], Accept(cfg, s, j, slot, seat);
    var y := s2.sessions[j];
    assert x in s.sessions && SessionOk(s, x, ex);
    InUpdated(s.sessions, j, y);
    forall i: nat, k: nat | i < |s2.hosts| && k < |s2.hosts[i].stock| && s2.hosts[i].stock[k].Some?
      ensures StockOwner(s2.sessions, i, k, s2.hosts[i].stock[k].value)
    {
      if x.host == Some(i) && k == slot {
        assert y in s2.sessions;
      } else {
        var id := s.hosts[i].stock[k].value;
        assert StockOwner(s.sessions, i, k, id);
        var o :| o in s.sessions && o.id == id && o.host == Some(i) && o.stockSlot == Some(k);
        if o.id == x.id { SameId(s.sessions, o, x); }
        assert o in s2.sessions;
      }
    }
    forall k: nat | k < |s2.ledger.slots| && s2.ledger.slots[k].Some?
      ensures LedgerOwner(s2.sessions, k, s2.ledger.slots[k].value)
    {
      if k == seat {
        assert y in s2.sessions;
      } else {
        var id := s.ledger.slots[k].value;
        assert LedgerOwner(s.sessions, k, id);
        var o :| o in s.sessions && o.id == id && o.ledgerSlot == Some(k);
        if o.id == x.id { SameId(s.sessions, o, x); }
        assert o in s2.sessions;
      }
    }
  }

  lemma AcceptKeeps(cfg: Config, s: State, ex: int, j: nat, slot: nat, seat: nat)
    requires Core(cfg, s, ex) && Acceptable(s, j, slot, seat)
    ensures Core(cfg, Accept(cfg, s, j, slot, seat), ex)
  {
    var x, s2 := s.sessions[j], Accept(cfg, s, j, slot, seat);
    var y := s2.sessions[j];
    assert x in s.sessions && SessionOk(s, x, ex);
    InUpdated(s.sessions, j, y);
    AcceptedOwned(cfg, s, ex, j, slot, seat);
    forall z | z in s2.sessions
      ensures SessionOk(s2, z, ex)
    {
      if z.id != x.id { AcceptedOther(cfg, s, ex, j, slot, seat, z); }
    }
  }

  lemma RefuseKeeps(cfg: Config, s: State, ex: int, j: nat)
    requires Core(cfg, s, ex) && j < |s.sessions| && s.sessions[j].phase != Serve
    ensures Core(cfg, Refuse(s, j), ex)
  {
    var x := s.sessions[j];
    assert x in s.sessions && SessionOk(s, x, ex);
    Loosen(cfg, s, ex, j, x);
    assert s.sessions[j := x] == s.sessions;
    RemoveLoose(cfg, s, ex, j, s.counters.(refused := s.counters.refused + 1));
  }

  /** The next host in turn: a bounce. */
  lemma BounceKeeps(cfg: Config, s: State, ex: int, j: nat)
    requires Core(cfg, s, ex) && j < |s.sessions| && s.sessions[j].phase == Out
    ensures var x := s.sessions[j];
            Core(cfg, Route(s.(sessions := s.sessions[j := x.(next := x.next + 1)]), j, x.host), ex)
  {
    var x := s.sessions[j];
    assert x in s.sessions && SessionOk(s, x, ex);
    Loosen(cfg, s, ex, j, x.(next := x.next + 1));
    RouteKeeps(cfg, s.(sessions := s.sessions[j := x.(next := x.next + 1)]), ex, j, x.host);
  }

  lemma ArriveServed(cfg: Config, s: State, ex: int, j: nat, slot: nat)
    requires Core(cfg, s, ex) && j < |s.sessions| && s.sessions[j].phase == Out
    requires StockOffer(s.hosts, s.sessions[j]) == Some(slot) && LedgerReady(s)
    ensures Core(cfg, Arrive(cfg, s, j), ex)
  {
    hide Core;
    var seat := FirstFree(s.ledger.slots).value;
    assert Arrive(cfg, s, j) == Accept(cfg, s, j, slot, seat);
    AcceptKeeps(cfg, s, ex, j, slot, seat);
  }

  lemma ArriveKeeps(cfg: Config, s: State, ex: int, j: nat)
    requires Core(cfg, s, ex) && j < |s.sessions| && s.sessions[j].phase == Out
    ensures Core(cfg, Arrive(cfg, s, j), ex)
  {
    hide Core, Route, Accept;
    var x := s.sessions[j];
    match StockOffer(s.hosts, x)
    case None =>
      assert Arrive(cfg, s, j) == Route(s.(sessions := s.sessions[j := x.(next := x.next + 1)]), j, x.host);
      BounceKeeps(cfg, s, ex, j);
    case Some(slot) =>
      if LedgerReady(s) {
        ArriveServed(cfg, s, ex, j, slot);
      } else {
        assert Arrive(cfg, s, j) == Refuse(s, j);
        RefuseKeeps(cfg, s, ex, j);
      }
  }

  // ---------------------------------------------------------------- what the seat does not notice

  /** Hosts alike but for their Stock slots. */
  ghost predicate SameButStock(a: seq<Host>, b: seq<Host>) {
    |a| == |b| && forall i {:trigger b[i]} :: 0 <= i < |a| ==> b[i] == a[i].(stock := b[i].stock)
  }

  ghost predicate SameSeat(a: State, b: State) {
    && b.t == a.t && b.ledger == a.ledger.(slots := b.ledger.slots)
    && SameButStock(a.hosts, b.hosts)
  }

  lemma {:induction false} CancelFromKeeps(cfg: Config, s: State, ex: int, i: nat, j: nat)
    requires Core(cfg, s, ex)
    requires forall k :: 0 <= k < j && k < |s.sessions| ==> !ServedBy(s.sessions[k], i)
    ensures var r := CancelFrom(s, i, j);
            && Core(cfg, r, ex) && SameSeat(s, r)
            && forall x :: x in r.sessions ==> x in s.sessions && !ServedBy(x, i)
    decreases |s.sessions| - j
  {
    if j < |s.sessions| {
      if ServedBy(s.sessions[j], i) {
        CancelOneKeeps(cfg, s, ex, j);
        CancelOneFrame(s, j);
        var s1 := CancelOne(s, j);
        CancelFromKeeps(cfg, s1, ex, i, j);
        InRemovedReleased(s, j);
      } else {
        CancelFromKeeps(cfg, s, ex, i, j + 1);
      }
    }
  }

  lemma InRemovedReleased(s: State, j: nat)
    requires Rising(s.sessions) && j < |s.sessions|
    ensures forall x :: x in CancelOne(s, j).sessions ==> x in s.sessions
  {
    InRemoved(s.sessions, j);
    assert CancelOne(s, j).sessions == RemoveAt(s.sessions, j);
  }

  lemma CancelOneFrame(s: State, j: nat)
    requires j < |s.sessions|
    ensures SameSeat(s, CancelOne(s, j))
    ensures forall k :: 0 <= k < j ==> CancelOne(s, j).sessions[k] == s.sessions[k]
  {
    var x := s.sessions[j];
    forall i | 0 <= i < |s.hosts|
      ensures FreeStock(s.hosts, x)[i] == s.hosts[i].(stock := FreeStock(s.hosts, x)[i].stock)
    {
      FreedHost(s.hosts, x, i);
    }
  }

  /** A host changes, keeping its slots; if it stops being alive it becomes the exception. */
  lemma HostChangeKeeps(cfg: Config, s: State, i: nat, h: Host, ex: int)
    requires Core(cfg, s, -1) && i < |s.hosts|
    requires h.books == s.hosts[i].books && h.stock == s.hosts[i].stock
    requires Tryable(s.hosts[i]) ==> Tryable(h) || ex == i
    ensures Core(cfg, SetHost(s, i, h), ex)
  {
    var s2 := SetHost(s, i, h);
    forall x | x in s2.sessions
      ensures SessionOk(s2, x, ex)
    {
      assert SessionOk(s, x, -1);
    }
    forall a: nat, k: nat | a < |s2.hosts| && k < |s2.hosts[a].stock| && s2.hosts[a].stock[k].Some?
      ensures StockOwner(s2.sessions, a, k, s2.hosts[a].stock[k].value)
    {
      assert s.hosts[a].stock[k] == s2.hosts[a].stock[k];
      assert StockOwner(s.sessions, a, k, s.hosts[a].stock[k].value);
    }
  }

  lemma VacateKeeps(cfg: Config, s: State, i: nat, ex: int)
    requires Core(cfg, s, ex)
    ensures Core(cfg, VacateSeat(cfg, s, i), ex)
  {
    var s2 := VacateSeat(cfg, s, i);
    forall x | x in s2.sessions
      ensures SessionOk(s2, x, ex)
    {
      assert SessionOk(s, x, ex);
    }
    forall a: nat, k: nat | a < |s2.hosts| && k < |s2.hosts[a].stock| && s2.hosts[a].stock[k].Some?
      ensures StockOwner(s2.sessions, a, k, s2.hosts[a].stock[k].value)
    {
      assert StockOwner(s.sessions, a, k, s.hosts[a].stock[k].value);
    }
  }

  lemma DropException(cfg: Config, s: State, i: nat)
    requires Core(cfg, s, i) && forall x :: x in s.sessions ==> !ServedBy(x, i)
    ensures Core(cfg, s, -1)
  {
    forall x | x in s.sessions
      ensures SessionOk(s, x, -1)
    {
      assert SessionOk(s, x, i);
    }
  }

  lemma DeclareDeadKeeps(cfg: Config, s: State, i: nat)
    requires Core(cfg, s, -1) && i < |s.hosts|
    ensures var r := DeclareDead(cfg, s, i);
            && Core(cfg, r, -1) && r.t == s.t
            && |r.hosts| == |s.hosts|
            && r.hosts[i] == s.hosts[i].(status := Dead, silent := false, stock := r.hosts[i].stock)
            && (forall k :: 0 <= k < |s.hosts| && k != i ==> r.hosts[k] == s.hosts[k].(stock := r.hosts[k].stock))
            && r.ledger.moveAt == s.ledger.moveAt
            && r.ledger.host == if s.ledger.host == Some(i) then None else s.ledger.host
  {
    var s1 := SetHost(s, i, s.hosts[i].(status := Dead, silent := false));
    HostChangeKeeps(cfg, s, i, s1.hosts[i], i);
    CancelFromKeeps(cfg, s1, i, i, 0);
    var s2 := CancelOn(s1, i);
    DropException(cfg, s2, i);
    VacateKeeps(cfg, s2, i, -1);
    assert forall k :: 0 <= k < |s1.hosts| ==> s2.hosts[k] == s1.hosts[k].(stock := s2.hosts[k].stock);
  }

  // ---------------------------------------------------------------- the whole invariant

  /** The seat is empty or on a live books host; a hung holder's failure is on record; an
      emptied seat has its waiting time set. */
  ghost predicate SeatOk(cfg: Config, s: State) {
    && (forall i {:trigger s.hosts[i]} :: 0 <= i < |s.hosts| ==>
          (s.hosts[i].silent ==> Tryable(s.hosts[i])) && (s.hosts[i].status == Suspect ==> s.hosts[i].silent))
    && (match s.ledger.host
        case Some(h) =>
          && h < |s.hosts| && s.hosts[h].books && Tryable(s.hosts[h])
          && (s.hosts[h].silent ==> s.ledger.moveAt == Some(s.hosts[h].since + cfg.noticeS + cfg.suspectS))
        case None =>
          s.ledger.moveAt.Some? || forall i {:trigger s.hosts[i]} :: 0 <= i < |s.hosts| ==> !s.hosts[i].books)
  }

  ghost predicate Inv(cfg: Config, s: State) {
    Core(cfg, s, -1) && SeatOk(cfg, s)
  }

  lemma SetMoveAtKeeps(cfg: Config, s: State, i: nat, at: real)
    requires Core(cfg, s, -1)
    ensures Core(cfg, SetMoveAt(s, i, at), -1)
  {
    var s2 := SetMoveAt(s, i, at);
    forall x | x in s2.sessions
      ensures SessionOk(s2, x, -1)
    {
      assert SessionOk(s, x, -1);
    }
    forall a: nat, k: nat | a < |s2.hosts| && k < |s2.hosts[a].stock| && s2.hosts[a].stock[k].Some?
      ensures StockOwner(s2.sessions, a, k, s2.hosts[a].stock[k].value)
    {
      assert StockOwner(s.sessions, a, k, s.hosts[a].stock[k].value);
    }
  }

  /** A crash recorded, before the host is declared dead. */
  ghost function Crashed(cfg: Config, s: State, i: nat): State
    requires i < |s.hosts|
  {
    SetMoveAt(SetHost(s, i, s.hosts[i].(since := s.t)), i, s.t + cfg.suspectS)
  }

  lemma CrashedKeeps(cfg: Config, s: State, i: nat)
    requires Inv(cfg, s) && i < |s.hosts| && Answering(s.hosts[i])
    ensures Core(cfg, Crashed(cfg, s, i), -1) && SeatOk(cfg, Crashed(cfg, s, i))
    ensures Kill(cfg, s, i, Crash) == DeclareDead(cfg, Crashed(cfg, s, i), i)
  {
    var s1 := SetHost(s, i, s.hosts[i].(since := s.t));
    HostChangeKeeps(cfg, s, i, s1.hosts[i], -1);
    SetMoveAtKeeps(cfg, s1, i, s.t + cfg.suspectS);
  }

  lemma HangKeeps(cfg: Config, s: State, i: nat)
    requires Inv(cfg, s) && i < |s.hosts| && Answering(s.hosts[i])
    ensures Inv(cfg, Kill(cfg, s, i, Hang))
  {
    var h := s.hosts[i];
    HostChangeKeeps(cfg, s, i, h.(since := s.t, silent := true), -1);
    SetMoveAtKeeps(cfg, SetHost(s, i, h.(since := s.t, silent := true)), i, s.t + cfg.noticeS + cfg.suspectS);
  }

  lemma CrashKeeps(cfg: Config, s: State, i: nat)
    requires Inv(cfg, s) && i < |s.hosts| && Answering(s.hosts[i])
    ensures Inv(cfg, Kill(cfg, s, i, Crash))
  {
    var s2 := Crashed(cfg, s, i);
    CrashedKeeps(cfg, s, i);
    DeclareDeadKeeps(cfg, s2, i);
    DeclareDeadSeat(cfg, s2, i);
  }

  /** A host declared dead leaves the seat in order, provided its failure was on record. */
  lemma DeclareDeadSeat(cfg: Config, s: State, i: nat)
    requires Core(cfg, s, -1) && SeatOk(cfg, s) && i < |s.hosts|
    requires s.ledger.host == Some(i) ==> s.ledger.moveAt.Some?
    ensures SeatOk(cfg, DeclareDead(cfg, s, i))
  {
    DeclareDeadKeeps(cfg, s, i);
  }

  lemma KillKeeps(cfg: Config, s: State, i: nat, mode: Mode)
    requires Inv(cfg, s) && i < |s.hosts|
    ensures Inv(cfg, Kill(cfg, s, i, mode))
  {
    if Answering(s.hosts[i]) {
      if mode == Hang { HangKeeps(cfg, s, i); } else { CrashKeeps(cfg, s, i); }
    }
  }

  lemma ReviveKeeps(cfg: Config, s: State, i: nat)
    requires Inv(cfg, s) && i < |s.hosts|
    ensures Inv(cfg, Revive(cfg, s, i))
  {
    hide Core, DeclareDead;
    var h := s.hosts[i];
    if !((h.status == Up && !h.silent) || h.status == Restarting) {
      if h.status != Dead {
        DeclareDeadKeeps(cfg, s, i);
        DeclareDeadSeat(cfg, s, i);
      }
      var s2 := if h.status != Dead then DeclareDead(cfg, s, i) else s;
      HostChangeKeeps(cfg, s2, i, s2.hosts[i].(status := Restarting, since := s2.t), -1);
    }
  }

  lemma NoticeKeeps(cfg: Config, s: State, i: nat)
    requires Inv(cfg, s) && i < |s.hosts|
    ensures Inv(cfg, Notice(cfg, s, i))
  {
    HostChangeKeeps(cfg, s, i, s.hosts[i].(status := Suspect), i);
    if Tryable(s.hosts[i]) {
      HostChangeKeeps(cfg, s, i, s.hosts[i].(status := Suspect), -1);
    }
  }

  lemma GiveUpKeeps(cfg: Config, s: State, i: nat)
    requires Inv(cfg, s) && i < |s.hosts|
    ensures Inv(cfg, GiveUp(cfg, s, i))
  {
    if s.hosts[i].status == Suspect {
      DeclareDeadKeeps(cfg, s, i);
      DeclareDeadSeat(cfg, s, i);
    }
  }

  /** A host comes up with empty slots; nobody was being served there. */
  lemma ComeUpKeeps(cfg: Config, s: State, i: nat)
    requires Inv(cfg, s) && i < |s.hosts|
    ensures Inv(cfg, ComeUp(cfg, s, i))
  {
    var h, s2 := s.hosts[i], ComeUp(cfg, s, i);
    if h.status == Restarting && s.t - h.since >= cfg.restartS {
      forall x | x in s2.sessions
        ensures SessionOk(s2, x, -1)
      {
        assert SessionOk(s, x, -1);
      }
      forall a: nat, k: nat | a < |s2.hosts| && k < |s2.hosts[a].stock| && s2.hosts[a].stock[k].Some?
        ensures StockOwner(s2.sessions, a, k, s2.hosts[a].stock[k].value)
      {
        assert a != i;
        assert StockOwner(s.sessions, a, k, s.hosts[a].stock[k].value);
      }
    }
  }

  lemma {:induction false} HostsStepKeeps(cfg: Config, s: State, i: nat)
    requires Inv(cfg, s)
    ensures Inv(cfg, HostsStep(cfg, s, i))
    decreases |s.hosts| - i
  {
    if i < |s.hosts| {
      NoticeKeeps(cfg, s, i);
      var s1 := Notice(cfg, s, i);
      GiveUpKeeps(cfg, s1, i);
      DeclareDeadHosts(cfg, s1, i);
      ComeUpKeeps(cfg, GiveUp(cfg, s1, i), i);
      HostsStepKeeps(cfg, HostStep(cfg, s, i), i + 1);
    }
  }

  lemma {:induction false} BestIs(cfg: Config, t: real, hosts: seq<Host>, n: nat)
    requires n <= |hosts|
    ensures match Best(cfg, t, hosts, n)
            case Some(b) => b < n && Counts(cfg, t, hosts[b]) && forall i :: b < i < n ==> !Counts(cfg, t, hosts[i])
            case None => forall i :: 0 <= i < n ==> !Counts(cfg, t, hosts[i])
  {
    if n > 0 && !Counts(cfg, t, hosts[n - 1]) {
      BestIs(cfg, t, hosts, n - 1);
    }
  }

  lemma PlaceLedgerKeeps(cfg: Config, s: State)
    requires Inv(cfg, s)
    ensures Inv(cfg, PlaceLedger(cfg, s))
  {
    BestIs(cfg, s.t, s.hosts, |s.hosts|);
    var s2 := PlaceLedger(cfg, s);
    forall x | x in s2.sessions
      ensures SessionOk(s2, x, -1)
    {
      assert SessionOk(s, x, -1);
    }
    forall a: nat, k: nat | a < |s2.hosts| && k < |s2.hosts[a].stock| && s2.hosts[a].stock[k].Some?
      ensures StockOwner(s2.sessions, a, k, s2.hosts[a].stock[k].value)
    {
      assert StockOwner(s.sessions, a, k, s.hosts[a].stock[k].value);
    }
  }

  /** Moving clocks and counters that the invariant does not mention changes nothing. */
  lemma ClockKeeps(cfg: Config, s: State, t: real, acc: real)
    requires Inv(cfg, s)
    ensures Inv(cfg, s.(t := t, acc := acc))
  {
    var s2 := s.(t := t, acc := acc);
    forall x | x in s2.sessions
      ensures SessionOk(s2, x, -1)
    {
      assert SessionOk(s, x, -1);
    }
    forall a: nat, k: nat | a < |s2.hosts| && k < |s2.hosts[a].stock| && s2.hosts[a].stock[k].Some?
      ensures StockOwner(s2.sessions, a, k, s2.hosts[a].stock[k].value)
    {
      assert StockOwner(s.sessions, a, k, s.hosts[a].stock[k].value);
    }
  }

  // ---------------------------------------------------------------- callers

  lemma OrderIsPermutation(start: nat, n: nat)
    requires n > 0 && start < n
    ensures Permutation(Order(start, n), n)
  {
    var order := Order(start, n);
    forall k | 0 <= k < n
      ensures order[k] == if start + k < n then start + k else start + k - n
    {
      ModWrap(start + k, n);
    }
  }

  lemma ModWrap(a: nat, n: nat)
    requires n > 0 && a < 2 * n
    ensures a % n == if a < n then a else a - n
  {
    if a >= n { assert a == n * 1 + (a - n); }
  }

  lemma AppendRises(s: State, x: Session)
    requires Numbered(s) && x.id == s.nextId
    ensures Rising(s.sessions + [x])
    ensures forall z :: z in s.sessions + [x] <==> z in s.sessions || z == x
  {
    forall i | 0 <= i < |s.sessions|
      ensures s.sessions[i].id < x.id
    {
      assert s.sessions[i] in s.sessions;
    }
  }

  lemma ListedLoose(cfg: Config, s: State)
    requires Inv(cfg, s)
    ensures CoreBut(cfg, Listed(s), -1, |s.sessions|)
  {
    var s2, x := Listed(s), NewSession(s.nextId, s.rr, |s.hosts|);
    if |s.hosts| > 0 { OrderIsPermutation(s.rr % |s.hosts|, |s.hosts|); }
    AppendRises(s, x);
    forall z | z in s2.sessions && z.id != x.id
      ensures SessionOk(s2, z, -1)
    {
      assert z in s.sessions && SessionOk(s, z, -1);
    }
    OwnersKept(s, s2.sessions);
    OwnedOnly(s.(sessions := s2.sessions), s2);
  }

  /** Ownership looks only at hosts, Ledger slots and sessions. */
  lemma OwnedOnly(s: State, s2: State)
    requires Owned(s) && s2.hosts == s.hosts && s2.ledger == s.ledger && s2.sessions == s.sessions
    ensures Owned(s2)
  {
    forall a: nat, k: nat | a < |s2.hosts| && k < |s2.hosts[a].stock| && s2.hosts[a].stock[k].Some?
      ensures StockOwner(s2.sessions, a, k, s2.hosts[a].stock[k].value)
    {
      assert StockOwner(s.sessions, a, k, s.hosts[a].stock[k].value);
    }
  }

  lemma RouteSeat(cfg: Config, s: State, j: nat, from: Option<nat>)
    requires j < |s.sessions|
    ensures var r := Route(s, j, from);
            r.t == s.t && r.hosts == s.hosts && r.ledger == s.ledger && r.acc == s.acc
  {
  }

  lemma CallKeeps(cfg: Config, s: State)
    requires Inv(cfg, s)
    ensures Inv(cfg, Call(s)) && Call(s).t == s.t && Call(s).hosts == s.hosts && Call(s).ledger == s.ledger
  {
    ListedLoose(cfg, s);
    RouteKeeps(cfg, Listed(s), -1, |s.sessions|, None);
    RouteSeat(cfg, Listed(s), |s.sessions|, None);
  }

  lemma {:induction false} CallsKeeps(cfg: Config, s: State)
    requires Inv(cfg, s)
    ensures Inv(cfg, Calls(s)) && Calls(s).t == s.t && Calls(s).hosts == s.hosts && Calls(s).ledger == s.ledger
    decreases s.acc.Floor
  {
    if s.acc >= 1.0 {
      CallKeeps(cfg, s);
      CallsKeeps(cfg, Call(s));
    }
  }

  // ---------------------------------------------------------------- sessions moving on

  lemma AgedKeeps(cfg: Config, s: State, j: nat, dt: real)
    requires Core(cfg, s, -1) && j < |s.sessions|
    ensures Core(cfg, s.(sessions := s.sessions[j := s.sessions[j].(elapsed := s.sessions[j].elapsed + dt)]), -1)
  {
    var x := s.sessions[j];
    var y := x.(elapsed := x.elapsed + dt);
    var s2 := s.(sessions := s.sessions[j := y]);
    assert x in s.sessions && SessionOk(s, x, -1);
    InUpdated(s.sessions, j, y);
    forall z | z in s2.sessions
      ensures SessionOk(s2, z, -1)
    {
      if z.id != x.id { assert SessionOk(s, z, -1); }
    }
    assert y in s2.sessions;
    forall a: nat, k: nat | a < |s2.hosts| && k < |s2.hosts[a].stock| && s2.hosts[a].stock[k].Some?
      ensures StockOwner(s2.sessions, a, k, s2.hosts[a].stock[k].value)
    {
      AgedOwner(s, x, y, s2.sessions);
      assert StockOwner(s.sessions, a, k, s.hosts[a].stock[k].value);
    }
    forall k: nat | k < |s2.ledger.slots| && s2.ledger.slots[k].Some?
      ensures LedgerOwner(s2.sessions, k, s2.ledger.slots[k].value)
    {
      AgedOwner(s, x, y, s2.sessions);
      assert LedgerOwner(s.sessions, k, s.ledger.slots[k].value);
    }
  }

  lemma AgedOwner(s: State, x: Session, y: Session, xs: seq<Session>)
    requires Rising(s.sessions) && x in s.sessions && y in xs
    requires y.id == x.id && y.host == x.host && y.stockSlot == x.stockSlot && y.ledgerSlot == x.ledgerSlot
    requires forall z :: z in s.sessions && z.id != x.id ==> z in xs
    ensures forall i: nat, k: nat, id: nat :: StockOwner(s.sessions, i, k, id) ==> StockOwner(xs, i, k, id)
    ensures forall k: nat, id: nat :: LedgerOwner(s.sessions, k, id) ==> LedgerOwner(xs, k, id)
  {
    forall i: nat, k: nat, id: nat | StockOwner(s.sessions, i, k, id)
      ensures StockOwner(xs, i, k, id)
    {
      var o :| o in s.sessions && o.id == id && o.host == Some(i) && o.stockSlot == Some(k);
      if o.id == x.id { SameId(s.sessions, o, x); }
    }
    forall k: nat, id: nat | LedgerOwner(s.sessions, k, id)
      ensures LedgerOwner(xs, k, id)
    {
      var o :| o in s.sessions && o.id == id && o.ledgerSlot == Some(k);
      if o.id == x.id { SameId(s.sessions, o, x); }
    }
  }

  lemma SessionStepKeeps(cfg: Config, s: State, j: nat, dt: real)
    requires Core(cfg, s, -1) && j < |s.sessions|
    ensures Core(cfg, SessionStep(cfg, s, j, dt), -1)
  {
    hide Core, Arrive, GoBack, Completed;
    var x := s.sessions[j];
    if !Stalled(s, x) {
      AgedKeeps(cfg, s, j, dt);
      var s1 := s.(sessions := s.sessions[j := x.(elapsed := x.elapsed + dt)]);
      if x.elapsed + dt < x.dur {
        assert SessionStep(cfg, s, j, dt) == s1;
      } else {
        match x.phase
        case Out =>
          assert SessionStep(cfg, s, j, dt) == Arrive(cfg, s1, j);
          ArriveKeeps(cfg, s1, -1, j);
        case Serve =>
          assert SessionStep(cfg, s, j, dt) == GoBack(s1, j);
          GoBackKeeps(cfg, s1, -1, j);
        case Back =>
          assert SessionStep(cfg, s, j, dt) == Completed(s1, j);
          CompletedKeeps(cfg, s1, -1, j);
      }
    }
  }

  lemma SessionStepSeat(cfg: Config, s: State, j: nat, dt: real)
    requires j < |s.sessions|
    ensures SameSeat(s, SessionStep(cfg, s, j, dt))
  {
    var x := s.sessions[j];
    FreedAll(s.hosts, x);
  }

  lemma FreedAll(hosts: seq<Host>, x: Session)
    ensures SameButStock(hosts, FreeStock(hosts, x))
  {
    forall i | 0 <= i < |hosts|
      ensures FreeStock(hosts, x)[i] == hosts[i].(stock := FreeStock(hosts, x)[i].stock)
    {
      FreedHost(hosts, x, i);
    }
  }

  lemma SameSeatTrans(a: State, b: State, c: State)
    requires SameSeat(a, b) && SameSeat(b, c)
    ensures SameSeat(a, c)
  {
    forall i | 0 <= i < |a.hosts| ensures c.hosts[i] == a.hosts[i].(stock := c.hosts[i].stock) {
      assert b.hosts[i] == a.hosts[i].(stock := b.hosts[i].stock);
    }
  }

  lemma {:induction false} SessionsStepKeeps(cfg: Config, s: State, j: nat, dt: real)
    requires Core(cfg, s, -1)
    ensures Core(cfg, SessionsStep(cfg, s, j, dt), -1) && SameSeat(s, SessionsStep(cfg, s, j, dt))
    decreases |s.sessions| - j
  {
    if j < |s.sessions| {
      hide Core, SessionStep, SameSeat;
      SessionStepSize(cfg, s, j, dt);
      SessionStepKeeps(cfg, s, j, dt);
      SessionStepSeat(cfg, s, j, dt);
      var s1 := SessionStep(cfg, s, j, dt);
      SessionsStepKeeps(cfg, s1, if |s1.sessions| < |s.sessions| then j else j + 1, dt);
      SameSeatTrans(s, s1, SessionsStep(cfg, s, j, dt));
    }
  }

  lemma SameSeatOk(cfg: Config, s: State, s2: State)
    requires SeatOk(cfg, s) && SameSeat(s, s2)
    ensures SeatOk(cfg, s2)
  {
    assert forall i :: 0 <= i < |s.hosts| ==> s2.hosts[i] == s.hosts[i].(stock := s2.hosts[i].stock);
  }

  lemma AfterHostsKeeps(cfg: Config, s: State, dt: real)
    requires Inv(cfg, s)
    ensures Inv(cfg, AfterHosts(cfg, s, dt))
  {
    ClockKeeps(cfg, s, s.t + dt, s.acc);
    HostsStepKeeps(cfg, s.(t := s.t + dt, acc := s.acc), 0);
  }

  lemma AfterSeatKeeps(cfg: Config, s: State, dt: real)
    requires Inv(cfg, s)
    ensures Inv(cfg, AfterSeat(cfg, s, dt))
  {
    hide Inv, AfterHosts, PlaceLedger;
    AfterHostsKeeps(cfg, s, dt);
    PlaceLedgerKeeps(cfg, AfterHosts(cfg, s, dt));
    var s1 := PlaceLedger(cfg, AfterHosts(cfg, s, dt));
    var acc := s1.acc + dt * cfg.loadPerS;
    ClockKeeps(cfg, s1, s1.t, acc);
    assert AfterSeat(cfg, s, dt) == s1.(t := s1.t, acc := acc);
  }

  /** Callers and sessions do not touch the seat, the clock or the hosts' states. */
  lemma StepTail(cfg: Config, s: State, dt0: real)
    requires Inv(cfg, s)
    ensures Inv(cfg, Step(cfg, s, dt0))
    ensures SameSeat(AfterSeat(cfg, s, Capped(dt0)), Step(cfg, s, dt0))
  {
    var dt := Capped(dt0);
    var s2 := AfterSeat(cfg, s, dt);
    AfterSeatKeeps(cfg, s, dt);
    CallsKeeps(cfg, s2);
    SessionsStepKeeps(cfg, Calls(s2), 0, dt);
    SameSeatOk(cfg, Calls(s2), SessionsStep(cfg, Calls(s2), 0, dt));
  }

  lemma ApplyKeeps(cfg: Config, s: State, e: Event)
    requires Inv(cfg, s)
    ensures Inv(cfg, Apply(cfg, s, e))
  {
    match e
    case Tick(dt) => StepTail(cfg, s, dt);
    case Fail(i, mode) => if i < |s.hosts| { KillKeeps(cfg, s, i, mode); }
    case Return(i) => if i < |s.hosts| { ReviveKeeps(cfg, s, i); }
  }

  lemma {:induction false} LastBooksIs(books: seq<bool>, n: nat)
    requires n <= |books|
    ensures match LastBooks(books, n)
            case Some(h) => h < n && books[h]
            case None => forall i :: 0 <= i < n ==> !books[i]
  {
    if n > 0 && !books[n - 1] { LastBooksIs(books, n - 1); }
  }

  lemma CreateKeeps(cfg: Config)
    ensures Inv(cfg, Create(cfg))
  {
    LastBooksIs(cfg.books, |cfg.books|);
  }

  lemma {:induction false} RunKeeps(cfg: Config, s: State, events: seq<Event>)
    requires Inv(cfg, s)
    ensures Inv(cfg, Run(cfg, s, events))
    decreases |events|
  {
    if events != [] {
      ApplyKeeps(cfg, s, events[0]);
      RunKeeps(cfg, Apply(cfg, s, events[0]), events[1..]);
    }
  }

  // ---------------------------------------------------------------- what the invariant says

  /** In every run, occupied stock slots and served sessions correspond one to one, every
      occupied Ledger slot belongs to exactly one served session that records it, nobody is
      served by a dead or restarting host, and every session started is accounted for. */
  lemma RunOwnership(cfg: Config, events: seq<Event>)
    ensures var s := Run(cfg, Create(cfg), events);
            && (forall i: nat, k: nat ::
                  i < |s.hosts| && k < |s.hosts[i].stock| && s.hosts[i].stock[k].Some? ==>
                    exists x :: x in s.sessions && ServesStock(s, x, i, k))
            && (forall x :: x in s.sessions && x.phase == Serve ==>
                  exists i: nat, k: nat :: ServesStock(s, x, i, k))
            && (forall k: nat :: k < |s.ledger.slots| && s.ledger.slots[k].Some? ==>
                  exists x :: x in s.sessions && x.phase == Serve
                              && x.ledgerSlot == Some(k) && s.ledger.slots[k] == Some(x.id))
            && (forall x, y :: x in s.sessions && y in s.sessions && x.id == y.id ==> x == y)
            && (forall x :: x in s.sessions && x.phase == Serve ==>
                  x.ledgerHost.Some? && x.ledgerHost.value < |s.hosts| && Tryable(s.hosts[x.ledgerHost.value]))
            && s.counters.started == s.counters.completed + s.counters.cancelled + s.counters.refused + |s.sessions|
  {
    var s := Run(cfg, Create(cfg), events);
    CreateKeeps(cfg);
    RunKeeps(cfg, Create(cfg), events);
    forall i: nat, k: nat | i < |s.hosts| && k < |s.hosts[i].stock| && s.hosts[i].stock[k].Some?
      ensures exists x :: x in s.sessions && ServesStock(s, x, i, k)
    {
      var id := s.hosts[i].stock[k].value;
      assert StockOwner(s.sessions, i, k, id);
      var x :| x in s.sessions && x.id == id && x.host == Some(i) && x.stockSlot == Some(k);
      assert SessionOk(s, x, -1);
      assert ServesStock(s, x, i, k);
    }
    forall x | x in s.sessions && x.phase == Serve
      ensures exists i: nat, k: nat :: ServesStock(s, x, i, k)
    {
      assert SessionOk(s, x, -1);
      assert ServesStock(s, x, x.host.value, x.stockSlot.value);
    }
    forall k: nat | k < |s.ledger.slots| && s.ledger.slots[k].Some?
      ensures exists x :: x in s.sessions && x.phase == Serve
                          && x.ledgerSlot == Some(k) && s.ledger.slots[k] == Some(x.id)
    {
      var id := s.ledger.slots[k].value;
      assert LedgerOwner(s.sessions, k, id);
      var x :| x in s.sessions && x.id == id && x.ledgerSlot == Some(k);
      assert SessionOk(s, x, -1);
    }
    forall x, y | x in s.sessions && y in s.sessions && x.id == y.id
      ensures x == y
    {
      SameId(s.sessions, x, y);
    }
  }

  /** Session `x` is being served in slot `k` of the live host `i`, and the slot says so. */
  ghost predicate ServesStock(s: State, x: Session, i: nat, k: nat) {
    && x.phase == Serve && x.host == Some(i) && x.stockSlot == Some(k)
    && i < |s.hosts| && Tryable(s.hosts[i])
    && k < |s.hosts[i].stock| && s.hosts[i].stock[k] == Some(x.id)
  }

  ghost predicate OwnsLedgerSlot(s: State, x: Session) {
    && x.ledgerSlot.Some? && x.ledgerSlot.value < |s.ledger.slots|
    && s.ledger.slots[x.ledgerSlot.value] == Some(x.id)
  }

  /** Conversely a served session still owns the Ledger slot it recorded exactly when the
      Ledger's slots have not been thrown away since it took it. */
  lemma LedgerSlotIff(cfg: Config, events: seq<Event>, x: Session)
    requires x in Run(cfg, Create(cfg), events).sessions && x.phase == Serve
    ensures var s := Run(cfg, Create(cfg), events);
            OwnsLedgerSlot(s, x) <==> x.epoch == s.ledger.resets
  {
    CreateKeeps(cfg);
    RunKeeps(cfg, Create(cfg), events);
    assert SessionOk(Run(cfg, Create(cfg), events), x, -1);
  }

  lemma {:induction false} CancelLedgerHost(s: State, i: nat, j: nat)
    ensures CancelFrom(s, i, j).ledger == s.ledger.(slots := CancelFrom(s, i, j).ledger.slots)
    decreases |s.sessions| - j
  {
    if j < |s.sessions| {
      if ServedBy(s.sessions[j], i) {
        CancelLedgerHost(CancelOne(s, j), i, j);
      } else {
        CancelLedgerHost(s, i, j + 1);
      }
    }
  }

  lemma {:induction false} CancelKeepsOthers(s: State, i: nat, j: nat, x: Session)
    requires x in s.sessions && !ServedBy(x, i)
    ensures x in CancelFrom(s, i, j).sessions
    decreases |s.sessions| - j
  {
    if j < |s.sessions| {
      if ServedBy(s.sessions[j], i) {
        var k :| 0 <= k < |s.sessions| && s.sessions[k] == x;
        var xs := CancelOne(s, j).sessions;
        assert xs == RemoveAt(s.sessions, j);
        assert xs[if k < j then k else k - 1] == x;
        CancelKeepsOthers(CancelOne(s, j), i, j, x);
      } else {
        CancelKeepsOthers(s, i, j + 1, x);
      }
    }
  }

  // ---------------------------------------------------------------- the seat over time

  /** Going through the hosts can only empty the seat, and only because its holder, silent
      for the notice and suspicion times, is given up on. */
  lemma {:induction false} HostsStepSeat(cfg: Config, s: State, i: nat)
    requires Inv(cfg, s)
    ensures var r := HostsStep(cfg, s, i);
            && r.t == s.t && |r.hosts| == |s.hosts| && r.ledger.moveAt == s.ledger.moveAt
            && (forall k :: 0 <= k < i && k < |s.hosts| ==> r.hosts[k] == s.hosts[k].(stock := r.hosts[k].stock))
            && (r.ledger.host != s.ledger.host ==>
                  && r.ledger.host == None && s.ledger.host.Some? && s.ledger.host.value < |s.hosts|
                  && r.hosts[s.ledger.host.value].status == Dead
                  && s.hosts[s.ledger.host.value].silent
                  && s.t >= s.hosts[s.ledger.host.value].since + cfg.noticeS + cfg.suspectS)
    decreases |s.hosts| - i
  {
    if i < |s.hosts| {
      OneHostSeat(cfg, s, i);
      HostsStepSeat(cfg, HostStep(cfg, s, i), i + 1);
    }
  }

  lemma OneHostSeat(cfg: Config, s: State, i: nat)
    requires Inv(cfg, s) && i < |s.hosts|
    ensures var r := HostStep(cfg, s, i);
            && Inv(cfg, r)
            && r.t == s.t && |r.hosts| == |s.hosts| && r.ledger.moveAt == s.ledger.moveAt
            && (forall k :: 0 <= k < |s.hosts| && k != i ==> r.hosts[k] == s.hosts[k].(stock := r.hosts[k].stock))
            && (r.ledger.host == s.ledger.host
                || (r.ledger.host == None && s.ledger.host == Some(i) && r.hosts[i].status == Dead
                    && s.hosts[i].silent && s.t >= s.hosts[i].since + cfg.noticeS + cfg.suspectS))
  {
    NoticeKeeps(cfg, s, i);
    var s1 := Notice(cfg, s, i);
    GiveUpKeeps(cfg, s1, i);
    DeclareDeadKeeps(cfg, s1, i);
    ComeUpKeeps(cfg, GiveUp(cfg, s1, i), i);
  }

  lemma AfterHostsSeat(cfg: Config, s: State, dt: real)
    requires Inv(cfg, s)
    ensures var r := AfterHosts(cfg, s, dt);
            && Inv(cfg, r) && r.t == s.t + dt && |r.hosts| == |s.hosts| && r.ledger.moveAt == s.ledger.moveAt
            && (forall k :: 0 <= k < |s.hosts| && r.hosts[k].silent ==> s.hosts[k].silent)
            && (r.ledger.host != s.ledger.host ==> r.ledger.host == None && GivenUp(cfg, s, r))
  {
    hide Inv, HostsStep;
    ClockKeeps(cfg, s, s.t + dt, s.acc);
    var s0 := s.(t := s.t + dt, acc := s.acc);
    HostsStepSeat(cfg, s0, 0);
    HostsStepSilent(cfg, s0, 0);
    AfterHostsKeeps(cfg, s, dt);
  }

  /** The holder had been silent for the notice and suspicion times, and is now dead. */
  ghost predicate GivenUp(cfg: Config, s: State, r: State) {
    && s.ledger.host.Some? && s.ledger.host.value < |s.hosts| == |r.hosts|
    && r.hosts[s.ledger.host.value].status == Dead
    && s.hosts[s.ledger.host.value].silent
    && r.t >= s.hosts[s.ledger.host.value].since + cfg.noticeS + cfg.suspectS
  }

  lemma PlaceMoves(cfg: Config, s: State)
    ensures var r := PlaceLedger(cfg, s);
            match r.ledger.host
            case None => s.ledger.host == None
            case Some(b) =>
              s.ledger.host != Some(b) ==>
                && b < |s.hosts| && Counts(cfg, s.t, s.hosts[b])
                && (s.ledger.host.Some? ==> b > s.ledger.host.value)
                && (s.ledger.host == None ==> s.ledger.moveAt == None || s.t >= s.ledger.moveAt.value)
  {
    BestIs(cfg, s.t, s.hosts, |s.hosts|);
  }

  /** While a seat is held it moves only to a higher-ranked host that counts, or after its
      holder was given up on; an empty one is filled only once its waiting time is over. */
  lemma SeatMoves(cfg: Config, s: State, dt0: real)
    requires Inv(cfg, s)
    ensures var r := Step(cfg, s, dt0);
            match r.ledger.host
            case None => s.ledger.host.Some? ==> GivenUp(cfg, s, r)
            case Some(b) =>
              s.ledger.host != Some(b) ==>
                && b < |r.hosts| && Counts(cfg, r.t, r.hosts[b])
                && (s.ledger.host == None ==> s.ledger.moveAt == None || r.t >= s.ledger.moveAt.value)
                && (s.ledger.host.Some? ==> b > s.ledger.host.value || GivenUp(cfg, s, r))
  {
    var dt := Capped(dt0);
    StepTail(cfg, s, dt0);
    AfterHostsSeat(cfg, s, dt);
    PlaceMoves(cfg, AfterHosts(cfg, s, dt));
    SameCounts(cfg, AfterSeat(cfg, s, dt), Step(cfg, s, dt0));
  }

  lemma SameCounts(cfg: Config, a: State, b: State)
    requires SameSeat(a, b)
    ensures forall i :: 0 <= i < |a.hosts| ==>
              b.hosts[i].status == a.hosts[i].status
              && (Counts(cfg, b.t, b.hosts[i]) <==> Counts(cfg, a.t, a.hosts[i]))
  {
    forall i | 0 <= i < |a.hosts|
      ensures b.hosts[i] == a.hosts[i].(stock := b.hosts[i].stock)
    {
    }
  }

  /** After every step the holder ranks at least as high as every host that counts, and
      the seat is empty beside such a host only while its waiting time runs. */
  lemma SeatRanksFirst(cfg: Config, s: State, dt0: real, i: nat)
    requires Inv(cfg, s)
    ensures var r := Step(cfg, s, dt0);
            i < |r.hosts| && Counts(cfg, r.t, r.hosts[i]) ==>
              match r.ledger.host
              case Some(h) => i <= h
              case None => r.ledger.moveAt.Some? && r.t < r.ledger.moveAt.value
  {
    var dt := Capped(dt0);
    StepTail(cfg, s, dt0);
    AfterHostsKeeps(cfg, s, dt);
    var s1 := AfterHosts(cfg, s, dt);
    BestIs(cfg, s1.t, s1.hosts, |s1.hosts|);
    SameCounts(cfg, AfterSeat(cfg, s, dt), Step(cfg, s, dt0));
  }

  /** When the seat's next occupant is due: the last failure of a holder, plus the
      suspicion time, plus for a hang the time before it is noticed. Reads the events and
      the seat, never `moveAt`. */
  ghost function Due(cfg: Config, s: State, events: seq<Event>, due: Option<real>): Option<real>
    decreases |events|
  {
    if events == [] then due else Due(cfg, Apply(cfg, s, events[0]), events[1..], NewDue(cfg, s, events[0], due))
  }

  ghost function NewDue(cfg: Config, s: State, e: Event, due: Option<real>): Option<real> {
    if e.Fail? && s.ledger.host == Some(e.host) && e.host < |s.hosts| && Answering(s.hosts[e.host])
    then Some(s.t + cfg.suspectS + (if e.mode == Hang then cfg.noticeS else 0.0))
    else due
  }

  /** An empty seat, or one whose holder hangs, waits for `due`. */
  ghost predicate OnRecord(s: State, due: Option<real>) {
    match s.ledger.host
    case None => s.ledger.moveAt == due
    case Some(h) => h < |s.hosts| && s.hosts[h].silent ==> s.ledger.moveAt == due
  }

  lemma FailOnRecord(cfg: Config, s: State, i: nat, mode: Mode, due: Option<real>)
    requires Inv(cfg, s) && OnRecord(s, due) && i < |s.hosts|
    ensures OnRecord(Kill(cfg, s, i, mode), NewDue(cfg, s, Fail(i, mode), due))
  {
    hide Core, DeclareDead;
    if Answering(s.hosts[i]) && mode == Crash {
      CrashedKeeps(cfg, s, i);
      DeclareDeadKeeps(cfg, Crashed(cfg, s, i), i);
    }
  }

  lemma ReturnOnRecord(cfg: Config, s: State, i: nat, due: Option<real>)
    requires Inv(cfg, s) && OnRecord(s, due) && i < |s.hosts|
    ensures OnRecord(Revive(cfg, s, i), due)
  {
    if s.hosts[i].status != Dead {
      DeclareDeadKeeps(cfg, s, i);
    }
  }

  lemma ApplyOnRecord(cfg: Config, s: State, e: Event, due: Option<real>)
    requires Inv(cfg, s) && OnRecord(s, due)
    ensures OnRecord(Apply(cfg, s, e), NewDue(cfg, s, e, due))
  {
    match e
    case Tick(dt) => StepOnRecord(cfg, s, dt, due);
    case Fail(i, mode) => if i < |s.hosts| { FailOnRecord(cfg, s, i, mode, due); }
    case Return(i) => if i < |s.hosts| { ReturnOnRecord(cfg, s, i, due); }
  }

  lemma StepOnRecord(cfg: Config, s: State, dt0: real, due: Option<real>)
    requires Inv(cfg, s) && OnRecord(s, due)
    ensures OnRecord(Step(cfg, s, dt0), due)
  {
    var dt := Capped(dt0);
    StepTail(cfg, s, dt0);
    AfterHostsSeat(cfg, s, dt);
    var s1 := AfterHosts(cfg, s, dt);
    assert OnRecord(s1, due);
    BestIs(cfg, s1.t, s1.hosts, |s1.hosts|);
    assert OnRecord(AfterSeat(cfg, s, dt), due);
    SameSeatOnRecord(AfterSeat(cfg, s, dt), Step(cfg, s, dt0), due);
  }

  lemma SameSeatOnRecord(a: State, b: State, due: Option<real>)
    requires SameSeat(a, b) && OnRecord(a, due)
    ensures OnRecord(b, due)
  {
    if b.ledger.host.Some? && b.ledger.host.value < |b.hosts| {
      var h := b.ledger.host.value;
      assert b.hosts[h] == a.hosts[h].(stock := b.hosts[h].stock);
    }
  }

  /** No host starts to hang while the hosts are gone through. */
  lemma {:induction false} HostsStepSilent(cfg: Config, s: State, i: nat)
    requires Inv(cfg, s)
    ensures |HostsStep(cfg, s, i).hosts| == |s.hosts|
    ensures forall k :: 0 <= k < |s.hosts| && HostsStep(cfg, s, i).hosts[k].silent ==> s.hosts[k].silent
    decreases |s.hosts| - i
  {
    if i < |s.hosts| {
      OneHostSeat(cfg, s, i);
      OneHostSilent(cfg, s, i);
      HostsStepSilent(cfg, HostStep(cfg, s, i), i + 1);
    }
  }

  lemma OneHostSilent(cfg: Config, s: State, i: nat)
    requires Inv(cfg, s) && i < |s.hosts|
    ensures HostStep(cfg, s, i).hosts[i].silent ==> s.hosts[i].silent
  {
    NoticeKeeps(cfg, s, i);
    DeclareDeadKeeps(cfg, Notice(cfg, s, i), i);
  }

  lemma {:induction false} RunOnRecord(cfg: Config, s: State, events: seq<Event>, due: Option<real>)
    requires Inv(cfg, s) && OnRecord(s, due)
    ensures OnRecord(Run(cfg, s, events), Due(cfg, s, events, due))
    decreases |events|
  {
    if events != [] {
      ApplyKeeps(cfg, s, events[0]);
      ApplyOnRecord(cfg, s, events[0], due);
      RunOnRecord(cfg, Apply(cfg, s, events[0]), events[1..], NewDue(cfg, s, events[0], due));
    }
  }

  /** In every run the seat is empty or on a books host that is up or suspect, and an
      emptied seat is not filled again before its failure is due to be acted on. */
  lemma RunSeatSafe(cfg: Config, events: seq<Event>, dt: real)
    ensures var s := Run(cfg, Create(cfg), events);
            var due := Due(cfg, Create(cfg), events, None);
            && (s.ledger.host.Some? ==>
                  s.ledger.host.value < |cfg.books| == |s.hosts| && cfg.books[s.ledger.host.value]
                  && Tryable(s.hosts[s.ledger.host.value]))
            && (s.ledger.host == None && Step(cfg, s, dt).ledger.host.Some? && due.Some? ==>
                  Step(cfg, s, dt).t >= due.value)
  {
    CreateKeeps(cfg);
    RunKeeps(cfg, Create(cfg), events);
    RunOnRecord(cfg, Create(cfg), events, None);
    SeatMoves(cfg, Run(cfg, Create(cfg), events), dt);
  }

  // ---------------------------------------------------------------- no host is tried twice

  /** Every session of `b` that existed in `a` has kept its order of hosts and gone no way
      but forward, in it and in its phases. */
  ghost predicate Onward(a: State, b: State) {
    && a.nextId <= b.nextId
    && forall y {:trigger y in b.sessions} :: y in b.sessions && y.id < a.nextId ==> Came(a.sessions, y)
  }

  ghost predicate Came(xs: seq<Session>, y: Session) {
    exists x :: x in xs && Ages(x, y)
  }

  function Rank(phase: Phase): nat {
    match phase
    case Out => 0
    case Serve => 1
    case Back => 2
  }

  /** Session `y` is `x` later on: one service, with the slot and the epoch it began with. */
  ghost predicate Ages(x: Session, y: Session) {
    && x.id == y.id && x.order == y.order && x.next <= y.next && Rank(x.phase) <= Rank(y.phase)
    && (x.phase == Serve && y.phase == Serve ==> y.epoch == x.epoch && y.ledgerSlot == x.ledgerSlot)
  }

  lemma OnwardTrans(a: State, b: State, c: State)
    requires Onward(a, b) && Onward(b, c)
    ensures Onward(a, c)
  {
    forall z | z in c.sessions && z.id < a.nextId
      ensures Came(a.sessions, z)
    {
      assert Came(b.sessions, z);
      var y :| y in b.sessions && Ages(y, z);
      assert Came(a.sessions, y);
    }
  }

  lemma SubsetOnward(a: State, b: State)
    requires b.nextId == a.nextId && forall y :: y in b.sessions ==> y in a.sessions
    ensures Onward(a, b)
  {
  }

  lemma DeclareDeadOnward(cfg: Config, s: State, i: nat)
    requires Core(cfg, s, -1) && i < |s.hosts|
    ensures Onward(s, DeclareDead(cfg, s, i))
  {
    var s1 := SetHost(s, i, s.hosts[i].(status := Dead, silent := false));
    HostChangeKeeps(cfg, s, i, s1.hosts[i], i);
    CancelFromKeeps(cfg, s1, i, i, 0);
    CancelNextId(s1, i, 0);
  }

  lemma {:induction false} CancelNextId(s: State, i: nat, j: nat)
    ensures CancelFrom(s, i, j).nextId == s.nextId
    decreases |s.sessions| - j
  {
    if j < |s.sessions| {
      if ServedBy(s.sessions[j], i) {
        CancelNextId(CancelOne(s, j), i, j);
      } else {
        CancelNextId(s, i, j + 1);
      }
    }
  }

  lemma {:induction false} HostsStepOnward(cfg: Config, s: State, i: nat)
    requires Inv(cfg, s)
    ensures Onward(s, HostsStep(cfg, s, i))
    decreases |s.hosts| - i
  {
    if i < |s.hosts| {
      NoticeKeeps(cfg, s, i);
      var s1 := Notice(cfg, s, i);
      DeclareDeadOnward(cfg, s1, i);
      SubsetOnward(s, s1);
      OnwardTrans(s, s1, DeclareDead(cfg, s1, i));
      OneHostSeat(cfg, s, i);
      HostsStepOnward(cfg, HostStep(cfg, s, i), i + 1);
      OnwardTrans(s, HostStep(cfg, s, i), HostsStep(cfg, s, i));
    }
  }

  lemma CallOnward(cfg: Config, s: State)
    requires Inv(cfg, s)
    ensures Onward(s, Call(s))
  {
    ListedLoose(cfg, s);
    var l, j := Listed(s), |s.sessions|;
    InRemoved(l.sessions, j);
    var r := Call(s);
    forall y | y in r.sessions && y.id < s.nextId
      ensures y in s.sessions
    {
      NextTryableIs(l.hosts, l.sessions[j].order, 0);
      if |r.sessions| == |l.sessions| { InUpdated(l.sessions, j, r.sessions[j]); }
    }
  }

  lemma {:induction false} CallsOnward(cfg: Config, s: State)
    requires Inv(cfg, s)
    ensures Onward(s, Calls(s))
    decreases s.acc.Floor
  {
    if s.acc >= 1.0 {
      CallKeeps(cfg, s);
      CallOnward(cfg, s);
      CallsOnward(cfg, Call(s));
      OnwardTrans(s, Call(s), Calls(s));
    } else {
      SubsetOnward(s, s);
    }
  }

  /** Session `j` is replaced by itself further on, or leaves the list. */
  ghost predicate MovesOn(s: State, j: nat, r: State)
    requires j < |s.sessions|
  {
    && r.nextId == s.nextId
    && (|| r.sessions == RemoveAt(s.sessions, j)
        || (|r.sessions| == |s.sessions| && r.sessions == s.sessions[j := r.sessions[j]]
            && Ages(s.sessions[j], r.sessions[j])))
  }

  lemma ArriveMoves(cfg: Config, s: State, j: nat)
    requires j < |s.sessions| && s.sessions[j].phase == Out
    ensures MovesOn(s, j, Arrive(cfg, s, j))
  {
    var x := s.sessions[j];
    NextTryableIs(s.hosts, x.order, x.next + 1);
  }

  lemma GoBackMoves(s: State, j: nat)
    requires j < |s.sessions| && s.sessions[j].phase == Serve
    ensures MovesOn(s, j, GoBack(s, j))
  {
  }

  /** Whether the session's time has been counted already makes no difference. */
  lemma AgedMoves(s: State, j: nat, dt: real, r: State)
    requires j < |s.sessions|
    requires MovesOn(s.(sessions := s.sessions[j := s.sessions[j].(elapsed := s.sessions[j].elapsed + dt)]), j, r)
    ensures MovesOn(s, j, r)
  {
  }

  /** A step of session `j` moves it on, or leaves it waiting for a host that hangs. */
  lemma SessionStepMoves(cfg: Config, s: State, j: nat, dt: real)
    requires j < |s.sessions|
    ensures MovesOn(s, j, SessionStep(cfg, s, j, dt))
  {
    var x := s.sessions[j];
    if !Stalled(s, x) && x.elapsed + dt >= x.dur {
      hide Arrive, GoBack, Ages;
      var s1 := s.(sessions := s.sessions[j := x.(elapsed := x.elapsed + dt)]);
      match x.phase {
        case Out => ArriveMoves(cfg, s1, j);
        case Serve => GoBackMoves(s1, j);
        case Back =>
      }
      AgedMoves(s, j, dt, SessionStep(cfg, s, j, dt));
    }
  }

  lemma SessionStepOnward(cfg: Config, s: State, j: nat, dt: real)
    requires Core(cfg, s, -1) && j < |s.sessions|
    ensures Onward(s, SessionStep(cfg, s, j, dt))
  {
    var r := SessionStep(cfg, s, j, dt);
    SessionStepMoves(cfg, s, j, dt);
    if |r.sessions| < |s.sessions| {
      InRemoved(s.sessions, j);
    } else {
      InUpdated(s.sessions, j, r.sessions[j]);
      assert s.sessions[j] in s.sessions;
    }
  }

  lemma {:induction false} SessionsStepOnward(cfg: Config, s: State, j: nat, dt: real)
    requires Core(cfg, s, -1)
    ensures Onward(s, SessionsStep(cfg, s, j, dt))
    decreases |s.sessions| - j
  {
    if j < |s.sessions| {
      SessionStepSize(cfg, s, j, dt);
      SessionStepKeeps(cfg, s, j, dt);
      SessionStepOnward(cfg, s, j, dt);
      var s1 := SessionStep(cfg, s, j, dt);
      if |s1.sessions| < |s.sessions| {
        SessionsStepOnward(cfg, s1, j, dt);
      } else {
        SessionsStepOnward(cfg, s1, j + 1, dt);
      }
      OnwardTrans(s, s1, SessionsStep(cfg, s, j, dt));
    } else {
      SubsetOnward(s, s);
    }
  }

  lemma AfterSeatOnward(cfg: Config, s: State, dt: real)
    requires Inv(cfg, s)
    ensures Onward(s, AfterSeat(cfg, s, dt))
  {
    ClockKeeps(cfg, s, s.t + dt, s.acc);
    var s0 := s.(t := s.t + dt, acc := s.acc);
    HostsStepOnward(cfg, s0, 0);
    SubsetOnward(AfterHosts(cfg, s, dt), AfterSeat(cfg, s, dt));
    OnwardTrans(s0, AfterHosts(cfg, s, dt), AfterSeat(cfg, s, dt));
  }

  lemma StepOnward(cfg: Config, s: State, dt0: real)
    requires Inv(cfg, s)
    ensures Onward(s, Step(cfg, s, dt0))
  {
    var dt := Capped(dt0);
    AfterSeatOnward(cfg, s, dt);
    AfterSeatKeeps(cfg, s, dt);
    var s2 := AfterSeat(cfg, s, dt);
    CallsKeeps(cfg, s2);
    CallsOnward(cfg, s2);
    SessionsStepOnward(cfg, Calls(s2), 0, dt);
    OnwardTrans(s2, Calls(s2), Step(cfg, s, dt0));
    OnwardTrans(s, s2, Step(cfg, s, dt0));
  }

  lemma CrashOnward(cfg: Config, s: State, i: nat)
    requires Inv(cfg, s) && i < |s.hosts| && Answering(s.hosts[i])
    ensures Onward(s, Kill(cfg, s, i, Crash))
  {
    var s2 := Crashed(cfg, s, i);
    CrashedKeeps(cfg, s, i);
    DeclareDeadOnward(cfg, s2, i);
    SubsetOnward(s, s2);
    OnwardTrans(s, s2, DeclareDead(cfg, s2, i));
  }

  lemma KillOnward(cfg: Config, s: State, i: nat, mode: Mode)
    requires Inv(cfg, s) && i < |s.hosts|
    ensures Onward(s, Kill(cfg, s, i, mode))
  {
    if Answering(s.hosts[i]) && mode == Crash {
      CrashOnward(cfg, s, i);
    } else {
      SubsetOnward(s, Kill(cfg, s, i, mode));
    }
  }

  lemma ReviveOnward(cfg: Config, s: State, i: nat)
    requires Inv(cfg, s) && i < |s.hosts|
    ensures Onward(s, Revive(cfg, s, i))
  {
    hide Core, SeatOk, DeclareDead;
    SubsetOnward(s, s);
    if s.hosts[i].status != Dead {
      DeclareDeadOnward(cfg, s, i);
    }
  }

  lemma ApplyOnward(cfg: Config, s: State, e: Event)
    requires Inv(cfg, s)
    ensures Onward(s, Apply(cfg, s, e))
  {
    SubsetOnward(s, s);
    match e
    case Tick(dt) => StepOnward(cfg, s, dt);
    case Fail(i, mode) => if i < |s.hosts| { KillOnward(cfg, s, i, mode); }
    case Return(i) => if i < |s.hosts| { ReviveOnward(cfg, s, i); }
  }

  lemma {:induction false} RunOnward(cfg: Config, s: State, events: seq<Event>)
    requires Inv(cfg, s)
    ensures Onward(s, Run(cfg, s, events))
    decreases |events|
  {
    if events == [] {
      SubsetOnward(s, s);
    } else {
      ApplyKeeps(cfg, s, events[0]);
      ApplyOnward(cfg, s, events[0]);
      var s1 := Apply(cfg, s, events[0]);
      RunOnward(cfg, s1, events[1..]);
      OnwardTrans(s, s1, Run(cfg, s, events));
    }
  }

  lemma {:induction false} RunConcat(cfg: Config, s: State, a: seq<Event>, b: seq<Event>)
    ensures Run(cfg, s, a + b) == Run(cfg, Run(cfg, s, a), b)
    decreases |a|
  {
    if a == [] {
      assert a + b == b;
    } else {
      assert (a + b)[1..] == a[1..] + b;
      RunConcat(cfg, Apply(cfg, s, a[0]), a[1..], b);
    }
  }

  /** Whatever happens in between, a session met again is at the same host or at one it
      had not tried before: its order visits no host twice and is only gone forward in. */
  lemma NoHostTwice(cfg: Config, before: seq<Event>, after: seq<Event>, x: Session, y: Session)
    requires x in Run(cfg, Create(cfg), before).sessions
    requires y in Run(cfg, Create(cfg), before + after).sessions && x.id == y.id
    ensures y.order == x.order && x.next <= y.next < |x.order|
    ensures forall k :: 0 <= k < x.next ==> y.host != Some(x.order[k])
    ensures y.next != x.next ==> y.host != x.host
  {
    CreateKeeps(cfg);
    RunKeeps(cfg, Create(cfg), before);
    var s := Run(cfg, Create(cfg), before);
    RunConcat(cfg, Create(cfg), before, after);
    RunKeeps(cfg, s, after);
    RunOnward(cfg, s, after);
    assert Came(s.sessions, y);
    var o :| o in s.sessions && Ages(o, y);
    SameId(s.sessions, o, x);
    assert SessionOk(s, x, -1) && SessionOk(Run(cfg, s, after), y, -1);
  }
}
