/** The cluster simulation as the page runs it (assets/explainer/sim-cluster.js): one record,
    updated in place. Every method computes the function of `SimCluster` it names, and the
    public ones, a step, a failure and a return, keep the invariant of `SimClusterSafety`. */
module SimClusterObject {
  import opened Options
  import opened Simulations
  import opened SimCluster
  import opened SimClusterSafety

  /** The record the source passes around as `s`. */
  class Cluster {
    const cfg: Config
    var t: real
    var acc: real
    var nextId: nat
    var rr: nat
    var draws: nat
    var hosts: seq<Host>
    var ledger: Ledger
    var sessions: seq<Session>
    var counters: Counters

    ghost function View(): State
      reads this
    {
      State(t, acc, nextId, rr, draws, hosts, ledger, sessions, counters)
    }

    ghost predicate Valid()
      reads this
    {
      Inv(cfg, View())
    }

    constructor (cfg: Config)
      ensures Valid() && this.cfg == cfg && View() == Create(cfg)
    {
      this.cfg := cfg;
      t, acc, nextId, rr, draws := 0.0, 0.0, 1, 0, 0;
      hosts := FreshHosts(cfg);
      ledger := Ledger(LastBooks(cfg.books, |cfg.books|), Slots(cfg.ledgerCapacity), None, 0);
      sessions := [];
      counters := Counters(0, 0, 0, 0);
      new;
      CreateKeeps(cfg);
    }

    method ReleaseSession(j: nat)
      requires j < |sessions|
      modifies this
      ensures View() == Release(old(View()), j)
    {
      var x := sessions[j];
      hosts := FreeStock(hosts, x);
      ledger := ledger.(slots := FreeSlot(ledger.slots, x.ledgerSlot, x.id));
      sessions := sessions[j := x.(stockSlot := None, ledgerSlot := None)];
    }

    method RefuseSession(j: nat)
      requires j < |sessions|
      modifies this
      ensures View() == Refuse(old(View()), j)
    {
      counters := counters.(refused := counters.refused + 1);
      sessions := RemoveAt(sessions, j);
    }

    /** Session `j` goes on along its order of hosts, or is refused at the end of it. */
    method RouteSession(j: nat, from: Option<nat>)
      requires j < |sessions|
      modifies this
      ensures View() == Route(old(View()), j, from)
    {
      var x := sessions[j];
      var next := x.next;
      while next < |x.order| && !(x.order[next] < |hosts| && Tryable(hosts[x.order[next]]))
        invariant x == old(sessions)[j] && View() == old(View())
        invariant NextTryable(hosts, x.order, next) == NextTryable(hosts, x.order, x.next)
        decreases |x.order| - next
      {
        next := next + 1;
      }
      if next >= |x.order| {
        RefuseSession(j);
        return;
      }
      var dur := if from == None then TRAVEL else BOUNCE;
      sessions := sessions[j := x.(next := next, host := Some(x.order[next]), phase := Out, from := from,
                                   elapsed := 0.0, dur := dur)];
    }

    method ArriveSession(j: nat)
      requires j < |sessions|
      modifies this
      ensures View() == Arrive(cfg, old(View()), j)
    {
      ghost var s := View();
      var x := sessions[j];
      var slot := StockOffer(hosts, x);
      if slot == None {
        sessions := sessions[j := x.(next := x.next + 1)];
        RouteSession(j, x.host);
        return;
      }
      var ready := ledger.host.Some? && ledger.host.value < |hosts| && Answering(hosts[ledger.host.value])
                   && FirstFree(ledger.slots).Some?;
      if !ready {
        RefuseSession(j);
        return;
      }
      var h, seat := x.host.value, FirstFree(ledger.slots).value;
      hosts := hosts[h := hosts[h].(stock := hosts[h].stock[slot.value := Some(x.id)])];
      var dur := ServiceTime(cfg, draws);
      sessions := sessions[j := x.(stockSlot := slot, ledgerSlot := Some(seat), ledgerHost := ledger.host,
                                   phase := Serve, elapsed := 0.0, dur := dur, epoch := ledger.resets)];
      ledger := ledger.(slots := ledger.slots[seat := Some(x.id)]);
      draws := draws + 1;
      assert View() == Accept(cfg, s, j, slot.value, seat);
    }

    /** Host `i` failed: whoever it was serving in either role leaves the list, slots freed. */
    method CancelSessions(i: nat)
      modifies this
      ensures View() == CancelOn(old(View()), i)
    {
      var j := 0;
      while j < |sessions|
        invariant CancelFrom(View(), i, j) == CancelOn(old(View()), i)
        decreases |sessions| - j
      {
        if ServedBy(sessions[j], i) {
          ReleaseSession(j);
          sessions := RemoveAt(sessions, j);
          counters := counters.(cancelled := counters.cancelled + 1);
        } else {
          j := j + 1;
        }
      }
    }

    method GiveUpOn(i: nat)
      requires i < |hosts|
      modifies this
      ensures View() == DeclareDead(cfg, old(View()), i)
    {
      hosts := hosts[i := hosts[i].(status := Dead, silent := false)];
      CancelSessions(i);
      if ledger.host == Some(i) {
        ledger := ledger.(host := None, slots := Slots(cfg.ledgerCapacity), resets := ledger.resets + 1);
      }
    }

    method KillHost(i: nat, mode: Mode)
      requires Valid() && i < |hosts|
      modifies this
      ensures Valid() && View() == Kill(cfg, old(View()), i, mode)
    {
      hide Inv, DeclareDead;
      KillKeeps(cfg, View(), i, mode);
      var h := hosts[i];
      if h.status != Up || h.silent {
        return;
      }
      if mode == Hang {
        hosts := hosts[i := h.(since := t, silent := true)];
        if ledger.host == Some(i) {
          ledger := ledger.(moveAt := Some(t + cfg.noticeS + cfg.suspectS));
        }
      } else {
        hosts := hosts[i := h.(since := t)];
        if ledger.host == Some(i) {
          ledger := ledger.(moveAt := Some(t + cfg.suspectS));
        }
        GiveUpOn(i);
      }
    }

    method ReviveHost(i: nat)
      requires Valid() && i < |hosts|
      modifies this
      ensures Valid() && View() == Revive(cfg, old(View()), i)
    {
      hide Inv, DeclareDead;
      ReviveKeeps(cfg, View(), i);
      var h := hosts[i];
      if (h.status == Up && !h.silent) || h.status == Restarting {
        return;
      }
      DeclareDeadHosts(cfg, View(), i);
      if h.status != Dead {
        GiveUpOn(i);
      }
      hosts := hosts[i := hosts[i].(status := Restarting, since := t)];
    }

    /** The scan for the seat, from the top rank down. */
    method SettleSeat()
      modifies this
      ensures View() == PlaceLedger(cfg, old(View()))
    {
      var i: nat := |hosts|;
      while i > 0 && !Counts(cfg, t, hosts[i - 1])
        invariant i <= |hosts| && View() == old(View())
        invariant Best(cfg, t, hosts, i) == Best(cfg, t, hosts, |hosts|)
        decreases i
      {
        i := i - 1;
      }
      if i == 0 {
        return;
      }
      var best: nat := i - 1;
      if ledger.host == None {
        if ledger.moveAt == None || t >= ledger.moveAt.value {
          ledger := ledger.(host := Some(best), moveAt := None);
        }
      } else if best > ledger.host.value {
        ledger := ledger.(host := Some(best));
      }
    }

    method StepHost(i: nat)
      requires i < |hosts|
      modifies this
      ensures View() == HostStep(cfg, old(View()), i)
    {
      ghost var s := View();
      var h := hosts[i];
      if h.status == Up && h.silent && t - h.since >= cfg.noticeS {
        hosts := hosts[i := h.(status := Suspect)];
      }
      ghost var s1 := View();
      assert s1 == Notice(cfg, s, i);
      DeclareDeadHosts(cfg, s1, i);
      h := hosts[i];
      if h.status == Suspect && t - h.since >= cfg.noticeS + cfg.suspectS {
        GiveUpOn(i);
      }
      ghost var s2 := View();
      assert s2 == GiveUp(cfg, s1, i);
      h := hosts[i];
      if h.status == Restarting && t - h.since >= cfg.restartS {
        hosts := hosts[i := h.(status := Up, incarnation := h.incarnation + 1, upSince := Some(t),
                               stock := Slots(cfg.stockCapacity))];
      }
      assert View() == ComeUp(cfg, s2, i);
    }

    method StepHosts()
      modifies this
      ensures View() == HostsStep(cfg, old(View()), 0)
    {
      var i := 0;
      while i < |hosts|
        invariant HostsStep(cfg, View(), i) == HostsStep(cfg, old(View()), 0)
        decreases |hosts| - i
      {
        ghost var s := View();
        StepHost(i);
        assert |View().hosts| == |s.hosts|;
        i := i + 1;
      }
    }

    method TakeCall()
      modifies this
      ensures View() == Call(old(View()))
    {
      ghost var s := View();
      var x := NewSession(nextId, rr, |hosts|);
      acc, rr, nextId := acc - 1.0, rr + 1, nextId + 1;
      counters := counters.(started := counters.started + 1);
      sessions := sessions + [x];
      assert View() == Listed(s);
      RouteSession(|sessions| - 1, None);
    }

    method TakeCalls()
      modifies this
      ensures View() == Calls(old(View()))
    {
      while acc >= 1.0
        invariant Calls(View()) == Calls(old(View()))
        decreases acc.Floor
      {
        ghost var s := View();
        TakeCall();
        CallClock(s);
      }
    }

    method StepSession(j: nat, dt: real)
      requires j < |sessions|
      modifies this
      ensures View() == SessionStep(cfg, old(View()), j, dt)
    {
      var x := sessions[j];
      var stalled := x.phase == Serve
                     && ((x.host.Some? && x.host.value < |hosts| && hosts[x.host.value].silent)
                         || (x.ledgerHost.Some? && x.ledgerHost.value < |hosts| && hosts[x.ledgerHost.value].silent));
      if stalled {
        return;
      }
      sessions := sessions[j := x.(elapsed := x.elapsed + dt)];
      if x.elapsed + dt < x.dur {
        return;
      }
      match x.phase
      case Out => ArriveSession(j);
      case Serve => FinishSession(j);
      case Back =>
        counters := counters.(completed := counters.completed + 1);
        sessions := RemoveAt(sessions, j);
    }

    method FinishSession(j: nat)
      requires j < |sessions|
      modifies this
      ensures View() == GoBack(old(View()), j)
    {
      ReleaseSession(j);
      sessions := sessions[j := sessions[j].(phase := Back, elapsed := 0.0, dur := TRAVEL)];
    }

    /** The clock, the hosts, the seat and the load. */
    method SettleHosts(dt: real)
      modifies this
      ensures View() == AfterSeat(cfg, old(View()), dt)
    {
      hide HostsStep, PlaceLedger;
      t := t + dt;
      StepHosts();
      SettleSeat();
      acc := acc + dt * cfg.loadPerS;
    }

    method StepSessions(dt: real)
      modifies this
      ensures View() == SessionsStep(cfg, old(View()), 0, dt)
    {
      var j := 0;
      while j < |sessions|
        invariant SessionsStep(cfg, View(), j, dt) == SessionsStep(cfg, old(View()), 0, dt)
        decreases |sessions| - j
      {
        var before := |sessions|;
        SessionStepSize(cfg, View(), j, dt);
        StepSession(j, dt);
        if |sessions| == before {
          j := j + 1;
        }
      }
    }

    /** One frame of the simulation. */
    method StepBy(dt0: real)
      requires Valid()
      modifies this
      ensures Valid() && View() == Step(cfg, old(View()), dt0)
    {
      hide Inv, AfterSeat, Calls, SessionsStep;
      StepTail(cfg, View(), dt0);
      var dt := Capped(dt0);
      SettleHosts(dt);
      TakeCalls();
      StepSessions(dt);
    }
  }
}
