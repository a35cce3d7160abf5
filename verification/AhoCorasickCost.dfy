/** What the automaton costs, in the calls that follow failure links: building it is linear
    in the total length of the patterns, and scanning in the length of the haystack. */
module AhoCorasickCost {
  import opened Integers
  import opened Options
  import opened AhoCorasick

  // ---------------------------------------------------------------- scanning

  /** Calls of `scan_step` made for one byte from `state`; `find_fail` falls back in the
      same way and makes as many. */
  ghost function StepCost(nodes: seq<AcNode>, state: nat, b: byte, paths: seq<Text>): nat
    requires Shallow(nodes, paths) && state < |nodes|
    decreases |paths[state]|
  {
    if ChildOf(nodes, state, b).Some? || state == 0 then 1
    else
      assert FailShorter(nodes, paths, state);
      1 + StepCost(nodes, nodes[state].fail, b, paths)
  }

  /** Calls of `scan_step` made for the rest of the haystack. */
  ghost function TotalCost(nodes: seq<AcNode>, paths: seq<Text>, ps: seq<Text>, h: Text, pos: nat, state: nat): nat
    requires Finished(nodes, paths, ps) && state < |nodes| && pos <= |h|
    decreases |h| - pos
  {
    if pos == |h| then 0
    else
      ScanStepInRange(nodes, paths, ps, state, h[pos]);
      StepCost(nodes, state, h[pos], paths)
      + TotalCost(nodes, paths, ps, h, pos + 1, ScanStep(nodes, state, h[pos], paths))
  }

  /** Each fall back is paid for by the depth it gives up. */
  lemma {:induction false} StepCostBound(nodes: seq<AcNode>, paths: seq<Text>, state: nat, b: byte)
    requires Trie(nodes, paths) && Shallow(nodes, paths) && state < |nodes|
    ensures var r := ScanStep(nodes, state, b, paths);
            r < |nodes| && StepCost(nodes, state, b, paths) + |paths[r]| <= |paths[state]| + 2
    decreases |paths[state]|
  {
    assert EdgeOk(nodes, paths, state, b);
    if ChildOf(nodes, state, b).None? && state != 0 {
      assert FailShorter(nodes, paths, state);
      StepCostBound(nodes, paths, nodes[state].fail, b);
    }
  }

  lemma {:induction false} TotalCostBound(
      nodes: seq<AcNode>, paths: seq<Text>, ps: seq<Text>, h: Text, pos: nat, state: nat)
    requires Finished(nodes, paths, ps) && state < |nodes| && pos <= |h|
    ensures TotalCost(nodes, paths, ps, h, pos, state) <= |paths[state]| + 2 * (|h| - pos)
    decreases |h| - pos
  {
    if pos < |h| {
      StepCostBound(nodes, paths, state, h[pos]);
      TotalCostBound(nodes, paths, ps, h, pos + 1, ScanStep(nodes, state, h[pos], paths));
    }
  }

  /** A scan makes at most two `scan_step` calls per byte, whatever the patterns. */
  lemma ScanIsLinear(ps: seq<Text>, h: Text)
    ensures Finished(Build(ps).nodes, TriePaths(ps), ps)
    ensures TotalCost(Build(ps).nodes, TriePaths(ps), ps, h, 0, 0) <= 2 * |h|
  {
    BuildFinishes(ps);
    TotalCostBound(Build(ps).nodes, TriePaths(ps), ps, h, 0, 0);
  }

  // ---------------------------------------------------------------- building, call by call

  /** Calls of `find_fail` made for the edges in `children` of a node with failure link
      `failU`. */
  ghost function ChildrenCost(children: seq<(byte, nat)>, failU: nat, nodes: seq<AcNode>, paths: seq<Text>): nat
    requires Trie(nodes, paths) && Shallow(nodes, paths) && Below(children, failU, paths)
    decreases |children|
  {
    if children == [] then 0
    else
      var (b, v) := children[0];
      assert children[0] in children;
      FindFailDepth(nodes, paths, failU, b);
      var newFail := FindFail(nodes, failU, b, paths);
      var merged := nodes[v].outputs + nodes[newFail].outputs;
      SetFailShallow(nodes, paths, v, newFail, merged);
      StepCost(nodes, failU, b, paths)
      + ChildrenCost(children[1..], failU, SetFailOutputs(nodes, v, newFail, merged), paths)
  }

  /** Calls of `find_fail` made by the breadth-first pass from here on. */
  ghost function LoopCost(nodes: seq<AcNode>, q: seq<nat>, paths: seq<Text>, ps: seq<Text>, todo: set<nat>): nat
    requires BfsInv(nodes, paths, ps, q, todo)
    decreases todo
  {
    if q == [] then 0
    else
      BfsStep(nodes, paths, ps, q, todo);
      var u := q[0];
      var (nodes2, q3) := BfsChildren(nodes[u].children, nodes[u].fail, nodes, q[1..], paths);
      ChildrenCost(nodes[u].children, nodes[u].fail, nodes, paths) + LoopCost(nodes2, q3, paths, ps, todo - {u})
  }

  ghost function BuildCost(ps: seq<Text>): nat {
    InsertedTrie(ps);
    var nodes := InsertAll(ROOT, ps, 0);
    BfsStart(nodes, TriePaths(ps), ps);
    LoopCost(nodes, Ids(nodes[0].children), TriePaths(ps), ps, NonRoots(|nodes|))
  }

  // ---------------------------------------------------------------- the cost of one link

  ghost function IndexIn(paths: seq<Text>, t: Text): (k: nat)
    requires t in paths
    ensures k < |paths| && paths[k] == t
  {
    var k :| 0 <= k < |paths| && paths[k] == t;
    k
  }

  /** The node above `w`. */
  ghost function Parent(paths: seq<Text>, w: nat): (u: nat)
    requires PrefixClosed(paths) && w < |paths| && paths[w] != []
    ensures u < |paths| && paths[u] == paths[w][..|paths[w]| - 1]
  {
    assert HasParent(paths, w);
    IndexIn(paths, paths[w][..|paths[w]| - 1])
  }

  ghost function FailDepth(nodes: seq<AcNode>, paths: seq<Text>, w: nat): nat
    requires Shallow(nodes, paths) && w < |nodes| && nodes[0].fail == 0
  {
    if w > 0 then
      assert FailShorter(nodes, paths, w);
      |paths[nodes[w].fail]|
    else 0
  }

  /** Calls of `find_fail` for the link of `w`; the links of the first level need none. */
  ghost function LinkCost(nodes: seq<AcNode>, paths: seq<Text>, w: nat): nat
    requires Trie(nodes, paths) && Shallow(nodes, paths) && w < |nodes|
  {
    if |paths[w]| < 2 then 0
    else
      var u := Parent(paths, w);
      assert FailShorter(nodes, paths, u);
      StepCost(nodes, nodes[u].fail, paths[w][|paths[w]| - 1], paths)
  }

  lemma LongestUnique(paths: seq<Text>, r: nat, r2: nat, text: Text)
    requires Distinct(paths) && Longest(paths, r, text) && Longest(paths, r2, text)
    ensures r == r2
  {
    assert paths[r] == paths[r2];
    assert Apart(paths, r, r2);
  }

  /** What a link costs beyond two calls is paid for by the depth given up. */
  lemma LinkCostBound(nodes: seq<AcNode>, paths: seq<Text>, ps: seq<Text>, w: nat)
    requires Finished(nodes, paths, ps) && 0 < w < |nodes|
    ensures paths[w] != []
    ensures LinkCost(nodes, paths, w) + FailDepth(nodes, paths, w) <= FailDepth(nodes, paths, Parent(paths, w)) + 2
  {
    assert Final(nodes, paths, ps, w);
    assert FailShorter(nodes, paths, w);
    if |paths[w]| >= 2 {
      var u, b := Parent(paths, w), paths[w][|paths[w]| - 1];
      assert paths[w] == paths[u] + [b];
      forall x: nat | 0 < x < |nodes| && |paths[x]| <= |paths[u]| ensures FailOk(nodes, paths, x) {
        assert Final(nodes, paths, ps, x);
      }
      ChildFail(nodes, paths, u, b, w);
      LongestUnique(paths, FindFail(nodes, nodes[u].fail, b, paths), nodes[w].fail, paths[w][1..]);
      ScanIsFind(nodes, paths, nodes[u].fail, b);
      StepCostBound(nodes, paths, nodes[u].fail, b);
    }
  }

  // ---------------------------------------------------------------- the links of all nodes

  /** The cost of the links of the first `n` nodes. */
  ghost function CostTo(nodes: seq<AcNode>, paths: seq<Text>, n: nat): nat
    requires Trie(nodes, paths) && Shallow(nodes, paths) && n <= |nodes|
  {
    if n == 0 then 0 else CostTo(nodes, paths, n - 1) + LinkCost(nodes, paths, n - 1)
  }

  function TotalLength(ps: seq<Text>): nat {
    if ps == [] then 0 else |ps[0]| + TotalLength(ps[1..])
  }

  lemma {:induction false} AddPrefixesMore(paths: seq<Text>, p: Text, i: nat)
    requires i <= |p|
    ensures paths <= AddPrefixes(paths, p, i) && |AddPrefixes(paths, p, i)| <= |paths| + |p| - i
    decreases |p| - i
  {
    if i < |p| {
      if p[..i + 1] in paths {
        AddPrefixesMore(paths, p, i + 1);
      } else {
        AddPrefixesMore(paths + [p[..i + 1]], p, i + 1);
      }
    }
  }

  /** No more nodes than the root and one for each byte of a pattern. */
  lemma {:induction false} AddAllMore(paths: seq<Text>, ps: seq<Text>)
    ensures paths <= AddAll(paths, ps) && |AddAll(paths, ps)| <= |paths| + TotalLength(ps)
    decreases |ps|
  {
    if ps != [] {
      AddPrefixesMore(paths, ps[0], 0);
      AddAllMore(if ps[0] == [] then paths else AddPrefixes(paths, ps[0], 0), ps[1..]);
    }
  }

  /** The prefix of `p` one byte longer is the child of the prefix before it. */
  lemma PrefixStep(paths: seq<Text>, p: Text, i: nat)
    requires PrefixClosed(paths) && Distinct(paths) && i < |p| && p[..i] in paths && p[..i + 1] in paths
    ensures var w := IndexIn(paths, p[..i + 1]);
            paths[w] != [] && Parent(paths, w) == IndexIn(paths, p[..i])
  {
    var w := IndexIn(paths, p[..i + 1]);
    assert p[..i + 1][..i] == p[..i];
    assert Apart(paths, Parent(paths, w), IndexIn(paths, p[..i]));
  }

  /** Along one pattern the costs of the links, new or not, telescope. */
  lemma {:induction false} PrefixesCost(
      nodes: seq<AcNode>, paths: seq<Text>, ps: seq<Text>, now: seq<Text>, p: Text, i: nat)
    requires Finished(nodes, paths, ps) && i <= |p| && p[..i] in now && now <= AddPrefixes(now, p, i) <= paths
    ensures p in paths && p[..i] in paths
    ensures CostTo(nodes, paths, |AddPrefixes(now, p, i)|) + FailDepth(nodes, paths, IndexIn(paths, p))
         <= CostTo(nodes, paths, |now|) + FailDepth(nodes, paths, IndexIn(paths, p[..i])) + 2 * (|p| - i)
    decreases |p| - i
  {
    assert p[..i] in paths;
    if i == |p| {
      assert p[..i] == p;
    } else {
      var longer := p[..i + 1];
      var next := if longer in now then now else now + [longer];
      assert AddPrefixes(now, p, i) == AddPrefixes(next, p, i + 1);
      AddPrefixesMore(next, p, i + 1);
      PrefixesCost(nodes, paths, ps, next, p, i + 1);
      PrefixStep(paths, p, i);
      var w := IndexIn(paths, longer);
      assert w != 0;
      LinkCostBound(nodes, paths, ps, w);
      if longer !in now {
        assert paths[|now|] == next[|now|] == longer;
        assert Apart(paths, w, |now|);
      }
    }
  }

  lemma {:induction false} AllCost(nodes: seq<AcNode>, paths: seq<Text>, ps: seq<Text>, now: seq<Text>, rest: seq<Text>)
    requires Finished(nodes, paths, ps) && [] in now && AddAll(now, rest) <= paths
    ensures |now| <= |AddAll(now, rest)|
    ensures CostTo(nodes, paths, |AddAll(now, rest)|) <= CostTo(nodes, paths, |now|) + 2 * TotalLength(rest)
    decreases |rest|
  {
    AddAllMore(now, rest);
    if rest != [] {
      var p := rest[0];
      if p == [] {
        AllCost(nodes, paths, ps, now, rest[1..]);
      } else {
        var next := AddPrefixes(now, p, 0);
        AddPrefixesMore(now, p, 0);
        AddAllMore(next, rest[1..]);
        assert p[..0] == [];
        PrefixesCost(nodes, paths, ps, now, p, 0);
        assert Apart(paths, IndexIn(paths, []), 0);
        AllCost(nodes, paths, ps, next, rest[1..]);
      }
    }
  }

  // ---------------------------------------------------------------- the pass pays for each link once

  /** The cost of the links of those of the first `n` nodes that are in `left`. */
  ghost function CostIn(nodes: seq<AcNode>, paths: seq<Text>, left: set<nat>, n: nat): nat
    requires Trie(nodes, paths) && Shallow(nodes, paths) && n <= |nodes|
  {
    if n == 0 then 0
    else CostIn(nodes, paths, left, n - 1) + if n - 1 in left then LinkCost(nodes, paths, n - 1) else 0
  }

  ghost function IdsCost(nodes: seq<AcNode>, paths: seq<Text>, ids: seq<nat>): nat
    requires Trie(nodes, paths) && Shallow(nodes, paths) && forall i :: 0 <= i < |ids| ==> ids[i] < |nodes|
  {
    if ids == [] then 0 else LinkCost(nodes, paths, ids[0]) + IdsCost(nodes, paths, ids[1..])
  }

  lemma {:induction false} CostInAll(nodes: seq<AcNode>, paths: seq<Text>, left: set<nat>, n: nat)
    requires Trie(nodes, paths) && Shallow(nodes, paths) && n <= |nodes|
    ensures CostIn(nodes, paths, left, n) <= CostTo(nodes, paths, n)
  {
    if n > 0 { CostInAll(nodes, paths, left, n - 1); }
  }

  lemma {:induction false} CostWithout(nodes: seq<AcNode>, paths: seq<Text>, left: set<nat>, v: nat, n: nat)
    requires Trie(nodes, paths) && Shallow(nodes, paths) && n <= |nodes| && v in left
    ensures CostIn(nodes, paths, left, n)
         == CostIn(nodes, paths, left - {v}, n) + if v < n then LinkCost(nodes, paths, v) else 0
  {
    if n > 0 { CostWithout(nodes, paths, left, v, n - 1); }
  }

  lemma {:induction false} CostWithoutAll(nodes: seq<AcNode>, paths: seq<Text>, left: set<nat>, ids: seq<nat>)
    requires Trie(nodes, paths) && Shallow(nodes, paths)
    requires forall i :: 0 <= i < |ids| ==> ids[i] in left && ids[i] < |nodes|
    requires forall i, j :: 0 <= i < j < |ids| ==> ids[i] != ids[j]
    ensures CostIn(nodes, paths, left, |nodes|)
         == CostIn(nodes, paths, left - (set v | v in ids), |nodes|) + IdsCost(nodes, paths, ids)
    decreases |ids|
  {
    if ids == [] {
      assert left - (set v | v in ids) == left;
    } else {
      CostWithout(nodes, paths, left, ids[0], |nodes|);
      CostWithoutAll(nodes, paths, left - {ids[0]}, ids[1..]);
      assert left - {ids[0]} - (set v | v in ids[1..]) == left - (set v | v in ids);
    }
  }

  /** Where the links are final the cost of following them is, too. */
  lemma {:induction false} SameStepCost(
      nodes: seq<AcNode>, done: seq<AcNode>, paths: seq<Text>, ps: seq<Text>, x: nat, b: byte)
    requires Trie(nodes, paths) && Shallow(nodes, paths) && Finished(done, paths, ps) && x < |nodes|
    requires FailsOkTo(nodes, paths, |paths[x]|)
    ensures StepCost(nodes, x, b, paths) == StepCost(done, x, b, paths)
    decreases |paths[x]|
  {
    assert EdgeOk(nodes, paths, x, b) && EdgeOk(done, paths, x, b);
    if x > 0 && ChildOf(nodes, x, b).None? {
      SameFail(nodes, done, paths, ps, x);
      assert FailShorter(nodes, paths, x);
      SameStepCost(nodes, done, paths, ps, nodes[x].fail, b);
    }
  }

  lemma SameFail(nodes: seq<AcNode>, done: seq<AcNode>, paths: seq<Text>, ps: seq<Text>, x: nat)
    requires Trie(nodes, paths) && Finished(done, paths, ps) && 0 < x < |nodes| && FailsOkTo(nodes, paths, |paths[x]|)
    ensures nodes[x].fail == done[x].fail
  {
    assert FailOk(nodes, paths, x) && Final(done, paths, ps, x);
    LongestUnique(paths, nodes[x].fail, done[x].fail, paths[x][1..]);
  }

  /** The calls made for one child are those its link costs. */
  lemma ChildCostIs(
      nodes: seq<AcNode>, done: seq<AcNode>, paths: seq<Text>, ps: seq<Text>, u: nat, children: seq<(byte, nat)>,
      e: (byte, nat))
    requires Ready(nodes, paths, ps, u, children) && Finished(done, paths, ps) && e in children
    ensures nodes[u].fail < |nodes| && e.1 < |done|
    ensures StepCost(nodes, nodes[u].fail, e.0, paths) == LinkCost(done, paths, e.1)
  {
    var w := e.1;
    assert Apart(paths, 0, u);
    assert paths[w][..|paths[w]| - 1] == paths[u];
    assert Apart(paths, Parent(paths, w), u);
    ReadyFailsOk(nodes, paths, ps, u, children);
    SameFail(nodes, done, paths, ps, u);
    assert FailShorter(nodes, paths, u);
    SameStepCost(nodes, done, paths, ps, nodes[u].fail, e.0);
  }

  lemma {:induction false} ChildrenCostIs(
      nodes: seq<AcNode>, done: seq<AcNode>, paths: seq<Text>, ps: seq<Text>, u: nat, children: seq<(byte, nat)>)
    requires Ready(nodes, paths, ps, u, children) && Below(children, nodes[u].fail, paths) && Finished(done, paths, ps)
    ensures forall i :: 0 <= i < |children| ==> Ids(children)[i] < |done|
    ensures ChildrenCost(children, nodes[u].fail, nodes, paths) == IdsCost(done, paths, Ids(children))
    decreases |children|
  {
    forall i | 0 <= i < |children| ensures Ids(children)[i] < |done| { assert children[i] in children; }
    if children != [] {
      var v, rest := children[0].1, children[1..];
      ChildCostIs(nodes, done, paths, ps, u, children, children[0]);
      OneChildFinal(nodes, paths, ps, u, children, children[0]);
      var f := FindFail(nodes, nodes[u].fail, children[0].0, paths);
      var merged := nodes[v].outputs + nodes[f].outputs;
      OneChildReady(nodes, paths, ps, u, children, f, merged);
      var nodes1 := SetFailOutputs(nodes, v, f, merged);
      ReadyBelow(nodes1, paths, ps, u, rest);
      ChildrenCostIs(nodes1, done, paths, ps, u, rest);
      assert Ids(children)[1..] == Ids(rest);
    }
  }

  ghost function Unseen(q: seq<nat>, todo: set<nat>): set<nat> {
    set w | w in todo && w !in q
  }

  /** The pass pays at most for the nodes it has not seen yet. */
  lemma {:induction false} LoopCostBound(
      nodes: seq<AcNode>, done: seq<AcNode>, paths: seq<Text>, ps: seq<Text>, q: seq<nat>, todo: set<nat>)
    requires BfsInv(nodes, paths, ps, q, todo) && Finished(done, paths, ps)
    ensures LoopCost(nodes, q, paths, ps, todo) <= CostIn(done, paths, Unseen(q, todo), |done|)
    decreases todo
  {
    if q != [] {
      var u := q[0];
      var children, ids := nodes[u].children, Ids(nodes[u].children);
      BfsStep(nodes, paths, ps, q, todo);
      PopReady(nodes, paths, ps, q, todo);
      ChildrenCostIs(nodes, done, paths, ps, u, children);
      NewlySeen(nodes, paths, ps, q, todo);
      CostWithoutAll(done, paths, Unseen(q, todo), ids);
      var (nodes2, q3) := BfsChildren(children, nodes[u].fail, nodes, q[1..], paths);
      BfsChildrenFinal(children, u, nodes, q[1..], paths, ps);
      LoopCostBound(nodes2, done, paths, ps, q3, todo - {u});
    }
  }

  /** The children put on the queue are new to it, and the only ones it has not seen before. */
  lemma NewlySeen(nodes: seq<AcNode>, paths: seq<Text>, ps: seq<Text>, q: seq<nat>, todo: set<nat>)
    requires BfsInv(nodes, paths, ps, q, todo) && q != []
    ensures var ids := Ids(nodes[q[0]].children);
            && (forall i :: 0 <= i < |ids| ==> ids[i] in Unseen(q, todo))
            && (forall i, j :: 0 <= i < j < |ids| ==> ids[i] != ids[j])
            && Unseen(q[1..] + ids, todo - {q[0]}) == Unseen(q, todo) - (set v | v in ids)
  {
    var u, ids := q[0], Ids(nodes[q[0]].children);
    var q2, n := q[1..] + ids, |q| - 1;
    PopQueue(nodes, paths, ps, q, todo);
    assert q == [u] + q[1..];
    forall i | 0 <= i < |ids| ensures ids[i] in Unseen(q, todo) {
      assert q2[n + i] == ids[i];
      forall k | 0 <= k < n ensures q[1..][k] != ids[i] {
        assert q2[k] == q[1..][k];
      }
    }
    forall i, j | 0 <= i < j < |ids| ensures ids[i] != ids[j] {
      assert q2[n + i] == ids[i] && q2[n + j] == ids[j];
    }
  }

  /** Building makes one node for the root and at most one for each byte of a pattern, and
      at most two calls of `find_fail` for each byte. */
  lemma BuildIsLinear(ps: seq<Text>)
    ensures |Build(ps).nodes| <= 1 + TotalLength(ps)
    ensures BuildCost(ps) <= 2 * TotalLength(ps)
  {
    var done, paths := Build(ps).nodes, TriePaths(ps);
    BuildFinishes(ps);
    AddAllMore([[]], ps);
    InsertedTrie(ps);
    var nodes := InsertAll(ROOT, ps, 0);
    BfsStart(nodes, paths, ps);
    var q, todo := Ids(nodes[0].children), NonRoots(|nodes|);
    LoopCostBound(nodes, done, paths, ps, q, todo);
    CostInAll(done, paths, Unseen(q, todo), |done|);
    AllCost(done, paths, ps, [[]], ps);
    assert paths[0] == [];
    assert CostTo(done, paths, 1) == 0;
  }
}
