/** Multi-pattern search by the Aho-Corasick automaton (assets/stdlib/aho_corasick.js).

    The trie lives in a sequence of nodes indexed by node id, root at 0; `Array` in
    the source is the persistent vector, which refines a sequence (PersistentVector).
    Functions that follow failure links take the ghost sequence `paths`, giving for
    each node the byte string spelled by its trie path: it bounds their recursion and
    is the vocabulary of every statement below. */
module AhoCorasick {
  import opened Integers
  import opened Options
  import opened Lists

  type Text = seq<byte>

  datatype AcNode = AcNode(children: seq<(byte, nat)>, fail: nat, outputs: seq<nat>)

  datatype Automaton = Automaton(nodes: seq<AcNode>, patterns: seq<Text>)

  datatype Match = Match(start: int, stop: int, patternIndex: nat, pattern: Text)

  // ---------------------------------------------------------------- trie

  function AssocGet(xs: seq<(byte, nat)>, k: byte): Option<nat> {
    if xs == [] then None
    else if xs[0].0 == k then Some(xs[0].1)
    else AssocGet(xs[1..], k)
  }

  function ChildOf(nodes: seq<AcNode>, state: nat, b: byte): Option<nat>
    requires state < |nodes|
  {
    AssocGet(nodes[state].children, b)
  }

  /** Every edge leads to a node that exists. */
  predicate Linked(nodes: seq<AcNode>) {
    forall u, e :: 0 <= u < |nodes| && e in nodes[u].children ==> e.1 < |nodes|
  }

  lemma {:induction false} AssocGetIn(xs: seq<(byte, nat)>, k: byte)
    ensures match AssocGet(xs, k)
            case Some(v) => (k, v) in xs
            case None => forall e :: e in xs ==> e.0 != k
  {
    if xs != [] {
      assert xs == [xs[0]] + xs[1..];
      AssocGetIn(xs[1..], k);
    }
  }

  function MarkOutput(nodes: seq<AcNode>, state: nat, patIdx: nat): seq<AcNode>
    requires state < |nodes|
  {
    nodes[state := nodes[state].(outputs := [patIdx] + nodes[state].outputs)]
  }

  /** The trie grown by one edge labelled `b`, from `state` to a fresh node. */
  function AddChild(nodes: seq<AcNode>, state: nat, b: byte): seq<AcNode>
    requires state < |nodes|
  {
    (nodes + [AcNode([], 0, [])])[state := nodes[state].(children := [(b, |nodes|)] + nodes[state].children)]
  }

  lemma LinkedAddChild(nodes: seq<AcNode>, state: nat, b: byte)
    requires Linked(nodes) && state < |nodes|
    ensures Linked(AddChild(nodes, state, b))
  {
    var nodes2 := AddChild(nodes, state, b);
    forall u, e | 0 <= u < |nodes2| && e in nodes2[u].children
      ensures e.1 < |nodes2|
    {
      if u < |nodes| && e != (b, |nodes|) {
        assert e in nodes[u].children;
      }
    }
  }

  function InsertGo(nodes: seq<AcNode>, patIdx: nat, pattern: Text, state: nat, i: nat): (r: seq<AcNode>)
    requires state < |nodes| && i <= |pattern| && Linked(nodes)
    ensures Linked(r) && r != []
    decreases |pattern| - i
  {
    if i >= |pattern| then
      assert forall u :: 0 <= u < |nodes| ==> MarkOutput(nodes, state, patIdx)[u].children == nodes[u].children;
      MarkOutput(nodes, state, patIdx)
    else
      AssocGetIn(nodes[state].children, pattern[i]);
      match ChildOf(nodes, state, pattern[i])
      case Some(child) => InsertGo(nodes, patIdx, pattern, child, i + 1)
      case None =>
        LinkedAddChild(nodes, state, pattern[i]);
        InsertGo(AddChild(nodes, state, pattern[i]), patIdx, pattern, |nodes|, i + 1)
  }

  function InsertPattern(nodes: seq<AcNode>, patIdx: nat, pattern: Text): seq<AcNode>
    requires nodes != [] && Linked(nodes)
  {
    InsertGo(nodes, patIdx, pattern, 0, 0)
  }

  function InsertAll(nodes: seq<AcNode>, patterns: seq<Text>, idx: nat): seq<AcNode>
    requires nodes != [] && Linked(nodes)
    decreases |patterns|
  {
    if patterns == [] then nodes
    else if |patterns[0]| == 0 then InsertAll(nodes, patterns[1..], idx + 1)
    else InsertAll(InsertPattern(nodes, idx, patterns[0]), patterns[1..], idx + 1)
  }

  // ---------------------------------------------------------------- failure links

  /** Every failure link leads to a node with a strictly shorter path. */
  ghost predicate Shallow(nodes: seq<AcNode>, paths: seq<Text>) {
    && |paths| == |nodes| > 0
    && forall w: nat {:trigger FailShorter(nodes, paths, w)} :: 0 < w < |nodes| ==> FailShorter(nodes, paths, w)
  }

  ghost predicate FailShorter(nodes: seq<AcNode>, paths: seq<Text>, w: nat)
    requires w < |nodes| == |paths|
  {
    nodes[w].fail < |nodes| && |paths[nodes[w].fail]| < |paths[w]|
  }

  function FindFail(nodes: seq<AcNode>, state: nat, b: byte, ghost paths: seq<Text>): nat
    requires Shallow(nodes, paths) && state < |nodes|
    decreases |paths[state]|
  {
    if state == 0 then
      match ChildOf(nodes, 0, b)
      case Some(nid) => nid
      case None => 0
    else
      match ChildOf(nodes, state, b)
      case Some(nid) => nid
      case None =>
        assert FailShorter(nodes, paths, state);
        FindFail(nodes, nodes[state].fail, b, paths)
  }

  function SetFailOutputs(nodes: seq<AcNode>, state: nat, newFail: nat, merged: seq<nat>): seq<AcNode>
    requires state < |nodes|
  {
    nodes[state := AcNode(nodes[state].children, newFail, merged)]
  }

  function BfsInitChildren(children: seq<(byte, nat)>, nodes: seq<AcNode>, q: seq<nat>): (seq<AcNode>, seq<nat>)
    requires forall e :: e in children ==> e.1 < |nodes|
  {
    if children == [] then (nodes, q)
    else
      var child := children[0].1;
      BfsInitChildren(children[1..], SetFailOutputs(nodes, child, 0, nodes[child].outputs), q + [child])
  }

  function BfsInit(nodes: seq<AcNode>): (seq<AcNode>, seq<nat>)
    requires nodes != [] && Linked(nodes)
  {
    BfsInitChildren(nodes[0].children, nodes, [])
  }

  // ---------------------------------------------------------------- vocabulary

  ghost predicate Suffix(s: Text, t: Text) {
    |s| <= |t| && t[|t| - |s|..] == s
  }

  ghost predicate DistinctKeys(xs: seq<(byte, nat)>) {
    forall i, j :: 0 <= i < j < |xs| ==> xs[i].0 != xs[j].0
  }

  /** Following `b` from node `u` does exactly what the paths say. */
  ghost predicate EdgeOk(nodes: seq<AcNode>, paths: seq<Text>, u: nat, b: byte)
    requires u < |nodes| == |paths|
  {
    match ChildOf(nodes, u, b)
    case Some(v) => v < |nodes| && paths[v] == paths[u] + [b]
    case None => paths[u] + [b] !in paths
  }

  ghost predicate PrefixClosed(paths: seq<Text>) {
    forall v: nat {:trigger HasParent(paths, v)} :: v < |paths| && paths[v] != [] ==> HasParent(paths, v)
  }

  ghost predicate HasParent(paths: seq<Text>, v: nat)
    requires v < |paths| && paths[v] != []
  {
    paths[v][..|paths[v]| - 1] in paths
  }

  ghost predicate Distinct(paths: seq<Text>) {
    forall i: nat, j: nat {:trigger Apart(paths, i, j)} :: i < |paths| && j < |paths| ==> Apart(paths, i, j)
  }

  ghost predicate Apart(paths: seq<Text>, i: nat, j: nat)
    requires i < |paths| && j < |paths|
  {
    paths[i] == paths[j] ==> i == j
  }

  ghost predicate Edges(nodes: seq<AcNode>, paths: seq<Text>)
    requires |nodes| == |paths|
  {
    forall u: nat, b {:trigger EdgeOk(nodes, paths, u, b)} :: u < |nodes| ==> EdgeOk(nodes, paths, u, b)
  }

  ghost predicate Keys(nodes: seq<AcNode>) {
    forall u: nat {:trigger DistinctKeys(nodes[u].children)} :: u < |nodes| ==> DistinctKeys(nodes[u].children)
  }

  /** `nodes` is a trie whose node `v` spells `paths[v]`. */
  ghost predicate Trie(nodes: seq<AcNode>, paths: seq<Text>) {
    && |paths| == |nodes| > 0 && paths[0] == []
    && Distinct(paths) && PrefixClosed(paths)
    && Edges(nodes, paths) && Keys(nodes)
  }

  /** Node `r` spells the longest trie path that is a suffix of `text`. */
  ghost predicate Longest(paths: seq<Text>, r: nat, text: Text) {
    && r < |paths|
    && Suffix(paths[r], text)
    && forall k {:trigger Suffix(paths[k], text)} ::
         0 <= k < |paths| && Suffix(paths[k], text) ==> |paths[k]| <= |paths[r]|
  }

  /** The failure link of `w` is the longest *proper* suffix of its path in the trie. */
  ghost predicate FailOk(nodes: seq<AcNode>, paths: seq<Text>, w: nat)
    requires w < |nodes| == |paths|
  {
    paths[w] != [] && Longest(paths, nodes[w].fail, paths[w][1..])
  }

  ghost predicate FailsOkTo(nodes: seq<AcNode>, paths: seq<Text>, depth: int)
    requires |nodes| == |paths|
  {
    forall w: nat {:trigger FailOk(nodes, paths, w)} :: 0 < w < |nodes| && |paths[w]| <= depth ==> FailOk(nodes, paths, w)
  }

  /** Indices below `n` of the patterns equal to `s`, highest first. */
  function OwnOutputs(ps: seq<Text>, n: nat, s: Text): seq<nat>
    requires n <= |ps|
  {
    if n == 0 then []
    else if ps[n - 1] == s then [n - 1] + OwnOutputs(ps, n - 1, s)
    else OwnOutputs(ps, n - 1, s)
  }

  /** Indices of the patterns that are non-empty suffixes of `s`, longest first. */
  function SuffixOutputs(ps: seq<Text>, s: Text): seq<nat> {
    if s == [] then [] else OwnOutputs(ps, |ps|, s) + SuffixOutputs(ps, s[1..])
  }

  /** Failure link and outputs of `w` have their final values. */
  ghost predicate Final(nodes: seq<AcNode>, paths: seq<Text>, ps: seq<Text>, w: nat)
    requires w < |nodes| == |paths|
  {
    FailOk(nodes, paths, w) && nodes[w].outputs == SuffixOutputs(ps, paths[w])
  }

  /** `w` is as insertion left it: outputs of its own, no failure link. */
  ghost predicate Raw(nodes: seq<AcNode>, paths: seq<Text>, ps: seq<Text>, n: nat, w: nat)
    requires w < |nodes| == |paths| && n <= |ps|
  {
    nodes[w].fail == 0 && nodes[w].outputs == if w == 0 then [] else OwnOutputs(ps, n, paths[w])
  }

  lemma TrieLinked(nodes: seq<AcNode>, paths: seq<Text>, u: nat, e: (byte, nat))
    requires Trie(nodes, paths) && u < |nodes| && e in nodes[u].children
    ensures ChildOf(nodes, u, e.0) == Some(e.1) && e.1 < |nodes| && paths[e.1] == paths[u] + [e.0]
  {
    AssocGetFinds(nodes[u].children, e);
    assert EdgeOk(nodes, paths, u, e.0);
  }

  lemma {:induction false} AssocGetFinds(xs: seq<(byte, nat)>, e: (byte, nat))
    requires DistinctKeys(xs) && e in xs
    ensures AssocGet(xs, e.0) == Some(e.1)
  {
    if xs[0] != e {
      assert xs == [xs[0]] + xs[1..];
      AssocGetFinds(xs[1..], e);
    }
  }

  lemma SameChildrenSameTrie(nodes: seq<AcNode>, nodes2: seq<AcNode>, paths: seq<Text>)
    requires Trie(nodes, paths) && |nodes2| == |nodes|
    requires forall u :: 0 <= u < |nodes| ==> nodes2[u].children == nodes[u].children
    ensures Trie(nodes2, paths)
  {
    forall u: nat, b | u < |nodes|
      ensures EdgeOk(nodes2, paths, u, b)
    {
      assert EdgeOk(nodes, paths, u, b);
    }
  }

  lemma SuffixTrans(a: Text, b: Text, c: Text)
    requires Suffix(a, b) && Suffix(b, c)
    ensures Suffix(a, c)
  {
    assert c[|c| - |a|..] == c[|c| - |b|..][|b| - |a|..];
  }

  lemma SuffixOfShorter(a: Text, b: Text, c: Text)
    requires Suffix(a, c) && Suffix(b, c) && |a| <= |b|
    ensures Suffix(a, b)
  {
    assert c[|c| - |a|..] == c[|c| - |b|..][|b| - |a|..];
  }

  lemma SuffixSnoc(s: Text, t: Text, b: byte)
    requires Suffix(s, t)
    ensures Suffix(s + [b], t + [b])
  {
    assert (t + [b])[|t| - |s|..] == t[|t| - |s|..] + [b];
  }

  lemma SuffixUnsnoc(s: Text, t: Text, b: byte)
    requires s != [] && Suffix(s, t + [b])
    ensures s == s[..|s| - 1] + [b] && Suffix(s[..|s| - 1], t)
  {
    assert (t + [b])[|t| + 1 - |s|..] == t[|t| - (|s| - 1)..] + [b];
  }

  lemma SuffixTail(s: Text, t: Text)
    requires t != [] && Suffix(s, t)
    ensures s == t || Suffix(s, t[1..])
  {
    if |s| == |t| {
      assert t[0..] == t;
    } else {
      assert t[1..][|t| - 1 - |s|..] == t[|t| - |s|..];
    }
  }

  /** Reading one more byte: the longest suffix of `text + [b]` extends the longest
      suffix of `text`, because the set of trie paths is closed under prefixes. */
  lemma ExtendLongest(paths: seq<Text>, st: nat, text: Text, b: byte, r: nat)
    requires PrefixClosed(paths)
    requires Longest(paths, st, text) && Longest(paths, r, paths[st] + [b])
    ensures Longest(paths, r, text + [b])
  {
    SuffixSnoc(paths[st], text, b);
    SuffixTrans(paths[r], paths[st] + [b], text + [b]);
    forall k | 0 <= k < |paths| && Suffix(paths[k], text + [b])
      ensures |paths[k]| <= |paths[r]|
    {
      if paths[k] != [] {
        ExtendOne(paths, st, text, b, k);
      }
    }
  }

  lemma ExtendOne(paths: seq<Text>, st: nat, text: Text, b: byte, k: nat)
    requires PrefixClosed(paths) && Longest(paths, st, text)
    requires k < |paths| && paths[k] != [] && Suffix(paths[k], text + [b])
    ensures Suffix(paths[k], paths[st] + [b])
  {
    var t := paths[k];
    SuffixUnsnoc(t, text, b);
    assert HasParent(paths, k);
    var j :| 0 <= j < |paths| && paths[j] == t[..|t| - 1];
    SuffixOfShorter(paths[j], paths[st], text);
    SuffixSnoc(paths[j], paths[st], b);
  }

  /** A longest suffix of the tail is one of the whole, unless the whole is a path. */
  lemma LongestOfTail(paths: seq<Text>, r: nat, text: Text)
    requires text != [] && text !in paths && Longest(paths, r, text[1..])
    ensures Longest(paths, r, text)
  {
    assert Suffix(text[1..], text);
    SuffixTrans(paths[r], text[1..], text);
    forall k | 0 <= k < |paths| && Suffix(paths[k], text)
      ensures |paths[k]| <= |paths[r]|
    {
      SuffixTail(paths[k], text);
    }
  }

  /** One fall back along the failure chain loses no candidate. */
  lemma FallBack(paths: seq<Text>, s: Text, f: nat, b: byte, r: nat)
    requires PrefixClosed(paths) && s != [] && s + [b] !in paths
    requires Longest(paths, f, s[1..]) && Longest(paths, r, paths[f] + [b])
    ensures Longest(paths, r, s + [b])
  {
    ExtendLongest(paths, f, s[1..], b, r);
    assert s[1..] + [b] == (s + [b])[1..];
    LongestOfTail(paths, r, s + [b]);
  }

  lemma RootIsLongest(paths: seq<Text>, b: byte)
    requires paths != [] && paths[0] == [] && [b] !in paths
    ensures Longest(paths, 0, [b])
  {
    assert [b][1..] == [];
    LongestOfTail(paths, 0, [b]);
  }

  lemma {:induction false} FindFailLongest(nodes: seq<AcNode>, paths: seq<Text>, state: nat, b: byte)
    requires Shallow(nodes, paths) && state < |nodes|
    requires paths[0] == [] && PrefixClosed(paths) && Edges(nodes, paths)
    requires FailsOkTo(nodes, paths, |paths[state]|)
    ensures Longest(paths, FindFail(nodes, state, b, paths), paths[state] + [b])
    decreases |paths[state]|
  {
    assert EdgeOk(nodes, paths, state, b);
    if ChildOf(nodes, state, b).None? {
      if state == 0 {
        assert paths[0] + [b] == [b];
        RootIsLongest(paths, b);
      } else {
        var f := nodes[state].fail;
        assert FailOk(nodes, paths, state);
        FindFailLongest(nodes, paths, f, b);
        FallBack(paths, paths[state], f, b, FindFail(nodes, f, b, paths));
      }
    }
  }

  lemma {:induction false} FindFailDepth(nodes: seq<AcNode>, paths: seq<Text>, state: nat, b: byte)
    requires Trie(nodes, paths) && Shallow(nodes, paths) && state < |nodes|
    ensures FindFail(nodes, state, b, paths) < |nodes|
    ensures |paths[FindFail(nodes, state, b, paths)]| <= |paths[state]| + 1
    decreases |paths[state]|
  {
    assert EdgeOk(nodes, paths, state, b);
    if ChildOf(nodes, state, b).None? && state != 0 {
      assert FailShorter(nodes, paths, state);
      FindFailDepth(nodes, paths, nodes[state].fail, b);
    }
  }

  // ---------------------------------------------------------------- breadth-first pass

  /** Edges still to be given failure links: all one level below `failU`'s extension. */
  ghost predicate Below(children: seq<(byte, nat)>, failU: nat, paths: seq<Text>) {
    && failU < |paths|
    && forall e :: e in children ==> 0 < e.1 < |paths| && |paths[e.1]| > |paths[failU]| + 1
  }

  lemma SetFailShallow(nodes: seq<AcNode>, paths: seq<Text>, v: nat, f: nat, out: seq<nat>)
    requires Trie(nodes, paths) && Shallow(nodes, paths)
    requires v < |nodes| && f < |nodes| && |paths[f]| < |paths[v]|
    ensures Trie(SetFailOutputs(nodes, v, f, out), paths) && Shallow(SetFailOutputs(nodes, v, f, out), paths)
  {
    var nodes2 := SetFailOutputs(nodes, v, f, out);
    SameChildrenSameTrie(nodes, nodes2, paths);
    forall w: nat | 0 < w < |nodes|
      ensures FailShorter(nodes2, paths, w)
    {
      assert FailShorter(nodes, paths, w);
    }
  }

  function BfsChildren(children: seq<(byte, nat)>, failU: nat, nodes: seq<AcNode>, q: seq<nat>, ghost paths: seq<Text>)
    : (seq<AcNode>, seq<nat>)
    requires Trie(nodes, paths) && Shallow(nodes, paths) && Below(children, failU, paths)
    decreases |children|
  {
    if children == [] then (nodes, q)
    else
      var (b, v) := children[0];
      assert children[0] in children;
      FindFailDepth(nodes, paths, failU, b);
      var newFail := FindFail(nodes, failU, b, paths);
      var merged := nodes[v].outputs + nodes[newFail].outputs;
      SetFailShallow(nodes, paths, v, newFail, merged);
      BfsChildren(children[1..], failU, SetFailOutputs(nodes, v, newFail, merged), q + [v], paths)
  }

  function Ids(children: seq<(byte, nat)>): seq<nat> {
    seq(|children|, i requires 0 <= i < |children| => children[i].1)
  }

  /** The first `n` patterns, empty ones aside, are trie paths. */
  ghost predicate KnownTo(ps: seq<Text>, n: nat, paths: seq<Text>) {
    n <= |ps| && forall i :: 0 <= i < n && ps[i] != [] ==> ps[i] in paths
  }

  ghost predicate Known(ps: seq<Text>, paths: seq<Text>) {
    KnownTo(ps, |ps|, paths)
  }

  lemma {:induction false} NoOwnOutputs(ps: seq<Text>, n: nat, s: Text)
    requires n <= |ps| && forall i :: 0 <= i < n ==> ps[i] != s
    ensures OwnOutputs(ps, n, s) == []
  {
    if n > 0 {
      NoOwnOutputs(ps, n - 1, s);
    }
  }

  /** The longest trie path among the suffixes of `text` already carries every pattern
      that ends `text`. */
  lemma {:induction false} LongestOutputs(ps: seq<Text>, paths: seq<Text>, r: nat, text: Text)
    requires Known(ps, paths) && Longest(paths, r, text)
    ensures SuffixOutputs(ps, text) == SuffixOutputs(ps, paths[r])
    decreases |text|
  {
    SuffixTailLonger(paths, r, text);
    if text != paths[r] {
      NoOwnOutputs(ps, |ps|, text);
      LongestOutputs(ps, paths, r, text[1..]);
    }
  }

  lemma SuffixTailLonger(paths: seq<Text>, r: nat, text: Text)
    requires Longest(paths, r, text)
    ensures text == paths[r] || (text != [] && text !in paths && Longest(paths, r, text[1..]))
  {
    if text != paths[r] {
      assert text[0..] == text && text != [];
      SuffixTail(paths[r], text);
      if text in paths {
        var k :| 0 <= k < |paths| && paths[k] == text;
        assert Suffix(paths[k], text);
      }
      assert Suffix(text[1..], text);
      forall k | 0 <= k < |paths| && Suffix(paths[k], text[1..])
        ensures |paths[k]| <= |paths[r]|
      {
        SuffixTrans(paths[k], text[1..], text);
      }
    }
  }

  /** What holds when `u` is taken off the queue and the edges in `children` are still to do. */
  ghost predicate Ready(nodes: seq<AcNode>, paths: seq<Text>, ps: seq<Text>, u: nat, children: seq<(byte, nat)>) {
    && Trie(nodes, paths) && Shallow(nodes, paths) && 0 < u < |nodes|
    && Known(ps, paths) && nodes[0].outputs == []
    && DistinctKeys(children)
    && (forall e :: e in children ==>
          0 < e.1 < |nodes| && paths[e.1] == paths[u] + [e.0] && Raw(nodes, paths, ps, |ps|, e.1))
    && (forall w: nat {:trigger Final(nodes, paths, ps, w)} ::
          0 < w < |nodes| && |paths[w]| <= |paths[u]| ==> Final(nodes, paths, ps, w))
  }

  lemma ReadyBelow(nodes: seq<AcNode>, paths: seq<Text>, ps: seq<Text>, u: nat, children: seq<(byte, nat)>)
    requires Ready(nodes, paths, ps, u, children)
    ensures Below(children, nodes[u].fail, paths)
  {
    assert FailShorter(nodes, paths, u);
  }

  lemma ReadyFailsOk(nodes: seq<AcNode>, paths: seq<Text>, ps: seq<Text>, u: nat, children: seq<(byte, nat)>)
    requires Ready(nodes, paths, ps, u, children)
    ensures FailOk(nodes, paths, u) && FailsOkTo(nodes, paths, |paths[u]|)
  {
    forall w: nat | 0 < w < |nodes| && |paths[w]| <= |paths[u]|
      ensures FailOk(nodes, paths, w)
    {
      assert Final(nodes, paths, ps, w);
    }
  }

  /** The failure link computed for child `v` of `u` is its longest proper suffix. */
  lemma ChildFail(nodes: seq<AcNode>, paths: seq<Text>, u: nat, b: byte, v: nat)
    requires Trie(nodes, paths) && Shallow(nodes, paths) && 0 < u < |nodes| && v < |nodes|
    requires paths[v] == paths[u] + [b]
    requires FailOk(nodes, paths, u) && FailsOkTo(nodes, paths, |paths[u]|)
    ensures nodes[u].fail < |nodes|
    ensures var f := FindFail(nodes, nodes[u].fail, b, paths);
            Longest(paths, f, paths[v][1..]) && |paths[f]| < |paths[v]|
  {
    assert FailShorter(nodes, paths, u);
    var failU := nodes[u].fail;
    FindFailLongest(nodes, paths, failU, b);
    var f := FindFail(nodes, failU, b, paths);
    ExtendLongest(paths, failU, paths[u][1..], b, f);
    assert paths[u][1..] + [b] == paths[v][1..];
  }

  /** The failure link and outputs computed for one child are the final ones. */
  lemma OneChildFinal(
      nodes: seq<AcNode>, paths: seq<Text>, ps: seq<Text>, u: nat, children: seq<(byte, nat)>, e: (byte, nat))
    requires Ready(nodes, paths, ps, u, children) && e in children
    ensures nodes[u].fail < |nodes|
    ensures var f := FindFail(nodes, nodes[u].fail, e.0, paths);
            && f < |nodes| && |paths[f]| < |paths[e.1]|
            && paths[e.1] != [] && Longest(paths, f, paths[e.1][1..])
            && nodes[e.1].outputs + nodes[f].outputs == SuffixOutputs(ps, paths[e.1])
  {
    ReadyFailsOk(nodes, paths, ps, u, children);
    ChildFail(nodes, paths, u, e.0, e.1);
    var f := FindFail(nodes, nodes[u].fail, e.0, paths);
    LongestOutputs(ps, paths, f, paths[e.1][1..]);
    assert nodes[f].outputs == SuffixOutputs(ps, paths[f]) by {
      if f != 0 { assert Final(nodes, paths, ps, f); }
    }
  }

  lemma FirstIdApart(children: seq<(byte, nat)>, paths: seq<Text>, u: nat)
    requires children != [] && DistinctKeys(children) && u < |paths|
    requires forall e :: e in children ==> e.1 < |paths| && paths[e.1] == paths[u] + [e.0]
    ensures forall e :: e in children[1..] ==> e in children && e.1 != children[0].1
    ensures children[0].1 !in Ids(children[1..])
  {
    forall e | e in children[1..]
      ensures e in children && e.1 != children[0].1
    {
      assert children[0] in children;
      assert (paths[u] + [e.0])[|paths[u]|] == e.0;
      assert (paths[u] + [children[0].0])[|paths[u]|] == children[0].0;
    }
  }

  lemma OneChildReady(
      nodes: seq<AcNode>, paths: seq<Text>, ps: seq<Text>, u: nat, children: seq<(byte, nat)>,
      f: nat, merged: seq<nat>)
    requires Ready(nodes, paths, ps, u, children) && children != []
    requires f < |nodes| && |paths[f]| < |paths[children[0].1]|
    ensures var nodes1 := SetFailOutputs(nodes, children[0].1, f, merged);
            && Ready(nodes1, paths, ps, u, children[1..])
            && nodes1[u] == nodes[u]
  {
    var v := children[0].1;
    assert children[0] in children;
    var nodes1 := SetFailOutputs(nodes, v, f, merged);
    SetFailShallow(nodes, paths, v, f, merged);
    FirstIdApart(children, paths, u);
    forall w: nat | 0 < w < |nodes| && |paths[w]| <= |paths[u]|
      ensures Final(nodes1, paths, ps, w)
    {
      assert Final(nodes, paths, ps, w);
    }
  }

  /** `nodes2` is `nodes` with the children's failure links and outputs made final. */
  ghost predicate ChildrenSet(
      nodes: seq<AcNode>, nodes2: seq<AcNode>, paths: seq<Text>, ps: seq<Text>, ids: seq<nat>)
  {
    && |nodes2| == |nodes| == |paths|
    && (forall w: nat {:trigger nodes2[w]} :: w < |nodes| ==> nodes2[w].children == nodes[w].children)
    && (forall w: nat {:trigger nodes2[w]} :: w < |nodes| && w !in ids ==> nodes2[w] == nodes[w])
    && (forall w: nat {:trigger Final(nodes2, paths, ps, w)} :: w < |nodes| && w in ids ==> Final(nodes2, paths, ps, w))
  }

  lemma ChildrenSetCons(
      nodes: seq<AcNode>, nodes1: seq<AcNode>, nodes2: seq<AcNode>, paths: seq<Text>, ps: seq<Text>,
      v: nat, ids: seq<nat>)
    requires |nodes1| == |nodes| == |paths| && v < |nodes| && v !in ids
    requires nodes1 == nodes[v := nodes1[v]] && nodes1[v].children == nodes[v].children
    requires Final(nodes1, paths, ps, v) && ChildrenSet(nodes1, nodes2, paths, ps, ids)
    ensures ChildrenSet(nodes, nodes2, paths, ps, [v] + ids)
  {
    assert nodes2[v] == nodes1[v];
  }

  lemma {:induction false} BfsChildrenFinal(
      children: seq<(byte, nat)>, u: nat, nodes: seq<AcNode>, q: seq<nat>, paths: seq<Text>, ps: seq<Text>)
    requires Ready(nodes, paths, ps, u, children) && Below(children, nodes[u].fail, paths)
    ensures var (nodes2, q2) := BfsChildren(children, nodes[u].fail, nodes, q, paths);
            && q2 == q + Ids(children)
            && ChildrenSet(nodes, nodes2, paths, ps, Ids(children))
            && Shallow(nodes2, paths)
    decreases |children|
  {
    if children == [] {
      assert q + Ids(children) == q;
    } else {
      var v, rest := children[0].1, children[1..];
      OneChildFinal(nodes, paths, ps, u, children, children[0]);
      var f := FindFail(nodes, nodes[u].fail, children[0].0, paths);
      var merged := nodes[v].outputs + nodes[f].outputs;
      OneChildReady(nodes, paths, ps, u, children, f, merged);
      var nodes1 := SetFailOutputs(nodes, v, f, merged);
      BfsChildrenFinal(rest, u, nodes1, q + [v], paths, ps);
      FirstIdApart(children, paths, u);
      var nodes2 := BfsChildren(rest, nodes[u].fail, nodes1, q + [v], paths).0;
      ChildrenSetCons(nodes, nodes1, nodes2, paths, ps, v, Ids(rest));
      assert Ids(children) == [v] + Ids(rest);
      assert q + Ids(children) == (q + [v]) + Ids(rest);
    }
  }

  /** `w` has been put on the queue (and possibly taken off again). */
  ghost predicate Seen(q: seq<nat>, todo: set<nat>, w: nat) {
    w !in todo || w in q
  }

  ghost predicate Stage(nodes: seq<AcNode>, paths: seq<Text>, ps: seq<Text>, q: seq<nat>, todo: set<nat>, w: nat)
    requires w < |nodes| == |paths|
  {
    if Seen(q, todo, w) then Final(nodes, paths, ps, w) else Raw(nodes, paths, ps, |ps|, w)
  }

  /** The queue holds distinct nodes still to be taken off, in order of depth, at most
      two depths at a time. */
  ghost predicate QueueOk(paths: seq<Text>, q: seq<nat>, todo: set<nat>) {
    && (forall i :: 0 <= i < |q| ==> q[i] in todo && 0 < q[i] < |paths|)
    && (forall i, j :: 0 <= i < j < |q| ==> q[i] != q[j])
    && (forall i, j :: 0 <= i < j < |q| ==> |paths[q[i]]| <= |paths[q[j]]| <= |paths[q[i]]| + 1)
  }

  ghost predicate ChildSeen(q: seq<nat>, todo: set<nat>, u: nat, v: nat) {
    u !in todo <==> Seen(q, todo, v)
  }

  ghost predicate ChildrenSeen(nodes: seq<AcNode>, q: seq<nat>, todo: set<nat>) {
    forall u: nat, e {:trigger ChildSeen(q, todo, u, e.1), e in nodes[u].children} ::
      u < |nodes| && e in nodes[u].children ==> ChildSeen(q, todo, u, e.1)
  }

  /** Invariant of the breadth-first pass; `todo` are the nodes not yet taken off the queue. */
  ghost predicate BfsInv(nodes: seq<AcNode>, paths: seq<Text>, ps: seq<Text>, q: seq<nat>, todo: set<nat>) {
    && Trie(nodes, paths) && Shallow(nodes, paths) && Known(ps, paths)
    && nodes[0].fail == 0 && nodes[0].outputs == []
    && (forall w :: w in todo ==> 0 < w < |nodes|)
    && QueueOk(paths, q, todo)
    && ChildrenSeen(nodes, q, todo)
    && (forall w: nat {:trigger Stage(nodes, paths, ps, q, todo, w)} ::
          0 < w < |nodes| ==> Stage(nodes, paths, ps, q, todo, w))
  }

  lemma ParentOf(nodes: seq<AcNode>, paths: seq<Text>, w: nat) returns (p: nat, b: byte)
    requires Trie(nodes, paths) && 0 < w < |nodes|
    ensures p < |nodes| && (b, w) in nodes[p].children && paths[w] == paths[p] + [b]
  {
    assert Apart(paths, 0, w);
    assert HasParent(paths, w);
    p :| 0 <= p < |paths| && paths[p] == paths[w][..|paths[w]| - 1];
    b := paths[w][|paths[w]| - 1];
    assert paths[w] == paths[p] + [b];
    assert EdgeOk(nodes, paths, p, b);
    AssocGetIn(nodes[p].children, b);
    assert Apart(paths, w, ChildOf(nodes, p, b).value);
  }

  /** Every node no deeper than the front of the queue has been seen. */
  lemma {:induction false} SeenBelow(
      nodes: seq<AcNode>, paths: seq<Text>, ps: seq<Text>, q: seq<nat>, todo: set<nat>, w: nat)
    requires BfsInv(nodes, paths, ps, q, todo) && 0 < w < |nodes|
    requires q == [] || |paths[w]| <= |paths[q[0]]|
    ensures Seen(q, todo, w)
    decreases |paths[w]|
  {
    var p, b := ParentOf(nodes, paths, w);
    if p > 0 {
      SeenBelow(nodes, paths, ps, q, todo, p);
    }
    assert p !in todo;
    var e := (b, w);
    assert e in nodes[p].children;
    assert ChildSeen(q, todo, p, e.1);
  }

  lemma PopReady(nodes: seq<AcNode>, paths: seq<Text>, ps: seq<Text>, q: seq<nat>, todo: set<nat>)
    requires BfsInv(nodes, paths, ps, q, todo) && q != []
    ensures q[0] in todo && Ready(nodes, paths, ps, q[0], nodes[q[0]].children)
  {
    var u := q[0];
    assert DistinctKeys(nodes[u].children);
    forall e | e in nodes[u].children
      ensures 0 < e.1 < |nodes| && paths[e.1] == paths[u] + [e.0] && Raw(nodes, paths, ps, |ps|, e.1)
    {
      TrieLinked(nodes, paths, u, e);
      assert ChildSeen(q, todo, u, e.1);
      assert Stage(nodes, paths, ps, q, todo, e.1);
    }
    forall w: nat | 0 < w < |nodes| && |paths[w]| <= |paths[u]|
      ensures Final(nodes, paths, ps, w)
    {
      SeenBelow(nodes, paths, ps, q, todo, w);
      assert Stage(nodes, paths, ps, q, todo, w);
    }
  }

  lemma PopQueue(nodes: seq<AcNode>, paths: seq<Text>, ps: seq<Text>, q: seq<nat>, todo: set<nat>)
    requires BfsInv(nodes, paths, ps, q, todo) && q != []
    ensures QueueOk(paths, q[1..] + Ids(nodes[q[0]].children), todo - {q[0]})
  {
    var u := q[0];
    var ids := Ids(nodes[u].children);
    PopReady(nodes, paths, ps, q, todo);
    forall i | 0 <= i < |ids|
      ensures ids[i] in todo && ids[i] != u && ids[i] !in q && 0 < ids[i] < |paths|
      ensures |paths[ids[i]]| == |paths[u]| + 1
    {
      var e := nodes[u].children[i];
      assert e in nodes[u].children;
      assert ChildSeen(q, todo, u, e.1);
    }
    forall i, j | 0 <= i < j < |ids|
      ensures ids[i] != ids[j]
    {
      IdsDistinct(nodes[u].children, paths, u, i, j);
    }
  }

  lemma IdsDistinct(children: seq<(byte, nat)>, paths: seq<Text>, u: nat, i: nat, j: nat)
    requires DistinctKeys(children) && u < |paths| && i < j < |children|
    requires forall e :: e in children ==> e.1 < |paths| && paths[e.1] == paths[u] + [e.0]
    ensures Ids(children)[i] != Ids(children)[j]
  {
    assert children[i] in children && children[j] in children;
    assert (paths[u] + [children[i].0])[|paths[u]|] == children[i].0;
    assert (paths[u] + [children[j].0])[|paths[u]|] == children[j].0;
  }

  /** Seen nodes after `u` is taken off and its children put on. */
  lemma PopSeen(q: seq<nat>, todo: set<nat>, ids: seq<nat>, w: nat)
    requires q != [] && q[0] in todo
    requires forall i, j :: 0 <= i < j < |q| ==> q[i] != q[j]
    ensures Seen(q[1..] + ids, todo - {q[0]}, w) <==> Seen(q, todo, w) || w in ids
  {
    assert q == [q[0]] + q[1..];
  }

  lemma PopChildrenSeen(nodes: seq<AcNode>, paths: seq<Text>, ps: seq<Text>, q: seq<nat>, todo: set<nat>)
    requires BfsInv(nodes, paths, ps, q, todo) && q != []
    ensures ChildrenSeen(nodes, q[1..] + Ids(nodes[q[0]].children), todo - {q[0]})
  {
    var u := q[0];
    var ids := Ids(nodes[u].children);
    var q2, todo2 := q[1..] + ids, todo - {u};
    forall u2: nat, e | u2 < |nodes| && e in nodes[u2].children
      ensures ChildSeen(q2, todo2, u2, e.1)
    {
      PopSeen(q, todo, ids, e.1);
      assert ChildSeen(q, todo, u2, e.1);
      if u2 == u {
        var i :| 0 <= i < |nodes[u].children| && nodes[u].children[i] == e;
        assert ids[i] == e.1;
      } else if e.1 in ids {
        var i :| 0 <= i < |ids| && ids[i] == e.1;
        OneParent(nodes, paths, u2, e, u, nodes[u].children[i]);
      }
    }
  }

  lemma OneParent(nodes: seq<AcNode>, paths: seq<Text>, u: nat, e: (byte, nat), u2: nat, e2: (byte, nat))
    requires Trie(nodes, paths) && u < |nodes| && u2 < |nodes|
    requires e in nodes[u].children && e2 in nodes[u2].children && e.1 == e2.1
    ensures u == u2
  {
    TrieLinked(nodes, paths, u, e);
    TrieLinked(nodes, paths, u2, e2);
    assert (paths[u] + [e.0])[..|paths[u]|] == paths[u];
    assert (paths[u2] + [e2.0])[..|paths[u2]|] == paths[u2];
    assert Apart(paths, u, u2);
  }

  /** Taking one node off the queue keeps the invariant. */
  lemma BfsStep(nodes: seq<AcNode>, paths: seq<Text>, ps: seq<Text>, q: seq<nat>, todo: set<nat>)
    requires BfsInv(nodes, paths, ps, q, todo) && q != []
    ensures q[0] in todo && Below(nodes[q[0]].children, nodes[q[0]].fail, paths)
    ensures var (nodes2, q2) := BfsChildren(nodes[q[0]].children, nodes[q[0]].fail, nodes, q[1..], paths);
            BfsInv(nodes2, paths, ps, q2, todo - {q[0]})
  {
    var u := q[0];
    var children := nodes[u].children;
    var ids := Ids(children);
    PopReady(nodes, paths, ps, q, todo);
    ReadyBelow(nodes, paths, ps, u, children);
    BfsChildrenFinal(children, u, nodes, q[1..], paths, ps);
    var (nodes2, q2) := BfsChildren(children, nodes[u].fail, nodes, q[1..], paths);
    SameChildrenSameTrie(nodes, nodes2, paths);
    PopQueue(nodes, paths, ps, q, todo);
    PopChildrenSeen(nodes, paths, ps, q, todo);
    ChildrenSeenSame(nodes, nodes2, q2, todo - {u});
    forall i | 0 <= i < |ids|
      ensures ids[i] != 0
    {
      assert children[i] in children;
    }
    forall w: nat | 0 < w < |nodes|
      ensures Stage(nodes2, paths, ps, q2, todo - {u}, w)
    {
      PopSeen(q, todo, ids, w);
      assert Stage(nodes, paths, ps, q, todo, w);
    }
  }

  lemma ChildrenSeenSame(nodes: seq<AcNode>, nodes2: seq<AcNode>, q: seq<nat>, todo: set<nat>)
    requires ChildrenSeen(nodes, q, todo) && |nodes2| == |nodes|
    requires forall w :: 0 <= w < |nodes| ==> nodes2[w].children == nodes[w].children
    ensures ChildrenSeen(nodes2, q, todo)
  {
    forall u: nat, e | u < |nodes2| && e in nodes2[u].children
      ensures ChildSeen(q, todo, u, e.1)
    {
      assert e in nodes[u].children;
    }
  }

  function BfsLoop(nodes: seq<AcNode>, q: seq<nat>, ghost paths: seq<Text>, ghost ps: seq<Text>, ghost todo: set<nat>)
    : seq<AcNode>
    requires BfsInv(nodes, paths, ps, q, todo)
    decreases todo
  {
    if q == [] then nodes
    else
      BfsStep(nodes, paths, ps, q, todo);
      var u := q[0];
      var (nodes2, q3) := BfsChildren(nodes[u].children, nodes[u].fail, nodes, q[1..], paths);
      BfsLoop(nodes2, q3, paths, ps, todo - {u})
  }

  /** A finished automaton: every failure link is the longest proper suffix in the trie,
      and every output list names exactly the patterns that end its node's path. */
  ghost predicate Finished(nodes: seq<AcNode>, paths: seq<Text>, ps: seq<Text>) {
    && Trie(nodes, paths) && Shallow(nodes, paths) && Known(ps, paths)
    && nodes[0].fail == 0 && nodes[0].outputs == []
    && forall w: nat {:trigger Final(nodes, paths, ps, w)} :: 0 < w < |nodes| ==> Final(nodes, paths, ps, w)
  }

  /** Once the queue is empty every node has been reached and is final. */
  lemma {:induction false} BfsLoopFinishes(
      nodes: seq<AcNode>, paths: seq<Text>, ps: seq<Text>, q: seq<nat>, todo: set<nat>)
    requires BfsInv(nodes, paths, ps, q, todo)
    ensures Finished(BfsLoop(nodes, q, paths, ps, todo), paths, ps)
    decreases todo
  {
    if q == [] {
      forall w: nat | 0 < w < |nodes|
        ensures Final(nodes, paths, ps, w)
      {
        SeenBelow(nodes, paths, ps, q, todo, w);
        assert Stage(nodes, paths, ps, q, todo, w);
      }
    } else {
      BfsStep(nodes, paths, ps, q, todo);
      var u := q[0];
      var (nodes2, q3) := BfsChildren(nodes[u].children, nodes[u].fail, nodes, q[1..], paths);
      BfsLoopFinishes(nodes2, paths, ps, q3, todo - {u});
    }
  }

  // ---------------------------------------------------------------- insertion builds the trie

  /** The paths added by inserting `p`: its prefixes longer than `i` that are new. */
  ghost function AddPrefixes(paths: seq<Text>, p: Text, i: nat): seq<Text>
    requires i <= |p|
    decreases |p| - i
  {
    if i >= |p| then paths
    else if p[..i + 1] in paths then AddPrefixes(paths, p, i + 1)
    else AddPrefixes(paths + [p[..i + 1]], p, i + 1)
  }

  ghost function AddAll(paths: seq<Text>, patterns: seq<Text>): seq<Text>
    decreases |patterns|
  {
    if patterns == [] then paths
    else if patterns[0] == [] then AddAll(paths, patterns[1..])
    else AddAll(AddPrefixes(paths, patterns[0], 0), patterns[1..])
  }

  ghost predicate RawAll(nodes: seq<AcNode>, paths: seq<Text>, ps: seq<Text>, n: nat) {
    && |nodes| == |paths| && n <= |ps|
    && forall w: nat {:trigger Raw(nodes, paths, ps, n, w)} :: w < |nodes| ==> Raw(nodes, paths, ps, n, w)
  }

  lemma MarkRaw(nodes: seq<AcNode>, paths: seq<Text>, ps: seq<Text>, n: nat, state: nat)
    requires Trie(nodes, paths) && RawAll(nodes, paths, ps, n) && n < |ps|
    requires state < |nodes| && paths[state] == ps[n] != []
    ensures var nodes2 := MarkOutput(nodes, state, n);
            Trie(nodes2, paths) && RawAll(nodes2, paths, ps, n + 1)
  {
    var nodes2, m := MarkOutput(nodes, state, n), n + 1;
    SameChildrenSameTrie(nodes, nodes2, paths);
    forall w: nat | w < |nodes|
      ensures Raw(nodes2, paths, ps, m, w)
    {
      assert Raw(nodes, paths, ps, n, w);
      assert Apart(paths, w, state);
    }
  }

  lemma AddChildEdges(nodes: seq<AcNode>, paths: seq<Text>, state: nat, b: byte, u: nat, c: byte)
    requires Trie(nodes, paths) && state < |nodes| && ChildOf(nodes, state, b).None?
    requires u <= |nodes|
    ensures EdgeOk(AddChild(nodes, state, b), paths + [paths[state] + [b]], u, c)
  {
    var added := paths[state] + [b];
    var nodes2, paths2 := AddChild(nodes, state, b), paths + [added];
    assert EdgeOk(nodes, paths, state, b);
    if u == |nodes| {
      var deeper := added + [c];
      assert deeper[..|deeper| - 1] == added;
      forall k | 0 <= k < |paths|
        ensures paths[k] != deeper
      {
        if paths[k] != [] { assert HasParent(paths, k); }
      }
    } else {
      assert EdgeOk(nodes, paths, u, c);
      if u == state {
        if c != b {
          assert nodes2[u].children[1..] == nodes[u].children;
          assert (paths[u] + [c])[|paths[u]|] != added[|paths[u]|];
        }
      } else {
        assert Apart(paths, u, state);
        assert (paths[u] + [c])[..|paths[u]|] == paths[u] && added[..|added| - 1] == paths[state];
      }
    }
  }

  lemma AddChildTrie(nodes: seq<AcNode>, paths: seq<Text>, state: nat, b: byte)
    requires Trie(nodes, paths) && state < |nodes| && ChildOf(nodes, state, b).None?
    ensures Trie(AddChild(nodes, state, b), paths + [paths[state] + [b]])
  {
    var added := paths[state] + [b];
    var nodes2, paths2 := AddChild(nodes, state, b), paths + [added];
    assert EdgeOk(nodes, paths, state, b);
    forall u: nat, c | u < |nodes2|
      ensures EdgeOk(nodes2, paths2, u, c)
    {
      AddChildEdges(nodes, paths, state, b, u, c);
    }
    forall v: nat | v < |paths2| && paths2[v] != []
      ensures HasParent(paths2, v)
    {
      if v < |paths| {
        assert HasParent(paths, v);
      } else {
        assert added[..|added| - 1] == paths[state];
      }
    }
    forall i: nat, j: nat | i < |paths2| && j < |paths2|
      ensures Apart(paths2, i, j)
    {
      if i < |paths| && j < |paths| { assert Apart(paths, i, j); }
    }
    forall u: nat | u < |nodes2|
      ensures DistinctKeys(nodes2[u].children)
    {
      if u < |nodes| { assert DistinctKeys(nodes[u].children); }
      AssocGetIn(nodes[state].children, b);
      assert forall i :: 0 <= i < |nodes[state].children| ==> nodes[state].children[i] in nodes[state].children;
    }
  }

  lemma AddChildRaw(nodes: seq<AcNode>, paths: seq<Text>, ps: seq<Text>, n: nat, state: nat, b: byte)
    requires Trie(nodes, paths) && state < |nodes| && ChildOf(nodes, state, b).None?
    requires RawAll(nodes, paths, ps, n) && KnownTo(ps, n, paths)
    ensures RawAll(AddChild(nodes, state, b), paths + [paths[state] + [b]], ps, n)
  {
    var added := paths[state] + [b];
    var nodes2, paths2 := AddChild(nodes, state, b), paths + [added];
    assert EdgeOk(nodes, paths, state, b);
    NoOwnOutputs(ps, n, added);
    forall w: nat | w < |nodes2|
      ensures Raw(nodes2, paths2, ps, n, w)
    {
      if w < |nodes| { assert Raw(nodes, paths, ps, n, w); }
    }
  }

  lemma {:induction false} InsertGoTrie(
      nodes: seq<AcNode>, paths: seq<Text>, ps: seq<Text>, n: nat, state: nat, i: nat)
    requires Trie(nodes, paths) && Linked(nodes) && RawAll(nodes, paths, ps, n) && KnownTo(ps, n, paths)
    requires n < |ps| && ps[n] != [] && i <= |ps[n]|
    requires state < |nodes| && paths[state] == ps[n][..i]
    ensures var nodes2 := InsertGo(nodes, n, ps[n], state, i);
            var paths2 := AddPrefixes(paths, ps[n], i);
            Trie(nodes2, paths2) && RawAll(nodes2, paths2, ps, n + 1) && KnownTo(ps, n + 1, paths2)
    decreases |ps[n]| - i
  {
    var p := ps[n];
    if i >= |p| {
      assert p[..i] == p;
      MarkRaw(nodes, paths, ps, n, state);
    } else {
      assert p[..i + 1] == paths[state] + [p[i]];
      assert EdgeOk(nodes, paths, state, p[i]);
      AssocGetIn(nodes[state].children, p[i]);
      match ChildOf(nodes, state, p[i])
      case Some(child) =>
        InsertGoTrie(nodes, paths, ps, n, child, i + 1);
      case None =>
        AddChildTrie(nodes, paths, state, p[i]);
        AddChildRaw(nodes, paths, ps, n, state, p[i]);
        LinkedAddChild(nodes, state, p[i]);
        InsertGoTrie(AddChild(nodes, state, p[i]), paths + [p[..i + 1]], ps, n, |nodes|, i + 1);
    }
  }

  lemma SkipRaw(nodes: seq<AcNode>, paths: seq<Text>, ps: seq<Text>, n: nat)
    requires Trie(nodes, paths) && RawAll(nodes, paths, ps, n) && n < |ps| && ps[n] == []
    ensures RawAll(nodes, paths, ps, n + 1)
  {
    var m := n + 1;
    forall w: nat | w < |nodes|
      ensures Raw(nodes, paths, ps, m, w)
    {
      assert Raw(nodes, paths, ps, n, w);
      assert Apart(paths, 0, w);
    }
  }

  lemma {:induction false} InsertAllTrie(
      nodes: seq<AcNode>, paths: seq<Text>, ps: seq<Text>, n: nat)
    requires Trie(nodes, paths) && Linked(nodes) && RawAll(nodes, paths, ps, n) && KnownTo(ps, n, paths)
    ensures var nodes2 := InsertAll(nodes, ps[n..], n);
            var paths2 := AddAll(paths, ps[n..]);
            Trie(nodes2, paths2) && RawAll(nodes2, paths2, ps, |ps|) && Known(ps, paths2)
    decreases |ps| - n
  {
    if n < |ps| {
      assert ps[n..][0] == ps[n] && ps[n..][1..] == ps[n + 1..];
      if ps[n] == [] {
        SkipRaw(nodes, paths, ps, n);
        InsertAllTrie(nodes, paths, ps, n + 1);
      } else {
        InsertGoTrie(nodes, paths, ps, n, 0, 0);
        InsertAllTrie(InsertPattern(nodes, n, ps[n]), AddPrefixes(paths, ps[n], 0), ps, n + 1);
      }
    }
  }

  const ROOT: seq<AcNode> := [AcNode([], 0, [])]

  ghost function TriePaths(ps: seq<Text>): seq<Text> {
    AddAll([[]], ps)
  }

  lemma RootTrie(ps: seq<Text>)
    ensures Trie(ROOT, [[]]) && Linked(ROOT) && RawAll(ROOT, [[]], ps, 0) && KnownTo(ps, 0, [[]])
  {
    var paths: seq<Text> := [[]];
    forall u: nat, b | u < |ROOT|
      ensures EdgeOk(ROOT, paths, u, b)
    {
      assert paths[u] + [b] != paths[0];
    }
  }

  lemma InsertedTrie(ps: seq<Text>)
    ensures Linked(ROOT)
    ensures var nodes := InsertAll(ROOT, ps, 0);
            Trie(nodes, TriePaths(ps)) && RawAll(nodes, TriePaths(ps), ps, |ps|) && Known(ps, TriePaths(ps))
  {
    hide Trie, RawAll, AddAll, InsertAll;
    assert ps[0..] == ps;
    RootTrie(ps);
    InsertAllTrie(ROOT, [[]], ps, 0);
  }

  lemma InsertedLinked(nodes: seq<AcNode>, paths: seq<Text>)
    requires Trie(nodes, paths)
    ensures Linked(nodes)
  {
    forall u, e | 0 <= u < |nodes| && e in nodes[u].children
      ensures e.1 < |nodes|
    {
      TrieLinked(nodes, paths, u, e);
    }
  }

  // ---------------------------------------------------------------- start of the pass

  /** Depth-one nodes keep failure link 0 and their own outputs. */
  lemma {:induction false} BfsInitKeeps(children: seq<(byte, nat)>, nodes: seq<AcNode>, q: seq<nat>)
    requires forall e :: e in children ==> e.1 < |nodes|
    requires forall w :: 0 <= w < |nodes| ==> nodes[w].fail == 0
    ensures BfsInitChildren(children, nodes, q) == (nodes, q + Ids(children))
    decreases |children|
  {
    if children == [] {
      assert q + Ids(children) == q;
    } else {
      assert children[0] in children;
      var v := children[0].1;
      assert SetFailOutputs(nodes, v, 0, nodes[v].outputs) == nodes;
      BfsInitKeeps(children[1..], nodes, q + [v]);
      assert q + Ids(children) == (q + [v]) + Ids(children[1..]);
    }
  }

  ghost predicate NonRoot(w: nat, n: nat) {
    0 < w < n
  }

  ghost function NonRoots(n: nat): set<nat> {
    set w: nat | w < n && NonRoot(w, n)
  }

  lemma FirstFinal(nodes: seq<AcNode>, paths: seq<Text>, ps: seq<Text>, e: (byte, nat))
    requires Trie(nodes, paths) && RawAll(nodes, paths, ps, |ps|) && e in nodes[0].children
    ensures 0 < e.1 < |nodes| && |paths[e.1]| == 1 && Final(nodes, paths, ps, e.1)
  {
    TrieLinked(nodes, paths, 0, e);
    assert paths[e.1] == [e.0];
    assert Raw(nodes, paths, ps, |ps|, e.1);
    assert [e.0][1..] == [];
  }

  lemma InitQueue(nodes: seq<AcNode>, paths: seq<Text>, ps: seq<Text>)
    requires Trie(nodes, paths) && RawAll(nodes, paths, ps, |ps|)
    ensures QueueOk(paths, Ids(nodes[0].children), NonRoots(|nodes|))
    ensures forall w :: w in Ids(nodes[0].children) ==> 0 < w < |nodes| && Final(nodes, paths, ps, w)
  {
    var children := nodes[0].children;
    var q := Ids(children);
    assert DistinctKeys(children);
    forall e | e in children
      ensures e.1 < |paths| && paths[e.1] == paths[0] + [e.0]
    {
      TrieLinked(nodes, paths, 0, e);
    }
    forall i | 0 <= i < |q|
      ensures 0 < q[i] < |nodes| && |paths[q[i]]| == 1 && Final(nodes, paths, ps, q[i])
    {
      FirstFinal(nodes, paths, ps, children[i]);
    }
    forall i, j | 0 <= i < j < |q|
      ensures q[i] != q[j]
    {
      IdsDistinct(children, paths, 0, i, j);
    }
  }

  lemma InitChildrenSeen(nodes: seq<AcNode>, paths: seq<Text>)
    requires Trie(nodes, paths)
    ensures ChildrenSeen(nodes, Ids(nodes[0].children), NonRoots(|nodes|))
  {
    var q := Ids(nodes[0].children);
    forall u: nat, e | u < |nodes| && e in nodes[u].children
      ensures ChildSeen(q, NonRoots(|nodes|), u, e.1)
    {
      TrieLinked(nodes, paths, u, e);
      if u == 0 {
        var i :| 0 <= i < |nodes[0].children| && nodes[0].children[i] == e;
        assert q[i] == e.1;
      } else if e.1 in q {
        var i :| 0 <= i < |q| && q[i] == e.1;
        OneParent(nodes, paths, u, e, 0, nodes[0].children[i]);
      }
    }
  }

  lemma BfsStart(nodes: seq<AcNode>, paths: seq<Text>, ps: seq<Text>)
    requires Trie(nodes, paths) && RawAll(nodes, paths, ps, |ps|) && Known(ps, paths)
    ensures Linked(nodes)
    ensures BfsInit(nodes) == (nodes, Ids(nodes[0].children))
    ensures BfsInv(nodes, paths, ps, Ids(nodes[0].children), NonRoots(|nodes|))
  {
    InsertedLinked(nodes, paths);
    forall w: nat | w < |nodes|
      ensures nodes[w].fail == 0 && (w > 0 ==> FailShorter(nodes, paths, w))
    {
      assert Raw(nodes, paths, ps, |ps|, w);
      assert Apart(paths, 0, w);
    }
    assert Raw(nodes, paths, ps, |ps|, 0);
    var q := Ids(nodes[0].children);
    BfsInitKeeps(nodes[0].children, nodes, []);
    assert [] + q == q;
    InitQueue(nodes, paths, ps);
    InitChildrenSeen(nodes, paths);
    forall w: nat | 0 < w < |nodes|
      ensures Stage(nodes, paths, ps, q, NonRoots(|nodes|), w)
    {
      assert Raw(nodes, paths, ps, |ps|, w);
    }
  }

  function Build(patterns: seq<Text>): Automaton {
    InsertedTrie(patterns);
    var nodes1 := InsertAll(ROOT, patterns, 0);
    BfsStart(nodes1, TriePaths(patterns), patterns);
    var (nodes2, q) := BfsInit(nodes1);
    Automaton(BfsLoop(nodes2, q, TriePaths(patterns), patterns, NonRoots(|nodes1|)), patterns)
  }

  /** `build` yields final failure links and outputs everywhere. */
  lemma BuildFinishes(ps: seq<Text>)
    ensures Finished(Build(ps).nodes, TriePaths(ps), ps) && Build(ps).patterns == ps
  {
    InsertedTrie(ps);
    var nodes1 := InsertAll(ROOT, ps, 0);
    BfsStart(nodes1, TriePaths(ps), ps);
    BfsLoopFinishes(nodes1, TriePaths(ps), ps, Ids(nodes1[0].children), NonRoots(|nodes1|));
  }

  ghost predicate PrefixOfSome(ps: seq<Text>, t: Text) {
    exists i :: 0 <= i < |ps| && t <= ps[i]
  }

  lemma {:induction false} AddPrefixesAre(paths: seq<Text>, p: Text, i: nat, t: Text)
    requires i <= |p| && (forall k :: 0 <= k <= i ==> p[..k] in paths)
    ensures t in AddPrefixes(paths, p, i) <==> t in paths || t <= p
    decreases |p| - i
  {
    if i >= |p| {
      if t <= p { assert t == p[..|t|]; }
    } else if p[..i + 1] in paths {
      AddPrefixesAre(paths, p, i + 1, t);
    } else {
      AddPrefixesAre(paths + [p[..i + 1]], p, i + 1, t);
    }
  }

  lemma {:induction false} AddAllAre(paths: seq<Text>, ps: seq<Text>, t: Text)
    requires [] in paths
    ensures t in AddAll(paths, ps) <==> t in paths || PrefixOfSome(ps, t)
    decreases |ps|
  {
    if ps != [] {
      var p, rest := ps[0], ps[1..];
      assert ps == [p] + rest;
      if p != [] {
        assert forall k :: 0 <= k <= 0 ==> p[..k] == [];
        AddPrefixesAre(paths, p, 0, t);
        AddPrefixesAre(paths, p, 0, []);
        AddAllAre(AddPrefixes(paths, p, 0), rest, t);
      } else {
        AddAllAre(paths, rest, t);
      }
      if PrefixOfSome(rest, t) {
        var i :| 0 <= i < |rest| && t <= rest[i];
        assert ps[i + 1] == rest[i];
      }
      if PrefixOfSome(ps, t) && !(t <= p) {
        var i :| 0 <= i < |ps| && t <= ps[i];
        assert rest[i - 1] == ps[i];
      }
      if t <= p { assert PrefixOfSome(ps, t); }
    }
  }

  /** The trie paths are exactly the prefixes of the patterns (and the empty string). */
  lemma TriePathsAre(ps: seq<Text>, t: Text)
    ensures t in TriePaths(ps) <==> t == [] || PrefixOfSome(ps, t)
  {
    AddAllAre([[]], ps, t);
  }

  // ---------------------------------------------------------------- scanning

  function ScanStep(nodes: seq<AcNode>, state: nat, b: byte, ghost paths: seq<Text>): nat
    requires Shallow(nodes, paths) && state < |nodes|
    decreases |paths[state]|
  {
    match ChildOf(nodes, state, b)
    case Some(nid) => nid
    case None =>
      if state == 0 then 0
      else
        assert FailShorter(nodes, paths, state);
        ScanStep(nodes, nodes[state].fail, b, paths)
  }

  predicate AllBelow(outs: seq<nat>, n: nat) {
    forall i :: 0 <= i < |outs| ==> outs[i] < n
  }

  function BuildMatch(patterns: seq<Text>, idx: nat, endPos: int): Match
    requires idx < |patterns|
  {
    Match(endPos - |patterns[idx]|, endPos, idx, patterns[idx])
  }

  function EmitMatches(patterns: seq<Text>, outs: seq<nat>, endPos: int, acc: seq<Match>): seq<Match>
    requires AllBelow(outs, |patterns|)
    decreases |outs|
  {
    if outs == [] then acc
    else EmitMatches(patterns, outs[1..], endPos, [BuildMatch(patterns, outs[0], endPos)] + acc)
  }

  /** Nothing in a finished automaton can make a scan panic. */
  lemma ScanStepInRange(nodes: seq<AcNode>, paths: seq<Text>, ps: seq<Text>, state: nat, b: byte)
    requires Finished(nodes, paths, ps) && state < |nodes|
    ensures ScanStep(nodes, state, b, paths) < |nodes|
    ensures AllBelow(nodes[ScanStep(nodes, state, b, paths)].outputs, |ps|)
  {
    ScanIsFind(nodes, paths, state, b);
    FindFailDepth(nodes, paths, state, b);
    OutputsInRange(nodes, paths, ps, ScanStep(nodes, state, b, paths));
  }

  lemma {:induction false} ScanIsFind(nodes: seq<AcNode>, paths: seq<Text>, state: nat, b: byte)
    requires Shallow(nodes, paths) && state < |nodes|
    ensures ScanStep(nodes, state, b, paths) == FindFail(nodes, state, b, paths)
    decreases |paths[state]|
  {
    if ChildOf(nodes, state, b).None? && state != 0 {
      assert FailShorter(nodes, paths, state);
      ScanIsFind(nodes, paths, nodes[state].fail, b);
    }
  }

  lemma OutputsInRange(nodes: seq<AcNode>, paths: seq<Text>, ps: seq<Text>, w: nat)
    requires Finished(nodes, paths, ps) && w < |nodes|
    ensures AllBelow(nodes[w].outputs, |ps|)
  {
    if w > 0 {
      assert Final(nodes, paths, ps, w);
      SuffixOutputsInRange(ps, paths[w]);
    }
  }

  lemma {:induction false} OwnOutputsInRange(ps: seq<Text>, n: nat, s: Text)
    requires n <= |ps|
    ensures AllBelow(OwnOutputs(ps, n, s), n)
  {
    if n > 0 { OwnOutputsInRange(ps, n - 1, s); }
  }

  lemma {:induction false} SuffixOutputsInRange(ps: seq<Text>, s: Text)
    ensures AllBelow(SuffixOutputs(ps, s), |ps|)
    decreases |s|
  {
    if s != [] {
      OwnOutputsInRange(ps, |ps|, s);
      SuffixOutputsInRange(ps, s[1..]);
    }
  }

  function FindAllGo(nodes: seq<AcNode>, patterns: seq<Text>, haystack: Text, pos: nat, state: nat, acc: seq<Match>,
                     ghost paths: seq<Text>): seq<Match>
    requires Finished(nodes, paths, patterns) && state < |nodes|
    decreases |haystack| - pos
  {
    if pos >= |haystack| then Rev(acc, [])
    else
      ScanStepInRange(nodes, paths, patterns, state, haystack[pos]);
      var state2 := ScanStep(nodes, state, haystack[pos], paths);
      var acc2 := EmitMatches(patterns, nodes[state2].outputs, pos + 1, acc);
      FindAllGo(nodes, patterns, haystack, pos + 1, state2, acc2, paths)
  }

  function FindFirstGo(nodes: seq<AcNode>, patterns: seq<Text>, haystack: Text, pos: nat, state: nat,
                       ghost paths: seq<Text>): Option<Match>
    requires Finished(nodes, paths, patterns) && state < |nodes|
    decreases |haystack| - pos
  {
    if pos >= |haystack| then None
    else
      ScanStepInRange(nodes, paths, patterns, state, haystack[pos]);
      var state2 := ScanStep(nodes, state, haystack[pos], paths);
      var outs := nodes[state2].outputs;
      if outs != [] then Some(BuildMatch(patterns, outs[0], pos + 1))
      else FindFirstGo(nodes, patterns, haystack, pos + 1, state2, paths)
  }

  /** An automaton as `build` leaves it; the paths are recovered, not stored. */
  ghost predicate Sound(a: Automaton) {
    exists paths :: Finished(a.nodes, paths, a.patterns)
  }

  function FindAll(a: Automaton, haystack: Text): seq<Match>
    requires Sound(a)
  {
    ghost var paths :| Finished(a.nodes, paths, a.patterns);
    FindAllGo(a.nodes, a.patterns, haystack, 0, 0, [], paths)
  }

  function FindFirst(a: Automaton, haystack: Text): Option<Match>
    requires Sound(a)
  {
    ghost var paths :| Finished(a.nodes, paths, a.patterns);
    FindFirstGo(a.nodes, a.patterns, haystack, 0, 0, paths)
  }

  function Matches(a: Automaton, haystack: Text): bool
    requires Sound(a)
  {
    FindFirst(a, haystack).Some?
  }

  // ---------------------------------------------------------------- naive search, the reference

  /** Patterns below `n` that fill the window [start, stop), highest index first. */
  function NaiveWindow(ps: seq<Text>, h: Text, start: nat, stop: nat, n: nat): seq<Match>
    requires start < stop <= |h| && n <= |ps|
  {
    if n == 0 then []
    else
      (if h[start..stop] == ps[n - 1] then [Match(start, stop, n - 1, ps[n - 1])] else [])
      + NaiveWindow(ps, h, start, stop, n - 1)
  }

  /** Every window ending at `stop`, longest first. */
  function NaiveEnding(ps: seq<Text>, h: Text, start: nat, stop: nat): seq<Match>
    requires start <= stop <= |h|
    decreases stop - start
  {
    if start == stop then []
    else NaiveWindow(ps, h, start, stop, |ps|) + NaiveEnding(ps, h, start + 1, stop)
  }

  /** Every window of the haystack ending after `pos`, by rising end. */
  function Naive(ps: seq<Text>, h: Text, pos: nat): seq<Match>
    requires pos <= |h|
    decreases |h| - pos
  {
    if pos == |h| then [] else NaiveEnding(ps, h, 0, pos + 1) + Naive(ps, h, pos + 1)
  }

  /** The matches `outs` stands for at `endPos`. */
  function AsMatches(ps: seq<Text>, outs: seq<nat>, endPos: int): seq<Match>
    requires AllBelow(outs, |ps|)
  {
    if outs == [] then [] else [BuildMatch(ps, outs[0], endPos)] + AsMatches(ps, outs[1..], endPos)
  }

  lemma {:induction false} AsMatchesConcat(ps: seq<Text>, a: seq<nat>, b: seq<nat>, endPos: int)
    requires AllBelow(a + b, |ps|)
    requires AllBelow(a, |ps|) && AllBelow(b, |ps|)
    ensures AsMatches(ps, a + b, endPos) == AsMatches(ps, a, endPos) + AsMatches(ps, b, endPos)
    decreases |a|
  {
    if a == [] {
      assert a + b == b;
    } else {
      assert (a + b)[1..] == a[1..] + b;
      AsMatchesConcat(ps, a[1..], b, endPos);
    }
  }

  lemma {:induction false} WindowOutputs(ps: seq<Text>, h: Text, start: nat, stop: nat, n: nat)
    requires start < stop <= |h| && n <= |ps|
    requires AllBelow(OwnOutputs(ps, n, h[start..stop]), |ps|)
    ensures NaiveWindow(ps, h, start, stop, n) == AsMatches(ps, OwnOutputs(ps, n, h[start..stop]), stop)
  {
    if n > 0 {
      OwnOutputsInRange(ps, n - 1, h[start..stop]);
      WindowOutputs(ps, h, start, stop, n - 1);
      if h[start..stop] == ps[n - 1] {
        assert OwnOutputs(ps, n, h[start..stop])[1..] == OwnOutputs(ps, n - 1, h[start..stop]);
      }
    }
  }

  lemma {:induction false} EndingOutputs(ps: seq<Text>, h: Text, start: nat, stop: nat)
    requires start <= stop <= |h|
    requires AllBelow(SuffixOutputs(ps, h[start..stop]), |ps|)
    ensures NaiveEnding(ps, h, start, stop) == AsMatches(ps, SuffixOutputs(ps, h[start..stop]), stop)
    decreases stop - start
  {
    if start < stop {
      var s := h[start..stop];
      assert s[1..] == h[start + 1..stop];
      OwnOutputsInRange(ps, |ps|, s);
      SuffixOutputsInRange(ps, s[1..]);
      EndingOutputs(ps, h, start + 1, stop);
      WindowOutputs(ps, h, start, stop, |ps|);
      AsMatchesConcat(ps, OwnOutputs(ps, |ps|, s), SuffixOutputs(ps, s[1..]), stop);
    }
  }

  lemma ConcatAssoc(a: seq<Match>, b: seq<Match>, c: seq<Match>)
    ensures (a + b) + c == a + (b + c)
  {
  }

  lemma {:induction false} EmitReversed(ps: seq<Text>, outs: seq<nat>, endPos: int, acc: seq<Match>)
    requires AllBelow(outs, |ps|)
    ensures Rev(EmitMatches(ps, outs, endPos, acc), []) == Rev(acc, []) + AsMatches(ps, outs, endPos)
    decreases |outs|
  {
    if outs == [] {
      assert Rev(acc, []) + [] == Rev(acc, []);
    } else {
      var m := BuildMatch(ps, outs[0], endPos);
      EmitReversed(ps, outs[1..], endPos, [m] + acc);
      RevCons(m, acc);
      ConcatAssoc(Rev(acc, []), [m], AsMatches(ps, outs[1..], endPos));
    }
  }

  /** The scan state is always the longest suffix of the text read that is a trie path. */
  lemma ScanStepLongest(nodes: seq<AcNode>, paths: seq<Text>, ps: seq<Text>, state: nat, text: Text, b: byte)
    requires Finished(nodes, paths, ps) && Longest(paths, state, text)
    ensures Longest(paths, ScanStep(nodes, state, b, paths), text + [b])
  {
    forall w: nat | 0 < w < |nodes| ensures FailOk(nodes, paths, w) {
      assert Final(nodes, paths, ps, w);
    }
    FindFailLongest(nodes, paths, state, b);
    ScanIsFind(nodes, paths, state, b);
    ExtendLongest(paths, state, text, b, ScanStep(nodes, state, b, paths));
  }

  lemma OutputsOfLongest(nodes: seq<AcNode>, paths: seq<Text>, ps: seq<Text>, state: nat, text: Text)
    requires Finished(nodes, paths, ps) && Longest(paths, state, text)
    ensures nodes[state].outputs == SuffixOutputs(ps, text)
  {
    LongestOutputs(ps, paths, state, text);
    if state > 0 { assert Final(nodes, paths, ps, state); }
  }

  /** One byte of scanning reports what naive search reports for windows ending there. */
  lemma ScanOne(nodes: seq<AcNode>, paths: seq<Text>, ps: seq<Text>, h: Text, pos: nat, state: nat)
    requires Finished(nodes, paths, ps) && pos < |h| && Longest(paths, state, h[..pos])
    ensures var state2 := ScanStep(nodes, state, h[pos], paths);
            && state2 < |nodes| && Longest(paths, state2, h[..pos + 1])
            && (AllBelow(nodes[state2].outputs, |ps|))
            && AsMatches(ps, nodes[state2].outputs, pos + 1) == NaiveEnding(ps, h, 0, pos + 1)
  {
    assert h[..pos] + [h[pos]] == h[..pos + 1] == h[0..pos + 1];
    ScanStepLongest(nodes, paths, ps, state, h[..pos], h[pos]);
    var state2 := ScanStep(nodes, state, h[pos], paths);
    OutputsOfLongest(nodes, paths, ps, state2, h[..pos + 1]);
    SuffixOutputsInRange(ps, h[..pos + 1]);
    EndingOutputs(ps, h, 0, pos + 1);
  }

  lemma {:induction false} FindAllGoNaive(
      nodes: seq<AcNode>, paths: seq<Text>, ps: seq<Text>, h: Text, pos: nat, state: nat, acc: seq<Match>)
    requires Finished(nodes, paths, ps) && pos <= |h| && Longest(paths, state, h[..pos])
    ensures FindAllGo(nodes, ps, h, pos, state, acc, paths) == Rev(acc, []) + Naive(ps, h, pos)
    decreases |h| - pos
  {
    if pos == |h| {
      assert Rev(acc, []) + [] == Rev(acc, []);
    } else {
      ScanOne(nodes, paths, ps, h, pos, state);
      var state2 := ScanStep(nodes, state, h[pos], paths);
      var outs := nodes[state2].outputs;
      EmitReversed(ps, outs, pos + 1, acc);
      FindAllGoNaive(nodes, paths, ps, h, pos + 1, state2, EmitMatches(ps, outs, pos + 1, acc));
      ConcatAssoc(Rev(acc, []), AsMatches(ps, outs, pos + 1), Naive(ps, h, pos + 1));
    }
  }

  lemma {:induction false} FindFirstGoNaive(
      nodes: seq<AcNode>, paths: seq<Text>, ps: seq<Text>, h: Text, pos: nat, state: nat)
    requires Finished(nodes, paths, ps) && pos <= |h| && Longest(paths, state, h[..pos])
    ensures FindFirstGo(nodes, ps, h, pos, state, paths)
            == if Naive(ps, h, pos) == [] then None else Some(Naive(ps, h, pos)[0])
    decreases |h| - pos
  {
    if pos < |h| {
      ScanOne(nodes, paths, ps, h, pos, state);
      FindFirstGoNaive(nodes, paths, ps, h, pos + 1, ScanStep(nodes, state, h[pos], paths));
    }
  }

  lemma StartLongest(nodes: seq<AcNode>, paths: seq<Text>, ps: seq<Text>)
    requires Finished(nodes, paths, ps)
    ensures Longest(paths, 0, [])
  {
  }

  /** Main result: one pass over the haystack finds exactly what naive search of every
      window for every pattern finds, in the same order. */
  lemma FindAllIsNaive(ps: seq<Text>, h: Text)
    ensures Sound(Build(ps)) && FindAll(Build(ps), h) == Naive(ps, h, 0)
  {
    BuildFinishes(ps);
    var a := Build(ps);
    assert h[..0] == [];
    forall paths | Finished(a.nodes, paths, a.patterns)
      ensures FindAllGo(a.nodes, a.patterns, h, 0, 0, [], paths) == Naive(ps, h, 0)
    {
      StartLongest(a.nodes, paths, ps);
      FindAllGoNaive(a.nodes, paths, ps, h, 0, 0, []);
    }
  }

  /** `find_first` is the head of `find_all`, and `matches` says whether there is one. */
  lemma FindFirstIsHead(ps: seq<Text>, h: Text)
    ensures Sound(Build(ps))
    ensures var all := FindAll(Build(ps), h);
            && FindFirst(Build(ps), h) == (if all == [] then None else Some(all[0]))
            && (Matches(Build(ps), h) <==> all != [])
  {
    FindAllIsNaive(ps, h);
    var a := Build(ps);
    BuildFinishes(ps);
    assert h[..0] == [];
    forall paths | Finished(a.nodes, paths, a.patterns)
      ensures FindFirstGo(a.nodes, a.patterns, h, 0, 0, paths)
              == if Naive(ps, h, 0) == [] then None else Some(Naive(ps, h, 0)[0])
    {
      StartLongest(a.nodes, paths, ps);
      FindFirstGoNaive(a.nodes, paths, ps, h, 0, 0);
    }
  }

  // ---------------------------------------------------------------- what the reference says

  ghost predicate Occurrence(ps: seq<Text>, h: Text, m: Match) {
    && 0 <= m.start < m.stop <= |h| && m.patternIndex < |ps|
    && m.pattern == ps[m.patternIndex] == h[m.start..m.stop]
  }

  /** Rising end; at equal ends longest first; equal windows by falling index. */
  ghost predicate Before(a: Match, b: Match) {
    || a.stop < b.stop
    || (a.stop == b.stop && a.start < b.start)
    || (a.stop == b.stop && a.start == b.start && a.patternIndex > b.patternIndex)
  }

  ghost predicate Sorted(ms: seq<Match>) {
    forall i, j :: 0 <= i < j < |ms| ==> Before(ms[i], ms[j])
  }

  lemma SortedConcat(a: seq<Match>, b: seq<Match>)
    requires Sorted(a) && Sorted(b)
    requires forall x, y :: x in a && y in b ==> Before(x, y)
    ensures Sorted(a + b)
  {
    var c := a + b;
    forall i, j | 0 <= i < j < |c|
      ensures Before(c[i], c[j])
    {
      if i < |a| <= j { assert a[i] in a && b[j - |a|] in b; }
    }
  }

  lemma {:induction false} WindowComplete(ps: seq<Text>, h: Text, start: nat, stop: nat, n: nat)
    requires start < stop <= |h| && n <= |ps|
    ensures var w := NaiveWindow(ps, h, start, stop, n);
            && Sorted(w)
            && forall m :: m in w <==>
                 Occurrence(ps, h, m) && m.start == start && m.stop == stop && m.patternIndex < n
  {
    if n > 0 {
      WindowComplete(ps, h, start, stop, n - 1);
      var first := if h[start..stop] == ps[n - 1] then [Match(start, stop, n - 1, ps[n - 1])] else [];
      SortedConcat(first, NaiveWindow(ps, h, start, stop, n - 1));
    }
  }

  lemma {:induction false} EndingComplete(ps: seq<Text>, h: Text, start: nat, stop: nat)
    requires start <= stop <= |h|
    ensures var w := NaiveEnding(ps, h, start, stop);
            && Sorted(w)
            && forall m :: m in w <==> Occurrence(ps, h, m) && m.start >= start && m.stop == stop
    decreases stop - start
  {
    if start < stop {
      WindowComplete(ps, h, start, stop, |ps|);
      EndingComplete(ps, h, start + 1, stop);
      SortedConcat(NaiveWindow(ps, h, start, stop, |ps|), NaiveEnding(ps, h, start + 1, stop));
    }
  }

  lemma {:induction false} NaiveComplete(ps: seq<Text>, h: Text, pos: nat)
    requires pos <= |h|
    ensures var all := Naive(ps, h, pos);
            && Sorted(all)
            && forall m :: m in all <==> Occurrence(ps, h, m) && m.stop > pos
    decreases |h| - pos
  {
    if pos < |h| {
      EndingComplete(ps, h, 0, pos + 1);
      NaiveComplete(ps, h, pos + 1);
      SortedConcat(NaiveEnding(ps, h, 0, pos + 1), Naive(ps, h, pos + 1));
    }
  }

  /** `find_all` reports every occurrence of every non-empty pattern exactly once and
      nothing else, by rising end and, at equal ends, longest first. */
  lemma FindAllExact(ps: seq<Text>, h: Text)
    ensures Sound(Build(ps))
    ensures var all := FindAll(Build(ps), h);
            && (forall m :: m in all <==> Occurrence(ps, h, m))
            && Sorted(all)
            && (forall i, j :: 0 <= i < j < |all| ==> all[i] != all[j])
  {
    FindAllIsNaive(ps, h);
    NaiveComplete(ps, h, 0);
    var all := FindAll(Build(ps), h);
    forall i, j | 0 <= i < j < |all|
      ensures all[i] != all[j]
    {
      assert Before(all[i], all[j]);
    }
  }
}
