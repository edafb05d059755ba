/** Placing worker threads and partitions on nodes. */
module Locality {
  import opened Machine

  datatype Affinity = NoAffinity | Compact | Scatter

  // ----- Sums over nodes

  function Sum(s: seq<nat>): nat {
    if |s| == 0 then 0 else Sum(s[..|s| - 1]) + s[|s| - 1]
  }

  lemma {:induction false} SumUpdate(s: seq<nat>, i: nat, x: nat)
    requires i < |s|
    ensures Sum(s[i := x]) + s[i] == Sum(s) + x
  {
    var m := |s| - 1;
    if i < m {
      SumUpdate(s[..m], i, x);
      assert s[i := x][..m] == s[..m][i := x];
    } else {
      assert s[i := x][..m] == s[..m];
    }
  }

  lemma {:induction false} SumMonotone(s: seq<nat>, t: seq<nat>)
    requires |s| == |t| && forall i :: 0 <= i < |s| ==> s[i] <= t[i]
    ensures Sum(s) <= Sum(t)
    ensures Sum(s) == Sum(t) ==> s == t
  {
    if |s| == 0 {
    } else {
      var m := |s| - 1;
      SumMonotone(s[..m], t[..m]);
      assert s == s[..m] + [s[m]] && t == t[..m] + [t[m]];
    }
  }

  lemma {:induction false} SumScaled(s: seq<nat>, pu: seq<nat>, q: nat, used: seq<nat>)
    requires |s| == |pu| == |used| && forall n :: 0 <= n < |s| ==> s[n] == q * pu[n] + used[n]
    ensures Sum(s) == q * Sum(pu) + Sum(used)
  {
    if |s| == 0 {
    } else {
      var m := |s| - 1;
      SumScaled(s[..m], pu[..m], q, used[..m]);
      Distribute(q, Sum(pu[..m]), pu[m]);
    }
  }

  lemma Distribute(q: nat, a: nat, b: nat)
    ensures q * (a + b) == q * a + q * b
  {}

  lemma {:induction false} SomethingLeft(s: seq<nat>) returns (k: nat)
    requires Sum(s) > 0
    ensures k < |s| && s[k] > 0
  {
    var m := |s| - 1;
    if s[m] > 0 {
      k := m;
    } else {
      k := SomethingLeft(s[..m]);
    }
  }

  lemma {:induction false} AllZero(s: seq<nat>)
    requires forall n :: 0 <= n < |s| ==> s[n] == 0
    ensures Sum(s) == 0
  {
    if |s| == 0 {
    } else {
      AllZero(s[..|s| - 1]);
    }
  }

  // ----- Workers of a node

  /** The workers mapped to node `n`, in ascending order. */
  function WorkersOf(mapping: seq<nat>, n: nat): seq<nat> {
    if |mapping| == 0 then []
    else WorkersOf(mapping[..|mapping| - 1], n) + if mapping[|mapping| - 1] == n then [|mapping| - 1] else []
  }

  lemma WorkersNext(mapping: seq<nat>, node: nat, n: nat)
    ensures WorkersOf(mapping + [node], n) == WorkersOf(mapping, n) + if node == n then [|mapping|] else []
  {
    assert (mapping + [node])[..|mapping|] == mapping;
  }

  /** The list of a node holds exactly the workers mapped to it. */
  lemma {:induction false} WorkersAreInverse(mapping: seq<nat>, n: nat, w: nat)
    ensures w in WorkersOf(mapping, n) <==> w < |mapping| && mapping[w] == n
    ensures forall i, j :: 0 <= i < j < |WorkersOf(mapping, n)| ==> WorkersOf(mapping, n)[i] < WorkersOf(mapping, n)[j]
    ensures forall i :: 0 <= i < |WorkersOf(mapping, n)| ==> WorkersOf(mapping, n)[i] < |mapping|
  {
    if |mapping| == 0 {
    } else {
      WorkersAreInverse(mapping[..|mapping| - 1], n, w);
    }
  }

  function Counts(mapping: seq<nat>, nodes: nat): (c: seq<nat>)
    ensures |c| == nodes && forall n :: 0 <= n < nodes ==> c[n] == |WorkersOf(mapping, n)|
  {
    seq(nodes, n requires 0 <= n => |WorkersOf(mapping, n)|)
  }

  lemma CountsNext(mapping: seq<nat>, nodes: nat, node: nat)
    requires node < nodes
    ensures Counts(mapping + [node], nodes) == Counts(mapping, nodes)[node := Counts(mapping, nodes)[node] + 1]
  {
    forall n | 0 <= n < nodes
      ensures |WorkersOf(mapping + [node], n)| == |WorkersOf(mapping, n)| + if n == node then 1 else 0
    {
      WorkersNext(mapping, node, n);
    }
  }

  lemma {:induction false} CountsTotal(mapping: seq<nat>, nodes: nat)
    requires forall w :: 0 <= w < |mapping| ==> mapping[w] < nodes
    ensures Sum(Counts(mapping, nodes)) == |mapping|
  {
    if |mapping| == 0 {
      AllZero(Counts(mapping, nodes));
    } else {
      var front, last := mapping[..|mapping| - 1], mapping[|mapping| - 1];
      assert mapping == front + [last];
      CountsTotal(front, nodes);
      CountsNext(front, nodes, last);
      SumUpdate(Counts(front, nodes), last, Counts(front, nodes)[last] + 1);
    }
  }

  // ----- Balance

  /** Every node has had all its units `q` times, and `used` of them once more. */
  ghost predicate Rounds(mapping: seq<nat>, pu: seq<nat>, q: nat, used: seq<nat>) {
    && |used| == |pu| && (forall w :: 0 <= w < |mapping| ==> mapping[w] < |pu|)
    && (forall n :: 0 <= n < |pu| ==> used[n] <= pu[n])
    && (forall n :: 0 <= n < |pu| ==> Counts(mapping, |pu|)[n] == q * pu[n] + used[n])
  }

  /** With `T = qU + r` threads on `U` units, every node has between `q` and `q + 1` times its units. */
  ghost predicate Balanced(mapping: seq<nat>, pu: seq<nat>)
    requires Sum(pu) > 0
  {
    forall n :: 0 <= n < |pu| ==>
      |mapping| / Sum(pu) * pu[n] <= |WorkersOf(mapping, n)| <= (|mapping| / Sum(pu) + 1) * pu[n]
  }

  lemma DivisionIs(t: nat, u: nat, q: nat, r: nat)
    requires t == q * u + r && r < u
    ensures t / u == q
  {
    var d := t / u;
    assert d * u <= t < d * u + u;
    if d < q {
      NextMultiple(d, q, u);
    } else if q < d {
      NextMultiple(q, d, u);
    }
  }

  lemma RemainderIs(t: nat, u: nat, q: nat, r: nat)
    requires t == q * u + r && r < u
    ensures t % u == r
  {
    DivisionIs(t, u, q, r);
    assert t == t / u * u + t % u;
  }

  lemma {:induction false} NextMultiple(a: nat, b: nat, u: nat)
    requires a < b
    ensures a * u + u <= b * u
    decreases b
  {
    if a + 1 < b {
      NextMultiple(a, b - 1, u);
    }
  }

  lemma RoundsAreBalanced(mapping: seq<nat>, pu: seq<nat>, q: nat, used: seq<nat>)
    requires Rounds(mapping, pu, q, used) && Sum(pu) > 0
    ensures Balanced(mapping, pu)
  {
    var d := |mapping| / Sum(pu);
    QuotientOfRounds(mapping, pu, q, used);
    hide Sum;
    forall n | 0 <= n < |pu| ensures d * pu[n] <= |WorkersOf(mapping, n)| <= (d + 1) * pu[n] {
      assert |WorkersOf(mapping, n)| == Counts(mapping, |pu|)[n];
      WithinOneRound(|WorkersOf(mapping, n)|, q, used[n], pu[n], d);
    }
  }

  lemma QuotientOfRounds(mapping: seq<nat>, pu: seq<nat>, q: nat, used: seq<nat>)
    requires Rounds(mapping, pu, q, used) && Sum(pu) > 0
    ensures |mapping| / Sum(pu) == if used == pu then q + 1 else q
  {
    CountsTotal(mapping, |pu|);
    SumScaled(Counts(mapping, |pu|), pu, q, used);
    SumMonotone(used, pu);
    hide Sum, Rounds;
    if used == pu {
      NextRound(q, Sum(pu));
      DivisionIs(|mapping|, Sum(pu), q + 1, 0);
    } else {
      DivisionIs(|mapping|, Sum(pu), q, Sum(used));
    }
  }

  lemma NextRound(q: nat, u: nat)
    ensures (q + 1) * u == q * u + u
  {}

  lemma WithinOneRound(x: nat, q: nat, used: nat, units: nat, d: nat)
    requires x == q * units + used && used <= units && (d == q || (d == q + 1 && used == units))
    ensures d * units <= x <= (d + 1) * units
  {
    NextRound(q, units);
    NextRound(q + 1, units);
  }

  // ----- Going round the nodes

  /** How many steps it takes to go from `node` to `k`. */
  function Distance(node: nat, k: nat, nodes: nat): nat
    requires node < nodes && k < nodes
  {
    if node <= k then k - node else nodes - node + k
  }

  function Following(node: nat, nodes: nat): (next: nat)
    requires node < nodes
    ensures next == (if node + 1 == nodes then 0 else node + 1)
  {
    if node + 1 == nodes then assert nodes % nodes == 0; (node + 1) % nodes else (node + 1) % nodes
  }

  // ----- What the loops keep

  /** The lists and the mapping say the same. */
  ghost predicate Inverse(mapping: seq<nat>, nodeToWorker: seq<seq<nat>>) {
    && (forall w :: 0 <= w < |mapping| ==> mapping[w] < |nodeToWorker|)
    && (forall n :: 0 <= n < |nodeToWorker| ==> nodeToWorker[n] == WorkersOf(mapping, n))
  }

  lemma InverseNext(mapping: seq<nat>, nodeToWorker: seq<seq<nat>>, node: nat)
    requires Inverse(mapping, nodeToWorker) && node < |nodeToWorker|
    ensures Inverse(mapping + [node], nodeToWorker[node := nodeToWorker[node] + [|mapping|]])
  {
    forall n ensures WorkersOf(mapping + [node], n) == WorkersOf(mapping, n) + if node == n then [|mapping|] else [] {
      WorkersNext(mapping, node, n);
    }
  }

  lemma RoundsNext(mapping: seq<nat>, pu: seq<nat>, q: nat, used: seq<nat>, node: nat)
    requires Rounds(mapping, pu, q, used) && node < |pu| && used[node] < pu[node]
    ensures Rounds(mapping + [node], pu, q, used[node := used[node] + 1])
  {
    CountsNext(mapping, |pu|, node);
  }

  lemma RoundComplete(mapping: seq<nat>, pu: seq<nat>, q: nat, none: seq<nat>)
    requires Rounds(mapping, pu, q, pu) && |none| == |pu| && forall n :: 0 <= n < |none| ==> none[n] == 0
    ensures Rounds(mapping, pu, q + 1, none)
  {
    forall n | 0 <= n < |pu| ensures Counts(mapping, |pu|)[n] == (q + 1) * pu[n] + none[n] {
      NextRound(q, pu[n]);
    }
  }

  lemma RoundsTotal(mapping: seq<nat>, pu: seq<nat>, q: nat, used: seq<nat>)
    requires Rounds(mapping, pu, q, used)
    ensures |mapping| == q * Sum(pu) + Sum(used) && Sum(used) <= Sum(pu)
  {
    CountsTotal(mapping, |pu|);
    SumScaled(Counts(mapping, |pu|), pu, q, used);
    SumMonotone(used, pu);
  }

  // ----- COMPACT: one node after the other

  /** The nodes before `node` are full, `j` units of `node` are taken. */
  ghost function Filled(pu: seq<nat>, node: nat, j: nat): (used: seq<nat>)
    requires node < |pu|
    ensures |used| == |pu|
    ensures forall n :: 0 <= n < |pu| ==> used[n] == if n < node then pu[n] else if n == node then j else 0
  {
    seq(|pu|, n requires 0 <= n < |pu| => if n < node then pu[n] else if n == node then j else 0)
  }

  /** The threads of the current round come in the order of the nodes. */
  ghost predicate Compacted(mapping: seq<nat>, pu: seq<nat>, q: nat, node: nat, j: nat) {
    node < |pu| && j <= pu[node] && Rounds(mapping, pu, q, Filled(pu, node, j))
  }

  lemma CompactSkips(mapping: seq<nat>, pu: seq<nat>, q: nat, node: nat)
    requires node < |pu| && Compacted(mapping, pu, q, node, pu[node])
    ensures Compacted(mapping, pu, if node + 1 == |pu| then q + 1 else q, Following(node, |pu|), 0)
  {
    if node + 1 == |pu| {
      assert Filled(pu, node, pu[node]) == pu;
      RoundComplete(mapping, pu, q, Filled(pu, 0, 0));
    } else {
      assert Filled(pu, node, pu[node]) == Filled(pu, node + 1, 0);
    }
  }

  lemma CompactTakes(mapping: seq<nat>, pu: seq<nat>, q: nat, node: nat, j: nat)
    requires Compacted(mapping, pu, q, node, j) && j < pu[node]
    ensures Compacted(mapping + [node], pu, q, node, j + 1)
  {
    RoundsNext(mapping, pu, q, Filled(pu, node, j), node);
    assert Filled(pu, node, j)[node := j + 1] == Filled(pu, node, j + 1);
  }

  /** When thread `t` is placed on node `n`, the nodes before `n` are full, those after it are empty in this
      round, and `n` has a unit left. */
  ghost predicate CompactTurn(mapping: seq<nat>, pu: seq<nat>, t: nat, n: nat)
    requires t <= |mapping|
  {
    exists q: nat, j: nat :: Compacted(mapping[..t], pu, q, n, j) && j < pu[n]
  }

  ghost predicate CompactOrder(mapping: seq<nat>, pu: seq<nat>) {
    forall t :: 0 <= t < |mapping| ==> CompactTurn(mapping, pu, t, mapping[t])
  }

  lemma CompactOrderNext(mapping: seq<nat>, pu: seq<nat>, q: nat, node: nat, j: nat)
    requires CompactOrder(mapping, pu) && Compacted(mapping, pu, q, node, j) && j < pu[node]
    ensures CompactOrder(mapping + [node], pu)
  {
    hide Compacted;
    var more := mapping + [node];
    forall t | 0 <= t < |more| ensures CompactTurn(more, pu, t, more[t]) {
      assert more[..t] == mapping[..t];
      assert t == |mapping| ==> mapping[..t] == mapping;
      assert t < |mapping| ==> CompactTurn(mapping, pu, t, mapping[t]);
    }
  }

  /** So thread `t` lies on the node that holds unit `t` modulo the number of units, counted from node 0 on. */
  lemma CompactPlace(mapping: seq<nat>, pu: seq<nat>, t: nat)
    requires CompactOrder(mapping, pu) && t < |mapping| && Sum(pu) > 0
    ensures mapping[t] < |pu| && Sum(pu[..mapping[t]]) <= t % Sum(pu) < Sum(pu[..mapping[t] + 1])
  {
    hide Sum, Rounds, Filled;
    var node := mapping[t];
    assert CompactTurn(mapping, pu, t, node);
    var q: nat, j: nat :| Compacted(mapping[..t], pu, q, node, j) && j < pu[node];
    CompactUnit(mapping[..t], pu, q, node, j);
  }

  lemma CompactUnit(mapping: seq<nat>, pu: seq<nat>, q: nat, node: nat, j: nat)
    requires Compacted(mapping, pu, q, node, j) && j < pu[node] && Sum(pu) > 0
    ensures Sum(pu[..node]) <= |mapping| % Sum(pu) < Sum(pu[..node + 1])
  {
    hide Sum, Rounds, Filled;
    RoundsTotal(mapping, pu, q, Filled(pu, node, j));
    FilledSum(pu, node, j);
    SumPrefix(pu, node);
    RemainderIs(|mapping|, Sum(pu), q, Sum(Filled(pu, node, j)));
  }

  lemma {:induction false} FilledSum(pu: seq<nat>, node: nat, j: nat)
    requires node < |pu|
    ensures Sum(Filled(pu, node, j)) == Sum(pu[..node]) + j
  {
    var m, used := |pu| - 1, Filled(pu, node, j);
    if node < m {
      FilledSum(pu[..m], node, j);
      assert used[..m] == Filled(pu[..m], node, j);
      assert pu[..m][..node] == pu[..node];
    } else {
      assert used[..m] == pu[..node];
    }
  }

  /** The units up to and including a node are no more than all. */
  lemma {:induction false} SumPrefix(pu: seq<nat>, node: nat)
    requires node < |pu|
    ensures Sum(pu[..node + 1]) == Sum(pu[..node]) + pu[node] <= Sum(pu)
  {
    assert pu[..node + 1][..node] == pu[..node];
    var m := |pu| - 1;
    if node < m {
      SumPrefix(pu[..m], node);
      assert pu[..m][..node + 1] == pu[..node + 1] && pu[..m][..node] == pu[..node];
    } else {
      assert pu[..node + 1] == pu;
    }
  }

  // ----- SCATTER: round and round

  /** In pass `p` the nodes before `node` have had their turn, if they had a unit left. */
  ghost function Dealt(pu: seq<nat>, p: nat, node: nat): (used: seq<nat>)
    ensures |used| == |pu|
    ensures forall n :: 0 <= n < |pu| ==> used[n] == Min(pu[n], if n < node then p + 1 else p)
  {
    seq(|pu|, n requires 0 <= n < |pu| => Min(pu[n], if n < node then p + 1 else p) as nat)
  }

  ghost predicate Scattered(mapping: seq<nat>, pu: seq<nat>, q: nat, p: nat, node: nat) {
    node < |pu| && Rounds(mapping, pu, q, Dealt(pu, p, node))
  }

  lemma DealtWraps(pu: seq<nat>, p: nat, node: nat)
    requires node < |pu| && (Dealt(pu, p, node)[node] == pu[node] || Dealt(pu, p, node)[node] == p)
    ensures Dealt(pu, p, node)[node] == pu[node] ==>
      Dealt(pu, if node + 1 == |pu| then p + 1 else p, Following(node, |pu|)) == Dealt(pu, p, node)
    ensures Dealt(pu, p, node)[node] < pu[node] ==>
      Dealt(pu, if node + 1 == |pu| then p + 1 else p, Following(node, |pu|))
        == Dealt(pu, p, node)[node := Dealt(pu, p, node)[node] + 1]
  {}

  lemma ScatterMoves(mapping: seq<nat>, pu: seq<nat>, q: nat, p: nat, node: nat)
    requires Scattered(mapping, pu, q, p, node)
    ensures Dealt(pu, p, node)[node] == pu[node] ==>
      Scattered(mapping, pu, q, if node + 1 == |pu| then p + 1 else p, Following(node, |pu|))
    ensures Dealt(pu, p, node)[node] < pu[node] ==>
      Scattered(mapping + [node], pu, q, if node + 1 == |pu| then p + 1 else p, Following(node, |pu|))
  {
    DealtWraps(pu, p, node);
    if Dealt(pu, p, node)[node] < pu[node] {
      RoundsNext(mapping, pu, q, Dealt(pu, p, node), node);
    }
  }

  /** When thread `t` is placed on node `n`, the nodes before `n` have had their turn in this pass, the others
      have not, and `n` has a unit left. */
  ghost predicate ScatterTurn(mapping: seq<nat>, pu: seq<nat>, t: nat, n: nat)
    requires t <= |mapping|
  {
    exists q: nat, p: nat :: Scattered(mapping[..t], pu, q, p, n) && Dealt(pu, p, n)[n] < pu[n]
  }

  ghost predicate ScatterOrder(mapping: seq<nat>, pu: seq<nat>) {
    forall t :: 0 <= t < |mapping| ==> ScatterTurn(mapping, pu, t, mapping[t])
  }

  lemma ScatterOrderNext(mapping: seq<nat>, pu: seq<nat>, q: nat, p: nat, node: nat)
    requires ScatterOrder(mapping, pu) && Scattered(mapping, pu, q, p, node) && Dealt(pu, p, node)[node] < pu[node]
    ensures ScatterOrder(mapping + [node], pu)
  {
    hide Rounds, Dealt;
    var more := mapping + [node];
    forall t | 0 <= t < |more| ensures ScatterTurn(more, pu, t, more[t]) {
      assert more[..t] == mapping[..t];
      assert t == |mapping| ==> mapping[..t] == mapping;
      assert t < |mapping| ==> ScatterTurn(mapping, pu, t, mapping[t]);
    }
  }

  /** Partitions take the nodes of the threads in turn. */
  ghost predicate OnThreads(partitions: seq<nat>, mapping: seq<nat>) {
    forall p :: 0 <= p < |partitions| ==> |mapping| > 0 && partitions[p] == mapping[p % |mapping|]
  }

  lemma NoneOnThreads(mapping: seq<nat>)
    ensures OnThreads([], mapping)
  {}

  lemma OneMoreOnThreads(partitions: seq<nat>, mapping: seq<nat>)
    requires OnThreads(partitions, mapping) && |mapping| > 0
    ensures OnThreads(partitions + [mapping[|partitions| % |mapping|]], mapping)
  {}

  /** The units dealt out before node `n` has its turn in pass `p`: of every node as many as there were passes over
      it, but no more than it has. */
  ghost function DealtBefore(pu: seq<nat>, p: nat, n: nat, k: nat): nat
    requires k <= |pu|
  {
    if k == 0 then 0 else DealtBefore(pu, p, n, k - 1) + Min(pu[k - 1], if k - 1 < n then p + 1 else p)
  }

  /** So thread `t` lies on the node whose unit number `p` is dealt out as unit `t` modulo the number of units, when
      in each pass every node that has a unit left gives one, from node 0 on. */
  lemma ScatterPlace(mapping: seq<nat>, pu: seq<nat>, t: nat) returns (p: nat)
    requires ScatterOrder(mapping, pu) && t < |mapping| && Sum(pu) > 0
    ensures mapping[t] < |pu| && p < pu[mapping[t]]
    ensures t % Sum(pu) == DealtBefore(pu, p, mapping[t], |pu|)
  {
    hide Sum, Rounds;
    var node := mapping[t];
    assert ScatterTurn(mapping, pu, t, node);
    var q: nat, pass: nat :| Scattered(mapping[..t], pu, q, pass, node) && Dealt(pu, pass, node)[node] < pu[node];
    p := pass;
    ScatterUnit(mapping[..t], pu, q, p, node);
  }

  lemma ScatterUnit(mapping: seq<nat>, pu: seq<nat>, q: nat, p: nat, node: nat)
    requires Scattered(mapping, pu, q, p, node) && Dealt(pu, p, node)[node] < pu[node] && Sum(pu) > 0
    ensures p < pu[node] && |mapping| % Sum(pu) == DealtBefore(pu, p, node, |pu|)
  {
    hide Sum, Rounds;
    var used := Dealt(pu, p, node);
    RoundsTotal(mapping, pu, q, used);
    DealtWithin(pu, p, node);
    SumMonotone(used, pu);
    RemainderIs(|mapping|, Sum(pu), q, Sum(used));
    DealtSum(pu, p, node, |pu|);
    assert used[..|pu|] == used;
  }

  lemma {:induction false} DealtSum(pu: seq<nat>, p: nat, n: nat, k: nat)
    requires k <= |pu|
    ensures Sum(Dealt(pu, p, n)[..k]) == DealtBefore(pu, p, n, k)
  {
    if k == 0 {
    } else {
      DealtSum(pu, p, n, k - 1);
      assert Dealt(pu, p, n)[..k][..k - 1] == Dealt(pu, p, n)[..k - 1];
    }
  }

  // ----- Which nodes have workers

  /** The first thread goes to node 0, unless that has no units. */
  lemma FirstThread(mapping: seq<nat>, pu: seq<nat>)
    requires |mapping| > 0 && |pu| > 0 && pu[0] > 0 && (CompactOrder(mapping, pu) || ScatterOrder(mapping, pu))
    ensures mapping[0] == 0
  {
    hide Compacted, Scattered, Dealt;
    var node := mapping[0];
    assert mapping[..0] == [];
    if CompactOrder(mapping, pu) {
      assert CompactTurn(mapping, pu, 0, node);
      var q: nat, j: nat :| Compacted(mapping[..0], pu, q, node, j);
      FirstCompacted(pu, q, node, j);
    } else {
      assert ScatterTurn(mapping, pu, 0, node);
      var q: nat, p: nat :| Scattered(mapping[..0], pu, q, p, node);
      FirstScattered(pu, q, p, node);
    }
  }

  lemma FirstCompacted(pu: seq<nat>, q: nat, node: nat, j: nat)
    requires |pu| > 0 && pu[0] > 0 && Compacted([], pu, q, node, j)
    ensures node == 0
  {
    NothingUsed(pu, q, Filled(pu, node, j));
    hide Rounds;
  }

  lemma FirstScattered(pu: seq<nat>, q: nat, p: nat, node: nat)
    requires |pu| > 0 && pu[0] > 0 && Scattered([], pu, q, p, node)
    ensures node == 0
  {
    NothingUsed(pu, q, Dealt(pu, p, node));
    hide Rounds;
  }

  lemma NothingUsed(pu: seq<nat>, q: nat, used: seq<nat>)
    requires |pu| > 0 && Rounds([], pu, q, used)
    ensures used[0] == 0
  {
    assert Counts([], |pu|)[0] == 0;
  }

  lemma WorkersHaveUnits(mapping: seq<nat>, pu: seq<nat>, t: nat)
    requires t < |mapping| && (CompactOrder(mapping, pu) || ScatterOrder(mapping, pu))
    ensures mapping[t] < |pu| && pu[mapping[t]] > 0
  {
    hide Sum, Rounds, Filled, Dealt;
    if CompactOrder(mapping, pu) {
      assert CompactTurn(mapping, pu, t, mapping[t]);
    } else {
      assert ScatterTurn(mapping, pu, t, mapping[t]);
    }
  }

  /** The nodes that are asked for a worker: that of a worker, where its fragments lie, that of a partition,
      and node 0, where a fragment lies that says nothing else. The first two always have a worker; node 0
      has one if and only if it has a unit. */
  lemma AskedNodesHaveWorkers(mapping: seq<nat>, pu: seq<nat>, nodeToWorker: seq<seq<nat>>)
    requires Inverse(mapping, nodeToWorker) && |nodeToWorker| == |pu| && |mapping| > 0 && |pu| > 0
    requires CompactOrder(mapping, pu) || ScatterOrder(mapping, pu)
    ensures forall w :: 0 <= w < |mapping| ==> |nodeToWorker[mapping[w]]| > 0
    ensures forall p: nat :: |nodeToWorker[mapping[p % |mapping|]]| > 0
    ensures |nodeToWorker[0]| > 0 <==> pu[0] > 0
  {
    hide CompactOrder, ScatterOrder;
    forall w | 0 <= w < |mapping| ensures |nodeToWorker[mapping[w]]| > 0 {
      WorkersAreInverse(mapping, mapping[w], w);
    }
    if pu[0] > 0 {
      FirstThread(mapping, pu);
    } else if |nodeToWorker[0]| > 0 {
      WorkersAreInverse(mapping, 0, nodeToWorker[0][0]);
      assert nodeToWorker[0][0] in nodeToWorker[0];
      WorkersHaveUnits(mapping, pu, nodeToWorker[0][0]);
    }
  }

  // ----- The object

  class LocalityManager {
    const maxConcurrency: nat
    var numaNodeCount: nat
    var threadMapping: seq<nat>
    var partitionMapping: seq<nat>
    var nodeToWorker: seq<seq<nat>>

    constructor (affinity: Affinity, threads: nat, partitions: nat, pu: seq<nat>)
      requires affinity != NoAffinity ==> (threads > 0 ==> Sum(pu) > 0) && (partitions > 0 ==> threads > 0)
      ensures maxConcurrency == threads
      ensures affinity == NoAffinity ==>
        numaNodeCount == 1 && threadMapping == [] && partitionMapping == [] && nodeToWorker == []
      ensures affinity != NoAffinity ==>
        && numaNodeCount == |nodeToWorker| == |pu| && |threadMapping| == threads
        && (threads > 0 ==> Balanced(threadMapping, pu)) && Inverse(threadMapping, nodeToWorker)
        && |partitionMapping| == partitions
        && OnThreads(partitionMapping, threadMapping)
      ensures affinity == Compact ==> CompactOrder(threadMapping, pu)
      ensures affinity == Scatter ==> ScatterOrder(threadMapping, pu)
    {
      maxConcurrency := threads;
      numaNodeCount := 1;
      threadMapping, partitionMapping, nodeToWorker := [], [], [];
      new;
      hide CompactOrder, ScatterOrder, Balanced, Inverse, Sum, OnThreads;
      if affinity != NoAffinity {
        numaNodeCount := |pu|;
        if affinity == Compact {
          PlaceCompact(threads, pu);
        } else {
          PlaceScattered(threads, pu);
        }
        ghost var mapped, lists := threadMapping, nodeToWorker;
        NoneOnThreads(mapped);
        for i := 0 to partitions
          invariant |partitionMapping| == i && numaNodeCount == |pu|
          invariant OnThreads(partitionMapping, mapped)
          invariant threadMapping == mapped && nodeToWorker == lists
        {
          OneMoreOnThreads(partitionMapping, threadMapping);
          partitionMapping := partitionMapping + [threadMapping[i % threads]];
        }
      }
    }

    method PlaceCompact(threads: nat, pu: seq<nat>)
      requires threads > 0 ==> Sum(pu) > 0
      modifies this
      ensures numaNodeCount == old(numaNodeCount) && partitionMapping == old(partitionMapping)
      ensures |threadMapping| == threads && |nodeToWorker| == |pu|
      ensures (threads > 0 ==> Balanced(threadMapping, pu)) && Inverse(threadMapping, nodeToWorker)
      ensures CompactOrder(threadMapping, pu)
    {
      hide Rounds, Inverse, Balanced, Sum, Filled, CompactOrder;
      threadMapping, nodeToWorker := [], seq(|pu|, _ => []);
      var node: nat, j: nat := 0, 0;
      ghost var q: nat, k: nat := 0, 0;
      NothingPlaced(pu);
      if threads > 0 {
        k := SomethingLeft(pu);
      }
      for i := 0 to threads
        invariant |threadMapping| == i && |nodeToWorker| == |pu| && Inverse(threadMapping, nodeToWorker)
        invariant threads > 0 ==> k < |pu| && pu[k] > 0 && Compacted(threadMapping, pu, q, node, j)
        invariant CompactOrder(threadMapping, pu)
        invariant numaNodeCount == old(numaNodeCount) && partitionMapping == old(partitionMapping)
      {
        ghost var mapped, lists := threadMapping, nodeToWorker;
        while j == pu[node]
          invariant Compacted(mapped, pu, q, node, j)
          invariant threadMapping == mapped && nodeToWorker == lists
          invariant numaNodeCount == old(numaNodeCount) && partitionMapping == old(partitionMapping)
          decreases if j == 0 then 0 else 1, Distance(node, k, |pu|)
        {
          CompactSkips(threadMapping, pu, q, node);
          q := if node + 1 == |pu| then q + 1 else q;
          j := 0;
          node := Following(node, |pu|);
        }
        CompactTakes(threadMapping, pu, q, node, j);
        CompactOrderNext(threadMapping, pu, q, node, j);
        InverseNext(threadMapping, nodeToWorker, node);
        threadMapping := threadMapping + [node];
        nodeToWorker := nodeToWorker[node := nodeToWorker[node] + [i]];
        j := j + 1;
      }
      if threads > 0 {
        RoundsAreBalanced(threadMapping, pu, q, Filled(pu, node, j));
      }
    }

    method PlaceScattered(threads: nat, pu: seq<nat>)
      requires threads > 0 ==> Sum(pu) > 0
      modifies this
      ensures numaNodeCount == old(numaNodeCount) && partitionMapping == old(partitionMapping)
      ensures |threadMapping| == threads && |nodeToWorker| == |pu|
      ensures (threads > 0 ==> Balanced(threadMapping, pu)) && Inverse(threadMapping, nodeToWorker)
      ensures ScatterOrder(threadMapping, pu)
    {
      hide Rounds, Inverse, Balanced, Sum, Dealt, Left, ScatterOrder;
      threadMapping, nodeToWorker := [], seq(|pu|, _ => []);
      var remains := pu;
      var total := Total(pu);
      var node: nat := 0;
      ghost var q: nat, p: nat := 0, 0;
      NothingPlaced(pu);
      if threads > 0 {
        ghost var some := SomethingLeft(pu);
      }
      for i := 0 to threads
        invariant |threadMapping| == i && |nodeToWorker| == |pu| && Inverse(threadMapping, nodeToWorker)
        invariant threads > 0 ==> Scattered(threadMapping, pu, q, p, node) && Left(remains, pu, Dealt(pu, p, node))
        invariant ScatterOrder(threadMapping, pu)
        invariant numaNodeCount == old(numaNodeCount) && partitionMapping == old(partitionMapping)
      {
        if i % total == 0 {
          q := NewRound(threadMapping, pu, q, p, node);
          remains := pu;
          node := 0;
          p := 0;
        }
        ghost var k := RoundNotOver(threadMapping, pu, q, p, node, remains);
        ghost var mapped, lists := threadMapping, nodeToWorker;
        LeftSize(remains, pu, Dealt(pu, p, node));
        while remains[node] == 0
          invariant threadMapping == mapped && nodeToWorker == lists
          invariant numaNodeCount == old(numaNodeCount) && partitionMapping == old(partitionMapping)
          invariant Scattered(mapped, pu, q, p, node) && Left(remains, pu, Dealt(pu, p, node))
          decreases Distance(node, k, |pu|)
        {
          LeftMoves(remains, pu, p, node);
          ScatterMoves(mapped, pu, q, p, node);
          p := if node + 1 == |pu| then p + 1 else p;
          node := Following(node, |pu|);
        }
        LeftMoves(remains, pu, p, node);
        ScatterOrderNext(threadMapping, pu, q, p, node);
        ScatterMoves(threadMapping, pu, q, p, node);
        InverseNext(threadMapping, nodeToWorker, node);
        threadMapping := threadMapping + [node];
        nodeToWorker := nodeToWorker[node := nodeToWorker[node] + [i]];
        remains := remains[node := remains[node] - 1];
        p := if node + 1 == |pu| then p + 1 else p;
        node := Following(node, |pu|);
      }
      if threads > 0 {
        RoundsAreBalanced(threadMapping, pu, q, Dealt(pu, p, node));
      }
    }

    /** The node of a worker, which lists it; node 0 when threads are not bound. */
    method ThreadMapping(worker: nat) returns (node: nat)
      requires threadMapping == [] || (worker < |threadMapping| && Inverse(threadMapping, nodeToWorker))
      ensures threadMapping == [] ==> node == 0
      ensures threadMapping != [] ==>
        node < |nodeToWorker| && worker in nodeToWorker[node] && node == threadMapping[worker]
    {
      if threadMapping == [] {
        return 0;
      }
      node := threadMapping[worker];
      WorkersAreInverse(threadMapping, node, worker);
    }

    /** The node of a partition, which has a worker; node 0 when threads are not bound. */
    method PartitionMapping(partition: nat) returns (node: nat)
      requires partitionMapping == [] || partition < |partitionMapping|
      requires OnThreads(partitionMapping, threadMapping) && Inverse(threadMapping, nodeToWorker)
      ensures partitionMapping == [] ==> node == 0
      ensures partitionMapping != [] ==>
        node < |nodeToWorker| && |nodeToWorker[node]| > 0 && node == threadMapping[partition % |threadMapping|]
    {
      if partitionMapping == [] {
        return 0;
      }
      node := partitionMapping[partition];
      PartitionsHaveWorkers(threadMapping, nodeToWorker, partition);
    }

    /** A worker of the node; `choice` is the random draw. */
    method RandomWorkerFromNode(node: nat, choice: nat) returns (worker: nat)
      requires nodeToWorker == [] ==> choice < maxConcurrency
      requires nodeToWorker != [] ==>
        Inverse(threadMapping, nodeToWorker) && node < |nodeToWorker| && choice < |nodeToWorker[node]|
      ensures nodeToWorker == [] ==> worker < maxConcurrency
      ensures nodeToWorker != [] ==> worker < |threadMapping| && threadMapping[worker] == node
    {
      if nodeToWorker == [] {
        return choice;
      }
      worker := nodeToWorker[node][choice];
      WorkersAreInverse(threadMapping, node, worker);
    }
  }

  method Total(pu: seq<nat>) returns (total: nat)
    ensures total == Sum(pu)
  {
    total := 0;
    for i := 0 to |pu|
      invariant total == Sum(pu[..i])
    {
      assert pu[..i + 1][..i] == pu[..i];
      total := total + pu[i];
    }
    assert pu[..|pu|] == pu;
  }

  /** The units that are left in the current round. */
  ghost predicate Left(remains: seq<nat>, pu: seq<nat>, used: seq<nat>) {
    |remains| == |pu| == |used| && forall n :: 0 <= n < |pu| ==> remains[n] + used[n] == pu[n]
  }

  /** Passing a node without units changes nothing; taking a unit leaves one less. */
  lemma LeftMoves(remains: seq<nat>, pu: seq<nat>, p: nat, node: nat)
    requires Left(remains, pu, Dealt(pu, p, node)) && node < |pu|
    ensures |remains| == |pu| && (remains[node] == 0 <==> Dealt(pu, p, node)[node] == pu[node])
    ensures Dealt(pu, p, node)[node] <= pu[node]
    ensures remains[node] == 0 ==>
      Left(remains, pu, Dealt(pu, if node + 1 == |pu| then p + 1 else p, Following(node, |pu|)))
    ensures remains[node] > 0 ==>
      Left(remains[node := remains[node] - 1], pu, Dealt(pu, if node + 1 == |pu| then p + 1 else p, Following(node, |pu|)))
  {
    DealtWraps(pu, p, node);
  }

  lemma LeftSize(remains: seq<nat>, pu: seq<nat>, used: seq<nat>)
    requires Left(remains, pu, used)
    ensures |remains| == |pu|
  {}

  lemma NothingPlaced(pu: seq<nat>)
    ensures CompactOrder([], pu) && ScatterOrder([], pu)
    ensures Inverse([], seq(|pu|, _ => []))
    ensures |pu| > 0 ==> Compacted([], pu, 0, 0, 0) && Scattered([], pu, 0, 0, 0) && Left(pu, pu, Dealt(pu, 0, 0))
  {}

  /** A round starts whenever the number of threads placed is a multiple of the units. */
  lemma NewRound(mapping: seq<nat>, pu: seq<nat>, q: nat, p: nat, node: nat) returns (q': nat)
    requires Scattered(mapping, pu, q, p, node) && Sum(pu) > 0 && |mapping| % Sum(pu) == 0
    ensures Scattered(mapping, pu, q', 0, 0) && Left(pu, pu, Dealt(pu, 0, 0))
  {
    hide Sum, Rounds;
    var used := Dealt(pu, p, node);
    RoundsTotal(mapping, pu, q, used);
    var none := Dealt(pu, 0, 0);
    if Sum(used) == Sum(pu) {
      DealtWithin(pu, p, node);
      SumMonotone(used, pu);
      q' := q + 1;
      RoundComplete(mapping, pu, q, none);
    } else {
      q' := q;
      RemainderIs(|mapping|, Sum(pu), q, Sum(used));
      ZeroSum(used);
      assert used == none;
    }
  }

  lemma DealtWithin(pu: seq<nat>, p: nat, node: nat)
    ensures forall n :: 0 <= n < |pu| ==> Dealt(pu, p, node)[n] <= pu[n]
  {}

  lemma {:induction false} ZeroSum(s: seq<nat>)
    requires Sum(s) == 0
    ensures forall n :: 0 <= n < |s| ==> s[n] == 0
  {
    if |s| == 0 {
    } else {
      ZeroSum(s[..|s| - 1]);
    }
  }

  /** During a round some node has a unit left. */
  lemma RoundNotOver(mapping: seq<nat>, pu: seq<nat>, q: nat, p: nat, node: nat, remains: seq<nat>) returns (k: nat)
    requires Scattered(mapping, pu, q, p, node) && Left(remains, pu, Dealt(pu, p, node)) && Sum(pu) > 0
    requires |mapping| % Sum(pu) == 0 ==> p == 0 && node == 0
    ensures k < |pu| && remains[k] > 0
  {
    hide Rounds, Sum;
    var used := Dealt(pu, p, node);
    if forall n :: 0 <= n < |remains| ==> remains[n] == 0 {
      assert used == pu;
      RoundsTotal(mapping, pu, q, pu);
      NextRound(q, Sum(pu));
      RemainderIs(|mapping|, Sum(pu), q + 1, 0);
      AllZero(Dealt(pu, 0, 0));
      assert false;
    }
    k :| 0 <= k < |pu| && remains[k] > 0;
  }

  /** Every partition lies on a node that has a worker. */
  lemma PartitionsHaveWorkers(mapping: seq<nat>, nodeToWorker: seq<seq<nat>>, p: nat)
    requires Inverse(mapping, nodeToWorker) && |mapping| > 0
    ensures mapping[p % |mapping|] < |nodeToWorker| && |nodeToWorker[mapping[p % |mapping|]]| > 0
  {
    WorkersAreInverse(mapping, mapping[p % |mapping|], p % |mapping|);
  }
}
