/** Partitioned execution is whole-graph execution (overlay/vllm/env_override.py). */
module GraphPartitionCorrect {
  import opened Wrappers
  import opened GraphPartition

  // ---------------------------------------------------------------------------------------
  // Partitions as ranges of the node list
  // ---------------------------------------------------------------------------------------

  lemma CutsAreOrdered(parts: seq<seq<Node>>, k: nat, m: nat)
    requires k <= m <= |parts|
    ensures Cut(parts, k) <= Cut(parts, m)
    ensures FlattenTo(parts, k) == FlattenTo(parts, m)[..Cut(parts, k)]
    decreases m - k
  {
    if k < m {
      CutsAreOrdered(parts, k, m - 1);
    }
  }

  /** Partition k is a range of the node list. */
  lemma PartitionIsRange(parts: seq<seq<Node>>, k: nat)
    requires k < |parts|
    ensures Cut(parts, k) <= Cut(parts, k + 1) <= |Flatten(parts)|
    ensures parts[k] == Flatten(parts)[Cut(parts, k)..Cut(parts, k + 1)]
  {
    CutsAreOrdered(parts, k, k + 1);
    CutsAreOrdered(parts, k + 1, |parts|);
    var ns := Flatten(parts);
    assert parts[k] == FlattenTo(parts, k + 1)[Cut(parts, k)..];
    assert FlattenTo(parts, k + 1) == ns[..Cut(parts, k + 1)];
  }

  lemma NamesOfRange(ns: seq<Node>, lo: nat, hi: nat)
    requires lo <= hi <= |ns|
    ensures forall n :: n in OutputNames(ns[lo..hi]) <==> exists i :: lo <= i < hi && n in ns[i].outputs
    ensures forall n :: n in TouchedNames(ns[lo..hi]) <==> exists i :: lo <= i < hi && n in ns[i].Touched()
    ensures forall n :: n in FreedNames(ns[lo..hi]) <==> exists i :: lo <= i < hi && n in ns[i].lastUsage
  {
    var p := ns[lo..hi];
    forall i | lo <= i < hi
      ensures ns[i].outputs <= OutputNames(p) && ns[i].Touched() <= TouchedNames(p) && ns[i].lastUsage <= FreedNames(p)
    {
      assert p[i - lo] == ns[i];
    }
  }

  lemma TouchedBy(ns: seq<Node>, lo: nat, hi: nat, n: Name) returns (i: nat)
    requires lo <= hi <= |ns| && n in TouchedNames(ns[lo..hi])
    ensures lo <= i < hi && n in ns[i].Touched()
  {
    var j :| 0 <= j < hi - lo && n in ns[lo..hi][j].Touched();
    i := lo + j;
  }

  lemma FreedBy(ns: seq<Node>, lo: nat, hi: nat, n: Name) returns (i: nat)
    requires lo <= hi <= |ns| && n in FreedNames(ns[lo..hi])
    ensures lo <= i < hi && n in ns[i].lastUsage
  {
    var j :| 0 <= j < hi - lo && n in ns[lo..hi][j].lastUsage;
    i := lo + j;
  }

  lemma OutputsOfRange(ns: seq<Node>, lo: nat, hi: nat)
    requires lo <= hi <= |ns|
    ensures OutputNames(ns[lo..hi]) <= OutputNames(ns)
  {
    forall n | n in OutputNames(ns[lo..hi])
      ensures n in OutputNames(ns)
    {
      var i := OutputBy(ns, lo, hi, n);
    }
  }

  lemma RangeOutputs(ns: seq<Node>, lo: nat, hi: nat)
    requires lo <= hi <= |ns|
    ensures forall i | lo <= i < hi :: ns[i].outputs <= OutputNames(ns[lo..hi])
  {
    forall i | lo <= i < hi
      ensures ns[i].outputs <= OutputNames(ns[lo..hi])
    {
      assert ns[lo..hi][i - lo] == ns[i];
    }
  }

  lemma OutputBy(ns: seq<Node>, lo: nat, hi: nat, n: Name) returns (i: nat)
    requires lo <= hi <= |ns| && n in OutputNames(ns[lo..hi])
    ensures lo <= i < hi && n in ns[i].outputs
  {
    var j :| 0 <= j < hi - lo && n in ns[lo..hi][j].outputs;
    i := lo + j;
  }

  // ---------------------------------------------------------------------------------------
  // Names and storages
  // ---------------------------------------------------------------------------------------

  /** Where a name defined before node i comes from. */
  lemma DefinedBy(g: Graph, ns: seq<Node>, i: nat, x: Name) returns (j: nat)
    requires i <= |ns| && x in DefinedAt(g, ns, i) && x !in g.inputs
    ensures j < i && x in ns[j].outputs
  {
    NamesOfRange(ns, 0, i);
    assert ns[0..i] == ns[..i];
    j :| 0 <= j < i && x in ns[j].outputs;
  }

  lemma DefinedMonotone(g: Graph, ns: seq<Node>, i: nat, j: nat)
    requires i <= j <= |ns|
    ensures DefinedAt(g, ns, i) <= DefinedAt(g, ns, j)
    ensures i < j ==> ns[i].outputs <= DefinedAt(g, ns, j)
    ensures SingleAssignment(g, ns) ==> DefinedAt(g, ns, j) <= g.known
  {
    NamesOfRange(ns, 0, i);
    NamesOfRange(ns, 0, j);
    NamesOfRange(ns, 0, |ns|);
    assert ns[0..i] == ns[..i] && ns[0..j] == ns[..j] && ns[0..|ns|] == ns;
  }

  /** Where the storage of an alias comes from: an earlier name of it. */
  lemma EarlierName(g: Graph, ns: seq<Node>, i: nat, x: Name) returns (j: nat, y: Name)
    requires AliasesHaveStorage(g, ns) && i <= |ns| && x in DefinedAt(g, ns, i) && x !in g.inputs && g.Real(x) != x
    ensures j < i && y in DefinedAt(g, ns, j) && g.Real(y) == g.Real(x)
  {
    hide OutputNames, DefinedAt;
    j := DefinedBy(g, ns, i, x);
    y :| y in ns[j].readNames && y in DefinedAt(g, ns, j) && g.Real(y) == g.Real(x);
  }

  lemma InputsAreDefined(g: Graph, ns: seq<Node>, i: nat, x: Name)
    requires AliasesHaveStorage(g, ns) && i <= |ns| && x in g.inputs
    ensures g.Real(x) == x && x in DefinedAt(g, ns, i)
  {
    hide OutputNames;
    assert x in g.inputs + g.constants;
  }

  /** The storage of a defined name is defined no later than the name. */
  lemma {:induction false} StorageIsDefined(g: Graph, ns: seq<Node>, i: nat, x: Name)
    requires SingleAssignment(g, ns) && AliasesHaveStorage(g, ns)
    requires i <= |ns| && x in DefinedAt(g, ns, i)
    ensures g.Real(x) in DefinedAt(g, ns, i)
    decreases i
  {
    hide *;
    if x in g.inputs {
      InputsAreDefined(g, ns, i, x);
    } else if g.Real(x) != x {
      var j, y := EarlierName(g, ns, i, x);
      StorageIsDefined(g, ns, j, y);
      DefinedMonotone(g, ns, j, i);
    }
  }

  lemma AllocatedSplits(g: Graph, a: set<Name>, b: set<Name>)
    ensures AllocatedReals(g, a + b) == AllocatedReals(g, a) + AllocatedReals(g, b)
  {
  }

  // ---------------------------------------------------------------------------------------
  // The whole-graph run
  // ---------------------------------------------------------------------------------------

  ghost predicate Start<V>(g: Graph, inputs: map<Name, V>, constants: map<Name, V>) {
    inputs.Keys == g.inputs && constants.Keys == g.constants
  }

  lemma DefinedNext(g: Graph, ns: seq<Node>, i: nat)
    requires i < |ns|
    ensures DefinedAt(g, ns, i + 1) == DefinedAt(g, ns, i) + ns[i].outputs
  {
    assert ns[..i + 1] == ns[..i] + [ns[i]];
    var p, q := ns[..i + 1], ns[..i];
    assert forall n :: n in OutputNames(p) <==> n in OutputNames(q) || n in ns[i].outputs by {
      forall n | n in ns[i].outputs ensures n in OutputNames(p) { assert p[i] == ns[i]; }
      forall n | n in OutputNames(q) ensures n in OutputNames(p) {
        var j :| 0 <= j < |q| && n in q[j].outputs;
        assert p[j] == q[j];
      }
    }
  }

  /** What node i needs under the name x has been defined before it, under x or an earlier alias y. */
  lemma NeededName(g: Graph, ns: seq<Node>, i: nat, x: Name) returns (y: Name)
    requires WellFormed(g, ns) && i < |ns|
    requires x in ns[i].Touched() && !(x in ns[i].outputs && g.Real(x) == x) && !g.IsNoneLayout(x)
    ensures y in ns[i].Touched() && y in g.constants + DefinedAt(g, ns, i)
    ensures g.Real(y) == g.Real(x) && !g.IsNoneLayout(y)
  {
    DefinedNext(g, ns, i);
    if x in g.constants + DefinedAt(g, ns, i) {
      y := x;
    } else {
      y := AliasSource(g, ns, i, x);
    }
  }

  /** What a node needs has been defined. */
  lemma NeededIsDefined(g: Graph, ns: seq<Node>, i: nat)
    requires WellFormed(g, ns) && i < |ns|
    ensures Needed(g, ns[i]) <= g.constants + AllocatedReals(g, DefinedAt(g, ns, i))
  {
    forall s | s in Needed(g, ns[i])
      ensures s in g.constants + AllocatedReals(g, DefinedAt(g, ns, i))
    {
      var x :| x in ns[i].Touched() && !(x in ns[i].outputs && g.Real(x) == x) && !g.IsNoneLayout(x) && g.Real(x) == s;
      var y := NeededName(g, ns, i, x);
    }
  }

  /** The earlier name a node reads for the alias x it defines. */
  lemma AliasSource(g: Graph, ns: seq<Node>, i: nat, x: Name) returns (y: Name)
    requires WellFormed(g, ns) && i < |ns| && x in ns[i].outputs && g.Real(x) != x
    ensures y in ns[i].readNames && y in DefinedAt(g, ns, i) && g.Real(y) == g.Real(x)
    ensures y in g.known && x in g.known && g.IsNoneLayout(y) == g.IsNoneLayout(x)
  {
    y :| y in ns[i].readNames && y in DefinedAt(g, ns, i) && g.Real(y) == g.Real(x);
    DefinedMonotone(g, ns, i, |ns|);
    assert ns[..|ns|] == ns;
  }

  /** The whole-graph run of the first i nodes, which never gets stuck. */
  function Whole<V>(g: Graph, kernel: Kernel<V>, ns: seq<Node>, i: nat,
                    inputs: map<Name, V>, constants: map<Name, V>): Option<map<Name, V>>
    requires i <= |ns|
  {
    RunWhole(g, kernel, ns[..i], inputs + constants)
  }

  lemma WholeStep<V>(g: Graph, kernel: Kernel<V>, ns: seq<Node>, i: nat, inputs: map<Name, V>, constants: map<Name, V>)
    requires i < |ns|
    ensures Whole(g, kernel, ns, i + 1, inputs, constants) ==
            match Whole(g, kernel, ns, i, inputs, constants)
            case None => None
            case Some(before) => Step(g, kernel, ns[i], before)
  {
    assert ns[..i + 1][..i] == ns[..i];
  }

  lemma StepKeys<V>(g: Graph, kernel: Kernel<V>, node: Node, store: map<Name, V>)
    requires Needed(g, node) <= store.Keys
    ensures var r := Step(g, kernel, node, store);
            r.Some? && r.value.Keys == store.Keys + Written(g, node)
  {
  }

  lemma WholeAtStart<V(!new)>(g: Graph, kernel: Kernel<V>, ns: seq<Node>, inputs: map<Name, V>, constants: map<Name, V>)
    ensures Whole(g, kernel, ns, 0, inputs, constants) == Some(inputs + constants)
    ensures Agrees(constants, inputs + constants)
  {
  }

  lemma NothingDefinedYet(g: Graph, ns: seq<Node>)
    requires AliasesHaveStorage(g, ns)
    ensures AllocatedReals(g, DefinedAt(g, ns, 0)) == g.inputs
  {
    assert DefinedAt(g, ns, 0) == g.inputs;
    forall x | x in g.inputs
      ensures g.Real(x) == x && !g.IsNoneLayout(x)
    {
      assert x in g.inputs + g.constants;
    }
    hide DefinedAt;
  }

  lemma {:induction false} WholeRuns<V(!new)>(
    g: Graph, kernel: Kernel<V>, ns: seq<Node>, i: nat, inputs: map<Name, V>, constants: map<Name, V>)
    requires WellFormed(g, ns) && i <= |ns| && Start(g, inputs, constants)
    ensures var w := Whole(g, kernel, ns, i, inputs, constants);
            w.Some? && w.value.Keys == g.constants + AllocatedReals(g, DefinedAt(g, ns, i))
  {
    hide SingleAssignment, AliasesHaveStorage, UsesAreDefined, LastUsageIsLast, Needed, AllocatedReals, DefinedAt, Step,
         Whole;
    if i == 0 {
      WholeAtStart(g, kernel, ns, inputs, constants);
      NothingDefinedYet(g, ns);
    } else {
      WholeRuns(g, kernel, ns, i - 1, inputs, constants);
      WholeStep(g, kernel, ns, i - 1, inputs, constants);
      NeededIsDefined(g, ns, i - 1);
      DefinedNext(g, ns, i - 1);
      AllocatedSplits(g, DefinedAt(g, ns, i - 1), ns[i - 1].outputs);
      StepKeys(g, kernel, ns[i - 1], Whole(g, kernel, ns, i - 1, inputs, constants).value);
    }
  }

  // ---------------------------------------------------------------------------------------
  // Liveness
  // ---------------------------------------------------------------------------------------

  /** n is wanted from node i on: it is a graph output, or a later node frees it or touches its storage. */
  ghost predicate Wanted(g: Graph, ns: seq<Node>, i: nat, n: Name) {
    || n in g.outputNames
    || (exists j :: i <= j < |ns| && n in ns[j].lastUsage && n in g.known)
    || (exists j, x :: i <= j < |ns| && x in ns[j].Touched() && !g.IsNoneLayout(x) && g.Real(x) == n)
  }

  lemma InputIsWanted(g: Graph, ns: seq<Node>, p: seq<Node>, lo: nat, hi: nat, n: Name)
    requires lo <= hi <= |ns| && p == ns[lo..hi]
    ensures n in PartitionInputs(g, p) ==> Wanted(g, ns, lo, n)
  {
    NamesOfRange(ns, lo, hi);
  }

  lemma WantedEarlier(g: Graph, ns: seq<Node>, lo: nat, hi: nat, n: Name)
    requires lo <= hi <= |ns|
    ensures Wanted(g, ns, hi, n) ==> Wanted(g, ns, lo, n)
  {
  }

  lemma {:induction false} UnmetIsWanted(g: Graph, parts: seq<seq<Node>>, k: nat, n: Name)
    requires k <= |parts| && n in UnmetFrom(g, parts, k)
    ensures Wanted(g, Flatten(parts), Cut(parts, k), n)
    decreases |parts| - k
  {
    if k < |parts| {
      var ns := Flatten(parts);
      hide PartitionInputs, ReturnedNames, Wanted, FlattenTo;
      PartitionIsRange(parts, k);
      if n in UnmetFrom(g, parts, k + 1) {
        UnmetIsWanted(g, parts, k + 1, n);
        hide *;
        WantedEarlier(g, ns, Cut(parts, k), Cut(parts, k + 1), n);
      } else {
        UnmetIsNew(g, parts, k, n);
        hide *;
        InputIsWanted(g, ns, parts[k], Cut(parts, k), Cut(parts, k + 1), n);
      }
    }
  }

  lemma UnmetIsNew(g: Graph, parts: seq<seq<Node>>, k: nat, n: Name)
    requires k < |parts| && n in UnmetFrom(g, parts, k) && n !in UnmetFrom(g, parts, k + 1)
    ensures n in PartitionInputs(g, parts[k])
  {
    hide PartitionInputs, ReturnedNames;
  }

  ghost predicate UsedFrom(g: Graph, ns: seq<Node>, i: nat, s: Name) {
    s in RealsOf(g, g.outputNames) || exists m :: i <= m < |ns| && s in Uses(g, ns[m])
  }

  lemma FreedIsUnused(g: Graph, ns: seq<Node>, i: nat, s: Name)
    requires LastUsageIsLast(g, ns) && i <= |ns|
    ensures s in FreedNames(ns[..i]) ==> g.Real(s) == s && !UsedFrom(g, ns, i, s)
  {
    var p := ns[..i];
    if s in FreedNames(p) {
      var j :| 0 <= j < i && s in p[j].lastUsage;
      assert s in ns[j].lastUsage;
    }
  }

  /** Storages still owed after a node have not been freed by it or before it. */
  lemma WantedIsNotFreed(g: Graph, ns: seq<Node>, i: nat, n: Name)
    requires LastUsageIsLast(g, ns) && i <= |ns| && Wanted(g, ns, i, n)
    ensures g.Real(n) !in FreedNames(ns[..i])
  {
    assert UsedFrom(g, ns, i, g.Real(n)) by {
      if n in g.outputNames {
        assert g.Real(n) in RealsOf(g, g.outputNames);
      } else if m :| i <= m < |ns| && n in ns[m].lastUsage && n in g.known {
        assert g.Real(n) == n && n in Uses(g, ns[m]);
      } else {
        var m, x :| i <= m < |ns| && x in ns[m].Touched() && !g.IsNoneLayout(x) && g.Real(x) == n;
        assert n in RealsOf(g, ns[m].Touched() + ns[m].outputs);
        assert g.Real(n) in Uses(g, ns[m]);
      }
    }
    FreedIsUnused(g, ns, i, g.Real(n));
  }

  // ---------------------------------------------------------------------------------------
  // Inside one partition
  // ---------------------------------------------------------------------------------------

  ghost predicate Agrees<V(!new)>(a: map<Name, V>, b: map<Name, V>) {
    forall n | n in a :: n in b && a[n] == b[n]
  }

  lemma StepAgrees<V(!new)>(g: Graph, kernel: Kernel<V>, node: Node, a: map<Name, V>, b: map<Name, V>)
    requires Agrees(a, b) && Needed(g, node) <= a.Keys
    ensures Step(g, kernel, node, a).Some? && Step(g, kernel, node, b).Some?
    ensures Agrees(Step(g, kernel, node, a).value, Step(g, kernel, node, b).value)
    ensures Step(g, kernel, node, a).value.Keys == a.Keys + Written(g, node)
  {
    assert Restrict(a, Needed(g, node)) == Restrict(b, Needed(g, node));
  }

  /** What a partition ns[lo..hi] is handed: its known inputs and its constants. */
  function HandedIn(g: Graph, p: seq<Node>): set<Name> {
    PartitionInputs(g, p) * g.known + PartitionInputs(g, p) * g.constants
  }

  /** What the partition p = ns[lo..] has been handed or has written before node i. */
  function Held(g: Graph, p: seq<Node>, ns: seq<Node>, lo: nat, i: nat): set<Name>
    requires lo <= i <= |ns|
  {
    HandedIn(g, p) + AllocatedReals(g, OutputNames(ns[lo..i]))
  }

  /** p is the range lo..hi of the node list ns of a well-formed graph. */
  ghost predicate IsPartition(g: Graph, ns: seq<Node>, p: seq<Node>, lo: nat, hi: nat) {
    WellFormed(g, ns) && lo <= hi <= |ns| && p == ns[lo..hi]
  }

  lemma UseAt(g: Graph, ns: seq<Node>, i: nat, x: Name)
    requires UsesAreDefined(g, ns) && i < |ns| && x in ns[i].Touched()
    ensures x in g.constants || x in DefinedAt(g, ns, i + 1)
  {
    assert x in g.constants + DefinedAt(g, ns, i + 1);
  }

  lemma FreedAt(g: Graph, ns: seq<Node>, i: nat, n: Name)
    requires LastUsageIsLast(g, ns) && i < |ns| && n in ns[i].lastUsage
    ensures g.Real(n) == n && (n in g.constants || n in DefinedAt(g, ns, i + 1))
  {
    assert g.Real(n) == n;
    assert n in g.constants + DefinedAt(g, ns, i + 1);
  }

  lemma ConstantsAreStorages(g: Graph, ns: seq<Node>, c: Name)
    requires SingleAssignment(g, ns) && AliasesHaveStorage(g, ns) && c in g.constants
    ensures g.Real(c) == c && c !in g.known
  {
  }

  /** The storage of a defined name is known, and allocated exactly when the name is. */
  lemma DefinedStorage(g: Graph, ns: seq<Node>, i: nat, x: Name)
    requires WellFormed(g, ns) && i <= |ns| && x in DefinedAt(g, ns, i)
    ensures x in g.known && g.Real(x) in DefinedAt(g, ns, i) && g.Real(x) in g.known
    ensures g.IsNoneLayout(g.Real(x)) == g.IsNoneLayout(x)
  {
    StorageIsDefined(g, ns, i, x);
    DefinedMonotone(g, ns, i, |ns|);
    assert ns[..|ns|] == ns;
  }

  lemma NotRedefined(g: Graph, ns: seq<Node>, lo: nat, i: nat, x: Name)
    requires SingleAssignment(g, ns) && lo <= i < |ns| && x in DefinedAt(g, ns, lo)
    ensures x !in ns[i].outputs
  {
    if x !in g.inputs {
      var j := DefinedBy(g, ns, lo, x);
    }
  }

  /** A name defined before node i of a partition is defined earlier in the partition or outside it. */
  lemma DefinedInOrBefore(g: Graph, ns: seq<Node>, p: seq<Node>, lo: nat, hi: nat, i: nat, y: Name)
    requires IsPartition(g, ns, p, lo, hi) && lo <= i <= hi && y in DefinedAt(g, ns, i)
    ensures y in OutputNames(ns[lo..i]) || y !in OutputNames(p)
  {
    if y in OutputNames(p) {
      var m := OutputBy(ns, lo, hi, y);
      if m >= i {
        NotRedefined(g, ns, i, m, y);
      } else {
        assert ns[lo..i][m - lo] == ns[m];
      }
    }
  }

  lemma DefinedOutside(g: Graph, ns: seq<Node>, p: seq<Node>, lo: nat, hi: nat, i: nat, x: Name)
    requires lo <= i <= hi <= |ns| && p == ns[lo..hi]
    requires x in DefinedAt(g, ns, i) && x !in OutputNames(p)
    ensures x in DefinedAt(g, ns, lo)
  {
    if x !in g.inputs {
      var j := DefinedBy(g, ns, i, x);
      RangeOutputs(ns, lo, hi);
      DefinedMonotone(g, ns, j, lo);
    }
  }

  lemma TouchedIsHeld(g: Graph, ns: seq<Node>, p: seq<Node>, lo: nat, hi: nat, i: nat, y: Name)
    requires IsPartition(g, ns, p, lo, hi) && lo <= i < hi
    requires y in ns[i].Touched() && !g.IsNoneLayout(y)
    requires y in g.constants || y in DefinedAt(g, ns, i)
    ensures g.Real(y) in Held(g, p, ns, lo, i)
    ensures y !in OutputNames(p) ==> g.Real(y) in PartitionInputs(g, p)
  {
    hide UsesAreDefined, LastUsageIsLast, DefinedAt;
    assert p[i - lo] == ns[i];
    assert y in TouchedNames(p);
    if y in g.constants {
      ConstantsAreStorages(g, ns, y);
      OutputsOfRange(ns, lo, hi);
    } else {
      DefinedStorage(g, ns, i, y);
      DefinedInOrBefore(g, ns, p, lo, hi, i, y);
    }
  }

  lemma NeededIsHeld(g: Graph, ns: seq<Node>, p: seq<Node>, lo: nat, hi: nat, i: nat)
    requires IsPartition(g, ns, p, lo, hi) && lo <= i < hi
    ensures Needed(g, ns[i]) <= Held(g, p, ns, lo, i)
  {
    hide WellFormed, Held, DefinedAt;
    forall s | s in Needed(g, ns[i])
      ensures s in Held(g, p, ns, lo, i)
    {
      var x :| x in ns[i].Touched() && !(x in ns[i].outputs && g.Real(x) == x) && !g.IsNoneLayout(x) && g.Real(x) == s;
      var y := NeededName(g, ns, i, x);
      TouchedIsHeld(g, ns, p, lo, hi, i, y);
    }
  }

  lemma FreedOfRange(ns: seq<Node>, lo: nat, i: nat)
    requires lo <= i <= |ns|
    ensures FreedNames(ns[..i]) == FreedNames(ns[..lo]) + FreedNames(ns[lo..i])
  {
    NamesOfRange(ns, 0, lo);
    NamesOfRange(ns, lo, i);
    NamesOfRange(ns, 0, i);
    assert ns[0..lo] == ns[..lo] && ns[0..i] == ns[..i];
  }

  /** A node finds what it needs, whatever the nodes before it freed. */
  lemma NeededIsNotFreed(g: Graph, ns: seq<Node>, i: nat)
    requires WellFormed(g, ns) && i < |ns|
    ensures Needed(g, ns[i]) !! FreedNames(ns[..i])
    ensures Written(g, ns[i]) !! FreedNames(ns[..i])
  {
    forall s | s in Needed(g, ns[i]) + Written(g, ns[i])
      ensures s !in FreedNames(ns[..i])
    {
      FreedIsUnused(g, ns, i, s);
      assert s in Uses(g, ns[i]);
    }
  }

  lemma HeldNext(g: Graph, p: seq<Node>, ns: seq<Node>, lo: nat, i: nat)
    requires lo <= i < |ns|
    ensures Held(g, p, ns, lo, i + 1) == Held(g, p, ns, lo, i) + Written(g, ns[i])
    ensures FreedNames(ns[lo..i + 1]) == FreedNames(ns[lo..i]) + ns[i].lastUsage
  {
    NamesOfRange(ns, lo, i);
    NamesOfRange(ns, lo, i + 1);
    assert OutputNames(ns[lo..i + 1]) == OutputNames(ns[lo..i]) + ns[i].outputs;
    AllocatedSplits(g, OutputNames(ns[lo..i]), ns[i].outputs);
  }

  /** One node inside a partition, beside the same node of the whole run. */
  lemma LocalStep<V(!new)>(g: Graph, kernel: Kernel<V>, node: Node, local: map<Name, V>, whole: map<Name, V>,
                           held: set<Name>, freed: set<Name>)
    requires Agrees(local, whole) && held - freed <= local.Keys
    requires Needed(g, node) <= held && Needed(g, node) !! freed && Written(g, node) !! freed
    ensures var r, w := Step(g, kernel, node, local), Step(g, kernel, node, whole);
            && r.Some? && w.Some?
            && Agrees(r.value - node.lastUsage, w.value)
            && held + Written(g, node) - (freed + node.lastUsage) <= (r.value - node.lastUsage).Keys
  {
    StepAgrees(g, kernel, node, local, whole);
  }

  lemma HeldAtStart(g: Graph, p: seq<Node>, ns: seq<Node>, lo: nat)
    requires lo <= |ns|
    ensures Held(g, p, ns, lo, lo) == HandedIn(g, p)
  {
    assert ns[lo..lo] == [];
  }

  /** A partition handed the right contents of its inputs never gets stuck, and computes what the
      whole run computes. */
  lemma {:induction false} PartitionRuns<V(!new)>(
      g: Graph, kernel: Kernel<V>, ns: seq<Node>, p: seq<Node>, lo: nat, hi: nat, i: nat,
      local: map<Name, V>, inputs: map<Name, V>, constants: map<Name, V>)
    requires IsPartition(g, ns, p, lo, hi) && lo <= i <= hi && local.Keys == HandedIn(g, p)
    requires var w := Whole(g, kernel, ns, lo, inputs, constants); w.Some? && Agrees(local, w.value)
    ensures var r, w := RunFreeing(g, kernel, ns[lo..i], local), Whole(g, kernel, ns, i, inputs, constants);
            && r.Some? && w.Some? && Agrees(r.value, w.value)
            && Held(g, p, ns, lo, i) - FreedNames(ns[lo..i]) <= r.value.Keys
    decreases i
  {
    hide WellFormed, Needed, Written, AllocatedReals, FreedNames, OutputNames, Held, HandedIn, Step, Whole, Agrees;
    if i == lo {
      HeldAtStart(g, p, ns, lo);
      assert ns[lo..i] == [];
    } else {
      PartitionRuns(g, kernel, ns, p, lo, hi, i - 1, local, inputs, constants);
      assert ns[lo..i][..|ns[lo..i]| - 1] == ns[lo..i - 1];
      NeededIsHeld(g, ns, p, lo, hi, i - 1);
      NeededIsNotFreed(g, ns, i - 1);
      FreedOfRange(ns, lo, i - 1);
      WholeStep(g, kernel, ns, i - 1, inputs, constants);
      HeldNext(g, p, ns, lo, i - 1);
      LocalStep(g, kernel, ns[i - 1], RunFreeing(g, kernel, ns[lo..i - 1], local).value,
                Whole(g, kernel, ns, i - 1, inputs, constants).value,
                Held(g, p, ns, lo, i - 1), FreedNames(ns[lo..i - 1]));
    }
  }

  // ---------------------------------------------------------------------------------------
  // Between partitions
  // ---------------------------------------------------------------------------------------

  /** The partition frees no buffer without layout that an earlier partition defined. */
  ghost predicate FreesOnlyAllocated(g: Graph, p: seq<Node>) {
    forall n | n in FreedNames(p) && n !in OutputNames(p) && n in g.known :: !g.IsNoneLayout(n)
  }

  lemma TouchedInputIsDefined(g: Graph, ns: seq<Node>, p: seq<Node>, lo: nat, hi: nat, x: Name)
    requires IsPartition(g, ns, p, lo, hi)
    requires x in TouchedNames(p) && !g.IsNoneLayout(x) && x !in OutputNames(p) && g.Real(x) in g.known
    ensures g.Real(x) in DefinedAt(g, ns, lo) && !g.IsNoneLayout(g.Real(x))
  {
    hide SingleAssignment, UsesAreDefined, AliasesHaveStorage, LastUsageIsLast, TouchedNames, OutputNames, DefinedAt;
    var i := TouchedBy(ns, lo, hi, x);
    UseAt(g, ns, i, x);
    if x in g.constants {
      ConstantsAreStorages(g, ns, x);
    } else {
      DefinedOutside(g, ns, p, lo, hi, i + 1, x);
      DefinedStorage(g, ns, lo, x);
    }
  }

  lemma FreedInputIsDefined(g: Graph, ns: seq<Node>, p: seq<Node>, lo: nat, hi: nat, n: Name)
    requires IsPartition(g, ns, p, lo, hi)
    requires n in FreedNames(p) && n !in OutputNames(p) && n in g.known
    ensures g.Real(n) == n && n in DefinedAt(g, ns, lo)
  {
    hide SingleAssignment, UsesAreDefined, AliasesHaveStorage, LastUsageIsLast, FreedNames, OutputNames, DefinedAt;
    var i := FreedBy(ns, lo, hi, n);
    FreedAt(g, ns, i, n);
    if n in g.constants {
      ConstantsAreStorages(g, ns, n);
    } else {
      DefinedOutside(g, ns, p, lo, hi, i + 1, n);
    }
  }

  /** Every known input of a partition is a storage that was defined before the partition. */
  lemma InputIsDefined(g: Graph, ns: seq<Node>, p: seq<Node>, lo: nat, hi: nat, n: Name)
    requires IsPartition(g, ns, p, lo, hi) && n in PartitionInputs(g, p) && n in g.known
    ensures g.Real(n) == n && n in DefinedAt(g, ns, lo)
    ensures FreesOnlyAllocated(g, p) ==> !g.IsNoneLayout(n)
  {
    hide WellFormed, DefinedAt;
    if x :| x in TouchedNames(p) && !g.IsNoneLayout(x) && x !in OutputNames(p) && g.Real(x) == n {
      TouchedInputIsDefined(g, ns, p, lo, hi, x);
    } else {
      FreedInputIsDefined(g, ns, p, lo, hi, n);
    }
  }

  /** A storage mutated by a partition that did not define it is one of its inputs. */
  lemma {:induction false} MutatedStorageIsInput(
    g: Graph, ns: seq<Node>, p: seq<Node>, lo: nat, hi: nat, i: nat, o: Name)
    requires IsPartition(g, ns, p, lo, hi) && lo <= i < hi
    requires o in ns[i].outputs && !g.IsNoneLayout(o) && g.Real(o) in DefinedAt(g, ns, lo)
    ensures g.Real(o) in PartitionInputs(g, p)
    decreases i
  {
    hide SingleAssignment, UsesAreDefined, AliasesHaveStorage, LastUsageIsLast, OutputNames, DefinedAt, PartitionInputs;
    NotRedefined(g, ns, lo, i, g.Real(o));
    var y := AliasSource(g, ns, i, o);
    if y in OutputNames(p) {
      DefinedInOrBefore(g, ns, p, lo, hi, i, y);
      var j := OutputBy(ns, lo, i, y);
      MutatedStorageIsInput(g, ns, p, lo, hi, j, y);
    } else {
      TouchedIsHeld(g, ns, p, lo, hi, i, y);
    }
  }

  // ---------------------------------------------------------------------------------------
  // The invariant between partitions
  // ---------------------------------------------------------------------------------------

  /** Before partition k the caller's store holds what the whole run holds, lacks nothing that is
      still owed, and keeps nothing that was freed. */
  ghost predicate HandsOn<V(!new)>(g: Graph, ns: seq<Node>, lo: nat, unmet: set<Name>,
                                   store: map<Name, V>, whole: map<Name, V>)
    requires lo <= |ns|
  {
    && store.Keys <= g.known
    && Agrees(store, whole)
    && (forall n | n in unmet && n in DefinedAt(g, ns, lo) && !g.IsNoneLayout(n) :: g.Real(n) in store)
    && store.Keys !! FreedNames(ns[..lo])
  }

  /** Names owed after node hi are wanted after it. */
  ghost predicate OwesWanted(g: Graph, ns: seq<Node>, hi: nat, unmet: set<Name>) {
    forall n | n in unmet :: Wanted(g, ns, hi, n)
  }

  /** The storages a partition hands back: held, allocated, and freed by no node so far. */
  lemma OutputIsHeld(g: Graph, ns: seq<Node>, p: seq<Node>, lo: nat, hi: nat, unmet: set<Name>, m: Name)
    requires IsPartition(g, ns, p, lo, hi) && OwesWanted(g, ns, hi, unmet)
    requires m in ReturnedNames(g, p, unmet) && !g.IsNoneLayout(m)
    requires PartitionInputs(g, p) * g.known !! FreedNames(ns[..lo])
    ensures m in Held(g, p, ns, lo, hi) && m !in FreedNames(ns[..hi]) && m in g.known
  {
    hide SingleAssignment, UsesAreDefined, LastUsageIsLast, PartitionInputs, Wanted, FreedNames;
    FreedOfRange(ns, lo, hi);
    if n :| n in OutputNames(p) && n in unmet && m == g.Real(n) {
      OutputsOfRange(ns, lo, hi);
      OutputStorage(g, ns, n);
      WantedIsNotFreed(g, ns, hi, n);
    } else {
      var n :| n in PartitionInputs(g, p) && n in g.known && n !in FreedNames(p) && m == g.Real(n);
      InputIsDefined(g, ns, p, lo, hi, n);
    }
  }

  lemma OutputStorage(g: Graph, ns: seq<Node>, n: Name)
    requires WellFormed(g, ns) && n in OutputNames(ns)
    ensures n in g.known && g.Real(n) in g.known && g.IsNoneLayout(g.Real(n)) == g.IsNoneLayout(n)
  {
    hide UsesAreDefined, LastUsageIsLast, OutputNames;
  }

  lemma OutputsAreNotConstants(g: Graph, ns: seq<Node>, i: nat)
    requires WellFormed(g, ns) && i < |ns|
    ensures Written(g, ns[i]) !! g.constants
  {
    forall o | o in ns[i].outputs
      ensures g.Real(o) !in g.constants
    {
      assert o in OutputNames(ns);
      OutputStorage(g, ns, o);
    }
    hide WellFormed;
  }

  lemma StepKeeps<V(!new)>(g: Graph, kernel: Kernel<V>, node: Node, store: map<Name, V>, kept: map<Name, V>)
    requires Agrees(kept, store) && Written(g, node) !! kept.Keys
    ensures var r := Step(g, kernel, node, store); r.Some? ==> Agrees(kept, r.value)
  {
    hide Needed, Written;
  }

  lemma {:induction false} ConstantsKept<V(!new)>(g: Graph, kernel: Kernel<V>, ns: seq<Node>, i: nat,
                                                  inputs: map<Name, V>, constants: map<Name, V>)
    requires WellFormed(g, ns) && i <= |ns| && Start(g, inputs, constants)
    ensures var w := Whole(g, kernel, ns, i, inputs, constants);
            w.Some? && Agrees(constants, w.value)
  {
    hide WellFormed, Whole, Step, Written, Agrees, AllocatedReals, DefinedAt;
    WholeRuns(g, kernel, ns, i, inputs, constants);
    if i > 0 {
      ConstantsKept(g, kernel, ns, i - 1, inputs, constants);
      WholeStep(g, kernel, ns, i - 1, inputs, constants);
      OutputsAreNotConstants(g, ns, i - 1);
      StepKeeps(g, kernel, ns[i - 1], Whole(g, kernel, ns, i - 1, inputs, constants).value, constants);
    } else {
      WholeAtStart(g, kernel, ns, inputs, constants);
    }
  }

  /** A storage no node of lo..hi writes is left alone by them. */
  lemma {:induction false} WholeUnchanged<V(!new)>(
    g: Graph, kernel: Kernel<V>, ns: seq<Node>, lo: nat, hi: nat, s: Name,
    inputs: map<Name, V>, constants: map<Name, V>)
    requires lo <= hi <= |ns|
    requires forall i | lo <= i < hi :: s !in Written(g, ns[i])
    requires var w := Whole(g, kernel, ns, lo, inputs, constants); w.Some? && s in w.value
    requires Whole(g, kernel, ns, hi, inputs, constants).Some?
    ensures var a := Whole(g, kernel, ns, lo, inputs, constants).value;
            var b := Whole(g, kernel, ns, hi, inputs, constants).value;
            s in b && b[s] == a[s]
    decreases hi
  {
    if lo < hi {
      WholeStep(g, kernel, ns, hi - 1, inputs, constants);
      WholeUnchanged(g, kernel, ns, lo, hi - 1, s, inputs, constants);
    }
  }

  /** A storage that is no input of a partition, but was there before it, is written by no node of it. */
  lemma KeptIsNotWritten(g: Graph, ns: seq<Node>, p: seq<Node>, lo: nat, hi: nat, s: Name)
    requires IsPartition(g, ns, p, lo, hi) && s in DefinedAt(g, ns, lo) && s !in PartitionInputs(g, p)
    ensures forall i | lo <= i < hi :: s !in Written(g, ns[i])
  {
    forall i | lo <= i < hi
      ensures s !in Written(g, ns[i])
    {
      hide WellFormed, DefinedAt, PartitionInputs, FreedNames, OutputNames;
      if s in Written(g, ns[i]) {
        var o :| o in ns[i].outputs && !g.IsNoneLayout(o) && g.Real(o) == s;
        MutatedStorageIsInput(g, ns, p, lo, hi, i, o);
      }
    }
  }

  /** A known storage of the whole run was defined, and has a layout. */
  lemma StoredIsDefined<V(!new)>(g: Graph, kernel: Kernel<V>, ns: seq<Node>, lo: nat, s: Name,
                                 inputs: map<Name, V>, constants: map<Name, V>)
    requires WellFormed(g, ns) && lo <= |ns| && Start(g, inputs, constants) && s in g.known
    requires var w := Whole(g, kernel, ns, lo, inputs, constants); w.Some? && s in w.value
    ensures s in DefinedAt(g, ns, lo) && g.Real(s) == s && !g.IsNoneLayout(s)
  {
    hide UsesAreDefined, AliasesHaveStorage, LastUsageIsLast, DefinedAt, Whole;
    WholeRuns(g, kernel, ns, lo, inputs, constants);
    var x :| x in DefinedAt(g, ns, lo) && !g.IsNoneLayout(x) && g.Real(x) == s;
    DefinedStorage(g, ns, lo, x);
  }

  /** A kept input is handed back or freed. */
  lemma KeptIsNotInput(g: Graph, p: seq<Node>, unmet: set<Name>, s: Name)
    requires s in g.known && g.Real(s) == s && !g.IsNoneLayout(s)
    requires s !in FreedInputs(g, p) && s !in HandedBack(g, p, unmet)
    ensures s !in PartitionInputs(g, p)
  {
    hide PartitionInputs, FreedNames, OutputNames;
  }

  /** Every input is in the caller's store. */
  lemma InputsAreThere<V(!new)>(g: Graph, ns: seq<Node>, p: seq<Node>, lo: nat, hi: nat, unmet: set<Name>,
                                store: map<Name, V>, whole: map<Name, V>)
    requires IsPartition(g, ns, p, lo, hi) && FreesOnlyAllocated(g, p)
    requires HandsOn(g, ns, lo, UnmetBefore(g, p, unmet), store, whole)
    ensures PartitionInputs(g, p) * g.known <= store.Keys
  {
    hide WellFormed, FreesOnlyAllocated, PartitionInputs, DefinedAt, ReturnedNames;
    forall n | n in PartitionInputs(g, p) && n in g.known
      ensures n in store
    {
      InputIsDefined(g, ns, p, lo, hi, n);
      assert n in UnmetBefore(g, p, unmet);
    }
  }

  function FreedInputs(g: Graph, p: seq<Node>): set<Name> {
    PartitionInputs(g, p) * g.known * FreedNames(p)
  }

  function HandedBack(g: Graph, p: seq<Node>, unmet: set<Name>): set<Name> {
    set n | n in ReturnedNames(g, p, unmet) && !g.IsNoneLayout(n)
  }

  /** What the caller holds after the call agrees with the whole run. */
  lemma KeepsAgreement<V(!new)>(
      g: Graph, kernel: Kernel<V>, ns: seq<Node>, p: seq<Node>, lo: nat, hi: nat, unmet: set<Name>,
      store: map<Name, V>, local: map<Name, V>, inputs: map<Name, V>, constants: map<Name, V>)
    requires IsPartition(g, ns, p, lo, hi) && Start(g, inputs, constants)
    requires Whole(g, kernel, ns, lo, inputs, constants).Some?
    requires HandsOn(g, ns, lo, UnmetBefore(g, p, unmet), store, Whole(g, kernel, ns, lo, inputs, constants).value)
    requires Whole(g, kernel, ns, hi, inputs, constants).Some?
    requires Agrees(local, Whole(g, kernel, ns, hi, inputs, constants).value) && HandedBack(g, p, unmet) <= local.Keys
    ensures Agrees((store - FreedInputs(g, p)) + Restrict(local, HandedBack(g, p, unmet)),
                   Whole(g, kernel, ns, hi, inputs, constants).value)
  {
    hide WellFormed, PartitionInputs, FreedNames, OutputNames, ReturnedNames, UnmetBefore, Whole, DefinedAt,
         AllocatedReals;
    var before := Whole(g, kernel, ns, lo, inputs, constants).value;
    var after := Whole(g, kernel, ns, hi, inputs, constants).value;
    forall s | s in store && s !in FreedInputs(g, p) && s !in HandedBack(g, p, unmet)
      ensures s in after && after[s] == store[s]
    {
      StoredIsDefined(g, kernel, ns, lo, s, inputs, constants);
      KeptIsNotInput(g, p, unmet, s);
      KeptIsNotWritten(g, ns, p, lo, hi, s);
      WholeUnchanged(g, kernel, ns, lo, hi, s, inputs, constants);
    }
  }

  /** What is still owed after the call is in the caller's store. */
  lemma KeepsWhatIsOwed<V(!new)>(g: Graph, ns: seq<Node>, p: seq<Node>, lo: nat, hi: nat, unmet: set<Name>,
                                 store: map<Name, V>, whole: map<Name, V>, n: Name)
    requires IsPartition(g, ns, p, lo, hi) && OwesWanted(g, ns, hi, unmet)
    requires HandsOn(g, ns, lo, UnmetBefore(g, p, unmet), store, whole)
    requires n in unmet && n in DefinedAt(g, ns, hi) && !g.IsNoneLayout(n)
    ensures g.Real(n) in HandedBack(g, p, unmet) || (g.Real(n) in store && g.Real(n) !in FreedInputs(g, p))
  {
    hide SingleAssignment, UsesAreDefined, AliasesHaveStorage, LastUsageIsLast, DefinedAt, PartitionInputs, OutputNames,
         FreedNames, Wanted;
    DefinedStorage(g, ns, hi, n);
    WantedIsNotFreed(g, ns, hi, n);
    FreedOfRange(ns, lo, hi);
    if n in OutputNames(p) {
      assert g.Real(n) in ReturnedNames(g, p, unmet);
    } else {
      DefinedOutside(g, ns, p, lo, hi, hi, n);
      if n in ReturnedNames(g, p, unmet) {
        assert g.Real(n) == n;
      } else {
        assert n in UnmetBefore(g, p, unmet);
      }
    }
  }

  /** Nothing freed survives the call. */
  lemma KeepsNothingFreed<V(!new)>(
      g: Graph, kernel: Kernel<V>, ns: seq<Node>, p: seq<Node>, lo: nat, hi: nat, unmet: set<Name>,
      store: map<Name, V>, inputs: map<Name, V>, constants: map<Name, V>, s: Name)
    requires IsPartition(g, ns, p, lo, hi) && OwesWanted(g, ns, hi, unmet) && Start(g, inputs, constants)
    requires Whole(g, kernel, ns, lo, inputs, constants).Some?
    requires HandsOn(g, ns, lo, UnmetBefore(g, p, unmet), store, Whole(g, kernel, ns, lo, inputs, constants).value)
    requires PartitionInputs(g, p) * g.known <= store.Keys
    requires s in HandedBack(g, p, unmet) || (s in store && s !in FreedInputs(g, p))
    ensures s !in FreedNames(ns[..hi]) && s in g.known
  {
    hide WellFormed, UsesAreDefined, AliasesHaveStorage, LastUsageIsLast, DefinedAt, OutputNames, FreedNames, Whole,
         ReturnedNames;
    FreedOfRange(ns, lo, hi);
    if s in HandedBack(g, p, unmet) {
      OutputIsHeld(g, ns, p, lo, hi, unmet, s);
    } else {
      StoredIsDefined(g, kernel, ns, lo, s, inputs, constants);
      StoredIsNotOutput(g, ns, p, lo, hi, s);
    }
  }

  lemma StoredIsNotOutput(g: Graph, ns: seq<Node>, p: seq<Node>, lo: nat, hi: nat, s: Name)
    requires IsPartition(g, ns, p, lo, hi) && s in DefinedAt(g, ns, lo)
    ensures s !in OutputNames(p)
  {
    hide DefinedAt, UsesAreDefined, AliasesHaveStorage, LastUsageIsLast;
    if s in OutputNames(p) {
      var i := OutputBy(ns, lo, hi, s);
      NotRedefined(g, ns, lo, i, s);
    }
  }

  /** What the partition function is called with. */
  function Arguments<V>(g: Graph, p: seq<Node>, store: map<Name, V>, constants: map<Name, V>): map<Name, V> {
    Restrict(store, PartitionInputs(g, p) * g.known) + Restrict(constants, PartitionInputs(g, p) * g.constants)
  }

  lemma ArgumentsAgree<V(!new)>(g: Graph, kernel: Kernel<V>, ns: seq<Node>, p: seq<Node>, lo: nat,
                                store: map<Name, V>, inputs: map<Name, V>, constants: map<Name, V>)
    requires WellFormed(g, ns) && lo <= |ns| && Start(g, inputs, constants)
    requires Whole(g, kernel, ns, lo, inputs, constants).Some?
    requires Agrees(store, Whole(g, kernel, ns, lo, inputs, constants).value)
    requires PartitionInputs(g, p) * g.known <= store.Keys
    ensures var args := Arguments(g, p, store, constants);
            args.Keys == HandedIn(g, p) && Agrees(args, Whole(g, kernel, ns, lo, inputs, constants).value)
  {
    hide WellFormed, PartitionInputs, Whole;
    ConstantsKept(g, kernel, ns, lo, inputs, constants);
  }

  /** The partition function runs to its end and holds everything it must hand back. */
  lemma CallRuns<V(!new)>(
      g: Graph, kernel: Kernel<V>, ns: seq<Node>, p: seq<Node>, lo: nat, hi: nat, unmet: set<Name>,
      store: map<Name, V>, inputs: map<Name, V>, constants: map<Name, V>) returns (local: map<Name, V>)
    requires IsPartition(g, ns, p, lo, hi) && Start(g, inputs, constants) && OwesWanted(g, ns, hi, unmet)
    requires Whole(g, kernel, ns, lo, inputs, constants).Some?
    requires Agrees(store, Whole(g, kernel, ns, lo, inputs, constants).value) && store.Keys !! FreedNames(ns[..lo])
    requires PartitionInputs(g, p) * g.known <= store.Keys
    ensures RunFreeing(g, kernel, p, Arguments(g, p, store, constants)) == Some(local)
    ensures Whole(g, kernel, ns, hi, inputs, constants).Some?
    ensures Agrees(local, Whole(g, kernel, ns, hi, inputs, constants).value)
    ensures HandedBack(g, p, unmet) <= local.Keys
  {
    hide WellFormed, PartitionInputs, FreedNames, Whole, ReturnedNames, Held, HandedIn, Agrees, OwesWanted, Arguments,
         Start;
    ArgumentsAgree(g, kernel, ns, p, lo, store, inputs, constants);
    PartitionRuns(g, kernel, ns, p, lo, hi, hi, Arguments(g, p, store, constants), inputs, constants);
    local := RunFreeing(g, kernel, p, Arguments(g, p, store, constants)).value;
    FreedOfRange(ns, lo, hi);
    forall m | m in HandedBack(g, p, unmet)
      ensures m in local
    {
      OutputIsHeld(g, ns, p, lo, hi, unmet, m);
    }
  }

  lemma CallIs<V>(g: Graph, kernel: Kernel<V>, p: seq<Node>, skip: bool, unmet: set<Name>,
                  constants: map<Name, V>, store: map<Name, V>, local: map<Name, V>)
    requires RunFreeing(g, kernel, p, Arguments(g, p, store, constants)) == Some(local)
    requires HandedBack(g, p, unmet) <= local.Keys && PartitionInputs(g, p) * g.known <= store.Keys
    requires constants.Keys == g.constants
    ensures CallPartition(g, kernel, p, SignatureOf(g, p, skip, unmet), constants, store)
         == Some((store - FreedInputs(g, p)) + Restrict(local, HandedBack(g, p, unmet)))
  {
    hide PartitionInputs, FreedNames, ReturnedNames;
    var sig := SignatureOf(g, p, skip, unmet);
    assert (set n | n in sig.deallocation && sig.deallocation[n]) == FreedInputs(g, p);
  }

  /** One call keeps the invariant. */
  lemma CallStep<V(!new)>(
      g: Graph, kernel: Kernel<V>, ns: seq<Node>, p: seq<Node>, lo: nat, hi: nat, skip: bool, unmet: set<Name>,
      store: map<Name, V>, inputs: map<Name, V>, constants: map<Name, V>)
    requires IsPartition(g, ns, p, lo, hi) && Start(g, inputs, constants) && OwesWanted(g, ns, hi, unmet)
    requires FreesOnlyAllocated(g, p)
    requires Whole(g, kernel, ns, lo, inputs, constants).Some?
    requires HandsOn(g, ns, lo, UnmetBefore(g, p, unmet), store, Whole(g, kernel, ns, lo, inputs, constants).value)
    ensures Whole(g, kernel, ns, hi, inputs, constants).Some?
    ensures var r := CallPartition(g, kernel, p, SignatureOf(g, p, skip, unmet), constants, store);
            r.Some? && HandsOn(g, ns, hi, unmet, r.value, Whole(g, kernel, ns, hi, inputs, constants).value)
  {
    hide WellFormed, PartitionInputs, FreedNames, Whole, ReturnedNames, Agrees, OwesWanted, Arguments, UnmetBefore,
         SignatureOf, CallPartition, FreedInputs, HandedBack, FreesOnlyAllocated, DefinedAt;
    var whole := Whole(g, kernel, ns, lo, inputs, constants).value;
    InputsAreThere(g, ns, p, lo, hi, unmet, store, whole);
    var local := CallRuns(g, kernel, ns, p, lo, hi, unmet, store, inputs, constants);
    CallIs(g, kernel, p, skip, unmet, constants, store, local);
    KeepsAgreement(g, kernel, ns, p, lo, hi, unmet, store, local, inputs, constants);
    forall n | n in unmet && n in DefinedAt(g, ns, hi) && !g.IsNoneLayout(n)
      ensures g.Real(n) in HandedBack(g, p, unmet) || (g.Real(n) in store && g.Real(n) !in FreedInputs(g, p))
    {
      KeepsWhatIsOwed(g, ns, p, lo, hi, unmet, store, whole, n);
    }
    forall s | s in HandedBack(g, p, unmet) || (s in store && s !in FreedInputs(g, p))
      ensures s !in FreedNames(ns[..hi]) && s in g.known
    {
      KeepsNothingFreed(g, kernel, ns, p, lo, hi, unmet, store, inputs, constants, s);
    }
  }

  /** A partition that frees a buffer without layout from outside cannot be called. */
  lemma CallSticks<V(!new)>(
      g: Graph, kernel: Kernel<V>, ns: seq<Node>, p: seq<Node>, lo: nat, skip: bool, unmet: set<Name>,
      store: map<Name, V>, inputs: map<Name, V>, constants: map<Name, V>)
    requires WellFormed(g, ns) && lo <= |ns| && Start(g, inputs, constants) && !FreesOnlyAllocated(g, p)
    requires Whole(g, kernel, ns, lo, inputs, constants).Some?
    requires Agrees(store, Whole(g, kernel, ns, lo, inputs, constants).value)
    ensures CallPartition(g, kernel, p, SignatureOf(g, p, skip, unmet), constants, store).None?
  {
    hide WellFormed, FreedNames, OutputNames, TouchedNames, Whole, RunFreeing;
    var n :| n in FreedNames(p) && n !in OutputNames(p) && n in g.known && g.IsNoneLayout(n);
    if n in store {
      StoredIsDefined(g, kernel, ns, lo, n, inputs, constants);
    }
  }

  // ---------------------------------------------------------------------------------------
  // Main results
  // ---------------------------------------------------------------------------------------

  /** Whatever partitions did so far, they stuck at the first one that frees a buffer without layout
      from outside, or the invariant holds. */
  lemma {:induction false} RunInvariant<V(!new)>(
      g: Graph, kernel: Kernel<V>, parts: seq<seq<Node>>, skips: seq<bool>, k: nat,
      inputs: map<Name, V>, constants: map<Name, V>)
    requires WellFormed(g, Flatten(parts)) && Start(g, inputs, constants) && |skips| == |parts| && k <= |parts|
    ensures Cut(parts, k) <= |Flatten(parts)|
    ensures var ns := Flatten(parts);
            var w := Whole(g, kernel, ns, Cut(parts, k), inputs, constants);
            var r := RunPartitions(g, kernel, parts, SignaturesOf(g, parts, skips), k, constants, inputs);
            && w.Some?
            && (r.Some? <==> forall j | 0 <= j < k :: FreesOnlyAllocated(g, parts[j]))
            && (r.Some? ==> HandsOn(g, ns, Cut(parts, k), UnmetFrom(g, parts, k), r.value, w.value))
  {
    hide WellFormed, FreesOnlyAllocated, SignatureOf, CallPartition, UnmetBefore, Start, Whole, HandsOn;
    var ns := Flatten(parts);
    CutsAreOrdered(parts, k, |parts|);
    WholeRuns(g, kernel, ns, Cut(parts, k), inputs, constants);
    if k == 0 {
      StartHandsOn(g, kernel, ns, UnmetFrom(g, parts, 0), inputs, constants);
    } else {
      RunInvariant(g, kernel, parts, skips, k - 1, inputs, constants);
      var p, lo, hi := parts[k - 1], Cut(parts, k - 1), Cut(parts, k);
      PartitionIsRange(parts, k - 1);
      var r := RunPartitions(g, kernel, parts, SignaturesOf(g, parts, skips), k - 1, constants, inputs);
      if r.Some? {
        var unmet := UnmetFrom(g, parts, k);
        if FreesOnlyAllocated(g, p) {
          UnmetIsAllWanted(g, parts, k);
          CallStep(g, kernel, ns, p, lo, hi, skips[k - 1], unmet, r.value, inputs, constants);
        } else {
          HandsOnAgrees(g, ns, lo, UnmetFrom(g, parts, k - 1), r.value,
              Whole(g, kernel, ns, lo, inputs, constants).value);
          CallSticks(g, kernel, ns, p, lo, skips[k - 1], unmet, r.value, inputs, constants);
        }
      }
    }
  }

  lemma HandsOnAgrees<V(!new)>(g: Graph, ns: seq<Node>, lo: nat, unmet: set<Name>,
                               store: map<Name, V>, whole: map<Name, V>)
    requires lo <= |ns| && HandsOn(g, ns, lo, unmet, store, whole)
    ensures Agrees(store, whole)
  {
  }

  lemma UnmetIsAllWanted(g: Graph, parts: seq<seq<Node>>, k: nat)
    requires k <= |parts|
    ensures OwesWanted(g, Flatten(parts), Cut(parts, k), UnmetFrom(g, parts, k))
  {
    forall n | n in UnmetFrom(g, parts, k)
      ensures Wanted(g, Flatten(parts), Cut(parts, k), n)
    {
      UnmetIsWanted(g, parts, k, n);
    }
  }

  lemma StartHandsOn<V(!new)>(g: Graph, kernel: Kernel<V>, ns: seq<Node>, unmet: set<Name>,
                              inputs: map<Name, V>, constants: map<Name, V>)
    requires WellFormed(g, ns) && Start(g, inputs, constants)
    ensures var w := Whole(g, kernel, ns, 0, inputs, constants);
            w.Some? && HandsOn(g, ns, 0, unmet, inputs, w.value)
  {
    assert ns[..0] == [];
  }

  /** The pass never meets an unknown output name. */
  lemma PassResolves(g: Graph, parts: seq<seq<Node>>, k: nat)
    requires WellFormed(g, Flatten(parts)) && k < |parts|
    ensures ResolvesAt(g, parts, k)
  {
    hide SingleAssignment, UsesAreDefined, AliasesHaveStorage, LastUsageIsLast, OutputNames, PartitionInputs,
         FreedNames;
    var ns, p := Flatten(parts), parts[k];
    PartitionIsRange(parts, k);
    OutputsOfRange(ns, Cut(parts, k), Cut(parts, k + 1));
    var unmet := UnmetFrom(g, parts, k + 1);
    forall m | m in ReturnedNames(g, p, unmet)
      ensures m in g.known
    {
      if n :| n in OutputNames(p) && n in unmet && g.Real(n) == m {
        OutputStorage(g, ns, n);
      } else {
        var n :| n in PartitionInputs(g, p) && n in g.known && g.Real(n) == m;
        InputIsDefined(g, ns, p, Cut(parts, k), Cut(parts, k + 1), n);
      }
    }
  }

  /** Calling the partitions in order, with the signatures of the pass, computes what one run of all
      nodes against one store computes: every allocated output of the graph is there with the same
      contents, and nothing freed is left over. It never gets stuck, unless a partition is asked to
      free a buffer without layout that came from outside it. */
  lemma PartitionedRunIsWholeRun<V(!new)>(
      g: Graph, kernel: Kernel<V>, parts: seq<seq<Node>>, skips: seq<bool>,
      inputs: map<Name, V>, constants: map<Name, V>)
    requires WellFormed(g, Flatten(parts)) && |skips| == |parts|
    requires inputs.Keys == g.inputs && constants.Keys == g.constants
    ensures var whole := RunWhole(g, kernel, Flatten(parts), inputs + constants);
            var split := RunPartitions(g, kernel, parts, SignaturesOf(g, parts, skips), |parts|, constants, inputs);
            && whole.Some?
            && (split.Some? <==> forall p <- parts :: FreesOnlyAllocated(g, p))
            && (split.Some? ==>
                  && (forall o | o in g.outputNames && !g.IsNoneLayout(o) ::
                        var s := g.Real(o);
                        && s in split.value + constants && s in whole.value
                        && (split.value + constants)[s] == whole.value[s])
                  && split.value.Keys !! FreedNames(Flatten(parts)))
  {
    var ns := Flatten(parts);
    assert Cut(parts, |parts|) == |ns| && ns[..|ns|] == ns && UnmetFrom(g, parts, |parts|) == g.outputNames;
    var whole := Whole(g, kernel, ns, |ns|, inputs, constants);
    var split := RunPartitions(g, kernel, parts, SignaturesOf(g, parts, skips), |parts|, constants, inputs);
    assert whole == RunWhole(g, kernel, ns, inputs + constants);
    hide FreesOnlyAllocated, RunPartitions, SignaturesOf, Flatten, FlattenTo, Cut, Whole, RunWhole, UnmetFrom,
         WellFormed, FreedNames;
    RunInvariant(g, kernel, parts, skips, |parts|, inputs, constants);
    ConstantsKept(g, kernel, ns, |ns|, inputs, constants);
    if split.Some? {
      OutputsHandedOn(g, ns, split.value, whole.value, constants);
    }
  }

  lemma OutputsHandedOn<V(!new)>(
    g: Graph, ns: seq<Node>, split: map<Name, V>, whole: map<Name, V>, constants: map<Name, V>)
    requires WellFormed(g, ns) && constants.Keys == g.constants
    requires HandsOn(g, ns, |ns|, g.outputNames, split, whole) && Agrees(constants, whole)
    ensures forall o | o in g.outputNames && !g.IsNoneLayout(o) ::
              var s := g.Real(o);
              s in split + constants && s in whole && (split + constants)[s] == whole[s]
    ensures split.Keys !! FreedNames(ns)
  {
    assert ns[..|ns|] == ns;
    forall o | o in g.outputNames && !g.IsNoneLayout(o)
      ensures g.Real(o) in split + constants
    {
      if o in g.known {
        assert o in DefinedAt(g, ns, |ns|);
      }
    }
    hide WellFormed, FreedNames, DefinedAt;
  }

  /** The exception is real: in this well-formed graph the second partition frees a buffer without
      layout that the first one defined. */
  const UNALLOCATED: Graph := RawGraph({}, {}, {}, {"a"}, map["a" := Buffer(true, false)], map[])
  const DEFINES := Node(0, {}, {}, {"a"}, {})
  const FREES := Node(1, {"a"}, {}, {}, {"a"})

  lemma FreeingUnallocatedSticks(kernel: Kernel<int>)
    ensures var parts := [[DEFINES], [FREES]];
            && WellFormed(UNALLOCATED, Flatten(parts))
            && RunWhole(UNALLOCATED, kernel, Flatten(parts), map[]).Some?
            && var sigs := SignaturesOf(UNALLOCATED, parts, [false, false]);
               RunPartitions(UNALLOCATED, kernel, parts, sigs, 2, map[], map[]).None?
  {
    var parts := [[DEFINES], [FREES]];
    assert FlattenTo(parts, 1) == [DEFINES];
    assert Flatten(parts) == [DEFINES, FREES];
    UnallocatedIsWellFormed();
    assert FREES.lastUsage == {"a"} && parts[1][0] == FREES && parts[1] in parts;
    assert !FreesOnlyAllocated(UNALLOCATED, parts[1]) by {
      assert "a" in FreedNames(parts[1]) && "a" !in OutputNames(parts[1]);
    }
    hide WellFormed, FreesOnlyAllocated;
    PartitionedRunIsWholeRun(UNALLOCATED, kernel, parts, [false, false], map[], map[]);
    var nothing: map<Name, int> := map[];
    assert nothing + nothing == nothing;
  }

  /** Two partitions with a buffer handed from one to the other: the first frees the input of the graph, the
      second frees the buffer. */
  const CHAIN: Graph := RawGraph({"x"}, {}, {"b"}, {"x", "a", "b"}, map[], map[])
  const PRODUCES := Node(0, {"x"}, {}, {"a"}, {"x"})
  const CONSUMES := Node(1, {"a"}, {}, {"b"}, {"a"})

  lemma ChainRuns(kernel: Kernel<int>, x: int)
    ensures var parts := [[PRODUCES], [CONSUMES]];
            var sigs := SignaturesOf(CHAIN, parts, [false, true]);
            var split := RunPartitions(CHAIN, kernel, parts, sigs, 2, map[], map["x" := x]);
            && WellFormed(CHAIN, Flatten(parts))
            && split.Some? && "b" in split.value && "x" !in split.value && "a" !in split.value
            && split.value["b"] == kernel(1, map["a" := kernel(0, map["x" := x], "a")], "b")
  {
    var parts := [[PRODUCES], [CONSUMES]];
    var inputs, nothing: map<Name, int> := map["x" := x], map[];
    ChainInputs(inputs, nothing);
    hide *;
    ChainFlat();
    ChainIsWellFormed();
    ChainFrees();
    ChainFreed();
    ChainWhole(kernel, x);
    PartitionedRunIsWholeRun(CHAIN, kernel, parts, [false, true], inputs, nothing);
    var split := RunPartitions(CHAIN, kernel, parts, SignaturesOf(CHAIN, parts, [false, true]), 2, nothing, inputs);
    assert split.value + nothing == split.value;
    ChainOutput();
  }

  lemma ChainInputs(inputs: map<Name, int>, nothing: map<Name, int>)
    requires inputs.Keys == {"x"} && nothing == map[]
    ensures Start(CHAIN, inputs, nothing) && inputs + nothing == inputs
  {
  }

  lemma ChainFlat()
    ensures Flatten([[PRODUCES], [CONSUMES]]) == [PRODUCES, CONSUMES]
  {
    var parts := [[PRODUCES], [CONSUMES]];
    assert FlattenTo(parts, 1) == [PRODUCES];
  }

  lemma ChainFreed()
    ensures "x" in FreedNames([PRODUCES, CONSUMES]) && "a" in FreedNames([PRODUCES, CONSUMES])
  {
    var ns := [PRODUCES, CONSUMES];
    assert ns[0] == PRODUCES && ns[1] == CONSUMES;
  }

  lemma ChainOutput()
    ensures "b" in CHAIN.outputNames && !CHAIN.IsNoneLayout("b") && CHAIN.Real("b") == "b"
  {
  }

  lemma ChainFrees()
    ensures forall p <- [[PRODUCES], [CONSUMES]] :: FreesOnlyAllocated(CHAIN, p)
  {
  }

  lemma ChainFirst(kernel: Kernel<int>, x: int)
    ensures
      var start := map["x" := x];
      Step(CHAIN, kernel, PRODUCES, start) == Some(start + map["a" := kernel(0, start, "a")])
  {
    var start := map["x" := x];
    ChainIsPlain({"x"});
    ChainIsPlain({"a"});
    assert (set n | n in PRODUCES.Touched() && !(n in PRODUCES.outputs && CHAIN.Real(n) == n)) == {"x"};
    hide AllocatedReals;
    assert Restrict(start, {"x"}) == start;
    assert (map s | s in Written(CHAIN, PRODUCES) :: kernel(0, start, s)) == map["a" := kernel(0, start, "a")];
  }

  lemma ChainSecond(kernel: Kernel<int>, x: int, a: int)
    ensures
      var one := map["x" := x] + map["a" := a];
      Step(CHAIN, kernel, CONSUMES, one) == Some(one + map["b" := kernel(1, map["a" := a], "b")])
  {
    var one := map["x" := x] + map["a" := a];
    ChainIsPlain({"a"});
    ChainIsPlain({"b"});
    assert (set n | n in CONSUMES.Touched() && !(n in CONSUMES.outputs && CHAIN.Real(n) == n)) == {"a"};
    hide AllocatedReals;
    assert Restrict(one, {"a"}) == map["a" := a];
    assert (map s | s in Written(CHAIN, CONSUMES) :: kernel(1, map["a" := a], s)) ==
           map["b" := kernel(1, map["a" := a], "b")];
  }

  lemma ChainWhole(kernel: Kernel<int>, x: int)
    ensures RunWhole(CHAIN, kernel, [PRODUCES, CONSUMES], map["x" := x]).Some?
    ensures var r := RunWhole(CHAIN, kernel, [PRODUCES, CONSUMES], map["x" := x]).value;
            "b" in r && r["b"] == kernel(1, map["a" := kernel(0, map["x" := x], "a")], "b")
  {
    var start, a: int := map["x" := x], kernel(0, map["x" := x], "a");
    ChainFirst(kernel, x);
    ChainSecond(kernel, x, a);
    hide Step;
    assert [PRODUCES, CONSUMES][..1] == [PRODUCES] && [PRODUCES][..0] == [];
    assert RunWhole(CHAIN, kernel, [PRODUCES], start) == Some(start + map["a" := a]);
  }

  lemma ChainIsPlain(names: set<Name>)
    ensures AllocatedReals(CHAIN, names) == names
  {
  }

  lemma ChainDefines()
    ensures
      var ns := [PRODUCES, CONSUMES];
      && OutputNames(ns) == {"a", "b"} && DefinedAt(CHAIN, ns, 1) == {"x", "a"}
      && DefinedAt(CHAIN, ns, 2) == {"x", "a", "b"}
  {
    var ns := [PRODUCES, CONSUMES];
    assert ns[..1] == [PRODUCES] && ns[..2] == ns;
    assert OutputNames(ns) == {"a", "b"} by { assert ns[0] == PRODUCES && ns[1] == CONSUMES; }
    assert OutputNames([PRODUCES]) == {"a"} by { assert [PRODUCES][0] == PRODUCES; }
  }

  lemma ChainIsWellFormed()
    ensures WellFormed(CHAIN, [PRODUCES, CONSUMES])
  {
    hide *;
    ChainAssignsOnce();
    ChainUses();
    ChainHasNoAliases();
    ChainFreesLast();
    WellFormedParts(CHAIN, [PRODUCES, CONSUMES]);
  }

  lemma WellFormedParts(g: Graph, ns: seq<Node>)
    requires SingleAssignment(g, ns) && UsesAreDefined(g, ns) && AliasesHaveStorage(g, ns) && LastUsageIsLast(g, ns)
    ensures WellFormed(g, ns)
  {
    hide SingleAssignment, UsesAreDefined, AliasesHaveStorage, LastUsageIsLast;
  }

  lemma ChainAssignsOnce()
    ensures SingleAssignment(CHAIN, [PRODUCES, CONSUMES])
  {
    ChainDefines();
    hide OutputNames, DefinedAt;
  }

  lemma ChainUses()
    ensures UsesAreDefined(CHAIN, [PRODUCES, CONSUMES])
  {
    ChainDefines();
    hide OutputNames, DefinedAt;
    var ns := [PRODUCES, CONSUMES];
    forall i | 0 <= i < |ns|
      ensures ns[i].Touched() <= CHAIN.constants + DefinedAt(CHAIN, ns, i + 1)
    {
      assert i == 0 || i == 1;
    }
  }

  lemma ChainHasNoAliases()
    ensures AliasesHaveStorage(CHAIN, [PRODUCES, CONSUMES])
  {
    hide OutputNames, DefinedAt;
  }

  lemma ChainFreesLast()
    ensures LastUsageIsLast(CHAIN, [PRODUCES, CONSUMES])
  {
    ChainDefines();
    hide OutputNames, DefinedAt;
    var ns := [PRODUCES, CONSUMES];
    assert RealsOf(CHAIN, CHAIN.outputNames) == {"b"};
    assert Uses(CHAIN, CONSUMES) == {"a", "b"};
    hide RealsOf, Uses;
  }

  lemma UnallocatedIsWellFormed()
    ensures WellFormed(UNALLOCATED, [DEFINES, FREES])
  {
    var ns := [DEFINES, FREES];
    assert ns[..1] == [DEFINES] && ns[..2] == ns;
    assert OutputNames(ns) == {"a"} by { assert ns[0] == DEFINES; }
    assert "a" in DefinedAt(UNALLOCATED, ns, 2);
  }
}
