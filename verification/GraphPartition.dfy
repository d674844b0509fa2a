/** Signatures of graph partitions (overlay/vllm/env_override.py).

    A backward pass decides what every partition takes in, frees and hands on. The first half of the module is
    the pass itself, the second half gives partitions a meaning. GraphPartitionCorrect proves that running them
    one after the other is the same as running the whole graph against one store. */
module GraphPartition {
  import opened Common
  import opened Wrappers

  type Name = string

  /** A scheduler node: the names it reads and writes, the buffers it defines, and the buffers
      that are freed after it. `id` stands for the kernel the node runs. */
  datatype Node = Node(id: nat, readNames: set<Name>, writeNames: set<Name>, outputs: set<Name>, lastUsage: set<Name>)
  {
    function Touched(): set<Name> { readNames + writeNames }
  }

  datatype Buffer = Buffer(noneLayout: bool, mutationOutput: bool)

  datatype RawGraph = RawGraph(
    inputs: set<Name>, constants: set<Name>, outputNames: set<Name>,
    known: set<Name>,              // the keys of name_to_node
    buffers: map<Name, Buffer>,    // name_to_buf
    realName: map<Name, Name>)     // mutation_real_name
  {
    predicate RealNamesAreFinal() { forall n <- realName.Keys :: realName[n] !in realName }

    function Real(n: Name): Name { if n in realName then realName[n] else n }

    /** Buffers without a layout are never allocated; a mutation output follows the buffer it mutates. */
    predicate IsNoneLayout(n: Name)
      requires RealNamesAreFinal()
      decreases n in realName
    {
      && n in buffers
      && buffers[n].noneLayout
      && (buffers[n].mutationOutput && n in realName ==> IsNoneLayout(realName[n]))
    }
  }

  type Graph = g: RawGraph | g.RealNamesAreFinal()
    witness RawGraph({}, {}, {}, {}, map[], map[])

  datatype Signature = Signature(
    inputs: set<Name>,               // keys of input_nodes
    outputs: set<Name>,              // names of output_nodes
    deallocation: map<Name, bool>,   // input_deallocation
    skipCudagraph: bool,
    constants: set<Name>)            // constant_names

  // ---------------------------------------------------------------------------------------
  // One partition
  // ---------------------------------------------------------------------------------------

  function OutputNames(p: seq<Node>): set<Name> { set i, n | 0 <= i < |p| && n in p[i].outputs :: n }

  function TouchedNames(p: seq<Node>): set<Name> { set i, n | 0 <= i < |p| && n in p[i].Touched() :: n }

  function FreedNames(p: seq<Node>): set<Name> { set i, n | 0 <= i < |p| && n in p[i].lastUsage :: n }

  function PartitionInputs(g: Graph, p: seq<Node>): set<Name> {
    (set x | x in TouchedNames(p) && !g.IsNoneLayout(x) && x !in OutputNames(p) :: g.Real(x))
    + (set n | n in FreedNames(p) && n !in OutputNames(p) && n in g.known)
  }

  function ReturnedNames(g: Graph, p: seq<Node>, unmet: set<Name>): set<Name> {
    (set n | n in OutputNames(p) && n in unmet :: g.Real(n))
    + (set n | n in PartitionInputs(g, p) && n in g.known && n !in FreedNames(p) :: g.Real(n))
  }

  function SignatureOf(g: Graph, p: seq<Node>, skip: bool, unmet: set<Name>): Signature {
    Signature(
      PartitionInputs(g, p) * g.known,
      set n | n in ReturnedNames(g, p, unmet) && !g.IsNoneLayout(n),
      map n | n in PartitionInputs(g, p) && n in g.known :: n in FreedNames(p),
      skip,
      PartitionInputs(g, p) * g.constants)
  }

  /** `name_to_node[name]` succeeds for every output node. */
  predicate OutputsResolve(g: Graph, p: seq<Node>, unmet: set<Name>) {
    forall n <- ReturnedNames(g, p, unmet) :: !g.IsNoneLayout(n) ==> n in g.known
  }

  /** The names owed before p when those in `unmet` are owed after it. */
  function UnmetBefore(g: Graph, p: seq<Node>, unmet: set<Name>): set<Name> {
    PartitionInputs(g, p) + (unmet - ReturnedNames(g, p, unmet))
  }

  /** The names still owed to partitions k and later, and to the caller of the graph. */
  function UnmetFrom(g: Graph, parts: seq<seq<Node>>, k: nat): set<Name>
    requires k <= |parts|
    decreases |parts| - k
  {
    if k == |parts| then g.outputNames else
      UnmetBefore(g, parts[k], UnmetFrom(g, parts, k + 1))
  }

  // ---------------------------------------------------------------------------------------
  // What a signature says of every name
  // ---------------------------------------------------------------------------------------

  ghost predicate Defines(p: seq<Node>, n: Name) { exists i :: 0 <= i < |p| && n in p[i].outputs }

  ghost predicate Touches(p: seq<Node>, n: Name) {
    exists i :: 0 <= i < |p| && (n in p[i].readNames || n in p[i].writeNames)
  }

  ghost predicate Frees(p: seq<Node>, n: Name) { exists i :: 0 <= i < |p| && n in p[i].lastUsage }

  /** The name x stands for the storage s. */
  ghost predicate StandsFor(g: Graph, x: Name, s: Name) { s == if x in g.realName then g.realName[x] else x }

  /** The name has no layout; a mutation output has none when the buffer it mutates has none either. */
  ghost predicate Unallocated(g: Graph, n: Name) {
    && n in g.buffers && g.buffers[n].noneLayout
    && (g.buffers[n].mutationOutput && n in g.realName ==>
          g.realName[n] in g.buffers && g.buffers[g.realName[n]].noneLayout)
  }

  /** The partition takes n in: it touches a name of the storage that it does not define, or frees it for another. */
  ghost predicate TakesIn(g: Graph, p: seq<Node>, n: Name) {
    || (exists x :: Touches(p, x) && !Unallocated(g, x) && !Defines(p, x) && StandsFor(g, x, n))
    || (Frees(p, n) && !Defines(p, n) && n in g.known)
  }

  /** The partition hands n back: it defines a name of the storage that is owed, or takes one in and does not free
      it. */
  ghost predicate HandsBack(g: Graph, p: seq<Node>, unmet: set<Name>, n: Name) {
    exists x :: StandsFor(g, x, n) && GivesUp(g, p, unmet, x)
  }

  ghost predicate GivesUp(g: Graph, p: seq<Node>, unmet: set<Name>, x: Name) {
    (Defines(p, x) && x in unmet) || (TakesIn(g, p, x) && x in g.known && !Frees(p, x))
  }

  /** The signature of p when the names in `unmet` are owed after it, said name by name. */
  ghost predicate Signs(g: Graph, p: seq<Node>, skip: bool, unmet: set<Name>, sig: Signature) {
    && sig.skipCudagraph == skip
    && (forall n :: n in sig.inputs <==> TakesIn(g, p, n) && n in g.known)
    && (forall n :: n in sig.constants <==> TakesIn(g, p, n) && n in g.constants)
    && (forall n :: n in sig.outputs <==> HandsBack(g, p, unmet, n) && !Unallocated(g, n))
    && sig.deallocation.Keys == sig.inputs && FreesAre(p, sig.deallocation)
  }

  /** A name is marked for deallocation exactly when some node of the partition uses it last. */
  ghost predicate FreesAre(p: seq<Node>, deallocation: map<Name, bool>) {
    forall n | n in deallocation :: deallocation[n] <==> exists i :: 0 <= i < |p| && n in p[i].lastUsage
  }

  lemma SignsParts(g: Graph, p: seq<Node>, skip: bool, unmet: set<Name>, sig: Signature)
    requires Signs(g, p, skip, unmet, sig)
    ensures sig.skipCudagraph == skip && FreesAre(p, sig.deallocation)
  {
    hide TakesIn, HandsBack, Unallocated, FreesAre;
  }

  lemma RealIs(g: Graph, x: Name)
    ensures StandsFor(g, x, g.Real(x))
    ensures g.IsNoneLayout(x) <==> Unallocated(g, x)
  {
    if x in g.realName { assert g.realName[x] !in g.realName; }
  }

  lemma NamesOf(p: seq<Node>, n: Name)
    ensures n in OutputNames(p) <==> Defines(p, n)
    ensures n in TouchedNames(p) <==> Touches(p, n)
    ensures n in FreedNames(p) <==> Frees(p, n)
  {
    if i :| 0 <= i < |p| && n in p[i].Touched() { assert n in p[i].readNames || n in p[i].writeNames; }
    if i :| 0 <= i < |p| && (n in p[i].readNames || n in p[i].writeNames) { assert n in p[i].Touched(); }
  }

  lemma InputsAre(g: Graph, p: seq<Node>, n: Name)
    ensures n in PartitionInputs(g, p) <==> TakesIn(g, p, n)
  {
    NamesOf(p, n);
    hide RawGraph.IsNoneLayout, Unallocated, OutputNames, TouchedNames, FreedNames, Defines, Touches, Frees;
    if x :| x in TouchedNames(p) && !g.IsNoneLayout(x) && x !in OutputNames(p) && g.Real(x) == n {
      NamesOf(p, x);
      RealIs(g, x);
    }
    if x :| Touches(p, x) && !Unallocated(g, x) && !Defines(p, x) && StandsFor(g, x, n) {
      NamesOf(p, x);
      RealIs(g, x);
      assert g.Real(x) in PartitionInputs(g, p);
    }
  }

  lemma ReturnedAre(g: Graph, p: seq<Node>, unmet: set<Name>, n: Name)
    ensures n in ReturnedNames(g, p, unmet) <==> HandsBack(g, p, unmet, n)
  {
    hide RawGraph.IsNoneLayout, Unallocated, OutputNames, FreedNames, Defines, Frees, PartitionInputs, TakesIn;
    if n in ReturnedNames(g, p, unmet) {
      var x :| g.Real(x) == n && (
        || (x in OutputNames(p) && x in unmet)
        || (x in PartitionInputs(g, p) && x in g.known && x !in FreedNames(p)));
      NamesOf(p, x);
      RealIs(g, x);
      InputsAre(g, p, x);
      assert GivesUp(g, p, unmet, x);
    }
    if x :| StandsFor(g, x, n) && GivesUp(g, p, unmet, x) {
      NamesOf(p, x);
      RealIs(g, x);
      InputsAre(g, p, x);
    }
  }

  lemma SignatureSays(g: Graph, p: seq<Node>, skip: bool, unmet: set<Name>)
    ensures Signs(g, p, skip, unmet, SignatureOf(g, p, skip, unmet))
  {
    hide RawGraph.IsNoneLayout, Unallocated, FreedNames, PartitionInputs, ReturnedNames, TakesIn, HandsBack;
    var sig := SignatureOf(g, p, skip, unmet);
    forall n
      ensures n in sig.inputs <==> TakesIn(g, p, n) && n in g.known
      ensures n in sig.constants <==> TakesIn(g, p, n) && n in g.constants
      ensures n in sig.outputs <==> HandsBack(g, p, unmet, n) && !Unallocated(g, n)
      ensures n in sig.deallocation ==>
                (sig.deallocation[n] <==> exists i :: 0 <= i < |p| && n in p[i].lastUsage)
    {
      InputsAre(g, p, n);
      ReturnedAre(g, p, unmet, n);
      RealIs(g, n);
      NamesOf(p, n);
    }
  }

  /** Which names are owed before p, and when the pass fails at p. */
  lemma TurnSays(g: Graph, p: seq<Node>, unmet: set<Name>, n: Name)
    ensures n in UnmetBefore(g, p, unmet) <==> TakesIn(g, p, n) || (n in unmet && !HandsBack(g, p, unmet, n))
    ensures OutputsResolve(g, p, unmet) <==>
              forall m :: HandsBack(g, p, unmet, m) && !Unallocated(g, m) ==> m in g.known
  {
    hide RawGraph.IsNoneLayout, Unallocated, PartitionInputs, ReturnedNames, TakesIn, HandsBack;
    InputsAre(g, p, n);
    ReturnedAre(g, p, unmet, n);
    forall m
      ensures m in ReturnedNames(g, p, unmet) <==> HandsBack(g, p, unmet, m)
      ensures g.IsNoneLayout(m) <==> Unallocated(g, m)
    {
      ReturnedAre(g, p, unmet, m);
      RealIs(g, m);
    }
  }

  /** Which names are owed to partition k and later ones, and to the caller of the graph. */
  lemma OwedSays(g: Graph, parts: seq<seq<Node>>, k: nat, n: Name)
    requires k <= |parts|
    ensures n in UnmetFrom(g, parts, k) <==>
              if k == |parts| then n in g.outputNames
              else
                var after := UnmetFrom(g, parts, k + 1);
                TakesIn(g, parts[k], n) || (n in after && !HandsBack(g, parts[k], after, n))
  {
    if k < |parts| { TurnSays(g, parts[k], UnmetFrom(g, parts, k + 1), n); }
    hide TakesIn, HandsBack, UnmetBefore;
  }

  // ---------------------------------------------------------------------------------------
  // The pass
  // ---------------------------------------------------------------------------------------

  method CollectPartition(p: seq<Node>) returns (outputs: set<Name>, touched: set<Name>, freed: set<Name>)
    ensures outputs == OutputNames(p) && touched == TouchedNames(p) && freed == FreedNames(p)
  {
    outputs, touched, freed := {}, {}, {};
    for i := 0 to |p|
      invariant outputs == OutputNames(p[..i]) && touched == TouchedNames(p[..i]) && freed == FreedNames(p[..i])
    {
      assert p[..i + 1] == p[..i] + [p[i]];
      outputs, touched, freed := outputs + p[i].outputs, touched + p[i].Touched(), freed + p[i].lastUsage;
    }
    assert p[..|p|] == p;
  }

  /** One turn of the loop: the signature of p when the names in `unmet` are owed after it, and the
      names then owed before it. An output node whose name is unknown is a KeyError. */
  method SignPartition(g: Graph, p: seq<Node>, skip: bool, unmet: set<Name>)
    returns (signature: Option<Signature>, unmetBefore: set<Name>)
    ensures signature == if OutputsResolve(g, p, unmet) then Some(SignatureOf(g, p, skip, unmet)) else None
    ensures unmetBefore == UnmetBefore(g, p, unmet)
    ensures signature.Some? ==> Signs(g, p, skip, unmet, signature.value)
  {
    SignatureSays(g, p, skip, unmet);
    hide Signs;
    var outputNames, touched, freed := CollectPartition(p);
    var returned := outputNames * unmet;
    var inputNames := (set x | x in touched && !g.IsNoneLayout(x)) - outputNames;
    inputNames := set x | x in inputNames :: g.Real(x);
    inputNames := inputNames + (set n | n in freed - outputNames && n in g.known);
    assert inputNames == PartitionInputs(g, p);
    var extra := set n | n in inputNames && n in g.known && n !in freed;
    returned := set n | n in returned + extra :: g.Real(n);
    assert returned == ReturnedNames(g, p, unmet);
    unmetBefore := inputNames + (unmet - returned);
    if exists n :: n in returned && !g.IsNoneLayout(n) && n !in g.known {
      return None, unmetBefore;
    }
    signature := Some(Signature(
      inputNames * g.known,
      set n | n in returned && !g.IsNoneLayout(n),
      map n | n in inputNames && n in g.known :: n in freed,
      skip,
      inputNames * g.constants));
  }

  predicate ResolvesAt(g: Graph, parts: seq<seq<Node>>, k: nat)
    requires k < |parts|
  {
    OutputsResolve(g, parts[k], UnmetFrom(g, parts, k + 1))
  }

  function SignatureAt(g: Graph, parts: seq<seq<Node>>, k: nat, skip: bool): Signature
    requires k < |parts|
  {
    SignatureOf(g, parts[k], skip, UnmetFrom(g, parts, k + 1))
  }

  /** The reverse loop. `zip` pairs partitions and flags from the back and stops at the shorter list. */
  method GetGraphPartitionSignatures(g: Graph, parts: seq<seq<Node>>, skips: seq<bool>)
    returns (r: Option<seq<Signature>>)
    ensures var m := Min(|parts|, |skips|);
            && (r.Some? <==> forall k | |parts| - m <= k < |parts| :: ResolvesAt(g, parts, k))
            && (r.Some? ==> |r.value| == m && forall j | 0 <= j < m ::
                  r.value[j] == SignatureAt(g, parts, |parts| - m + j, skips[|skips| - m + j]))
            && (r.Some? && |skips| == |parts| ==> r.value == SignaturesOf(g, parts, skips))
            && (r.Some? ==> forall j | 0 <= j < m ::
                  var k := |parts| - m + j;
                  Signs(g, parts[k], skips[|skips| - m + j], UnmetFrom(g, parts, k + 1), r.value[j]))
    ensures r.Some? ==> forall j | 0 <= j < |r.value| ::
              r.value[j].skipCudagraph == skips[|skips| - |r.value| + j]
    ensures r.Some? ==> forall j | 0 <= j < |r.value| ::
              FreesAre(parts[|parts| - |r.value| + j], r.value[j].deallocation)
  {
    hide OutputsResolve, SignatureOf, UnmetBefore, PartitionInputs, ReturnedNames, Signs;
    var signatures: seq<Signature> := [];
    var unmet := g.outputNames;
    var m := Min(|parts|, |skips|);
    for i := 0 to m
      invariant |signatures| == i
      invariant unmet == UnmetFrom(g, parts, |parts| - i)
      invariant forall k | |parts| - i <= k < |parts| :: ResolvesAt(g, parts, k)
      invariant forall j | 0 <= j < i ::
        signatures[j] == SignatureAt(g, parts, |parts| - 1 - j, skips[|skips| - 1 - j])
    {
      var k := |parts| - 1 - i;
      var signature, unmetBefore := SignPartition(g, parts[k], skips[|skips| - 1 - i], unmet);
      assert signature.Some? <==> ResolvesAt(g, parts, k);
      if signature.None? {
        return None;
      }
      assert unmetBefore == UnmetFrom(g, parts, k);
      signatures, unmet := signatures + [signature.value], unmetBefore;
    }
    r := Some(seq(m, j requires 0 <= j < m => signatures[m - 1 - j]));
    forall j | 0 <= j < m
      ensures
        var k := |parts| - m + j;
        Signs(g, parts[k], skips[|skips| - m + j], UnmetFrom(g, parts, k + 1), r.value[j])
      ensures r.value[j].skipCudagraph == skips[|skips| - m + j]
      ensures FreesAre(parts[|parts| - m + j], r.value[j].deallocation)
    {
      var k := |parts| - m + j;
      SignatureSays(g, parts[k], skips[|skips| - m + j], UnmetFrom(g, parts, k + 1));
      SignsParts(g, parts[k], skips[|skips| - m + j], UnmetFrom(g, parts, k + 1), r.value[j]);
    }
  }

  // ---------------------------------------------------------------------------------------
  // What running a graph means
  // ---------------------------------------------------------------------------------------

  /** A kernel computes the new contents of a storage from the contents of the storages it can see. */
  type Kernel<!V> = (nat, map<Name, V>, Name) -> V

  function RealsOf(g: Graph, names: set<Name>): set<Name> { set x | x in names :: g.Real(x) }

  function AllocatedReals(g: Graph, names: set<Name>): set<Name> {
    set x | x in names && !g.IsNoneLayout(x) :: g.Real(x)
  }

  /** The storages a node must be handed: all it touches but those it allocates itself. */
  function Needed(g: Graph, node: Node): set<Name> {
    AllocatedReals(g, set x | x in node.Touched() && !(x in node.outputs && g.Real(x) == x))
  }

  function Written(g: Graph, node: Node): set<Name> { AllocatedReals(g, node.outputs) }

  function Restrict<V>(store: map<Name, V>, names: set<Name>): map<Name, V> {
    map n | n in names && n in store :: store[n]
  }

  /** Stuck (None) when a storage is missing or was freed. */
  function Step<V>(g: Graph, kernel: Kernel<V>, node: Node, store: map<Name, V>): Option<map<Name, V>> {
    if Needed(g, node) <= store.Keys then
      var seen := Restrict(store, Needed(g, node));
      Some(store + map s | s in Written(g, node) :: kernel(node.id, seen, s))
    else None
  }

  /** Whole-graph execution: one store, nothing freed. */
  function RunWhole<V>(g: Graph, kernel: Kernel<V>, ns: seq<Node>, store: map<Name, V>): Option<map<Name, V>> {
    if ns == [] then Some(store) else
      match RunWhole(g, kernel, ns[..|ns| - 1], store)
      case None => None
      case Some(before) => Step(g, kernel, ns[|ns| - 1], before)
  }

  /** Execution inside a partition: every node's `lastUsage` is freed after it. */
  function RunFreeing<V>(g: Graph, kernel: Kernel<V>, ns: seq<Node>, store: map<Name, V>): Option<map<Name, V>> {
    if ns == [] then Some(store) else
      match RunFreeing(g, kernel, ns[..|ns| - 1], store)
      case None => None
      case Some(before) =>
        match Step(g, kernel, ns[|ns| - 1], before)
        case None => None
        case Some(after) => Some(after - ns[|ns| - 1].lastUsage)
  }

  /** A call of a partition function: it sees its inputs and constants only, the caller drops the
      inputs marked for deallocation, and keeps what is handed back. */
  function CallPartition<V>(g: Graph, kernel: Kernel<V>, p: seq<Node>, sig: Signature,
                            constants: map<Name, V>, store: map<Name, V>): Option<map<Name, V>>
  {
    if !(sig.inputs <= store.Keys && sig.constants <= constants.Keys) then None else
      match RunFreeing(g, kernel, p, Restrict(store, sig.inputs) + Restrict(constants, sig.constants))
      case None => None
      case Some(local) =>
        if !(sig.outputs <= local.Keys) then None else
          Some((store - set n | n in sig.deallocation && sig.deallocation[n]) + Restrict(local, sig.outputs))
  }

  /** The signatures the pass returns when it has a flag for every partition. */
  function SignaturesOf(g: Graph, parts: seq<seq<Node>>, skips: seq<bool>): (sigs: seq<Signature>)
    requires |skips| == |parts|
    ensures |sigs| == |parts|
  {
    seq(|parts|, k requires 0 <= k < |parts| => SignatureAt(g, parts, k, skips[k]))
  }

  /** The first k partitions, called in order. */
  function RunPartitions<V>(g: Graph, kernel: Kernel<V>, parts: seq<seq<Node>>, sigs: seq<Signature>, k: nat,
                            constants: map<Name, V>, inputs: map<Name, V>): Option<map<Name, V>>
    requires k <= |parts| == |sigs|
  {
    if k == 0 then Some(inputs) else
      match RunPartitions(g, kernel, parts, sigs, k - 1, constants, inputs)
      case None => None
      case Some(store) => CallPartition(g, kernel, parts[k - 1], sigs[k - 1], constants, store)
  }

  /** The nodes of the first k partitions, in order. */
  function FlattenTo(parts: seq<seq<Node>>, k: nat): seq<Node>
    requires k <= |parts|
  {
    if k == 0 then [] else FlattenTo(parts, k - 1) + parts[k - 1]
  }

  function Flatten(parts: seq<seq<Node>>): seq<Node> { FlattenTo(parts, |parts|) }

  function Cut(parts: seq<seq<Node>>, k: nat): nat
    requires k <= |parts|
  {
    |FlattenTo(parts, k)|
  }

  // ---------------------------------------------------------------------------------------
  // What the scheduler guarantees about a graph
  // ---------------------------------------------------------------------------------------

  function DefinedAt(g: Graph, ns: seq<Node>, i: nat): set<Name>
    requires i <= |ns|
  {
    g.inputs + OutputNames(ns[..i])
  }

  ghost predicate SingleAssignment(g: Graph, ns: seq<Node>) {
    && g.known == g.inputs + OutputNames(ns)
    && g.constants !! g.known
    && g.outputNames <= g.known + g.constants
    && (forall i | 0 <= i < |ns| :: ns[i].outputs !! g.inputs)
    && (forall i, j | 0 <= i < j < |ns| :: ns[i].outputs !! ns[j].outputs)
  }

  ghost predicate UsesAreDefined(g: Graph, ns: seq<Node>) {
    forall i | 0 <= i < |ns| :: ns[i].Touched() <= g.constants + DefinedAt(g, ns, i + 1)
  }

  /** A node that defines an alias of an existing storage reads an earlier name of that storage. */
  ghost predicate AliasesHaveStorage(g: Graph, ns: seq<Node>) {
    && (forall n | n in g.inputs + g.constants :: g.Real(n) == n && !g.IsNoneLayout(n))
    && (forall n | n in g.known :: g.Real(n) in g.known && g.IsNoneLayout(n) == g.IsNoneLayout(g.Real(n)))
    && (forall i, o | 0 <= i < |ns| && o in ns[i].outputs && g.Real(o) != o ::
          exists y :: y in ns[i].readNames && y in DefinedAt(g, ns, i) && g.Real(y) == g.Real(o))
  }

  function Uses(g: Graph, node: Node): set<Name> {
    node.lastUsage + RealsOf(g, node.Touched() + node.outputs)
  }

  /** What is freed was defined, is never used again, and is not an output of the graph. */
  ghost predicate LastUsageIsLast(g: Graph, ns: seq<Node>) {
    && (forall i, n | 0 <= i < |ns| && n in ns[i].lastUsage ::
          && g.Real(n) == n
          && n in g.constants + DefinedAt(g, ns, i + 1)
          && n !in RealsOf(g, g.outputNames))
    && (forall i, j, n | 0 <= i < j < |ns| && n in ns[i].lastUsage :: n !in Uses(g, ns[j]))
  }

  ghost predicate WellFormed(g: Graph, ns: seq<Node>) {
    && SingleAssignment(g, ns)
    && UsesAreDefined(g, ns)
    && AliasesHaveStorage(g, ns)
    && LastUsageIsLast(g, ns)
  }
}
