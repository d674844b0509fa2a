/** The names a backward pass owes are exactly the live ones (overlay/vllm/env_override.py). */
module GraphPartitionLiveness {
  import opened GraphPartition
  import opened GraphPartitionCorrect

  lemma NotOutputAfter(g: Graph, ns: seq<Node>, lo: nat, n: Name)
    requires WellFormed(g, ns) && lo <= |ns|
    requires n in g.constants || n in DefinedAt(g, ns, lo)
    ensures n !in OutputNames(ns[lo..])
  {
    hide UsesAreDefined, AliasesHaveStorage, LastUsageIsLast, DefinedAt;
    assert ns[lo..] == ns[lo..|ns|];
    OutputsOfRange(ns, lo, |ns|);
    if n in OutputNames(ns[lo..|ns|]) && n !in g.constants {
      var i := OutputBy(ns, lo, |ns|, n);
      NotRedefined(g, ns, lo, i, n);
    }
  }

  /** A storage that is not defined after lo was defined before it. */
  lemma DefinedEarlier(g: Graph, ns: seq<Node>, lo: nat, n: Name)
    requires WellFormed(g, ns) && lo <= |ns| && n in g.known && n !in OutputNames(ns[lo..])
    ensures n in DefinedAt(g, ns, lo)
  {
    hide UsesAreDefined, AliasesHaveStorage, LastUsageIsLast;
    assert ns[lo..] == ns[lo..|ns|] && ns[..|ns|] == ns;
    DefinedOutside(g, ns, ns[lo..|ns|], lo, |ns|, |ns|, n);
  }

  lemma OutputsSplit(ns: seq<Node>, lo: nat, hi: nat)
    requires lo <= hi <= |ns|
    ensures OutputNames(ns[lo..]) == OutputNames(ns[lo..hi]) + OutputNames(ns[hi..])
  {
    NamesOfRange(ns, lo, hi);
    NamesOfRange(ns, hi, |ns|);
    NamesOfRange(ns, lo, |ns|);
    assert ns[lo..] == ns[lo..|ns|] && ns[hi..] == ns[hi..|ns|];
  }

  /** A storage the partition touches, under any of its names, is an input unless it defined it. */
  lemma WantedInsideIsInput(g: Graph, ns: seq<Node>, p: seq<Node>, lo: nat, hi: nat, n: Name)
    requires IsPartition(g, ns, p, lo, hi) && Wanted(g, ns, lo, n) && !Wanted(g, ns, hi, n)
    requires g.Real(n) == n && !g.IsNoneLayout(n) && n !in OutputNames(ns[lo..])
    ensures n in PartitionInputs(g, p)
  {
    hide SingleAssignment, UsesAreDefined, AliasesHaveStorage, LastUsageIsLast, DefinedAt;
    OutputsSplit(ns, lo, hi);
    if j :| lo <= j < |ns| && n in ns[j].lastUsage && n in g.known {
      assert p[j - lo] == ns[j];
    } else {
      var j, x :| lo <= j < |ns| && x in ns[j].Touched() && !g.IsNoneLayout(x) && g.Real(x) == n;
      assert p[j - lo] == ns[j];
      if x in OutputNames(p) {
        AliasIsInput(g, ns, p, lo, hi, x);
      }
    }
  }

  lemma AliasIsInput(g: Graph, ns: seq<Node>, p: seq<Node>, lo: nat, hi: nat, x: Name)
    requires IsPartition(g, ns, p, lo, hi) && x in OutputNames(p) && !g.IsNoneLayout(x)
    requires g.Real(x) !in OutputNames(ns[lo..])
    ensures g.Real(x) in PartitionInputs(g, p)
  {
    hide SingleAssignment, UsesAreDefined, AliasesHaveStorage, LastUsageIsLast, DefinedAt, PartitionInputs, OutputNames;
    var i := OutputBy(ns, lo, hi, x);
    OutputsOfRange(ns, lo, hi);
    OutputStorage(g, ns, x);
    DefinedEarlier(g, ns, lo, g.Real(x));
    MutatedStorageIsInput(g, ns, p, lo, hi, i, x);
  }

  /** Storages with a layout. */
  lemma {:induction false} UnmetStorages(g: Graph, parts: seq<seq<Node>>, k: nat, n: Name)
    requires WellFormed(g, Flatten(parts)) && k <= |parts|
    requires n in g.known + g.constants && g.Real(n) == n && !g.IsNoneLayout(n)
    ensures Cut(parts, k) <= |Flatten(parts)|
    ensures n in UnmetFrom(g, parts, k) <==>
            Wanted(g, Flatten(parts), Cut(parts, k), n) && n !in OutputNames(Flatten(parts)[Cut(parts, k)..])
    decreases |parts| - k
  {
    hide WellFormed, PartitionInputs, FreedNames, ReturnedNames, UnmetBefore, Wanted, OutputNames;
    var ns := Flatten(parts);
    CutsAreOrdered(parts, k, |parts|);
    if k == |parts| {
      NothingAfterEnd(g, ns, n);
    } else {
      var p, lo, hi, later := parts[k], Cut(parts, k), Cut(parts, k + 1), UnmetFrom(g, parts, k + 1);
      PartitionIsRange(parts, k);
      UnmetStorages(g, parts, k + 1, n);
      LivenessStep(g, ns, p, lo, hi, later, n);
    }
  }

  lemma NothingAfterEnd(g: Graph, ns: seq<Node>, n: Name)
    ensures Wanted(g, ns, |ns|, n) <==> n in g.outputNames
    ensures OutputNames(ns[|ns|..]) == {}
  {
    assert ns[|ns|..] == [];
  }

  lemma LivenessStep(g: Graph, ns: seq<Node>, p: seq<Node>, lo: nat, hi: nat, later: set<Name>, n: Name)
    requires IsPartition(g, ns, p, lo, hi)
    requires n in g.known + g.constants && g.Real(n) == n && !g.IsNoneLayout(n)
    requires n in later <==> Wanted(g, ns, hi, n) && n !in OutputNames(ns[hi..])
    ensures n in UnmetBefore(g, p, later) <==> Wanted(g, ns, lo, n) && n !in OutputNames(ns[lo..])
  {
    hide SingleAssignment, UsesAreDefined, AliasesHaveStorage, LastUsageIsLast, OutputNames, PartitionInputs,
         FreedNames, Wanted, DefinedAt;
    OutputsSplit(ns, lo, hi);
    InputIsWanted(g, ns, p, lo, hi, n);
    WantedEarlier(g, ns, lo, hi, n);
    if n in PartitionInputs(g, p) {
      if n in g.known {
        InputIsDefined(g, ns, p, lo, hi, n);
      }
      NotOutputAfter(g, ns, lo, n);
    } else if Wanted(g, ns, lo, n) && n !in OutputNames(ns[lo..]) {
      if !Wanted(g, ns, hi, n) {
        WantedInsideIsInput(g, ns, p, lo, hi, n);
      } else if n in ReturnedNames(g, p, later) {
        ReturnedOutsideIsInput(g, ns, p, lo, hi, later, n);
      }
    }
  }

  lemma ReturnedOutsideIsInput(g: Graph, ns: seq<Node>, p: seq<Node>, lo: nat, hi: nat, later: set<Name>, n: Name)
    requires IsPartition(g, ns, p, lo, hi) && n in ReturnedNames(g, p, later) && n in g.known + g.constants
    requires g.Real(n) == n && !g.IsNoneLayout(n) && n !in OutputNames(ns[lo..])
    ensures n in PartitionInputs(g, p)
  {
    hide SingleAssignment, UsesAreDefined, AliasesHaveStorage, LastUsageIsLast, OutputNames, PartitionInputs,
         FreedNames;
    if m :| m in OutputNames(p) && m in later && g.Real(m) == n {
      OutputsOfRange(ns, lo, hi);
      OutputStorage(g, ns, m);
      AliasIsInput(g, ns, p, lo, hi, m);
    } else {
      var m :| m in PartitionInputs(g, p) && m in g.known && g.Real(m) == n;
      InputIsDefined(g, ns, p, lo, hi, m);
    }
  }

  // ---------------------------------------------------------------------------------------
  // Aliases, and buffers without a layout
  // ---------------------------------------------------------------------------------------

  lemma ReturnedAreReal(g: Graph, p: seq<Node>, unmet: set<Name>, n: Name)
    requires n in ReturnedNames(g, p, unmet)
    ensures g.Real(n) == n
  {
    hide OutputNames, PartitionInputs, FreedNames;
  }

  lemma InputsAreReal(g: Graph, ns: seq<Node>, p: seq<Node>, lo: nat, hi: nat, n: Name)
    requires IsPartition(g, ns, p, lo, hi) && n in PartitionInputs(g, p)
    ensures g.Real(n) == n
  {
    hide WellFormed, OutputNames, TouchedNames, FreedNames;
    if n in FreedNames(p) && n in g.known {
      InputIsDefined(g, ns, p, lo, hi, n);
    }
  }

  /** An alias is owed exactly when it is an output of the graph. */
  lemma {:induction false} UnmetAliases(g: Graph, parts: seq<seq<Node>>, k: nat, n: Name)
    requires WellFormed(g, Flatten(parts)) && k <= |parts| && g.Real(n) != n
    ensures n in UnmetFrom(g, parts, k) <==> n in g.outputNames
    decreases |parts| - k
  {
    hide WellFormed, PartitionInputs, ReturnedNames;
    if k < |parts| {
      var p, later := parts[k], UnmetFrom(g, parts, k + 1);
      PartitionIsRange(parts, k);
      UnmetAliases(g, parts, k + 1, n);
      if n in PartitionInputs(g, p) {
        InputsAreReal(g, Flatten(parts), p, Cut(parts, k), Cut(parts, k + 1), n);
      }
      if n in ReturnedNames(g, p, later) {
        ReturnedAreReal(g, p, later, n);
      }
    }
  }

  /** No output of the graph defined from node i on is another name of n. */
  ghost predicate NotHandedOnByAlias(g: Graph, ns: seq<Node>, i: nat, n: Name)
    requires i <= |ns|
  {
    forall o | o in g.outputNames && o in OutputNames(ns[i..]) :: g.Real(o) != n
  }

  lemma UnallocatedTouch(g: Graph, ns: seq<Node>, i: nat, x: Name)
    requires WellFormed(g, ns) && i < |ns| && x in ns[i].Touched() && !g.IsNoneLayout(x)
    ensures !g.IsNoneLayout(g.Real(x)) && g.Real(x) in g.known + g.constants
  {
    UseAt(g, ns, i, x);
    if x in g.constants {
      ConstantsAreStorages(g, ns, x);
    } else {
      DefinedStorage(g, ns, i + 1, x);
    }
  }

  /** A buffer without a layout is an input exactly when it is freed and was not defined in the partition. */
  lemma UnallocatedInput(g: Graph, ns: seq<Node>, p: seq<Node>, lo: nat, hi: nat, n: Name)
    requires IsPartition(g, ns, p, lo, hi) && g.IsNoneLayout(n) && n in g.known
    ensures n in PartitionInputs(g, p) <==> n in FreedNames(p) && n !in OutputNames(p)
  {
    hide SingleAssignment, UsesAreDefined, AliasesHaveStorage, LastUsageIsLast, OutputNames, FreedNames, TouchedNames;
    if x :| x in TouchedNames(p) && !g.IsNoneLayout(x) && x !in OutputNames(p) && g.Real(x) == n {
      var i := TouchedBy(ns, lo, hi, x);
      UnallocatedTouch(g, ns, i, x);
    }
  }

  lemma UnallocatedReturned(g: Graph, ns: seq<Node>, p: seq<Node>, lo: nat, hi: nat, later: set<Name>, n: Name)
    requires IsPartition(g, ns, p, lo, hi) && g.IsNoneLayout(n) && n in g.known
    ensures n in ReturnedNames(g, p, later) <==> exists m :: m in OutputNames(p) && m in later && g.Real(m) == n
  {
    hide WellFormed, OutputNames, FreedNames, PartitionInputs;
    if m :| m in PartitionInputs(g, p) && m in g.known && m !in FreedNames(p) && g.Real(m) == n {
      InputsAreReal(g, ns, p, lo, hi, m);
      UnallocatedInput(g, ns, p, lo, hi, n);
    }
  }

  lemma UnallocatedWanted(g: Graph, ns: seq<Node>, i: nat, n: Name)
    requires WellFormed(g, ns) && i <= |ns| && g.IsNoneLayout(n) && n in g.known
    ensures Wanted(g, ns, i, n) <==> n in g.outputNames || exists j :: i <= j < |ns| && n in ns[j].lastUsage
  {
    hide WellFormed;
    if j, x :| i <= j < |ns| && x in ns[j].Touched() && !g.IsNoneLayout(x) && g.Real(x) == n {
      UnallocatedTouch(g, ns, j, x);
    }
  }

  /** The names owed before node i: an alias that is an output of the graph; a storage that is wanted and not
      defined from there on, unless it has no layout and an alias is handed on in its place. */
  ghost predicate Owed(g: Graph, ns: seq<Node>, i: nat, n: Name)
    requires i <= |ns|
  {
    if g.Real(n) != n then n in g.outputNames
    else Wanted(g, ns, i, n) && n !in OutputNames(ns[i..]) && (g.IsNoneLayout(n) ==> NotHandedOnByAlias(g, ns, i, n))
  }

  lemma FreedIsNoOutput(g: Graph, ns: seq<Node>, j: nat, n: Name)
    requires LastUsageIsLast(g, ns) && j < |ns| && n in ns[j].lastUsage
    ensures g.Real(n) == n && forall o | o in g.outputNames :: g.Real(o) != n
  {
    forall o | o in g.outputNames
      ensures g.Real(o) != n
    {
      assert g.Real(o) in RealsOf(g, g.outputNames);
    }
  }

  /** A buffer the partition takes in only to free it. */
  lemma FreedInputIsOwed(g: Graph, ns: seq<Node>, p: seq<Node>, lo: nat, hi: nat, n: Name)
    requires IsPartition(g, ns, p, lo, hi) && g.IsNoneLayout(n) && n in g.known && n in PartitionInputs(g, p)
    ensures Owed(g, ns, lo, n)
  {
    UnallocatedInput(g, ns, p, lo, hi, n);
    InputIsDefined(g, ns, p, lo, hi, n);
    var j := FreedBy(ns, lo, hi, n);
    FreedIsNoOutput(g, ns, j, n);
    NotOutputAfter(g, ns, lo, n);
    hide SingleAssignment, UsesAreDefined, AliasesHaveStorage, LastUsageIsLast, OutputNames, DefinedAt, PartitionInputs,
         FreedNames;
  }

  lemma NotHandedOnSplits(g: Graph, ns: seq<Node>, lo: nat, hi: nat, n: Name)
    requires lo <= hi <= |ns|
    ensures NotHandedOnByAlias(g, ns, lo, n) <==>
            && NotHandedOnByAlias(g, ns, hi, n)
            && forall o | o in g.outputNames && o in OutputNames(ns[lo..hi]) :: g.Real(o) != n
  {
    OutputsSplit(ns, lo, hi);
    hide OutputNames;
  }

  lemma NotFreedHere(g: Graph, ns: seq<Node>, lo: nat, hi: nat, n: Name)
    requires WellFormed(g, ns) && lo <= hi <= |ns| && g.IsNoneLayout(n) && n in g.known && n !in FreedNames(ns[lo..hi])
    ensures Wanted(g, ns, lo, n) <==> Wanted(g, ns, hi, n)
  {
    UnallocatedWanted(g, ns, lo, n);
    UnallocatedWanted(g, ns, hi, n);
    hide WellFormed, Wanted, FreedNames;
    if j :| lo <= j < |ns| && n in ns[j].lastUsage {
      if j < hi {
        FreedInRange(ns, lo, hi, j, n);
      }
    }
  }

  lemma FreedInRange(ns: seq<Node>, lo: nat, hi: nat, j: nat, n: Name)
    requires lo <= j < hi <= |ns| && n in ns[j].lastUsage
    ensures n in FreedNames(ns[lo..hi])
  {
    assert ns[lo..hi][j - lo] == ns[j];
  }

  /** A buffer without a layout that the partition neither defines nor frees is owed before it as after it,
      unless an alias of it is handed on. */
  lemma NotDefinedHere(g: Graph, ns: seq<Node>, p: seq<Node>, lo: nat, hi: nat, n: Name)
    requires IsPartition(g, ns, p, lo, hi) && g.IsNoneLayout(n) && n in g.known && g.Real(n) == n
    requires n !in OutputNames(p) && n !in PartitionInputs(g, p)
    ensures Owed(g, ns, lo, n) <==>
            Owed(g, ns, hi, n) && forall o | o in g.outputNames && o in OutputNames(p) :: g.Real(o) != n
  {
    UnallocatedInput(g, ns, p, lo, hi, n);
    NotFreedHere(g, ns, lo, hi, n);
    NotHandedOnSplits(g, ns, lo, hi, n);
    OutputsSplit(ns, lo, hi);
    hide WellFormed, Wanted, OutputNames, FreedNames, NotHandedOnByAlias;
  }

  lemma UnallocatedStep(g: Graph, ns: seq<Node>, p: seq<Node>, lo: nat, hi: nat, later: set<Name>, n: Name)
    requires IsPartition(g, ns, p, lo, hi) && g.IsNoneLayout(n) && n in g.known && g.Real(n) == n
    requires n in later <==> Owed(g, ns, hi, n)
    requires forall m | g.Real(m) != m :: m in later <==> m in g.outputNames
    ensures n in UnmetBefore(g, p, later) <==> Owed(g, ns, lo, n)
  {
    UnallocatedReturned(g, ns, p, lo, hi, later, n);
    hide IsPartition, PartitionInputs, ReturnedNames;
    if n in PartitionInputs(g, p) {
      FreedInputIsOwed(g, ns, p, lo, hi, n);
    } else if n in OutputNames(p) {
      DefinedHereIsNotOwed(g, ns, p, lo, hi, n);
    } else {
      NotDefinedHere(g, ns, p, lo, hi, n);
      hide Owed, OutputNames;
      AliasesReturned(g, p, later, n);
    }
  }

  lemma AliasesReturned(g: Graph, p: seq<Node>, later: set<Name>, n: Name)
    requires g.Real(n) == n && n !in OutputNames(p) && forall m | g.Real(m) != m :: m in later <==> m in g.outputNames
    ensures (exists m :: m in OutputNames(p) && m in later && g.Real(m) == n) <==>
            exists o :: o in g.outputNames && o in OutputNames(p) && g.Real(o) == n
  {
    hide OutputNames;
  }

  lemma DefinedHereIsNotOwed(g: Graph, ns: seq<Node>, p: seq<Node>, lo: nat, hi: nat, n: Name)
    requires IsPartition(g, ns, p, lo, hi) && g.Real(n) == n && n in OutputNames(p)
    ensures !Owed(g, ns, lo, n)
  {
    OutputsSplit(ns, lo, hi);
    hide WellFormed, OutputNames, Wanted;
  }

  lemma {:induction false} UnmetUnallocated(g: Graph, parts: seq<seq<Node>>, k: nat, n: Name)
    requires WellFormed(g, Flatten(parts)) && k <= |parts| && g.IsNoneLayout(n) && n in g.known && g.Real(n) == n
    ensures Cut(parts, k) <= |Flatten(parts)|
    ensures n in UnmetFrom(g, parts, k) <==> Owed(g, Flatten(parts), Cut(parts, k), n)
    decreases |parts| - k
  {
    hide WellFormed, UnmetBefore, Owed;
    var ns := Flatten(parts);
    CutsAreOrdered(parts, k, |parts|);
    if k == |parts| {
      NothingOwedAfterEnd(g, ns, n);
    } else {
      PartitionIsRange(parts, k);
      UnmetUnallocated(g, parts, k + 1, n);
      forall m | g.Real(m) != m
        ensures m in UnmetFrom(g, parts, k + 1) <==> m in g.outputNames
      {
        UnmetAliases(g, parts, k + 1, m);
      }
      UnallocatedStep(g, ns, parts[k], Cut(parts, k), Cut(parts, k + 1), UnmetFrom(g, parts, k + 1), n);
    }
  }

  lemma NothingOwedAfterEnd(g: Graph, ns: seq<Node>, n: Name)
    ensures Owed(g, ns, |ns|, n) <==> n in g.outputNames
  {
    NothingAfterEnd(g, ns, n);
    hide Wanted, OutputNames;
  }

  /** What is wanted is known, or a constant. */
  lemma WantedIsKnown(g: Graph, ns: seq<Node>, i: nat, n: Name)
    requires WellFormed(g, ns) && i <= |ns| && Wanted(g, ns, i, n)
    ensures n in g.known + g.constants
  {
    hide UsesAreDefined, AliasesHaveStorage, LastUsageIsLast;
    if j, x :| i <= j < |ns| && x in ns[j].Touched() && !g.IsNoneLayout(x) && g.Real(x) == n {
      UnallocatedTouch(g, ns, j, x);
    }
  }

  /** The names owed before partition k, whatever they are: what the backward pass computes is liveness. */
  lemma UnmetIsLiveness(g: Graph, parts: seq<seq<Node>>, k: nat, n: Name)
    requires WellFormed(g, Flatten(parts)) && k <= |parts|
    ensures Cut(parts, k) <= |Flatten(parts)|
    ensures n in UnmetFrom(g, parts, k) <==> Owed(g, Flatten(parts), Cut(parts, k), n)
  {
    var ns := Flatten(parts);
    CutsAreOrdered(parts, k, |parts|);
    hide WellFormed, UnmetFrom, Wanted, OutputNames, NotHandedOnByAlias;
    if g.Real(n) != n {
      UnmetAliases(g, parts, k, n);
    } else if n !in g.known + g.constants {
      UnknownIsNotOwed(g, parts, k, n);
    } else if g.IsNoneLayout(n) {
      ConstantHasLayout(g, ns, n);
      UnmetUnallocated(g, parts, k, n);
    } else {
      UnmetStorages(g, parts, k, n);
    }
  }

  lemma ConstantHasLayout(g: Graph, ns: seq<Node>, n: Name)
    requires WellFormed(g, ns) && n in g.known + g.constants && g.IsNoneLayout(n)
    ensures n in g.known
  {
    hide SingleAssignment, UsesAreDefined, LastUsageIsLast;
    assert n in g.constants ==> n in g.inputs + g.constants;
  }

  lemma UnknownIsNotOwed(g: Graph, parts: seq<seq<Node>>, k: nat, n: Name)
    requires WellFormed(g, Flatten(parts)) && k <= |parts| && n !in g.known + g.constants
    ensures n !in UnmetFrom(g, parts, k) && Cut(parts, k) <= |Flatten(parts)|
    ensures !Wanted(g, Flatten(parts), Cut(parts, k), n)
  {
    hide WellFormed, UnmetFrom, Wanted;
    var ns := Flatten(parts);
    CutsAreOrdered(parts, k, |parts|);
    if n in UnmetFrom(g, parts, k) {
      UnmetIsWanted(g, parts, k, n);
    }
    if Wanted(g, ns, Cut(parts, k), n) {
      WantedIsKnown(g, ns, Cut(parts, k), n);
    }
  }
}
