/** The groups of numbered children of one signature, and the order in which they are printed
    (overlay/vllm/model_inspection.py). */
module ModelGroups {
  import opened ModelInspection
  import opened ModelPrinter
  import opened ModelText

  // ---------------------------------------------------------------------------------------
  // The members of a group
  // ---------------------------------------------------------------------------------------

  /** `at` names the children of one signature, all of them, in registration order. */
  ghost predicate Places(ms: seq<Member>, at: seq<nat>, signature: string) {
    && (forall k | 0 <= k < |at| :: at[k] < |ms|)
    && (forall k, l | 0 <= k < l < |at| :: at[k] < at[l])
    && (forall i: nat | i < |ms| :: i in at <==> Signature(ms[i].module_) == signature)
  }

  lemma {:induction false} AddToSays(gs: seq<Group>, signature: string, m: Member, g: Group)
    requires OneEach(gs) && g in AddTo(gs, signature, m)
    ensures g.signature != signature ==> g in gs
    ensures g.signature == signature ==>
              || (g.members == [m] && forall h <- gs :: h.signature != signature)
              || exists h :: h in gs && h.signature == signature && g.members == h.members + [m]
    decreases |gs|
  {
    if gs != [] {
      assert gs[0] in gs;
      if gs[0].signature == signature {
        if g in gs[1..] {
          var i :| 0 <= i < |gs[1..]| && gs[1..][i] == g;
          assert g == gs[i + 1];
        }
      } else if g != gs[0] {
        AddToSays(gs[1..], signature, m, g);
      }
    }
  }

  lemma PlacesMore(ms: seq<Member>, at: seq<nat>, signature: string) returns (more: seq<nat>)
    requires ms != [] && Places(ms[..|ms| - 1], at, signature)
    ensures Places(ms, more, signature)
    ensures more == if Signature(ms[|ms| - 1].module_) == signature then at + [|ms| - 1] else at
  {
    var n := |ms| - 1;
    more := if Signature(ms[n].module_) == signature then at + [n] else at;
    hide Signature;
    forall i: nat | i < |ms|
      ensures i in more <==> Signature(ms[i].module_) == signature
    {
      if i < n { assert ms[..n][i] == ms[i]; }
    }
  }

  /** When no group has the signature, no child has. */
  lemma NoneSoFar(ms: seq<Member>, signature: string)
    requires forall h <- GroupUp(ms) :: h.signature != signature
    ensures Places(ms, [], signature)
  {
    GroupsComplete(ms);
    GroupsSound(ms);
    hide GroupUp, Signature;
    forall i: nat | i < |ms|
      ensures Signature(ms[i].module_) != signature
    {
      assert ms[i] in ms;
    }
  }

  /** The members of a group are the children with its signature, all of them, in registration order. */
  lemma {:induction false} MembersInOrder(ms: seq<Member>, g: Group) returns (at: seq<nat>)
    requires g in GroupUp(ms)
    ensures Places(ms, at, g.signature) && |g.members| == |at|
    ensures forall k | 0 <= k < |at| :: g.members[k] == ms[at[k]]
    decreases |ms|
  {
    var n := |ms| - 1;
    var rest, m := ms[..n], ms[n];
    GroupsOneEach(rest);
    AddToSays(GroupUp(rest), Signature(m.module_), m, g);
    var before: seq<Member> := [];
    at := [];
    if h :| h in GroupUp(rest) && h.signature == g.signature
            && g.members == h.members + if g.signature == Signature(m.module_) then [m] else [] {
      before := h.members;
      at := MembersInOrder(rest, h);
      InRange(rest, at, g.signature);
    } else {
      assert g.members + [] == g.members;
      NoneSoFar(rest, g.signature);
    }
    hide GroupUp, Signature, Places;
    at := OneMember(ms, g, before, at);
  }

  lemma OneMember(ms: seq<Member>, g: Group, before: seq<Member>, at: seq<nat>) returns (more: seq<nat>)
    requires ms != [] && Places(ms[..|ms| - 1], at, g.signature) && |before| == |at|
    requires forall k | 0 <= k < |at| :: at[k] < |ms| - 1 && before[k] == ms[at[k]]
    requires var m := ms[|ms| - 1]; g.members == before + if Signature(m.module_) == g.signature then [m] else []
    ensures Places(ms, more, g.signature) && |g.members| == |more|
    ensures forall k | 0 <= k < |more| :: g.members[k] == ms[more[k]]
  {
    more := PlacesMore(ms, at, g.signature);
    hide Places, Signature;
  }

  lemma InRange(ms: seq<Member>, at: seq<nat>, signature: string)
    requires Places(ms, at, signature)
    ensures forall k | 0 <= k < |at| :: at[k] < |ms|
  {
  }

  // ---------------------------------------------------------------------------------------
  // The order of the groups
  // ---------------------------------------------------------------------------------------

  /** The first child of a signature. */
  function First(ms: seq<Member>, signature: string): (i: nat)
    ensures i <= |ms| && (i < |ms| ==> Signature(ms[i].module_) == signature)
    ensures forall k | 0 <= k < i :: Signature(ms[k].module_) != signature
    decreases |ms|
  {
    if ms == [] || Signature(ms[0].module_) == signature then 0 else 1 + First(ms[1..], signature)
  }

  lemma FirstIs(ms: seq<Member>, signature: string, i: nat)
    requires i <= |ms| && (i < |ms| ==> Signature(ms[i].module_) == signature)
    requires forall k | 0 <= k < i :: Signature(ms[k].module_) != signature
    ensures First(ms, signature) == i
  {
    hide Signature;
  }

  /** Signatures in the order in which they come first. */
  ghost predicate ByFirst(ms: seq<Member>, ss: seq<string>) {
    && (forall i | 0 <= i < |ss| :: First(ms, ss[i]) < |ms|)
    && (forall i, j | 0 <= i < j < |ss| :: First(ms, ss[i]) < First(ms, ss[j]))
  }

  function Signatures(gs: seq<Group>): seq<string> { seq(|gs|, i requires 0 <= i < |gs| => gs[i].signature) }

  lemma {:induction false} AddToSignatures(gs: seq<Group>, signature: string, m: Member)
    ensures Signatures(AddTo(gs, signature, m)) ==
            Signatures(gs) + if signature in Signatures(gs) then [] else [signature]
    decreases |gs|
  {
    if gs != [] {
      assert Signatures(gs) == [gs[0].signature] + Signatures(gs[1..]);
      if gs[0].signature != signature {
        AddToSignatures(gs[1..], signature, m);
        var r, tail := AddTo(gs, signature, m), AddTo(gs[1..], signature, m);
        assert Signatures(r) == [gs[0].signature] + Signatures(tail);
      }
    }
  }

  lemma FirstGrows(ms: seq<Member>, m: Member, signature: string)
    ensures First(ms + [m], signature) ==
            if First(ms, signature) < |ms| || Signature(m.module_) == signature then First(ms, signature) else |ms| + 1
  {
    var i := First(ms, signature);
    hide Signature;
    assert forall k | 0 <= k < |ms| :: (ms + [m])[k] == ms[k];
    FirstIs(ms + [m], signature, if i < |ms| || Signature(m.module_) == signature then i else |ms| + 1);
  }

  lemma {:induction false} GroupUpByFirst(ms: seq<Member>)
    ensures ByFirst(ms, Signatures(GroupUp(ms)))
    decreases |ms|
  {
    if ms != [] {
      var n := |ms| - 1;
      var rest, m := ms[..n], ms[n];
      GroupUpByFirst(rest);
      var gs, s := GroupUp(rest), Signature(m.module_);
      assert ms == rest + [m];
      AddToSignatures(gs, s, m);
      if s !in Signatures(gs) {
        forall h | h in gs ensures h.signature != s {
          var i :| 0 <= i < |gs| && gs[i] == h;
          assert Signatures(gs)[i] == h.signature;
        }
        NoneSoFar(rest, s);
        assert First(rest, s) == n;
      }
      hide GroupUp, Signature, First, AddTo, ByFirst, Signatures;
      ByFirstMore(rest, m, Signatures(gs));
    }
  }

  lemma ByFirstMore(ms: seq<Member>, m: Member, ss: seq<string>)
    requires ByFirst(ms, ss)
    requires
      var s := Signature(m.module_);
      s !in ss ==> First(ms, s) == |ms|
    ensures ByFirst(ms + [m], ss + if Signature(m.module_) in ss then [] else [Signature(m.module_)])
  {
    hide First, Signature;
    forall i | 0 <= i < |ss| ensures First(ms + [m], ss[i]) == First(ms, ss[i]) { FirstGrows(ms, m, ss[i]); }
    FirstGrows(ms, m, Signature(m.module_));
  }

  /** The order of printing: by the number of the first member, and of equal ones as they were registered. */
  ghost predicate ComesBefore(ms: seq<Member>, g: Group, h: Group)
    requires g.members != [] && h.members != []
  {
    var x, y := g.members[0].idx, h.members[0].idx;
    x < y || (x == y && First(ms, g.signature) < First(ms, h.signature))
  }

  ghost predicate InOrder(ms: seq<Member>, gs: seq<Group>)
    requires NonEmpty(gs)
  {
    forall i, j | 0 <= i < j < |gs| :: ComesBefore(ms, gs[i], gs[j])
  }

  lemma {:induction false} InsertGroupInOrder(ms: seq<Member>, g: Group, gs: seq<Group>)
    requires g.members != [] && NonEmpty(gs) && InOrder(ms, gs)
    requires forall h <- gs :: First(ms, g.signature) < First(ms, h.signature)
    ensures NonEmpty(InsertGroup(g, gs)) && InOrder(ms, InsertGroup(g, gs))
    decreases |gs|
  {
    var r := InsertGroup(g, gs);
    hide First;
    assert forall i | 0 <= i < |gs| :: gs[i] in gs;
    if gs == [] || g.members[0].idx <= gs[0].members[0].idx {
      assert r == [g] + gs;
      assert forall i | 0 < i < |gs| :: ComesBefore(ms, gs[0], gs[i]);
    } else {
      assert forall h <- gs[1..] :: h in gs;
      InsertGroupInOrder(ms, g, gs[1..]);
      var tail := InsertGroup(g, gs[1..]);
      forall i | 0 <= i < |tail|
        ensures tail[i].members != [] && ComesBefore(ms, gs[0], tail[i])
      {
        InsertGroupKeeps(g, gs[1..], tail[i]);
        assert tail[i] in tail;
        if tail[i] != g {
          var j :| 0 <= j < |gs[1..]| && gs[1..][j] == tail[i];
          assert gs[j + 1] == tail[i];
        }
      }
      assert r == [gs[0]] + tail;
    }
  }

  lemma {:induction false} SortGroupsInOrder(ms: seq<Member>, gs: seq<Group>)
    requires NonEmpty(gs) && ByFirst(ms, Signatures(gs))
    ensures NonEmpty(SortGroups(gs)) && InOrder(ms, SortGroups(gs))
    decreases |gs|
  {
    if gs != [] {
      assert Signatures(gs[1..]) == Signatures(gs)[1..] && Signatures(gs)[0] == gs[0].signature;
      SortGroupsInOrder(ms, gs[1..]);
      forall h | h in SortGroups(gs[1..]) ensures First(ms, gs[0].signature) < First(ms, h.signature) {
        SortGroupsKeeps(gs[1..], h);
        var i :| 0 <= i < |gs[1..]| && gs[1..][i] == h;
        assert gs[i + 1] == h && Signatures(gs)[i + 1] == h.signature;
      }
      hide First;
      InsertGroupInOrder(ms, gs[0], SortGroups(gs[1..]));
    }
  }

  /** The groups a module is printed with, and their members: a group holds the numbered children with its signature
      in registration order; groups come by the number registered first, and of equal ones as they were
      registered. */
  lemma GroupsInOrder(m: Module)
    ensures forall g <- GroupsOf(m) ::
              exists at :: Places(Numbered(m.children), at, g.signature) && |g.members| == |at|
                           && forall k | 0 <= k < |at| :: g.members[k] == Numbered(m.children)[at[k]]
    ensures NonEmpty(GroupsOf(m)) && InOrder(Numbered(m.children), GroupsOf(m))
  {
    var ms := Numbered(m.children);
    GroupUpByFirst(ms);
    GroupsSound(ms);
    var gs := GroupUp(ms);
    assert forall i | 0 <= i < |gs| :: gs[i] in gs;
    SortGroupsInOrder(ms, gs);
    forall g | g in GroupsOf(m)
      ensures exists at :: Places(ms, at, g.signature) && |g.members| == |at|
                           && forall k | 0 <= k < |at| :: g.members[k] == ms[at[k]]
    {
      SortGroupsKeeps(gs, g);
      var at := MembersInOrder(ms, g);
    }
  }
}
