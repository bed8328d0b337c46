/** The list of orphaned process groups of ltp-pan.c: as a sequence of slots, and as linked nodes changed in place. */
module Orphans {
  import Zoo

  /** The groups on a list; 0 marks a node that can be reused. */
  function Groups(list: seq<int>): multiset<int> {
    multiset(list)[0 := 0]
  }

  lemma {:induction false} GroupsUpdate(list: seq<int>, i: nat, x: int)
    requires i < |list|
    ensures Groups(list[i := x]) == Groups(list) - (if list[i] == 0 then multiset{} else multiset{list[i]})
                                                 + (if x == 0 then multiset{} else multiset{x})
    ensures list[i] != 0 ==> list[i] in Groups(list)
  {
    assert multiset(list[i := x]) == multiset(list) - multiset{list[i]} + multiset{x};
    assert list[i] in multiset(list);
  }

  lemma {:induction false} GroupsOfSplit(a: seq<int>, b: seq<int>)
    ensures Groups(a + b) == Groups(a) + Groups(b)
  {
    assert multiset(a + b) == multiset(a) + multiset(b);
  }

  function FirstZero(list: seq<int>): (i: nat)
    ensures i <= |list| && (i < |list| ==> list[i] == 0)
    ensures forall k :: 0 <= k < i ==> list[k] != 0
  {
    if list == [] || list[0] == 0 then 0 else 1 + FirstZero(list[1..])
  }

  /** mark_orphan: the first unused node is reused, or a new node is linked in just after the head. */
  function MarkSlot(list: seq<int>, pgrp: int): (r: seq<int>)
    requires |list| >= 1
    ensures |r| >= 1
  {
    var i := FirstZero(list);
    if i < |list| then list[i := pgrp] else [list[0], pgrp] + list[1..]
  }

  function CheckOne(pgrp: int, dead: set<int>): int {
    if pgrp in dead then 0 else pgrp
  }

  /** check_orphans: the nodes whose group is empty are given up. */
  function CheckSlots(list: seq<int>, dead: set<int>): (r: seq<int>)
    ensures |r| == |list|
    ensures forall i :: 0 <= i < |list| ==> r[i] == CheckOne(list[i], dead)
  {
    seq(|list|, i requires 0 <= i < |list| => CheckOne(list[i], dead))
  }

  /** The zoo entries that check_orphans clears, in list order. */
  function CheckZoo(list: seq<int>, dead: set<int>, file: string): string
    decreases |list|
  {
    if list == [] then file
    else CheckZoo(list[1..], dead, CheckZooOne(list[0], dead, file))
  }

  lemma {:induction false} CheckZooStep(list: seq<int>, i: nat, dead: set<int>, file: string)
    requires i < |list|
    ensures CheckZoo(list[i..], dead, file) == CheckZoo(list[i + 1..], dead, CheckZooOne(list[i], dead, file))
  {
    assert list[i..][1..] == list[i + 1..];
  }

  /** Marking adds one group and lengthens the list only when every node is in use. */
  lemma {:induction false} MarkEffect(list: seq<int>, pgrp: int)
    requires |list| >= 1 && pgrp != 0
    ensures Groups(MarkSlot(list, pgrp)) == Groups(list) + multiset{pgrp}
    ensures |Groups(list)| <= |list|
    ensures |MarkSlot(list, pgrp)| == if |Groups(list)| < |list| then |list| else |list| + 1
  {
    hide Groups;
    var i := FirstZero(list);
    GroupsSize(list);
    if i < |list| {
      GroupsUpdate(list, i, pgrp);
    } else {
      InsertEffect(list[0], pgrp, list[1..]);
      assert list == [list[0]] + list[1..];
    }
  }

  lemma {:induction false} InsertEffect(x: int, pgrp: int, rest: seq<int>)
    requires pgrp != 0
    ensures Groups([x, pgrp] + rest) == Groups([x] + rest) + multiset{pgrp}
  {
    GroupsOfSplit([x], rest);
    GroupsOfSplit([x], [pgrp] + rest);
    GroupsOfSplit([pgrp], rest);
    assert [x, pgrp] + rest == [x] + ([pgrp] + rest);
    assert Groups([pgrp]) == multiset{pgrp};
  }

  lemma {:induction false} MarkRange(list: seq<int>, pgrp: int, max: int)
    requires |list| >= 1 && 0 <= pgrp < max && forall i :: 0 <= i < |list| ==> 0 <= list[i] < max
    ensures forall i :: 0 <= i < |MarkSlot(list, pgrp)| ==> 0 <= MarkSlot(list, pgrp)[i] < max
  {
  }

  lemma {:induction false} GroupsSize(list: seq<int>)
    ensures |Groups(list)| <= |list|
    ensures |Groups(list)| == |list| <==> FirstZero(list) == |list|
  {
    if list == [] {
      assert Groups(list) == multiset{};
    } else {
      GroupsSize(list[1..]);
      assert list == [list[0]] + list[1..];
      GroupsOfSplit([list[0]], list[1..]);
      assert Groups([list[0]]) == if list[0] == 0 then multiset{} else multiset{list[0]};
    }
  }

  lemma {:induction false} GroupsHead(list: seq<int>)
    requires list != []
    ensures Groups(list) == Groups([list[0]]) + Groups(list[1..])
  {
    assert list == [list[0]] + list[1..];
    GroupsOfSplit([list[0]], list[1..]);
  }

  lemma {:induction false} GroupsOne(x: int)
    ensures Groups([x]) == if x == 0 then multiset{} else multiset{x}
  {
  }

  /** How many of the clears find no entry; check_orphans reports each. */
  function Misses(list: seq<int>, dead: set<int>, file: string): nat
    decreases |list|
  {
    if list == [] then 0
    else (if list[0] != 0 && list[0] in dead && !Zoo.Finds(file, list[0]) then 1 else 0)
         + Misses(list[1..], dead, CheckZooOne(list[0], dead, file))
  }

  lemma {:induction false} MissesStep(list: seq<int>, i: nat, dead: set<int>, file: string)
    requires i < |list|
    ensures Misses(list[i..], dead, file) == (if list[i] != 0 && list[i] in dead && !Zoo.Finds(file, list[i]) then 1 else 0)
                                             + Misses(list[i + 1..], dead, CheckZooOne(list[i], dead, file))
  {
    assert list[i..][1..] == list[i + 1..];
  }

  /** No clear of a check misses its entry, the later ones included, which meet a file that the earlier ones changed. */
  lemma {:induction false} NoMisses(list: seq<int>, dead: set<int>, file: string, others: multiset<int>)
    requires forall i :: 0 <= i < |list| ==> 0 <= list[i] < 0x8000_0000
    requires Zoo.Holds(file, others + Groups(list))
    ensures Misses(list, dead, file) == 0
    decreases |list|
  {
    hide Zoo.Holds, Zoo.ApplyBytes, Zoo.Finds, CheckZooOne, Groups;
    if list != [] {
      var x, y, tail := list[0], CheckOne(list[0], dead), list[1..];
      GroupsHead(list);
      GroupsOne(x);
      Zoo.ApplyHolds(file, others + Groups(list), Zoo.Clear(x));
      assert others + Groups(list) == (others + Groups(tail)) + Groups([x]);
      CheckZooOneEffect(x, dead, file, others + Groups(tail));
      assert (others + Groups(tail)) + Groups([y]) == (others + Groups([y])) + Groups(tail);
      NoMisses(tail, dead, CheckZooOne(x, dead, file), others + Groups([y]));
    }
  }

  /** The clear for a group that has become empty finds its entry, after all the clears before it in the same check. */
  lemma {:induction false} LaterClearFinds(list: seq<int>, k: nat, dead: set<int>, file: string, others: multiset<int>)
    requires forall i :: 0 <= i < |list| ==> 0 <= list[i] < 0x8000_0000
    requires Zoo.Holds(file, others + Groups(list)) && k < |list| && list[k] != 0 && list[k] in dead
    ensures Zoo.Finds(CheckZoo(list[..k], dead, file), list[k])
    decreases |list|
  {
    hide Zoo.Holds, Zoo.ApplyBytes, Zoo.Finds, CheckZooOne, Groups;
    var x, y, tail := list[0], CheckOne(list[0], dead), list[1..];
    GroupsHead(list);
    GroupsOne(x);
    if k == 0 {
      assert list[..0] == [];
      Zoo.ApplyHolds(file, others + Groups(list), Zoo.Clear(x));
    } else {
      assert others + Groups(list) == (others + Groups(tail)) + Groups([x]);
      CheckZooOneEffect(x, dead, file, others + Groups(tail));
      assert (others + Groups(tail)) + Groups([y]) == (others + Groups([y])) + Groups(tail);
      LaterClearFinds(tail, k - 1, dead, CheckZooOne(x, dead, file), others + Groups([y]));
      assert list[..k][1..] == tail[..k - 1];
    }
  }

  /** One call of kill(-pgrp, sig). */
  datatype Kill = Kill(pgrp: int, sig: int)

  /** The calls for the groups on a list, in list order. */
  function Kills(list: seq<int>, sig: int): seq<Kill> {
    if list == [] then [] else (if list[0] == 0 then [] else [Kill(list[0], sig)]) + Kills(list[1..], sig)
  }

  lemma {:induction false} KillsStep(list: seq<int>, i: nat, sig: int)
    requires i < |list|
    ensures Kills(list[i..], sig) == (if list[i] == 0 then [] else [Kill(list[i], sig)]) + Kills(list[i + 1..], sig)
  {
    assert list[i..][1..] == list[i + 1..];
  }

  lemma {:induction false} AtTheEnd(list: seq<int>, dead: set<int>, file: string, sig: int)
    requires list == []
    ensures CheckZoo(list, dead, file) == file && Kills(list, sig) == [] && Misses(list, dead, file) == 0
  {
  }

  /** Every group on the list gets the signal, and nobody else does. */
  lemma {:induction false} KillsExactly(list: seq<int>, sig: int, k: Kill)
    ensures k in Kills(list, sig) <==> k.sig == sig && k.pgrp != 0 && k.pgrp in list
  {
    if list != [] { KillsExactly(list[1..], sig, k); }
  }

  function CheckZooOne(x: int, dead: set<int>, file: string): string {
    if x != 0 && x in dead then Zoo.ApplyBytes(file, Zoo.Clear(x)) else file
  }

  lemma {:induction false} CheckZooOneEffect(x: int, dead: set<int>, file: string, others: multiset<int>)
    requires 0 <= x < 0x8000_0000 && Zoo.Holds(file, others + Groups([x]))
    ensures Zoo.Holds(CheckZooOne(x, dead, file), others + Groups([CheckOne(x, dead)]))
  {
    GroupsOne(x);
    GroupsOne(CheckOne(x, dead));
    if x != 0 && x in dead {
      Zoo.ApplyHolds(file, others + Groups([x]), Zoo.Clear(x));
      assert others + Groups([x]) - multiset{x} == others + Groups([CheckOne(x, dead)]);
    }
  }

  /** A check removes groups only, and the zoo loses exactly the entries of the groups removed: every clear finds its entry. */
  lemma {:induction false} CheckEffect(list: seq<int>, dead: set<int>, file: string, others: multiset<int>)
    requires forall i :: 0 <= i < |list| ==> 0 <= list[i] < 0x8000_0000
    requires Zoo.Holds(file, others + Groups(list))
    ensures Zoo.Holds(CheckZoo(list, dead, file), others + Groups(CheckSlots(list, dead)))
    decreases |list|
  {
    if list == [] {
      assert CheckSlots(list, dead) == [];
    } else {
      var x, y, tail := list[0], CheckOne(list[0], dead), list[1..];
      GroupsHead(list);
      GroupsHead(CheckSlots(list, dead));
      assert CheckSlots(list, dead)[1..] == CheckSlots(tail, dead);
      assert others + Groups(list) == (others + Groups(tail)) + Groups([x]);
      CheckZooOneEffect(x, dead, file, others + Groups(tail));
      assert (others + Groups(tail)) + Groups([y]) == (others + Groups([y])) + Groups(tail);
      CheckEffect(tail, dead, CheckZooOne(x, dead, file), others + Groups([y]));
      assert others + Groups(CheckSlots(list, dead)) == (others + Groups([y])) + Groups(CheckSlots(tail, dead));
    }
  }

  /** The groups on the list that are empty. */
  function Gone(list: seq<int>, dead: set<int>): multiset<int> {
    if list == [] then multiset{}
    else (if list[0] != 0 && list[0] in dead then multiset{list[0]} else multiset{}) + Gone(list[1..], dead)
  }

  lemma {:induction false} GoneIs(list: seq<int>, dead: set<int>, p: int)
    ensures Gone(list, dead)[p] == if p != 0 && p in dead then Groups(list)[p] else 0
  {
    if list != [] {
      GroupsHead(list);
      GroupsOne(list[0]);
      hide Groups;
      GoneIs(list[1..], dead, p);
    }
  }

  /** A check keeps every group that is not empty, as often as it is listed, and gives up every other one. */
  lemma {:induction false} CheckKeepsLiving(list: seq<int>, dead: set<int>, p: int)
    ensures Groups(CheckSlots(list, dead))[p] == if p in dead then 0 else Groups(list)[p]
  {
    if list == [] {
      assert CheckSlots(list, dead) == [];
    } else {
      var checked := CheckSlots(list, dead);
      assert checked[1..] == CheckSlots(list[1..], dead);
      GroupsHead(list);
      GroupsHead(checked);
      GroupsOne(list[0]);
      GroupsOne(checked[0]);
      hide Groups;
      CheckKeepsLiving(list[1..], dead, p);
    }
  }

  lemma {:induction false} CheckSplits(list: seq<int>, dead: set<int>)
    ensures Groups(CheckSlots(list, dead)) + Gone(list, dead) == Groups(list)
  {
    hide Groups, CheckSlots, Gone;
    forall p: int ensures (Groups(CheckSlots(list, dead)) + Gone(list, dead))[p] == Groups(list)[p] {
      CheckKeepsLiving(list, dead, p);
      GoneIs(list, dead, p);
      NoZeroGroup(list);
    }
  }

  lemma {:induction false} NoZeroGroup(list: seq<int>)
    ensures Groups(list)[0] == 0
  {
  }

  // ------------------------------------------------------------- peak length

  datatype Op = DoMark(pgrp: int) | DoCheck(dead: set<int>)

  function Apply(list: seq<int>, op: Op): (r: seq<int>)
    requires |list| >= 1
    ensures |r| >= 1
  {
    match op
    case DoMark(p) => MarkSlot(list, p)
    case DoCheck(dead) => CheckSlots(list, dead)
  }

  function Run(list: seq<int>, ops: seq<Op>): (r: seq<int>)
    requires |list| >= 1
    ensures |r| >= 1
    decreases |ops|
  {
    if ops == [] then list else Run(Apply(list, ops[0]), ops[1..])
  }

  /** The largest number of orphans at any moment of the run. */
  function Peak(list: seq<int>, ops: seq<Op>): nat
    requires |list| >= 1
    decreases |ops|
  {
    if ops == [] then |Groups(list)| else Zoo.Max(|Groups(list)|, Peak(Apply(list, ops[0]), ops[1..]))
  }

  /** The list is as long as the peak number of simultaneous orphans demands, and no longer. */
  lemma {:induction false} ListIsPeakSized(list: seq<int>, ops: seq<Op>)
    requires |list| >= 1
    requires forall i :: 0 <= i < |ops| && ops[i].DoMark? ==> ops[i].pgrp != 0
    ensures |Run(list, ops)| == Zoo.Max(|list|, Peak(list, ops))
    decreases |ops|
  {
    GroupsSize(list);
    if ops != [] {
      var next := Apply(list, ops[0]);
      if ops[0].DoMark? { MarkEffect(list, ops[0].pgrp); }
      GroupsSize(next);
      ListIsPeakSized(next, ops[1..]);
      PeakAtLeastNow(next, ops[1..]);
    }
  }

  lemma {:induction false} PeakAtLeastNow(list: seq<int>, ops: seq<Op>)
    requires |list| >= 1
    ensures |Groups(list)| <= Peak(list, ops)
  {
  }

  // ------------------------------------------------------------ linked nodes

  class Node {
    var pgrp: int
    var next: Node?

    constructor (pgrp: int, next: Node?)
      ensures this.pgrp == pgrp && this.next == next
    {
      this.pgrp := pgrp;
      this.next := next;
    }
  }

  class OrphanList {
    const head: Node
    ghost var nodes: seq<Node>
    ghost var list: seq<int>  // the pgrp fields, from the head on

    /** The next pointers lead from the head through distinct nodes to null: the list is acyclic. */
    ghost predicate Valid()
      reads this, nodes
    {
      && nodes != [] && nodes[0] == head && |list| == |nodes|
      && (forall i, j :: 0 <= i < j < |nodes| ==> nodes[i] != nodes[j])
      && (forall i {:trigger nodes[i].next} :: 0 <= i < |nodes| - 1 ==> nodes[i].next == nodes[i + 1])
      && nodes[|nodes| - 1].next == null
      && (forall i {:trigger nodes[i].pgrp} :: 0 <= i < |nodes| ==> nodes[i].pgrp == list[i])
    }

    constructor ()
      ensures Valid() && list == [0] && fresh(nodes)
    {
      head := new Node(0, null);
      nodes := [head];
      list := [0];
    }

    /** The first unused node; null if there is none. */
    method FirstUnused() returns (orph: Node?)
      requires Valid()
      ensures orph == if FirstZero(list) < |nodes| then nodes[FirstZero(list)] else null
    {
      orph := head;
      ghost var i := 0;
      while orph != null && orph.pgrp != 0
        invariant 0 <= i <= |nodes|
        invariant i < |nodes| ==> orph == nodes[i]
        invariant i == |nodes| ==> orph == null
        invariant FirstZero(list) == i + FirstZero(list[i..])
        decreases |nodes| - i
      {
        assert list[i..][0] == nodes[i].pgrp && list[i..][1..] == list[i + 1..];
        assert nodes[i].next == if i < |nodes| - 1 then nodes[i + 1] else null;
        orph := orph.next;
        i := i + 1;
      }
    }

    /** Links a new node in just after the head. */
    method InsertAfterHead(orph: Node)
      requires Valid() && orph !in nodes
      modifies this, head, orph
      ensures Valid() && nodes == [head, orph] + old(nodes)[1..]
      ensures list == [old(list)[0], old(orph.pgrp)] + old(list)[1..]
    {
      orph.next := head.next;
      head.next := orph;
      nodes := [head, orph] + nodes[1..];
      list := [list[0], orph.pgrp] + list[1..];
      assert forall k :: 2 <= k < |nodes| ==> nodes[k] == old(nodes)[k - 1];
    }

    method Mark(pgrp: int)
      requires Valid()
      modifies this, nodes
      ensures Valid() && list == MarkSlot(old(list), pgrp)
      ensures forall k :: 0 <= k < |nodes| ==> nodes[k] in old(nodes) || fresh(nodes[k])
    {
      var orph := FirstUnused();
      if orph == null {
        orph := new Node(pgrp, null);
        InsertAfterHead(orph);
      } else {
        orph.pgrp := pgrp;
        list := list[FirstZero(list) := pgrp];
      }
    }

    /** check_orphans: kill(-pgrp, sig) answers ESRCH exactly for the groups in `dead`. */
    method Check(dead: set<int>, sig: int, zoofile: Zoo.ZooFile) returns (sent: seq<Kill>, missed: nat)
      requires Valid()
      modifies this, nodes, zoofile
      ensures Valid() && nodes == old(nodes) && list == CheckSlots(old(list), dead)
      ensures zoofile.bytes == CheckZoo(old(list), dead, old(zoofile.bytes))
      ensures sent == Kills(old(list), sig) && missed == Misses(old(list), dead, old(zoofile.bytes))
    {
      hide CheckZoo, CheckZooOne, Kills, Misses, Zoo.Finds;
      sent, missed := [], 0;
      ghost var was := list;
      var orph: Node? := head;
      ghost var i := 0;
      assert was[0..] == was;
      while orph != null
        invariant 0 <= i <= |nodes| && Valid() && nodes == old(nodes)
        invariant i < |nodes| ==> orph == nodes[i]
        invariant i == |nodes| ==> orph == null
        invariant forall k :: 0 <= k < |was| ==> list[k] == if k < i then CheckOne(was[k], dead) else was[k]
        invariant CheckZoo(was, dead, old(zoofile.bytes)) == CheckZoo(was[i..], dead, zoofile.bytes)
        invariant sent + Kills(was[i..], sig) == Kills(was, sig)
        invariant missed + Misses(was[i..], dead, zoofile.bytes) == Misses(was, dead, old(zoofile.bytes))
        decreases |nodes| - i
      {
        assert nodes[i].next == if i < |nodes| - 1 then nodes[i + 1] else null;
        CheckZooStep(was, i, dead, zoofile.bytes);
        KillsStep(was, i, sig);
        if orph.pgrp != 0 {
          sent := sent + [Kill(orph.pgrp, sig)];
        }
        MissesStep(was, i, dead, zoofile.bytes);
        var found := CheckNode(orph, i, dead, zoofile);
        if !found {
          missed := missed + 1;
        }
        orph := orph.next;
        i := i + 1;
      }
      AtTheEnd(was[i..], dead, zoofile.bytes, sig);
    }

    /** `found` is false when check_orphans reports that zoo_clear found no entry. */
    method CheckNode(orph: Node, ghost i: nat, dead: set<int>, zoofile: Zoo.ZooFile) returns (found: bool)
      requires Valid() && i < |nodes| && nodes[i] == orph
      modifies this`list, orph`pgrp, zoofile
      ensures Valid() && list == old(list)[i := CheckOne(old(list)[i], dead)]
      ensures zoofile.bytes == CheckZooOne(old(list)[i], dead, old(zoofile.bytes))
      ensures !found <==> old(list)[i] != 0 && old(list)[i] in dead && !Zoo.Finds(old(zoofile.bytes), old(list)[i])
    {
      found := true;
      if orph.pgrp != 0 && orph.pgrp in dead {
        var ret := zoofile.Clear(orph.pgrp);
        found := ret == 0;
        orph.pgrp := 0;
      }
      list := list[i := orph.pgrp];
    }
  }
}
