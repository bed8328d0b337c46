/** The start of pan's main marks the small numbers below keep_active in the zoo file and clears them again, so that lines
    are free later on. Whether that leaves the other entries in the file as they were. */
module PanSpaces {
  import opened PanModel
  import opened ZooSlots
  import Zoo

  type Line = ZooSlots.Slot

  /** The slots after the first n spaces have been marked. */
  function Marked(cfg: Config, n: nat, slots: seq<Line>): seq<Line> {
    if n == 0 then slots else Apply(Marked(cfg, n - 1, slots), Zoo.Mark(n - 1, cfg.panname, ""))
  }

  /** The slots after the first n spaces have been cleared. */
  function Cleared(n: nat, slots: seq<Line>): seq<Line> {
    if n == 0 then slots else Apply(Cleared(n - 1, slots), Zoo.Clear(n - 1))
  }

  /** The line that space c gets. */
  function Place(cfg: Config, slots: seq<Line>, c: nat): nat { FirstEmpty(Marked(cfg, c, slots)) }

  /** An entry with the number of the space stands before the line that the space gets. */
  predicate Blocked(cfg: Config, slots: seq<Line>, c: nat) {
    exists j :: 0 <= j < |slots| && j < Place(cfg, slots, c) && slots[j].Used? && slots[j].pid == c
  }

  /** Every slot is as it was, and the lines that were added are free. */
  predicate Kept(slots: seq<Line>, after: seq<Line>) {
    |after| >= |slots| && forall j :: 0 <= j < |after| ==> after[j] == if j < |slots| then slots[j] else Empty
  }

  /** Which of the first n spaces has got line j; -1 if none has. */
  function Owner(cfg: Config, slots: seq<Line>, n: nat, j: nat): (k: int)
    ensures -1 <= k < n && (k >= 0 ==> Place(cfg, slots, k) == j)
  {
    if n == 0 then -1 else if Place(cfg, slots, n - 1) == j then n - 1 else Owner(cfg, slots, n - 1, j)
  }

  predicate MarkedAt(cfg: Config, slots: seq<Line>, n: nat, j: nat) {
    && j < |Marked(cfg, n, slots)|
    && var k := Owner(cfg, slots, n, j);
    if k >= 0 then Marked(cfg, n, slots)[j] == Used(k, cfg.panname, "") && (j < |slots| ==> slots[j].Empty?)
    else j < |slots| && Marked(cfg, n, slots)[j] == slots[j]
  }

  lemma {:induction false} MarkedIs(cfg: Config, slots: seq<Line>, n: nat)
    ensures |Marked(cfg, n, slots)| >= |slots|
    ensures forall j :: 0 <= j < |Marked(cfg, n, slots)| ==> MarkedAt(cfg, slots, n, j)
  {
    if n > 0 {
      MarkedIs(cfg, slots, n - 1);
      forall j | 0 <= j < |Marked(cfg, n, slots)| ensures MarkedAt(cfg, slots, n, j) {
        assert j < |Marked(cfg, n - 1, slots)| ==> MarkedAt(cfg, slots, n - 1, j);
        NoOwnerBeyond(cfg, slots, n - 1, j);
      }
    }
  }

  lemma {:induction false} NoOwnerBeyond(cfg: Config, slots: seq<Line>, n: nat, j: nat)
    ensures Owner(cfg, slots, n, j) >= 0 ==> j < |Marked(cfg, n, slots)|
  {
    if n > 0 { NoOwnerBeyond(cfg, slots, n - 1, j); }
  }

  /** No two spaces get the same line. */
  lemma {:induction false} OwnerOfPlace(cfg: Config, slots: seq<Line>, n: nat, k: nat)
    requires k < n
    ensures Owner(cfg, slots, n, Place(cfg, slots, k)) == k
    ensures Place(cfg, slots, k) < |Marked(cfg, n, slots)|
  {
    hide Place;
    var j := Place(cfg, slots, k);
    if k < n - 1 {
      OwnerOfPlace(cfg, slots, n - 1, k);
      MarkedIs(cfg, slots, n - 1);
      assert MarkedAt(cfg, slots, n - 1, j);
      PlaceIsFree(cfg, slots, n - 1);
    }
    NoOwnerBeyond(cfg, slots, n, j);
  }

  lemma {:induction false} PlaceIsFree(cfg: Config, slots: seq<Line>, c: nat)
    ensures var p := Place(cfg, slots, c); p < |Marked(cfg, c, slots)| ==> Marked(cfg, c, slots)[p].Empty?
  {
  }

  /** All n spaces have been marked and the first c cleared again, each in its own line. */
  predicate Halfway(cfg: Config, slots: seq<Line>, n: nat, c: nat, now: seq<Line>) {
    && |now| == |Marked(cfg, n, slots)|
    && forall j :: 0 <= j < |now| ==>
         var k := Owner(cfg, slots, n, j);
         now[j] == if k >= c then Used(k, cfg.panname, "") else if j < |slots| then slots[j] else Empty
  }

  lemma {:induction false} AllMarked(cfg: Config, slots: seq<Line>, n: nat)
    ensures Halfway(cfg, slots, n, 0, Marked(cfg, n, slots))
  {
    hide Marked, Owner;
    MarkedIs(cfg, slots, n);
    forall j | 0 <= j < |Marked(cfg, n, slots)|
      ensures var k := Owner(cfg, slots, n, j);
        Marked(cfg, n, slots)[j] == if k >= 0 then Used(k, cfg.panname, "") else if j < |slots| then slots[j] else Empty
    {
      assert MarkedAt(cfg, slots, n, j);
    }
  }

  /** A clear that is not blocked takes the space away again. */
  lemma {:induction false} ClearSpace(cfg: Config, slots: seq<Line>, n: nat, c: nat, now: seq<Line>)
    requires c < n && Halfway(cfg, slots, n, c, now) && !Blocked(cfg, slots, c)
    ensures Halfway(cfg, slots, n, c + 1, Apply(now, Zoo.Clear(c)))
  {
    hide Marked, Owner, Place;
    OwnerOfPlace(cfg, slots, n, c);
    MarkedIs(cfg, slots, n);
    var p := Place(cfg, slots, c);
    assert MarkedAt(cfg, slots, n, p);
    assert now[p] == Used(c, cfg.panname, "");
    var f := FirstUsed(now, c);
    assert f == p;
  }

  /** One that is blocked takes the other entry, for good. */
  lemma {:induction false} ClearBlocked(cfg: Config, slots: seq<Line>, n: nat, c: nat, now: seq<Line>) returns (f: nat)
    requires c < n && Halfway(cfg, slots, n, c, now) && Blocked(cfg, slots, c)
    ensures f < |slots| && slots[f].Used? && |now| >= |slots|
    ensures Apply(now, Zoo.Clear(c))[f].Empty? && |Apply(now, Zoo.Clear(c))| == |now|
  {
    hide Marked, Owner, Place;
    var j :| 0 <= j < |slots| && j < Place(cfg, slots, c) && slots[j].Used? && slots[j].pid == c;
    MarkedIs(cfg, slots, n);
    assert MarkedAt(cfg, slots, n, j);
    assert now[j] == slots[j];
    f := FirstUsed(now, c);
    assert f <= j;
    assert MarkedAt(cfg, slots, n, f);
  }

  lemma {:induction false} StaysEmpty(slots: seq<Line>, c: nat, n: nat, f: nat)
    requires c <= n && f < |Cleared(c, slots)| && Cleared(c, slots)[f].Empty?
    ensures f < |Cleared(n, slots)| && Cleared(n, slots)[f].Empty?
  {
    if c < n { StaysEmpty(slots, c, n - 1, f); }
  }

  /** While none is blocked each clear takes its space away. */
  lemma {:induction false} ClearsSpaces(cfg: Config, slots: seq<Line>, n: nat, c: nat)
    requires c <= n && forall k :: 0 <= k < c ==> !Blocked(cfg, slots, k)
    ensures Halfway(cfg, slots, n, c, Cleared(c, Marked(cfg, n, slots)))
  {
    hide Halfway, Blocked;
    if c == 0 {
      AllMarked(cfg, slots, n);
    } else {
      ClearsSpaces(cfg, slots, n, c - 1);
      ClearSpace(cfg, slots, n, c - 1, Cleared(c - 1, Marked(cfg, n, slots)));
    }
  }

  /** Marking and clearing the spaces leaves every entry in its line if and only if no entry with the number of a space
      stands before the line that this space gets. */
  lemma {:induction false} KeptExactly(cfg: Config, slots: seq<Line>, n: nat)
    ensures Kept(slots, Cleared(n, Marked(cfg, n, slots))) <==> forall c :: 0 <= c < n ==> !Blocked(cfg, slots, c)
  {
    hide Blocked, Marked, Owner;
    if c :| 0 <= c < n && Blocked(cfg, slots, c) {
      var b := FirstBlocked(cfg, slots, c);
      ClearsSpaces(cfg, slots, n, b);
      var f := ClearBlocked(cfg, slots, n, b, Cleared(b, Marked(cfg, n, slots)));
      StaysEmpty(Marked(cfg, n, slots), b + 1, n, f);
    } else {
      ClearsSpaces(cfg, slots, n, n);
      MarkedIs(cfg, slots, n);
    }
  }

  lemma {:induction false} FirstBlocked(cfg: Config, slots: seq<Line>, c: nat) returns (b: nat)
    requires Blocked(cfg, slots, c)
    ensures b <= c && Blocked(cfg, slots, b) && forall k :: 0 <= k < b ==> !Blocked(cfg, slots, k)
    decreases c
  {
    hide Blocked;
    if k :| 0 <= k < c && Blocked(cfg, slots, k) { b := FirstBlocked(cfg, slots, k); } else { b := c; }
  }

  // ------------------------------------------------------------- the file

  /** These are the slots of the file when main has come to its loop. */
  lemma {:induction false} StartShows(cfg: Config, starts: int, forkInRoad: bool, lines: seq<string>, slots: seq<Line>,
                                       others: multiset<int>) returns (after: seq<string>)
    requires WellFormed(cfg) && ShowsAll(lines, slots)
    ensures var own := Apply(slots, Zoo.Mark(cfg.pid, cfg.panname, cfg.args));
      && ShowsAll(after, Cleared(cfg.keepActive, Marked(cfg, cfg.keepActive, own)))
      && Init(cfg, starts, forkInRoad, Zoo.Flatten(lines), others).zoo == Zoo.Flatten(after)
  {
    hide ShowsAll, Zoo.Flatten, Zoo.ApplyBytes, Apply;
    var op := Zoo.Mark(cfg.pid, cfg.panname, cfg.args);
    var own := ApplyShows(lines, slots, op);
    var spaced := MarksShow(cfg, cfg.keepActive, own, Apply(slots, op));
    after := ClearsShow(cfg, cfg.keepActive, spaced, Marked(cfg, cfg.keepActive, Apply(slots, op)));
  }

  lemma {:induction false} MarksShow(cfg: Config, n: nat, lines: seq<string>, slots: seq<Line>) returns (after: seq<string>)
    requires WellFormed(cfg) && n <= cfg.keepActive && ShowsAll(lines, slots)
    ensures ShowsAll(after, Marked(cfg, n, slots)) && MarkSpaces(cfg, n, Zoo.Flatten(lines)) == Zoo.Flatten(after)
  {
    hide ShowsAll, Zoo.Flatten, Zoo.ApplyBytes, Apply;
    if n == 0 {
      after := lines;
    } else {
      var before := MarksShow(cfg, n - 1, lines, slots);
      after := ApplyShows(before, Marked(cfg, n - 1, slots), Zoo.Mark(n - 1, cfg.panname, ""));
    }
  }

  lemma {:induction false} ClearsShow(cfg: Config, n: nat, lines: seq<string>, slots: seq<Line>) returns (after: seq<string>)
    requires WellFormed(cfg) && n <= cfg.keepActive && ShowsAll(lines, slots)
    ensures ShowsAll(after, Cleared(n, slots)) && ClearSpaces(n, Zoo.Flatten(lines)) == Zoo.Flatten(after)
  {
    hide ShowsAll, Zoo.Flatten, Zoo.ApplyBytes, Apply;
    if n == 0 {
      after := lines;
    } else {
      var before := ClearsShow(cfg, n - 1, lines, slots);
      after := ApplyShows(before, Cleared(n - 1, slots), Zoo.Clear(n - 1));
    }
  }

  /** With two spaces an entry of process group 1 in the first line is lost: what is left under its number is pan's space. */
  lemma {:induction false} SpaceTakesEntry(cfg: Config, tag: string, cmdline: string)
    requires cfg.keepActive == 2 && cfg.pid > 1
    ensures var own := Apply([Used(1, tag, cmdline)], Zoo.Mark(cfg.pid, cfg.panname, cfg.args));
      && Blocked(cfg, own, 1) && !Kept(own, Cleared(2, Marked(cfg, 2, own)))
      && Cleared(2, Marked(cfg, 2, own)) == [Empty, own[1], Empty, Used(1, cfg.panname, "")]
  {
    var one := Used(1, tag, cmdline);
    var two := Used(cfg.pid, cfg.panname, cfg.args);
    var own := Apply([one], Zoo.Mark(cfg.pid, cfg.panname, cfg.args));
    assert own == [one, two];
    var a, b := Used(0, cfg.panname, ""), Used(1, cfg.panname, "");
    assert Marked(cfg, 1, own) == [one, two, a];
    assert Marked(cfg, 2, own) == [one, two, a, b];
    assert Cleared(1, [one, two, a, b]) == [one, two, Empty, b];
    assert Cleared(2, [one, two, a, b]) == [Empty, two, Empty, b];
  }
}
