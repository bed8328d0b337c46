/** The zoo file as a list of slots, each free or holding one process group with its tag and command line, and the
    search by tag. */
module ZooSlots {
  import opened Zoo
  import opened Decimal

  datatype Slot = Empty | Used(pid: int, tag: string, cmdline: string)

  predicate OkSlot(s: Slot) {
    s.Used? ==> -0x8000_0000 <= s.pid < 0x8000_0000 && '\n' !in s.tag && '\n' !in s.cmdline
  }

  function Text(s: Slot): string
    requires s.Used?
  {
    Pad(Entry(s.pid, s.tag, s.cmdline), 79)
  }

  /** A free line may hold any old text after its '#'. */
  predicate Shows(line: string, s: Slot) {
    OkSlot(s) && if s.Empty? then IsLine(line) && Free(line) else line == Text(s)
  }

  predicate ShowsAll(lines: seq<string>, slots: seq<Slot>) {
    |lines| == |slots| && forall i :: 0 <= i < |lines| ==> Shows(lines[i], slots[i])
  }

  // ------------------------------------------------------------- first fit on slots

  function FirstEmpty(slots: seq<Slot>): (i: nat)
    ensures i <= |slots| && (i < |slots| ==> slots[i].Empty?)
    ensures forall k :: 0 <= k < i ==> slots[k].Used?
  {
    if slots == [] || slots[0].Empty? then 0 else 1 + FirstEmpty(slots[1..])
  }

  function FirstUsed(slots: seq<Slot>, pid: int): (i: nat)
    ensures i <= |slots| && (i < |slots| ==> slots[i].Used? && slots[i].pid == pid)
    ensures forall k :: 0 <= k < i ==> !(slots[k].Used? && slots[k].pid == pid)
  {
    if slots == [] || (slots[0].Used? && slots[0].pid == pid) then 0 else 1 + FirstUsed(slots[1..], pid)
  }

  function Apply(slots: seq<Slot>, op: Op): seq<Slot> {
    match op
    case Mark(pid, tag, cmdline) =>
      var i := FirstEmpty(slots);
      if i < |slots| then slots[i := Used(pid, tag, cmdline)] else slots + [Used(pid, tag, cmdline)]
    case Clear(pid) =>
      var i := FirstUsed(slots, pid);
      if i < |slots| then slots[i := Empty] else slots
  }

  function Run(slots: seq<Slot>, ops: seq<Op>): seq<Slot>
    decreases |ops|
  {
    if ops == [] then slots else Run(Apply(slots, ops[0]), ops[1..])
  }

  lemma {:induction false} ShownLine(line: string, s: Slot)
    requires Shows(line, s)
    ensures IsLine(line) && (Free(line) <==> s.Empty?)
    ensures s.Used? ==> Atoi(line) == s.pid
  {
    if s.Used? { MarkedLineReadsBack(s.pid, s.tag, s.cmdline); }
  }

  lemma {:induction false} ShownLines(lines: seq<string>, slots: seq<Slot>)
    requires ShowsAll(lines, slots)
    ensures AllLines(lines)
    ensures forall i :: 0 <= i < |lines| ==> (Free(lines[i]) <==> slots[i].Empty?)
    ensures forall i :: 0 <= i < |lines| && slots[i].Used? ==> Atoi(lines[i]) == slots[i].pid
  {
    forall i | 0 <= i < |lines|
      ensures IsLine(lines[i]) && (Free(lines[i]) <==> slots[i].Empty?)
      ensures slots[i].Used? ==> Atoi(lines[i]) == slots[i].pid
    {
      assert Shows(lines[i], slots[i]);
      ShownLine(lines[i], slots[i]);
    }
  }

  lemma {:induction false} SameFirstFree(lines: seq<string>, slots: seq<Slot>)
    requires ShowsAll(lines, slots)
    ensures AllLines(lines) && FirstFree(lines) == FirstEmpty(slots)
  {
    hide FirstFree, FirstEmpty, Shows, Free;
    ShownLines(lines, slots);
    var i, j := FirstFree(lines), FirstEmpty(slots);
    assert i < |lines| ==> (Free(lines[i]) <==> slots[i].Empty?);
    assert j < |lines| ==> (Free(lines[j]) <==> slots[j].Empty?);
  }

  lemma {:induction false} SameFirstOf(lines: seq<string>, slots: seq<Slot>, pid: int)
    requires ShowsAll(lines, slots)
    ensures AllLines(lines) && FirstOf(lines, pid) == FirstUsed(slots, pid)
  {
    hide FirstOf, FirstUsed, Shows, Atoi, Free;
    ShownLines(lines, slots);
    var i, j := FirstOf(lines, pid), FirstUsed(slots, pid);
    assert i < |lines| ==> (Carries(lines[i], pid) <==> slots[i].Used? && slots[i].pid == pid);
    assert j < |lines| ==> (Carries(lines[j], pid) <==> slots[j].Used? && slots[j].pid == pid);
  }

  /** Each operation on the file is the operation on the slots, texts included. */
  lemma {:induction false} ApplyShows(lines: seq<string>, slots: seq<Slot>, op: Op) returns (after: seq<string>)
    requires ShowsAll(lines, slots) && OkOp(op)
    ensures ShowsAll(after, Apply(slots, op)) && ApplyBytes(Flatten(lines), op) == Flatten(after)
  {
    hide Flatten, MarkBytes, ClearBytes, FirstFree, FirstOf, FirstEmpty, FirstUsed, Pad, Entry, Fgets;
    ShownLines(lines, slots);
    if op.Mark? {
      EntryHasNoNewline(op.pid, op.tag, op.cmdline);
      MarkRefines(lines, Entry(op.pid, op.tag, op.cmdline));
      SameFirstFree(lines, slots);
      after := MarkLine(lines, Pad(Entry(op.pid, op.tag, op.cmdline), 79));
    } else {
      ClearRefines(lines, op.pid);
      SameFirstOf(lines, slots, op.pid);
      after := ClearLine(lines, op.pid);
    }
  }

  /** After any run from the empty file the file is exactly the first-fit slot list: free lines and, for each used
      slot, the 80 bytes printed for its pid, tag and command line. */
  lemma {:induction false} RunShows(lines: seq<string>, slots: seq<Slot>, ops: seq<Op>) returns (after: seq<string>)
    requires ShowsAll(lines, slots) && AllOk(ops)
    ensures ShowsAll(after, Run(slots, ops)) && RunBytes(Flatten(lines), ops) == Flatten(after)
    decreases |ops|
  {
    hide Flatten, ApplyBytes, Apply, ShowsAll;
    if ops == [] {
      after := lines;
    } else {
      var next := ApplyShows(lines, slots, ops[0]);
      after := RunShows(next, Apply(slots, ops[0]), ops[1..]);
    }
  }

  // ----------------------------------------------------------------- search by tag

  /** strchr(buf, ','); the length of the text if there is none. */
  function Comma(buf: string): (i: nat)
    ensures i <= |buf| && (i < |buf| ==> buf[i] == ',') && forall k :: 0 <= k < i ==> buf[k] != ','
  {
    if buf == [] || buf[0] == ',' then 0 else 1 + Comma(buf[1..])
  }

  /** The line is live and what follows its first comma starts with the tag. */
  predicate Tagged(buf: string, tag: string) {
    buf != [] && buf[0] != '#' && Comma(buf) < |buf| && tag <= buf[Comma(buf) + 1..]
  }

  function TagPos(file: string, pos: nat, tag: string): (p: nat)
    requires pos <= |file|
    ensures pos <= p <= |file|
    decreases |file| - pos
  {
    var buf := Buf(file[pos..]);
    if buf == [] || Tagged(buf, tag) then pos else TagPos(file, pos + |buf|, tag)
  }

  /** zoo_getpid. */
  function GetPid(file: string, tag: string): int {
    var p := TagPos(file, 0, tag);
    if p == |file| then -1 else Atoi(Buf(file[p..]))
  }

  /** The loop of zoo_getpid. */
  method ZooGetPid(file: string, tag: string) returns (pid: int)
    ensures pid == GetPid(file, tag)
  {
    pid := -1;
    var pos := 0;
    var buf := Buf(file[0..]);
    while buf != []
      invariant 0 <= pos <= |file| && buf == Buf(file[pos..]) && pid == -1
      invariant TagPos(file, 0, tag) == TagPos(file, pos, tag)
      decreases |file| - pos
    {
      if buf[0] != '#' && Comma(buf) < |buf| && tag <= buf[Comma(buf) + 1..] {
        return Atoi(buf);
      }
      pos := pos + |buf|;
      buf := Buf(file[pos..]);
    }
  }

  /** What a line says behind the pid and its comma. */
  function Field(s: Slot): string
    requires s.Used? && OkSlot(s)
  {
    PrintIntLength(s.pid);
    Pad(s.tag + "," + s.cmdline, 78 - |PrintInt(s.pid)|)
  }

  /** The slot is one that a search for the tag finds. */
  predicate Answers(s: Slot, tag: string) {
    s.Used? && OkSlot(s) && tag <= Field(s)
  }

  function FirstAnswer(slots: seq<Slot>, tag: string): (i: nat)
    ensures i <= |slots| && (i < |slots| ==> Answers(slots[i], tag))
    ensures forall k :: 0 <= k < i ==> !Answers(slots[k], tag)
  {
    if slots == [] || Answers(slots[0], tag) then 0 else 1 + FirstAnswer(slots[1..], tag)
  }

  lemma {:induction false} PadBehind(head: string, body: string, width: nat)
    requires |head| <= width
    ensures Pad(head + body, width) == head + Pad(body, width - |head|)
  {
    var s := head + body;
    if |s| >= width {
      assert s[..width] == head + body[..width - |head|];
    } else {
      assert s + Spaces(width - |s|) == head + (body + Spaces(width - |head| - |body|));
    }
  }

  lemma {:induction false} PadOfCut(s: string, width: nat)
    ensures Pad(if |s| <= width then s else s[..width], width) == Pad(s, width)
  {
  }

  lemma {:induction false} TextIsField(s: Slot)
    requires s.Used? && OkSlot(s)
    ensures Text(s) == PrintInt(s.pid) + "," + Field(s)
  {
    var head, body := PrintInt(s.pid) + ",", s.tag + "," + s.cmdline;
    PrintIntLength(s.pid);
    assert head + body == PrintInt(s.pid) + "," + s.tag + "," + s.cmdline;
    PadOfCut(head + body, 79);
    PadBehind(head, body, 79);
  }

  lemma {:induction false} CommaIs(buf: string, i: nat)
    requires i < |buf| && buf[i] == ',' && forall k :: 0 <= k < i ==> buf[k] != ','
    ensures Comma(buf) == i
  {
    assert Comma(buf) < |buf| ==> buf[Comma(buf)] == ',';
  }

  lemma {:induction false} PrintedHasNoComma(n: int)
    ensures PrintInt(n) != [] && PrintInt(n)[0] != '#' && ',' !in PrintInt(n)
  {
    AtoiOfPrinted(n, ",");
  }

  lemma {:induction false} TaggedText(p: string, rest: string, tag: string)
    requires p != [] && p[0] != '#' && ',' !in p
    ensures Tagged(p + "," + rest, tag) <==> tag <= rest
  {
    var text := p + "," + rest;
    CommaIs(text, |p|);
    assert text[|p| + 1..] == rest;
  }

  /** A line is one that the search finds exactly when its slot answers to the tag. */
  lemma {:induction false} TaggedExactly(line: string, s: Slot, tag: string)
    requires Shows(line, s)
    ensures Tagged(line, tag) <==> Answers(s, tag)
  {
    if s.Used? {
      hide Text, Tagged, Field;
      PrintedHasNoComma(s.pid);
      TextIsField(s);
      TaggedText(PrintInt(s.pid), Field(s), tag);
    }
  }

  lemma {:induction false} TagPosRefines(lines: seq<string>, slots: seq<Slot>, k: nat, tag: string)
    requires ShowsAll(lines, slots) && k <= |lines|
    ensures LINE * k <= |Flatten(lines)|
    ensures TagPos(Flatten(lines), LINE * k, tag) == LINE * (k + FirstAnswer(slots[k..], tag))
    decreases |lines| - k
  {
    hide Flatten, Fgets, Buf, Tagged, Text, Answers, Shows;
    ShownLines(lines, slots);
    BufAt(lines, k);
    if k < |lines| {
      assert Shows(lines[k], slots[k]);
      TaggedExactly(lines[k], slots[k], tag);
      if !Answers(slots[k], tag) {
        TagPosRefines(lines, slots, k + 1, tag);
        assert slots[k..][1..] == slots[k + 1..];
      }
    }
  }

  /** After any run of marks and clears zoo_getpid gives the pid of the first slot that answers to the tag, and -1 if
      there is none. */
  lemma {:induction false} GetPidIsFirstAnswer(ops: seq<Op>, tag: string)
    requires AllOk(ops)
    ensures var slots := Run([], ops); var i := FirstAnswer(slots, tag);
      GetPid(RunBytes("", ops), tag) == if i < |slots| then slots[i].pid else -1
  {
    hide Run, RunBytes, Text, Tagged, FirstAnswer, Fgets, Field;
    var slots := Run([], ops);
    assert Flatten([]) == "";
    var lines := RunShows([], [], ops);
    var i := FirstAnswer(slots, tag);
    TagPosRefines(lines, slots, 0, tag);
    assert slots[0..] == slots;
    ShownLines(lines, slots);
    BufAt(lines, i);
    FlattenSize(lines);
  }

  /** Slot i answers to the tag, has the pid, and no slot before it answers with another pid. */
  predicate Leads(slots: seq<Slot>, tag: string, pid: int, i: nat) {
    i < |slots| && Answers(slots[i], tag) && slots[i].pid == pid
    && forall j :: 0 <= j < i && Answers(slots[j], tag) ==> slots[j].pid == pid
  }

  /** A process group is found under its own tag exactly when a slot with its pid leads those that answer to the tag. A pid
      of -1 is also "found" when nobody answers. */
  lemma {:induction false} FoundByTagExactly(ops: seq<Op>, k: nat)
    requires AllOk(ops) && k < |Run([], ops)| && Run([], ops)[k].Used?
    ensures var slots := Run([], ops); var tag := slots[k].tag; var pid := slots[k].pid;
      GetPid(RunBytes("", ops), tag) == pid <==>
        || (exists i :: 0 <= i < |slots| && Leads(slots, tag, pid, i))
        || (pid == -1 && forall i :: 0 <= i < |slots| ==> !Answers(slots[i], tag))
  {
    hide Run, RunBytes, GetPid, FirstAnswer, Field;
    var slots := Run([], ops);
    var tag, pid := slots[k].tag, slots[k].pid;
    GetPidIsFirstAnswer(ops, tag);
    var f := FirstAnswer(slots, tag);
    if f < |slots| {
      assert slots[f].pid == pid ==> Leads(slots, tag, pid, f);
      if i :| 0 <= i < |slots| && Leads(slots, tag, pid, i) { assert Answers(slots[f], tag) && f <= i; }
    }
  }

  /** If its pid is listed once, that is exactly when its own slot answers to the tag, which it does unless the tag is cut
      off, and no slot before it does. */
  lemma {:induction false} FoundWhenListedOnce(ops: seq<Op>, k: nat)
    requires AllOk(ops) && k < |Run([], ops)| && Run([], ops)[k].Used? && Run([], ops)[k].pid != -1
    requires forall i :: 0 <= i < |Run([], ops)| && Run([], ops)[i].Used? && i != k ==> Run([], ops)[i].pid != Run([], ops)[k].pid
    ensures var slots := Run([], ops); var tag := slots[k].tag;
      GetPid(RunBytes("", ops), tag) == slots[k].pid <==>
        Answers(slots[k], tag) && forall i :: 0 <= i < k ==> !Answers(slots[i], tag)
  {
    hide Run, RunBytes, GetPid, Field;
    var slots := Run([], ops);
    FoundByTagExactly(ops, k);
    assert (exists i :: 0 <= i < |slots| && Leads(slots, slots[k].tag, slots[k].pid, i)) <==> Leads(slots, slots[k].tag, slots[k].pid, k);
  }

  /** A tag without a comma that fits into the line together with the pid and both commas. */
  predicate TagFits(s: Slot) {
    s.Used? ==> ',' !in s.tag && |PrintInt(s.pid)| + |s.tag| + 2 <= 79
  }

  /** To such a slot a search for a tag without a comma comes down to a prefix of the slot's tag. */
  lemma {:induction false} AnswersByPrefix(s: Slot, tag: string)
    requires s.Used? && OkSlot(s) && TagFits(s) && ',' !in tag
    ensures Answers(s, tag) <==> tag <= s.tag
  {
    PrintIntLength(s.pid);
    var head := s.tag + ",";
    assert s.tag + "," + s.cmdline == head + s.cmdline;
    PadBehind(head, s.cmdline, 78 - |PrintInt(s.pid)|);
    var field := Field(s);
    assert field[..|s.tag|] == s.tag && field[|s.tag|] == ',';
    PrefixUpToComma(field, s.tag, tag);
  }

  lemma {:induction false} PrefixUpToComma(rest: string, own: string, tag: string)
    requires |own| < |rest| && rest[..|own|] == own && rest[|own|] == ',' && ',' !in tag
    ensures tag <= rest <==> tag <= own
  {
    if tag <= rest {
      assert forall k :: 0 <= k < |tag| ==> tag[k] == rest[k];
      assert tag == rest[..|tag|];
    }
    if tag <= own {
      assert tag == own[..|tag|] == rest[..|own|][..|tag|];
    }
  }

  /** So an entry can hide one after it: with "ab" marked for pid 1 and "a" for pid 2, the search for "a" gives 1. */
  lemma {:induction false} EarlierTagHides()
    ensures GetPid(RunBytes("", [Mark(1, "ab", ""), Mark(2, "a", "")]), "a") == 1
  {
    hide GetPid, RunBytes, Field, Entry, Pad;
    var one, two := Used(1, "ab", ""), Used(2, "a", "");
    var ops := [Mark(1, "ab", ""), Mark(2, "a", "")];
    assert Apply([], ops[0]) == [one] && Apply([one], ops[1]) == [one, two];
    assert ops[1..] == [ops[1]] && [ops[1]][1..] == [];
    assert Run([one, two], []) == [one, two] && Run([one], [ops[1]]) == Run([one, two], []);
    assert Run([], ops) == [one, two];
    GetPidIsFirstAnswer(ops, "a");
    assert PrintInt(1) == "1";
    AnswersByPrefix(one, "a");
    assert FirstAnswer([one, two], "a") == 0;
  }
}
