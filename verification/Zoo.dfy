/** The zoo of zoolib.c: a text file of fixed-width lines, one for each live process group, edited in place.

    `MarkBytes` and `ClearBytes` say what the two operations do to any file. On a file made of whole lines they
    refine `MarkLine` and `ClearLine`, which work on a list of slots. */
module Zoo {
  import opened Decimal

  const BUFLEN: nat := 81
  const LINE: nat := 80

  // ----------------------------------------------------------- bytes of a file

  /** One call of fgets(buf, BUFLEN, fp): the text up to and including a newline, at most BUFLEN - 1 characters. */
  function Fgets(rest: string, room: nat): (buf: string)
    ensures buf <= rest && |buf| <= room
    ensures buf == [] <==> rest == [] || room == 0
  {
    if rest == [] || room == 0 then []
    else if rest[0] == '\n' then rest[..1]
    else [rest[0]] + Fgets(rest[1..], room - 1)
  }

  function Buf(rest: string): (buf: string)
    ensures buf <= rest && |buf| <= LINE
    ensures buf == [] <==> rest == []
  {
    Fgets(rest, BUFLEN - 1)
  }

  function Spaces(n: nat): (s: string)
    ensures |s| == n && forall c :: c in s ==> c == ' '
  {
    seq(n, _ => ' ')
  }

  /** The text holds no newline before its last character, and is cut short of the room only by a newline or the end. */
  lemma {:induction false} FgetsStops(rest: string, room: nat)
    ensures var buf := Fgets(rest, room);
      && (forall k :: 0 <= k < |buf| - 1 ==> buf[k] != '\n')
      && (|buf| == room || |buf| == |rest| || (buf != [] && buf[|buf| - 1] == '\n'))
  {
    if rest != [] && room > 0 && rest[0] != '\n' { FgetsStops(rest[1..], room - 1); }
  }

  /** "%-*.*s\n" with the width given twice: padded or truncated to exactly that width. */
  function Pad(entry: string, width: nat): (s: string)
    ensures |s| == width + 1
  {
    (if |entry| >= width then entry[..width] else entry + Spaces(width - |entry|)) + "\n"
  }

  /** Where the scan of zoo_mark, now at pos, finds its free line; the end of the file if there is none. */
  function FreePos(file: string, pos: nat): (p: nat)
    requires pos <= |file|
    ensures pos <= p <= |file|
    decreases |file| - pos
  {
    var buf := Buf(file[pos..]);
    if buf == [] || buf[0] == '#' then pos else FreePos(file, pos + |buf|)
  }

  /** zoo_mark: the free line is overwritten at its own width, or a line is written at the end. */
  function MarkBytes(file: string, entry: string): string {
    var p := FreePos(file, 0);
    var len := |Buf(file[p..])|;
    if len == 0 then file + Pad(entry, 79)
    else file[..p] + Pad(entry, len - 1) + file[p + len..]
  }

  /** The line fgets delivers belongs to the pid. */
  predicate Matches(buf: string, pid: int) {
    buf != [] && buf[0] != '#' && Atoi(buf) == pid
  }

  /** Where the scan of zoo_clear, now at pos, finds a line of the pid. */
  function PidPos(file: string, pos: nat, pid: int): (p: nat)
    requires pos <= |file|
    ensures pos <= p <= |file|
    decreases |file| - pos
  {
    var buf := Buf(file[pos..]);
    if buf == [] || Matches(buf, pid) then pos else PidPos(file, pos + |buf|, pid)
  }

  /** zoo_clear: the line is marked as free by its first character. */
  function ClearBytes(file: string, pid: int): string {
    var p := PidPos(file, 0, pid);
    if p == |file| then file else file[..p] + "#" + file[p + 1..]
  }

  /** Whether zoo_clear finds the pid; it returns 0 then and 1 otherwise. */
  predicate Finds(file: string, pid: int) {
    PidPos(file, 0, pid) < |file|
  }

  /** snprintf(new_entry, 80, "%d,%s,%s", p, tag, cmdline). */
  function Entry(pid: int, tag: string, cmdline: string): (s: string)
    ensures |s| <= 79
  {
    var full := PrintInt(pid) + "," + tag + "," + cmdline;
    if |full| <= 79 then full else full[..79]
  }

  // ------------------------------------------------------------ lists of lines

  predicate IsLine(s: string) {
    |s| == LINE && s[LINE - 1] == '\n' && forall i :: 0 <= i < LINE - 1 ==> s[i] != '\n'
  }

  predicate AllLines(lines: seq<string>) {
    forall i :: 0 <= i < |lines| ==> IsLine(lines[i])
  }

  predicate Free(s: string)
    requires IsLine(s)
  {
    s[0] == '#'
  }

  function Flatten(lines: seq<string>): string {
    if lines == [] then [] else lines[0] + Flatten(lines[1..])
  }

  predicate Carries(s: string, pid: int)
    requires IsLine(s)
  {
    !Free(s) && Atoi(s) == pid
  }

  function FirstFree(lines: seq<string>): (i: nat)
    requires AllLines(lines)
    ensures i <= |lines| && (i < |lines| ==> Free(lines[i]))
    ensures forall k :: 0 <= k < i ==> !Free(lines[k])
  {
    if lines == [] || Free(lines[0]) then 0 else 1 + FirstFree(lines[1..])
  }

  function FirstOf(lines: seq<string>, pid: int): (i: nat)
    requires AllLines(lines)
    ensures i <= |lines| && (i < |lines| ==> Carries(lines[i], pid))
    ensures forall k :: 0 <= k < i ==> !Carries(lines[k], pid)
  {
    if lines == [] || Carries(lines[0], pid) then 0 else 1 + FirstOf(lines[1..], pid)
  }

  /** First fit: the first free line is overwritten, or a new line is appended. */
  function MarkLine(lines: seq<string>, text: string): (r: seq<string>)
    requires AllLines(lines) && IsLine(text)
    ensures AllLines(r)
  {
    var i := FirstFree(lines);
    if i < |lines| then lines[i := text] else lines + [text]
  }

  function Freed(line: string): string
    requires IsLine(line)
  {
    "#" + line[1..]
  }

  /** The first live line of that pid becomes free; only its first character changes. */
  function ClearLine(lines: seq<string>, pid: int): (r: seq<string>)
    requires AllLines(lines)
    ensures AllLines(r)
  {
    var i := FirstOf(lines, pid);
    if i < |lines| then lines[i := Freed(lines[i])] else lines
  }

  lemma {:induction false} FgetsLine(line: string, rest: string, i: nat)
    requires IsLine(line) && i < LINE
    ensures Fgets(line[i..] + rest, LINE - i) == line[i..]
    decreases LINE - i
  {
    var s := line[i..] + rest;
    assert s[0] == line[i];
    if i < LINE - 1 {
      assert s[1..] == line[i + 1..] + rest;
      FgetsLine(line, rest, i + 1);
      assert line[i..] == [line[i]] + line[i + 1..];
    } else {
      assert s[..1] == line[i..];
    }
  }

  lemma {:induction false} BufLine(lines: seq<string>)
    requires AllLines(lines) && lines != []
    ensures Buf(Flatten(lines)) == lines[0] && Flatten(lines)[LINE..] == Flatten(lines[1..])
  {
    FgetsLine(lines[0], Flatten(lines[1..]), 0);
    assert lines[0][0..] == lines[0];
  }

  lemma {:induction false} PadIsLine(entry: string)
    requires '\n' !in entry
    ensures IsLine(Pad(entry, 79))
  {
  }

  lemma {:induction false} FlattenSize(lines: seq<string>)
    requires AllLines(lines)
    ensures |Flatten(lines)| == LINE * |lines|
  {
    if lines != [] { FlattenSize(lines[1..]); }
  }

  /** The k-th line starts at byte LINE * k. */
  lemma {:induction false} FlattenFrom(lines: seq<string>, k: nat)
    requires AllLines(lines) && k <= |lines|
    ensures LINE * k <= |Flatten(lines)| && Flatten(lines)[LINE * k..] == Flatten(lines[k..])
  {
    FlattenSize(lines);
    if k == 0 {
      assert lines[0..] == lines;
    } else {
      FlattenFrom(lines[1..], k - 1);
      assert lines[1..][k - 1..] == lines[k..];
      assert Flatten(lines)[LINE * k..] == Flatten(lines[1..])[LINE * (k - 1)..];
    }
  }

  /** Rewriting LINE bytes at a line boundary rewrites that line and no other. */
  lemma {:induction false} FlattenUpdate(lines: seq<string>, i: nat, text: string)
    requires AllLines(lines) && i < |lines| && IsLine(text)
    ensures LINE * (i + 1) <= |Flatten(lines)|
    ensures Flatten(lines[i := text]) == Flatten(lines)[..LINE * i] + text + Flatten(lines)[LINE * (i + 1)..]
  {
    FlattenSize(lines);
    var tail := lines[1..];
    if i == 0 {
      assert lines[0 := text][1..] == tail;
    } else {
      FlattenUpdate(tail, i - 1, text);
      assert lines[i := text][1..] == tail[i - 1 := text];
      assert Flatten(lines)[..LINE * i] == lines[0] + Flatten(tail)[..LINE * (i - 1)];
      assert Flatten(lines)[LINE * (i + 1)..] == Flatten(tail)[LINE * i..];
    }
  }

  lemma {:induction false} FlattenSnoc(lines: seq<string>, text: string)
    ensures Flatten(lines + [text]) == Flatten(lines) + text
  {
    if lines == [] {
      assert Flatten([text]) == text + Flatten([]);
    } else {
      FlattenSnoc(lines[1..], text);
      assert (lines + [text])[1..] == lines[1..] + [text];
    }
  }

  /** At a line boundary fgets delivers that line. */
  lemma {:induction false} BufAt(lines: seq<string>, k: nat)
    requires AllLines(lines) && k <= |lines|
    ensures LINE * k <= |Flatten(lines)| == LINE * |lines|
    ensures Buf(Flatten(lines)[LINE * k..]) == if k < |lines| then lines[k] else []
  {
    FlattenSize(lines);
    FlattenFrom(lines, k);
    if k < |lines| {
      BufLine(lines[k..]);
    }
  }

  lemma {:induction false} FreePosRefines(lines: seq<string>, k: nat)
    requires AllLines(lines) && k <= |lines|
    ensures LINE * k <= |Flatten(lines)|
    ensures FreePos(Flatten(lines), LINE * k) == LINE * (k + FirstFree(lines[k..]))
    decreases |lines| - k
  {
    hide Flatten, Buf;
    BufAt(lines, k);
    if k < |lines| && !Free(lines[k]) {
      FreePosRefines(lines, k + 1);
      assert lines[k..][1..] == lines[k + 1..];
    }
  }

  lemma {:induction false} PidPosRefines(lines: seq<string>, k: nat, pid: int)
    requires AllLines(lines) && k <= |lines|
    ensures LINE * k <= |Flatten(lines)|
    ensures PidPos(Flatten(lines), LINE * k, pid) == LINE * (k + FirstOf(lines[k..], pid))
    decreases |lines| - k
  {
    hide Flatten, Buf, Atoi;
    BufAt(lines, k);
    if k < |lines| && !Carries(lines[k], pid) {
      PidPosRefines(lines, k + 1, pid);
      assert lines[k..][1..] == lines[k + 1..];
    }
  }

  /** On whole lines zoo_mark is the first-fit list operation. */
  lemma {:induction false} MarkRefines(lines: seq<string>, entry: string)
    requires AllLines(lines) && '\n' !in entry
    ensures IsLine(Pad(entry, 79))
    ensures MarkBytes(Flatten(lines), entry) == Flatten(MarkLine(lines, Pad(entry, 79)))
  {
    PadIsLine(entry);
    FreePosRefines(lines, 0);
    assert lines[0..] == lines;
    var i := FirstFree(lines);
    var p := LINE * i;
    BufAt(lines, i);
    assert FreePos(Flatten(lines), 0) == p;
    if i < |lines| {
      FlattenUpdate(lines, i, Pad(entry, 79));
      assert |Buf(Flatten(lines)[p..])| == LINE;
    } else {
      FlattenSnoc(lines, Pad(entry, 79));
    }
  }

  /** On whole lines zoo_clear is the list operation. */
  lemma {:induction false} ClearRefines(lines: seq<string>, pid: int)
    requires AllLines(lines)
    ensures ClearBytes(Flatten(lines), pid) == Flatten(ClearLine(lines, pid))
  {
    var i := FirstOf(lines, pid);
    var p := LINE * i;
    PidPosRefines(lines, 0, pid);
    assert lines[0..] == lines;
    assert PidPos(Flatten(lines), 0, pid) == p;
    FlattenSize(lines);
    if i < |lines| {
      FreeOneByte(lines, i);
    }
  }

  /** zoo_clear finds the pid exactly when a live line carries it. */
  lemma {:induction false} FindsRefines(lines: seq<string>, pid: int)
    requires AllLines(lines)
    ensures Finds(Flatten(lines), pid) <==> pid in Live(lines)
  {
    PidPosRefines(lines, 0, pid);
    assert lines[0..] == lines;
    LiveIn(lines, pid);
    FlattenSize(lines);
  }

  lemma {:induction false} FreeOneByte(lines: seq<string>, i: nat)
    requires AllLines(lines) && i < |lines|
    ensures LINE * i < |Flatten(lines)|
    ensures Flatten(lines[i := Freed(lines[i])]) == Flatten(lines)[..LINE * i] + "#" + Flatten(lines)[LINE * i + 1..]
  {
    var file := Flatten(lines);
    FlattenUpdate(lines, i, Freed(lines[i]));
    FlattenUpdate(lines, i, lines[i]);
    assert lines[i := lines[i]] == lines;
    SpliceOne(file[..LINE * i], lines[i], file[LINE * (i + 1)..]);
  }

  lemma {:induction false} SpliceOne(a: string, line: string, b: string)
    requires line != []
    ensures a + ("#" + line[1..]) + b == a + "#" + (a + line + b)[|a| + 1..]
  {
    assert (a + line + b)[|a| + 1..] == line[1..] + b;
  }

  // ----------------------------------------------------------- the live entries

  function LiveOf(line: string): multiset<int>
    requires IsLine(line)
  {
    if Free(line) then multiset{} else multiset{Atoi(line)}
  }

  /** The pids of the live lines. */
  function Live(lines: seq<string>): multiset<int>
    requires AllLines(lines)
  {
    if lines == [] then multiset{} else LiveOf(lines[0]) + Live(lines[1..])
  }

  lemma {:induction false} LiveUpdate(lines: seq<string>, i: nat, text: string)
    requires AllLines(lines) && IsLine(text) && i < |lines|
    ensures LiveOf(lines[i]) <= Live(lines)
    ensures Live(lines[i := text]) == Live(lines) - LiveOf(lines[i]) + LiveOf(text)
  {
    hide LiveOf, IsLine;
    if i == 0 {
      assert lines[0 := text][1..] == lines[1..];
    } else {
      var tail := lines[1..];
      LiveUpdate(tail, i - 1, text);
      assert lines[i := text][1..] == tail[i - 1 := text] && lines[i] == tail[i - 1];
    }
  }

  lemma {:induction false} LiveSnoc(lines: seq<string>, text: string)
    requires AllLines(lines) && IsLine(text)
    ensures Live(lines + [text]) == Live(lines) + LiveOf(text)
  {
    if lines == [] {
      assert lines + [text] == [text];
    } else {
      assert (lines + [text])[1..] == lines[1..] + [text];
      LiveSnoc(lines[1..], text);
    }
  }

  lemma {:induction false} LiveIn(lines: seq<string>, pid: int)
    requires AllLines(lines)
    ensures pid in Live(lines) <==> FirstOf(lines, pid) < |lines|
  {
    if lines != [] { LiveIn(lines[1..], pid); }
  }

  lemma {:induction false} LiveSize(lines: seq<string>)
    requires AllLines(lines)
    ensures |Live(lines)| <= |lines|
    ensures |Live(lines)| == |lines| <==> FirstFree(lines) == |lines|
  {
    if lines != [] { LiveSize(lines[1..]); }
  }

  // --------------------------------------------------------------- what is kept

  lemma {:induction false} EntryHasNoNewline(pid: int, tag: string, cmdline: string)
    requires '\n' !in tag && '\n' !in cmdline
    ensures '\n' !in Entry(pid, tag, cmdline)
  {
    var full := PrintInt(pid) + "," + tag + "," + cmdline;
    assert forall c :: c in full ==> c in PrintInt(pid) || c == ',' || c in tag || c in cmdline;
    assert forall c :: c in Entry(pid, tag, cmdline) ==> c in full;
  }

  /** A line written for a pid is live and reads back as that pid. */
  lemma {:induction false} MarkedLineReadsBack(pid: int, tag: string, cmdline: string)
    requires -0x8000_0000 <= pid < 0x8000_0000
    requires '\n' !in tag && '\n' !in cmdline
    ensures var text := Pad(Entry(pid, tag, cmdline), 79);
      IsLine(text) && !Free(text) && Atoi(text) == pid
  {
    var entry := Entry(pid, tag, cmdline);
    var text := Pad(entry, 79);
    var p := PrintInt(pid);
    PrintIntLength(pid);
    var full := p + "," + tag + "," + cmdline;
    assert full[..|p|] == p && full[|p|] == ',';
    EntryHasNoNewline(pid, tag, cmdline);
    PadIsLine(entry);
    assert text[..|p|] == p && text[|p|] == ',';
    assert text == p + text[|p|..];
    AtoiOfPrinted(pid, text[|p|..]);
    assert text[0] == p[0];
  }

  /** The line written shows the text "pid,tag,cmdline", cut at 79 characters, then spaces, then a newline. */
  lemma {:induction false} MarkedLineShows(pid: int, tag: string, cmdline: string, i: nat)
    requires i < LINE
    ensures var text := Pad(Entry(pid, tag, cmdline), 79); var full := PrintInt(pid) + ("," + (tag + ("," + cmdline)));
      |text| == LINE && text[i] == if i == 79 then '\n' else if i < |full| then full[i] else ' '
  {
    var full := PrintInt(pid) + ("," + (tag + ("," + cmdline)));
    assert PrintInt(pid) + "," + tag + "," + cmdline == full;
    var entry := Entry(pid, tag, cmdline);
    if |entry| < 79 { assert i >= |entry| && i < 79 ==> Spaces(79 - |entry|)[i - |entry|] in Spaces(79 - |entry|); }
  }

  /** A mark adds one live line and grows the file only when no line is free. */
  lemma {:induction false} MarkEffect(lines: seq<string>, text: string)
    requires AllLines(lines) && IsLine(text) && !Free(text)
    ensures Live(MarkLine(lines, text)) == Live(lines) + multiset{Atoi(text)}
    ensures |MarkLine(lines, text)| == if |Live(lines)| < |lines| then |lines| else |lines| + 1
    ensures |Live(lines)| <= |lines|
  {
    LiveSize(lines);
    var i := FirstFree(lines);
    if i < |lines| { LiveUpdate(lines, i, text); } else { LiveSnoc(lines, text); }
  }

  /** A clear removes one live line of that pid, if there is one, and keeps the number of lines. */
  lemma {:induction false} ClearEffect(lines: seq<string>, pid: int)
    requires AllLines(lines)
    ensures |ClearLine(lines, pid)| == |lines|
    ensures Live(ClearLine(lines, pid)) == Live(lines) - multiset{pid}
  {
    LiveIn(lines, pid);
    var i := FirstOf(lines, pid);
    if i < |lines| {
      var freed := Freed(lines[i]);
      LiveUpdate(lines, i, freed);
      assert LiveOf(lines[i]) == multiset{pid} && LiveOf(freed) == multiset{};
    }
  }

  // ------------------------------------------------------------------ whole runs

  datatype Op = Mark(pid: int, tag: string, cmdline: string) | Clear(pid: int)

  /** A pid is a C int, and the texts written into a line hold no newline. */
  predicate OkOp(op: Op) {
    && -0x8000_0000 <= op.pid < 0x8000_0000
    && (op.Mark? ==> '\n' !in op.tag && '\n' !in op.cmdline)
  }

  predicate AllOk(ops: seq<Op>) {
    forall i :: 0 <= i < |ops| ==> OkOp(ops[i])
  }

  function ApplyBytes(file: string, op: Op): string {
    match op
    case Mark(pid, tag, cmdline) => MarkBytes(file, Entry(pid, tag, cmdline))
    case Clear(pid) => ClearBytes(file, pid)
  }

  function RunBytes(file: string, ops: seq<Op>): string
    decreases |ops|
  {
    if ops == [] then file else RunBytes(ApplyBytes(file, ops[0]), ops[1..])
  }

  function ApplyLive(live: multiset<int>, op: Op): multiset<int> {
    match op
    case Mark(pid, _, _) => live + multiset{pid}
    case Clear(pid) => live - multiset{pid}
  }

  function RunLive(live: multiset<int>, ops: seq<Op>): multiset<int>
    decreases |ops|
  {
    if ops == [] then live else RunLive(ApplyLive(live, ops[0]), ops[1..])
  }

  /** The largest number of live entries at any moment of the run. */
  function Peak(live: multiset<int>, ops: seq<Op>): nat
    decreases |ops|
  {
    if ops == [] then |live| else Max(|live|, Peak(ApplyLive(live, ops[0]), ops[1..]))
  }

  function Max(a: nat, b: nat): nat { if a < b then b else a }

  lemma {:induction false} ApplyRefines(lines: seq<string>, op: Op) returns (after: seq<string>)
    requires AllLines(lines) && OkOp(op)
    ensures AllLines(after) && ApplyBytes(Flatten(lines), op) == Flatten(after)
    ensures Live(after) == ApplyLive(Live(lines), op)
    ensures |after| == Max(|lines|, |Live(after)|)
  {
    LiveSize(lines);
    if op.Mark? {
      var entry := Entry(op.pid, op.tag, op.cmdline);
      MarkedLineReadsBack(op.pid, op.tag, op.cmdline);
      EntryHasNoNewline(op.pid, op.tag, op.cmdline);
      MarkRefines(lines, entry);
      after := MarkLine(lines, Pad(entry, 79));
      MarkEffect(lines, Pad(entry, 79));
    } else {
      ClearRefines(lines, op.pid);
      after := ClearLine(lines, op.pid);
      ClearEffect(lines, op.pid);
    }
    LiveSize(after);
  }

  /** Any run of marks and clears on a file of whole lines leaves a file of whole lines whose live entries are the
      pids marked and not cleared since, and whose length is the peak number of live entries, or the length it
      had before. */
  lemma {:induction false} ZooRun(lines: seq<string>, ops: seq<Op>) returns (after: seq<string>)
    requires AllLines(lines) && AllOk(ops)
    ensures AllLines(after) && RunBytes(Flatten(lines), ops) == Flatten(after)
    ensures Live(after) == RunLive(Live(lines), ops)
    ensures |after| == Max(|lines|, Peak(Live(lines), ops))
    decreases |ops|
  {
    if ops == [] {
      LiveSize(lines);
      after := lines;
    } else {
      LiveSize(lines);
      var next := ApplyRefines(lines, ops[0]);
      after := ZooRun(next, ops[1..]);
      PeakAtLeastNow(Live(next), ops[1..]);
    }
  }

  lemma {:induction false} PeakAtLeastNow(live: multiset<int>, ops: seq<Op>)
    ensures |live| <= Peak(live, ops)
  {
  }

  /** From an empty file the number of lines is exactly the peak number of live entries. */
  lemma {:induction false} ZooFileIsPeakSized(ops: seq<Op>)
    requires AllOk(ops)
    ensures |RunBytes("", ops)| == LINE * Peak(multiset{}, ops)
  {
    var after := ZooRun([], ops);
    FlattenSize(after);
  }

  /** The file consists of whole lines whose live entries carry exactly these pids. */
  ghost predicate Holds(file: string, live: multiset<int>) {
    exists lines: seq<string> :: AllLines(lines) && file == Flatten(lines) && Live(lines) == live
  }

  /** What a client may rely on: each operation moves the live pids as said, and a clear finds its pid exactly when
      that pid is live. */
  lemma {:induction false} ApplyHolds(file: string, live: multiset<int>, op: Op)
    requires Holds(file, live) && OkOp(op)
    ensures Holds(ApplyBytes(file, op), ApplyLive(live, op))
    ensures Finds(file, op.pid) <==> op.pid in live
  {
    var lines: seq<string> :| AllLines(lines) && file == Flatten(lines) && Live(lines) == live;
    var after := ApplyRefines(lines, op);
    FindsRefines(lines, op.pid);
  }

  // --------------------------------------------------------------- the open file

  class ZooFile {
    var bytes: string

    /** zoo_mark: first fit over the lines fgets delivers. */
    method Mark(entry: string)
      modifies this
      ensures bytes == MarkBytes(old(bytes), entry)
    {
      var file := bytes;  // the file is locked: nobody else changes it during the scan
      var pos := 0;
      var buf := Buf(file[0..]);
      while buf != [] && buf[0] != '#'
        invariant 0 <= pos <= |file| && buf == Buf(file[pos..])
        invariant FreePos(file, 0) == FreePos(file, pos)
        decreases |file| - pos
      {
        pos := pos + |buf|;
        buf := Buf(file[pos..]);
      }
      if buf != [] {
        bytes := file[..pos] + Pad(entry, |buf| - 1) + file[pos + |buf|..];
      } else {
        bytes := file + Pad(entry, 79);
      }
    }

    method MarkCmdline(pid: int, tag: string, cmdline: string)
      modifies this
      ensures bytes == ApplyBytes(old(bytes), Op.Mark(pid, tag, cmdline))
    {
      Mark(Entry(pid, tag, cmdline));
    }

    /** zoo_clear: 0 when the pid was found, 1 otherwise. */
    method Clear(pid: int) returns (ret: int)
      modifies this
      ensures bytes == ApplyBytes(old(bytes), Op.Clear(pid))
      ensures ret == if Finds(old(bytes), pid) then 0 else 1
    {
      var file := bytes;
      var pos := 0;
      var buf := Buf(file[0..]);
      while buf != [] && (buf[0] == '#' || Atoi(buf) != pid)
        invariant 0 <= pos <= |file| && buf == Buf(file[pos..])
        invariant PidPos(file, 0, pid) == PidPos(file, pos, pid)
        decreases |file| - pos
      {
        pos := pos + |buf|;
        buf := Buf(file[pos..]);
      }
      if buf == [] {
        return 1;
      }
      bytes := file[..pos] + "#" + file[pos + 1..];
      return 0;
    }
  }
}
