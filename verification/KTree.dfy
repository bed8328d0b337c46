/** The k-tree generator and traverser: recursive programs that change a directory tree and the working directory.
    Modes and times are not modelled, except that a directory may refuse to be entered after its mode was changed.
    Symbolic links are followed within their directory. */
module KTree {
  import opened Decimal

  /** A name leads to a file, known by its inode, to a symbolic link or to a directory. `stays` says whether the process can
      enter the directory still when its execute permissions are gone: it may if it is privileged, or if the directory is
      another user's, whose mode it cannot change. */
  datatype Node = File(ino: nat, data: string) | Symlink(target: string) | Dir(entries: map<string, Node>, stays: bool)

  type Entries = map<string, Node>

  // "%d-d", "%d-f", "%d-f-t" and "%d-l"
  function D(cnt: nat): string { PrintInt(cnt) + "-d" }
  function F(cnt: nat): (s: string)
    ensures |s| >= 3
  {
    PrintInt(cnt) + "-f"
  }
  function FT(cnt: nat): string { PrintInt(cnt) + "-f-t" }
  function L(cnt: nat): string { PrintInt(cnt) + "-l" }

  lemma {:induction false} NamesDiffer(a: nat, b: nat)
    ensures D(a) != F(b) && D(a) != FT(b) && D(a) != L(b) && F(a) != FT(b) && F(a) != L(b) && FT(a) != L(b)
    ensures a != b ==> D(a) != D(b) && F(a) != F(b) && FT(a) != FT(b) && L(a) != L(b)
  {
    var p, q := PrintInt(a), PrintInt(b);
    AtoiOfPrinted(a, "-d"); AtoiOfPrinted(a, "-f"); AtoiOfPrinted(a, "-f-t"); AtoiOfPrinted(a, "-l");
    AtoiOfPrinted(b, "-d"); AtoiOfPrinted(b, "-f"); AtoiOfPrinted(b, "-f-t"); AtoiOfPrinted(b, "-l");
    assert D(a)[|p| + 1] == 'd' && F(a)[|p| + 1] == 'f' && FT(a)[|p| + 1] == 'f' && L(a)[|p| + 1] == 'l';
    assert |F(a)| == |p| + 2 && |FT(a)| == |p| + 4;
  }

  // ------------------------------------------------------------- system calls, inside one directory

  /** link(2) to a name in the same directory; it fails for a directory and for a name that is taken. */
  function Link(e: Entries, from: string, to: string): Entries {
    if from in e && !e[from].Dir? && to !in e then e[to := e[from]] else e
  }

  function Unlink(e: Entries, name: string): Entries {
    if name in e && !e[name].Dir? then e - {name} else e
  }

  predicate SameFile(a: Node, b: Node) { a.File? && b.File? && a.ino == b.ino }

  /** rename(2); between two links to the same file it does nothing, and neither a file nor a directory that is not
      empty is replaced by something of another kind. Two links to one symbolic link do not come up here. */
  function Rename(e: Entries, from: string, to: string): Entries {
    if from !in e || from == to then e
    else if to in e && (SameFile(e[to], e[from]) || e[to].Dir? != e[from].Dir? || (e[to].Dir? && e[to].entries != map[])) then e
    else (e - {from})[to := e[from]]
  }

  function MakeSymlink(e: Entries, target: string, name: string): Entries {
    if name in e then e else e[name := Symlink(target)]
  }

  function Mkdir(e: Entries, name: string, stays: bool): Entries {
    if name in e then e else e[name := Dir(map[], stays)]
  }

  const MAX_LINKS: nat := 40

  /** A target that is a name in the same directory. */
  predicate PlainTarget(target: string) {
    target != "" && target != "." && target != ".." && '/' !in target
  }

  /** The name that open, chmod and chdir come to: links are followed, though not without end. Where it is that of a link
      again, the call fails, unless the link leads to another place. */
  function Follow(e: Entries, name: string, hops: nat): string
    decreases hops
  {
    if hops > 0 && name in e && e[name].Symlink? && PlainTarget(e[name].target) then Follow(e, e[name].target, hops - 1)
    else name
  }

  function Final(e: Entries, name: string): string { Follow(e, name, MAX_LINKS) }

  lemma {:induction false} FinalIsItself(e: Entries, name: string)
    requires name !in e || !e[name].Symlink?
    ensures Final(e, name) == name
  {
  }

  lemma {:induction false} FinalOfLink(e: Entries, name: string)
    requires name in e && e[name].Symlink? && PlainTarget(e[name].target)
    requires e[name].target !in e || !e[e[name].target].Symlink?
    ensures Final(e, name) == e[name].target
  {
    var t := e[name].target;
    assert Follow(e, t, MAX_LINKS - 1) == t;
  }

  /** open(name, O_CREAT | O_RDWR), links followed, and three bytes written at the start. */
  function CreateAndWrite(e: Entries, name: string, bytes: string, ino: nat): Entries {
    if name !in e then e[name := File(ino, bytes)]
    else if e[name].File? then
      var was := e[name].data;
      e[name := File(e[name].ino, bytes + if |was| > |bytes| then was[|bytes|..] else "")]
    else e
  }

  // --------------------------------------------------------------------- paths

  predicate IsDir(t: Entries, path: seq<string>)
    decreases path
  {
    path == [] || (path[0] in t && t[path[0]].Dir? && IsDir(t[path[0]].entries, path[1..]))
  }

  function Get(t: Entries, path: seq<string>): Entries
    requires IsDir(t, path)
    decreases path
  {
    if path == [] then t else Get(t[path[0]].entries, path[1..])
  }

  function Put(t: Entries, path: seq<string>, e: Entries): Entries
    requires IsDir(t, path)
    decreases path
  {
    if path == [] then e else t[path[0] := t[path[0]].(entries := Put(t[path[0]].entries, path[1..], e))]
  }

  lemma {:induction false} PutLaws(t: Entries, path: seq<string>, a: Entries, b: Entries)
    requires IsDir(t, path)
    ensures IsDir(Put(t, path, a), path) && Get(Put(t, path, a), path) == a
    ensures Put(Put(t, path, a), path, b) == Put(t, path, b)
    ensures Put(t, path, Get(t, path)) == t
    decreases path
  {
    if path != [] {
      PutLaws(t[path[0]].entries, path[1..], a, b);
      assert t[path[0] := t[path[0]].(entries := t[path[0]].entries)] == t;
    }
  }

  /** One directory deeper. */
  lemma {:induction false} PutBelow(t: Entries, path: seq<string>, d: string, e: Entries)
    requires IsDir(t, path)
    ensures IsDir(t, path + [d]) <==> d in Get(t, path) && Get(t, path)[d].Dir?
    ensures IsDir(t, path + [d]) ==>
      && Get(t, path + [d]) == Get(t, path)[d].entries
      && Put(t, path + [d], e) == Put(t, path, Get(t, path)[d := Get(t, path)[d].(entries := e)])
    decreases path
  {
    if path == [] {
      assert (path + [d])[1..] == [];
    } else {
      assert (path + [d])[1..] == path[1..] + [d];
      PutBelow(t[path[0]].entries, path[1..], d, e);
    }
  }

  // --------------------------------------------------------------------- generator

  /** A directory's entries with the number of files and directories created so far; a new file's inode is its number. */
  datatype Made = Made(entries: Entries, files: nat, dirs: nat)

  function NewFile(m: Made, cnt: nat): Made {
    var n := Final(m.entries, F(cnt));
    Made(CreateAndWrite(m.entries, n, F(cnt)[..3], m.files), if n in m.entries then m.files else m.files + 1, m.dirs)
  }

  function NewDir(m: Made, cnt: nat, stays: bool): Made {
    Made(Mkdir(m.entries, D(cnt), stays), m.files, if D(cnt) in m.entries then m.dirs else m.dirs + 1)
  }

  /** k_tree_gen from number cnt on. `stays` is that of a directory which the process makes itself. */
  function Gen(m: Made, lvl: int, cnt: nat, width: int, stays: bool): Made
    decreases if lvl > 0 then lvl else 0, 0, width - cnt
  {
    if lvl <= 0 || cnt >= width then m
    else Gen(GenIn(NewDir(NewFile(m, cnt), cnt, stays), D(cnt), lvl - 1, width, stays), lvl, cnt + 1, width, stays)
  }

  /** k_tree_gen between the two chdir calls; where dir cannot be entered it runs in the same directory. */
  function GenIn(m: Made, dir: string, lvl: int, width: int, stays: bool): Made
    decreases if lvl > 0 then lvl else 0, 1, 0
  {
    var n := Final(m.entries, dir);
    if n in m.entries && m.entries[n].Dir? then
      var sub := Gen(m.(entries := m.entries[n].entries), lvl, 0, width, stays);
      sub.(entries := m.entries[n := m.entries[n].(entries := sub.entries)])
    else Gen(m, lvl, 0, width, stays)
  }

  function Power(w: nat, k: nat): nat {
    if k == 0 then 1 else w * Power(w, k - 1)
  }

  /** w + w^2 + ... + w^d */
  function PowerSum(w: nat, d: nat): nat {
    if d == 0 then 0 else PowerSum(w, d - 1) + Power(w, d)
  }

  lemma {:induction false} PowerSumByLevel(w: nat, d: nat)
    ensures PowerSum(w, d + 1) == w * (1 + PowerSum(w, d))
  {
    if d == 0 {
      assert PowerSum(w, 0) == 0 && Power(w, 1) == w * Power(w, 0);
    } else {
      PowerSumByLevel(w, d - 1);
      Distribute(w, 1 + PowerSum(w, d - 1), Power(w, d));
    }
  }

  lemma {:induction false} Distribute(w: nat, a: nat, b: nat)
    ensures w * (a + b) == w * a + w * b
  {
  }

  /** The names are those of the numbers below n, and no others. */
  ghost predicate Names(e: Entries, n: int) {
    forall x :: x in e <==> exists c: nat :: c < n && (x == F(c) || x == D(c))
  }

  ghost predicate Full(e: Entries, lvl: nat, c: nat, width: nat)
    decreases lvl, 0
  {
    && F(c) in e && e[F(c)].File? && e[F(c)].data == F(c)[..3]
    && D(c) in e && e[D(c)].Dir? && (lvl > 0 ==> Exactly(e[D(c)].entries, lvl - 1, width))
  }

  /** Exactly the tree of this depth and width. */
  ghost predicate Exactly(e: Entries, lvl: nat, width: nat)
    decreases lvl, 1
  {
    if lvl == 0 then e == map[] else Names(e, width) && forall c: nat :: c < width ==> Full(e, lvl, c, width)
  }

  lemma {:induction false} MakesOne(m: Made, cnt: nat, stays: bool)
    requires Names(m.entries, cnt)
    ensures NewDir(NewFile(m, cnt), cnt, stays)
      == Made(m.entries[F(cnt) := File(m.files, F(cnt)[..3])][D(cnt) := Dir(map[], stays)], m.files + 1, m.dirs + 1)
  {
    forall c: nat | c < cnt ensures F(cnt) != F(c) && F(cnt) != D(c) && D(cnt) != F(c) && D(cnt) != D(c) {
      NamesDiffer(cnt, c);
      NamesDiffer(c, cnt);
    }
    NamesDiffer(cnt, cnt);
    FinalIsItself(m.entries, F(cnt));
  }

  lemma {:induction false} OneNameMore(e: Entries, cnt: nat, file: Node, dir: Node)
    requires Names(e, cnt)
    ensures Names(e[F(cnt) := file][D(cnt) := dir], cnt + 1)
  {
    hide F, D;
    var e' := e[F(cnt) := file][D(cnt) := dir];
    forall x ensures x in e' <==> exists c: nat :: c < cnt + 1 && (x == F(c) || x == D(c)) {
      if x in e {
        var c: nat :| c < cnt && (x == F(c) || x == D(c));
      } else if c: nat :| c < cnt + 1 && (x == F(c) || x == D(c)) {
        assert c == cnt;
      }
    }
  }

  lemma {:induction false} FilledOne(e: Entries, cnt: nat, ino: nat, sub: Entries, lvl: nat, width: nat, stays: bool)
    requires lvl > 0 && Names(e, cnt) && Exactly(sub, lvl - 1, width)
    requires forall c: nat :: c < cnt ==> Full(e, lvl, c, width)
    ensures var e' := e[F(cnt) := File(ino, F(cnt)[..3])][D(cnt) := Dir(sub, stays)];
      && Names(e', cnt + 1) && forall c: nat :: c < cnt + 1 ==> Full(e', lvl, c, width)
  {
    hide F, D, Names;
    var e' := e[F(cnt) := File(ino, F(cnt)[..3])][D(cnt) := Dir(sub, stays)];
    OneNameMore(e, cnt, File(ino, F(cnt)[..3]), Dir(sub, stays));
    NamesDiffer(cnt, cnt);
    assert Full(e', lvl, cnt, width);
    forall c: nat | c < cnt ensures Full(e', lvl, c, width) {
      NamesDiffer(cnt, c);
      NamesDiffer(c, cnt);
      assert Full(e, lvl, c, width);
    }
  }

  /** One number, given that the recursion below it makes a tree. */
  lemma {:induction false} GenOne(m: Made, lvl: nat, cnt: nat, width: nat, sub: Made, stays: bool)
    requires lvl > 0 && Names(m.entries, cnt)
    requires forall c: nat :: c < cnt ==> Full(m.entries, lvl, c, width)
    requires sub == Gen(Made(map[], m.files + 1, m.dirs + 1), lvl - 1, 0, width, stays) && Exactly(sub.entries, lvl - 1, width)
    ensures var r := GenIn(NewDir(NewFile(m, cnt), cnt, stays), D(cnt), lvl - 1, width, stays);
      && Names(r.entries, cnt + 1) && (forall c: nat :: c < cnt + 1 ==> Full(r.entries, lvl, c, width))
      && r.files == sub.files && r.dirs == sub.dirs
  {
    hide Gen, Names, Full, Exactly, NewDir, NewFile, D, F;
    var a := NewDir(NewFile(m, cnt), cnt, stays);
    MakesOne(m, cnt, stays);
    FinalIsItself(a.entries, D(cnt));
    var r := GenIn(a, D(cnt), lvl - 1, width, stays);
    assert a.(entries := map[]) == Made(map[], m.files + 1, m.dirs + 1);
    assert r.entries == m.entries[F(cnt) := File(m.files, F(cnt)[..3])][D(cnt) := Dir(sub.entries, stays)];
    FilledOne(m.entries, cnt, m.files, sub.entries, lvl, width, stays);
  }

  /** In a directory that already holds the first cnt numbers, the generator adds the others and nothing else. */
  lemma {:induction false} GenFills(m: Made, lvl: nat, cnt: nat, width: nat, stays: bool)
    requires lvl > 0 && cnt <= width && Names(m.entries, cnt)
    requires forall c: nat :: c < cnt ==> Full(m.entries, lvl, c, width)
    ensures var r := Gen(m, lvl, cnt, width, stays); var made := (width - cnt) * (1 + PowerSum(width, lvl - 1));
      && Exactly(r.entries, lvl, width) && r.files == m.files + made && r.dirs == m.dirs + made
    decreases lvl, width - cnt
  {
    hide Names, Full, NewDir, NewFile, D, F, GenIn, PowerSum;
    var each := 1 + PowerSum(width, lvl - 1);
    if cnt < width {
      var inner := Made(map[], m.files + 1, m.dirs + 1);
      GenOnEmpty(inner, lvl - 1, width, stays);
      GenOne(m, lvl, cnt, width, Gen(inner, lvl - 1, 0, width, stays), stays);
      var r := GenIn(NewDir(NewFile(m, cnt), cnt, stays), D(cnt), lvl - 1, width, stays);
      GenFills(r, lvl, cnt + 1, width, stays);
      assert (width - cnt) * each == each + (width - (cnt + 1)) * each;
    } else {
      assert (width - cnt) * each == 0;
    }
  }

  /** From an empty directory the generator makes exactly the tree of the given depth and width, with
      w + w^2 + ... + w^d new files and as many new directories. */
  lemma {:induction false} GenOnEmpty(m: Made, lvl: nat, width: nat, stays: bool)
    requires m.entries == map[]
    ensures var r := Gen(m, lvl, 0, width, stays);
      && Exactly(r.entries, lvl, width)
      && r.files == m.files + PowerSum(width, lvl) && r.dirs == m.dirs + PowerSum(width, lvl)
    decreases lvl
  {
    if lvl > 0 {
      GenFills(m, lvl, 0, width, stays);
      PowerSumByLevel(width, lvl - 1);
    }
  }

  /** Writing a file leaves what it held behind the bytes written, and its inode; a new one holds the bytes only. */
  lemma {:induction false} WriteKeepsRest(e: Entries, name: string, bytes: string, ino: nat, i: nat)
    requires name !in e || e[name].File?
    ensures var t := CreateAndWrite(e, name, bytes, ino);
      && t.Keys == e.Keys + {name} && (forall n :: n in e && n != name ==> t[n] == e[n]) && t[name].File?
      && var data := t[name].data; var was := if name in e then e[name].data else "";
      && |data| == (if |was| > |bytes| then |was| else |bytes|) && (i < |data| ==> data[i] == if i < |bytes| then bytes[i] else was[i])
      && t[name].ino == if name in e then e[name].ino else ino
  {
  }

  /** A second run of the generator finds everything there and changes nothing. */
  lemma {:induction false} GenAgain(m: Made, lvl: nat, cnt: nat, width: nat, stays: bool)
    requires Exactly(m.entries, lvl, width)
    ensures Gen(m, lvl, cnt, width, stays) == m
    decreases lvl, if width > cnt then width - cnt else 0
  {
    hide D, F, Exactly;
    if lvl > 0 && cnt < width {
      FullAt(m.entries, lvl, cnt, width);
      var e := m.entries;
      FinalIsItself(e, F(cnt));
      FinalIsItself(e, D(cnt));
      SameBytes(e, F(cnt), F(cnt)[..3], m.files);
      assert NewDir(NewFile(m, cnt), cnt, stays) == m;
      if lvl > 1 {
        GenAgain(m.(entries := e[D(cnt)].entries), lvl - 1, 0, width, stays);
      }
      assert e[D(cnt) := e[D(cnt)].(entries := e[D(cnt)].entries)] == e;
      GenAgain(m, lvl, cnt + 1, width, stays);
    }
  }

  lemma {:induction false} FullAt(e: Entries, lvl: nat, cnt: nat, width: nat)
    requires lvl > 0 && cnt < width && Exactly(e, lvl, width)
    ensures F(cnt) in e && e[F(cnt)].File? && e[F(cnt)].data == F(cnt)[..3]
    ensures D(cnt) in e && e[D(cnt)].Dir? && Exactly(e[D(cnt)].entries, lvl - 1, width)
  {
    assert Full(e, lvl, cnt, width);
  }

  lemma {:induction false} SameBytes(e: Entries, name: string, bytes: string, ino: nat)
    requires name in e && e[name].File? && e[name].data == bytes
    ensures CreateAndWrite(e, name, bytes, ino) == e
  {
    assert bytes + "" == bytes && e[name := e[name]] == e;
  }

  // --------------------------------------------------------------------- traverser

  /** The link, unlink, rename, symlink and unlink calls for one number. */
  function Shuffle(e: Entries, cnt: nat): Entries {
    Unlink(MakeSymlink(Rename(Unlink(Link(e, F(cnt), FT(cnt)), F(cnt)), FT(cnt), F(cnt)), L(cnt), F(cnt)), L(cnt))
  }

  /** k_tree_trav from number cnt on. */
  function Trav(e: Entries, lvl: int, cnt: nat, width: int): Entries
    decreases if lvl > 0 then lvl else 0, 0, width - cnt
  {
    if lvl <= 0 || cnt >= width then e
    else Trav(TravIn(Shuffle(e, cnt), D(cnt), lvl - 1, width), lvl, cnt + 1, width)
  }

  /** k_tree_trav between the two chdir calls, with chmod before the first; where dir cannot be entered any more the
      recursion runs in the same directory. */
  function TravIn(e: Entries, dir: string, lvl: int, width: int): Entries
    decreases if lvl > 0 then lvl else 0, 1, 0
  {
    var n := Final(e, dir);
    if Entered(e, n) then e[n := e[n].(entries := Trav(e[n].entries, lvl, 0, width))]
    else Trav(e, lvl, 0, width)
  }

  predicate Entered(e: Entries, name: string) { name in e && e[name].Dir? && e[name].stays }

  // ------------------------------------------------- when the traverser changes nothing

  /** The file is there, no symbolic link or file has its link's name, and the temporary name is free, or taken in a way
      that rename refuses. */
  predicate Undisturbed(e: Entries, cnt: nat) {
    && F(cnt) in e && (L(cnt) in e ==> e[L(cnt)].Dir?)
    && if e[F(cnt)].Dir? then FT(cnt) !in e || !e[FT(cnt)].Dir? || e[F(cnt)].entries != map[] else FT(cnt) !in e
  }

  /** link, unlink and rename. */
  lemma {:induction false} ThreeCalls(e: Entries, f: string, ft: string)
    requires f != ft
    ensures var r := Rename(Unlink(Link(e, f, ft), f), ft, f);
      r == if ft in e && (f !in e || !e[f].Dir? || (e[ft].Dir? && e[f].entries == map[])) then (e - {ft})[f := e[ft]] else e
  {
    var r := Rename(Unlink(Link(e, f, ft), f), ft, f);
    if f in e && !e[f].Dir? && ft !in e {
      assert r == (e[ft := e[f]] - {f} - {ft})[f := e[f]];
    }
  }

  /** symlink and unlink. */
  lemma {:induction false} TwoCalls(e: Entries, f: string, l: string)
    requires f != l
    ensures var r := Unlink(MakeSymlink(e, l, f), l);
      var t := if f in e then e else e[f := Symlink(l)];
      r == if l in e && !e[l].Dir? then t - {l} else t
  {
  }

  /** The five calls change nothing exactly then. Where they change something they change a name, for good: they make
      the file's name, or take a temporary one away. */
  lemma {:induction false} ShuffleRestoresExactly(e: Entries, cnt: nat)
    ensures Shuffle(e, cnt) == e <==> Undisturbed(e, cnt)
    ensures Shuffle(e, cnt).Keys == e.Keys <==> Undisturbed(e, cnt)
    ensures Shuffle(e, cnt).Keys <= e.Keys + {F(cnt)} && e.Keys <= Shuffle(e, cnt).Keys + {FT(cnt), L(cnt)}
  {
    NamesDiffer(cnt, cnt);
    hide D, F, FT, L, Link, Rename, Unlink, MakeSymlink;
    var f, ft, l := F(cnt), FT(cnt), L(cnt);
    ThreeCalls(e, f, ft);
    var r := Rename(Unlink(Link(e, f, ft), f), ft, f);
    TwoCalls(r, f, l);
    var t := Shuffle(e, cnt);
    assert t.Keys != e.Keys || f in e;
    assert l in t <==> l in e && e[l].Dir?;
    assert r != e ==> ft !in t && ft in e;
  }

  /** Number c and, for an inner level, what the recursion meets. */
  predicate RestorableAt(e: Entries, lvl: nat, c: nat, width: int)
    requires lvl > 0
    decreases lvl, 0
  {
    && Undisturbed(e, c)
    && var n := Final(e, D(c));
       if Entered(e, n) then Restorable(e[n].entries, lvl - 1, width) else Restorable(e, lvl - 1, width)
  }

  /** Every directory that the traverser comes to is undisturbed at every number. */
  predicate Restorable(e: Entries, lvl: nat, width: int)
    decreases lvl, 2
  {
    lvl > 0 ==> RestorableFrom(e, lvl, 0, width)
  }

  predicate RestorableFrom(e: Entries, lvl: nat, cnt: nat, width: int)
    requires lvl > 0
    decreases lvl, 1
  {
    forall c: nat :: cnt <= c < width ==> RestorableAt(e, lvl, c, width)
  }

  predicate EndsIn(name: string, c: char) { name != "" && name[|name| - 1] == c }

  /** e' is what a traversal can make of e: names of files were made, temporary names were taken away, and if neither
      happened then only directories changed, by names further down. */
  ghost predicate Later(e: Entries, e': Entries, depth: nat)
    decreases depth, 1
  {
    && (forall n :: n in e' && n !in e ==> EndsIn(n, 'f'))
    && (forall n :: n in e && n !in e' ==> !EndsIn(n, 'f'))
    && (e.Keys == e'.Keys ==> forall n :: n in e ==> LaterNode(e[n], e'[n], depth))
  }

  ghost predicate LaterNode(a: Node, b: Node, depth: nat)
    decreases depth, 0
  {
    a == b || (depth > 0 && a.Dir? && b.Dir? && a.stays == b.stays && Later(a.entries, b.entries, depth - 1))
  }

  lemma {:induction false} LaterRefl(e: Entries, depth: nat)
    ensures Later(e, e, depth)
  {
  }

  lemma {:induction false} LaterTrans(a: Entries, b: Entries, c: Entries, depth: nat)
    requires Later(a, b, depth) && Later(b, c, depth)
    ensures Later(a, c, depth)
    decreases depth
  {
    if a.Keys == c.Keys {
      assert forall n :: n in b && n !in a ==> n !in c;
      forall n | n in a ensures LaterNode(a[n], c[n], depth) {
        assert LaterNode(a[n], b[n], depth) && LaterNode(b[n], c[n], depth);
        if depth > 0 && a[n] != b[n] && b[n] != c[n] { LaterTrans(a[n].entries, b[n].entries, c[n].entries, depth - 1); }
      }
    }
  }

  /** So a traversal never comes back to where it was. */
  lemma {:induction false} LaterAntisymmetric(a: Entries, b: Entries, depth: nat)
    requires Later(a, b, depth) && Later(b, a, depth)
    ensures a == b
    decreases depth
  {
    assert a.Keys == b.Keys;
    forall n | n in a ensures a[n] == b[n] {
      assert LaterNode(a[n], b[n], depth) && LaterNode(b[n], a[n], depth);
      if depth > 0 && a[n] != b[n] { LaterAntisymmetric(a[n].entries, b[n].entries, depth - 1); }
    }
  }

  lemma {:induction false} LaterDeeper(a: Entries, b: Entries, depth: nat)
    requires Later(a, b, depth)
    ensures Later(a, b, depth + 1)
    decreases depth
  {
    if a.Keys == b.Keys {
      forall n | n in a ensures LaterNode(a[n], b[n], depth + 1) {
        assert LaterNode(a[n], b[n], depth);
        if depth > 0 && a[n] != b[n] { LaterDeeper(a[n].entries, b[n].entries, depth - 1); }
      }
    }
  }

  lemma {:induction false} LastLetters(cnt: nat)
    ensures EndsIn(F(cnt), 'f') && !EndsIn(FT(cnt), 'f') && !EndsIn(L(cnt), 'f')
  {
  }

  lemma {:induction false} ShuffleLater(e: Entries, cnt: nat, depth: nat)
    ensures Later(e, Shuffle(e, cnt), depth)
  {
    hide F, FT, L, Shuffle, Undisturbed, EndsIn;
    ShuffleRestoresExactly(e, cnt);
    LastLetters(cnt);
  }

  lemma {:induction false} BelowLater(e: Entries, d: string, sub: Entries, depth: nat)
    requires d in e && e[d].Dir? && Later(e[d].entries, sub, depth)
    ensures Later(e, e[d := e[d].(entries := sub)], depth + 1)
  {
    var t := e[d := e[d].(entries := sub)];
    forall n | n in e ensures LaterNode(e[n], t[n], depth + 1) {
      if n == d { assert t[n].entries == sub; }
    }
  }

  lemma {:induction false} TravLater(e: Entries, lvl: nat, cnt: nat, width: int)
    ensures Later(e, Trav(e, lvl, cnt, width), lvl)
    decreases lvl, 0, width - cnt
  {
    hide Later, Shuffle, TravIn;
    LaterRefl(e, lvl);
    if lvl > 0 && cnt < width {
      var s := Shuffle(e, cnt);
      var t := TravIn(s, D(cnt), lvl - 1, width);
      ShuffleLater(e, cnt, lvl);
      TravInLater(s, D(cnt), lvl - 1, width);
      TravLater(t, lvl, cnt + 1, width);
      LaterTrans(e, s, t, lvl);
      LaterTrans(e, t, Trav(t, lvl, cnt + 1, width), lvl);
    }
  }

  lemma {:induction false} TravInLater(e: Entries, dir: string, lvl: nat, width: int)
    ensures Later(e, TravIn(e, dir, lvl, width), lvl + 1)
    decreases lvl, 1
  {
    hide Later, Trav;
    var n := Final(e, dir);
    if Entered(e, n) {
      TravLater(e[n].entries, lvl, 0, width);
      BelowLater(e, n, Trav(e[n].entries, lvl, 0, width), lvl);
    } else {
      TravLater(e, lvl, 0, width);
      LaterDeeper(e, Trav(e, lvl, 0, width), lvl);
    }
  }

  /** A traversal that ends where it began changed nothing on the way. */
  lemma {:induction false} NothingOnTheWay(e: Entries, lvl: nat, cnt: nat, width: int)
    requires lvl > 0 && cnt < width && Trav(e, lvl, cnt, width) == e
    ensures Shuffle(e, cnt) == e && TravIn(e, D(cnt), lvl - 1, width) == e
  {
    hide Later, Shuffle, TravIn;
    var s := Shuffle(e, cnt);
    var t := TravIn(s, D(cnt), lvl - 1, width);
    ShuffleLater(e, cnt, lvl);
    TravInLater(s, D(cnt), lvl - 1, width);
    TravLater(t, lvl, cnt + 1, width);
    LaterTrans(s, t, e, lvl);
    LaterAntisymmetric(e, s, lvl);
    LaterAntisymmetric(s, t, lvl);
  }

  /** From number cnt on, the traverser leaves a directory exactly as it was, contents and all, if and only if every
      directory it comes to is undisturbed at those numbers. */
  lemma {:induction false} TravRestoresFrom(e: Entries, lvl: nat, cnt: nat, width: int)
    requires lvl > 0
    ensures Trav(e, lvl, cnt, width) == e <==> RestorableFrom(e, lvl, cnt, width)
    decreases lvl, 1, if width > cnt then width - cnt else 0
  {
    hide Undisturbed, Shuffle, TravIn, Restorable;
    if cnt < width {
      ShuffleRestoresExactly(e, cnt);
      TravInRestores(e, D(cnt), lvl - 1, width);
      TravRestoresFrom(e, lvl, cnt + 1, width);
      assert RestorableAt(e, lvl, cnt, width)
        <==> Shuffle(e, cnt) == e && TravIn(e, D(cnt), lvl - 1, width) == e;
      if Trav(e, lvl, cnt, width) == e { NothingOnTheWay(e, lvl, cnt, width); }
    }
  }

  lemma {:induction false} TravInRestores(e: Entries, dir: string, lvl: nat, width: int)
    ensures TravIn(e, dir, lvl, width) == e <==>
      var n := Final(e, dir); if Entered(e, n) then Restorable(e[n].entries, lvl, width) else Restorable(e, lvl, width)
    decreases lvl, 3
  {
    hide Trav, Restorable;
    var n := Final(e, dir);
    if Entered(e, n) {
      TravRestoresAll(e[n].entries, lvl, width);
      var sub := Trav(e[n].entries, lvl, 0, width);
      assert e[n := e[n].(entries := e[n].entries)] == e;
      assert e[n := e[n].(entries := sub)][n].entries == sub;
    } else {
      TravRestoresAll(e, lvl, width);
    }
  }

  lemma {:induction false} TravRestoresAll(e: Entries, lvl: nat, width: int)
    ensures Trav(e, lvl, 0, width) == e <==> Restorable(e, lvl, width)
    decreases lvl, 2
  {
    if lvl > 0 { TravRestoresFrom(e, lvl, 0, width); }
  }

  /** No link in the place of a directory that the traverser comes to leads out of its own directory. */
  predicate Inside(e: Entries, lvl: nat, width: int)
    decreases lvl
  {
    lvl > 0 ==> forall c: nat :: c < width ==>
      var n := Final(e, D(c));
      && (n in e && e[n].Symlink? ==> PlainTarget(e[n].target))
      && if Entered(e, n) then Inside(e[n].entries, lvl - 1, width) else Inside(e, lvl - 1, width)
  }

  /** The whole traversal, of any directory whose links lead to names beside them: it changes nothing if and only if the
      directory is restorable. */
  lemma {:induction false} TravRestoresExactly(e: Entries, lvl: nat, width: int)
    requires Inside(e, lvl, width)
    ensures Trav(e, lvl, 0, width) == e <==> Restorable(e, lvl, width)
  {
    TravRestoresAll(e, lvl, width);
  }

  /** Number cnt has its file and its directory, and none of the temporary names; other names are free. */
  predicate Complete(e: Entries, lvl: nat, cnt: nat, width: int)
    decreases lvl, 0
  {
    && F(cnt) in e && e[F(cnt)].File? && FT(cnt) !in e && L(cnt) !in e
    && D(cnt) in e && e[D(cnt)].Dir? && (lvl > 0 ==> KTreeAt(e[D(cnt)].entries, lvl - 1, width))
  }

  /** A tree of at least the given depth and width. */
  predicate KTreeAt(e: Entries, lvl: nat, width: int)
    decreases lvl, 1
  {
    lvl > 0 ==> forall cnt: nat :: cnt < width ==> Complete(e, lvl, cnt, width)
  }

  lemma {:induction false} ShuffleRestores(e: Entries, cnt: nat)
    requires F(cnt) in e && e[F(cnt)].File? && FT(cnt) !in e && L(cnt) !in e
    ensures Shuffle(e, cnt) == e
  {
    ShuffleRestoresExactly(e, cnt);
  }

  /** A deeper tree is also a shallower one. */
  lemma {:induction false} ShallowerTree(e: Entries, lvl: nat, width: int)
    requires KTreeAt(e, lvl + 1, width)
    ensures KTreeAt(e, lvl, width)
    decreases lvl
  {
    if lvl > 0 {
      forall cnt: nat | cnt < width ensures Complete(e, lvl, cnt, width) {
        assert Complete(e, lvl + 1, cnt, width);
        ShallowerTree(e[D(cnt)].entries, lvl - 1, width);
      }
    }
  }

  lemma {:induction false} KTreeIsRestorable(e: Entries, lvl: nat, width: int)
    requires KTreeAt(e, lvl, width)
    ensures Restorable(e, lvl, width)
    decreases lvl
  {
    hide F, FT, L, D;
    if lvl > 0 {
      forall c: nat | c < width ensures RestorableAt(e, lvl, c, width) {
        assert Complete(e, lvl, c, width);
        FinalIsItself(e, D(c));
        if Entered(e, D(c)) {
          KTreeIsRestorable(e[D(c)].entries, lvl - 1, width);
        } else {
          ShallowerTree(e, lvl - 1, width);
          KTreeIsRestorable(e, lvl - 1, width);
        }
      }
      assert RestorableFrom(e, lvl, 0, width);
    }
  }

  /** In particular a k-tree keeps every name and every file, to the inode and the content, whether or not the
      directories can be entered. */
  lemma {:induction false} TravRestores(e: Entries, lvl: nat, cnt: nat, width: int)
    requires KTreeAt(e, lvl, width)
    ensures Trav(e, lvl, cnt, width) == e
  {
    hide KTreeAt;
    KTreeIsRestorable(e, lvl, width);
    if lvl > 0 { TravRestoresFrom(e, lvl, cnt, width); }
  }

  /** An empty directory is not restorable: where the file is missing, the symlink call with its arguments in this order
      makes a dangling link of the file's name. */
  lemma {:induction false} TravLeavesLink()
    ensures Trav(map[], 1, 0, 1) == map[F(0) := Symlink(L(0))] && !Restorable(map[], 1, 1)
  {
    TravRestoresAll(map[], 1, 1);
    NamesDiffer(0, 0);
    var s := Shuffle(map[], 0);
    assert s == map[F(0) := Symlink(L(0))];
    assert Trav(s, 0, 0, 1) == s && Trav(s, 1, 1, 1) == s;
  }

  lemma {:induction false} InsideEmpty()
    ensures Inside(map[], 1, 1)
  {
  }

  /** A link in the place of a directory is followed: the dangling link is left in the directory that it leads to. */
  lemma {:induction false} TravFollowsLink(file: Node)
    requires file.File?
    ensures var e: Entries := map[F(0) := file, D(0) := Symlink("x"), "x" := Dir(map[], true)];
      Inside(e, 2, 1) && !Restorable(e, 2, 1)
      && Trav(e, 2, 0, 1) == e["x" := Dir(map[F(0) := Symlink(L(0))], true)]
  {
    NamesDiffer(0, 0);
    var e: Entries := map[F(0) := file, D(0) := Symlink("x"), "x" := Dir(map[], true)];
    var x: Entries := map[F(0) := Symlink(L(0))];
    assert |D(0)| >= 2 && |FT(0)| >= 2 && |L(0)| >= 2;
    FinalOfLink(e, D(0));
    assert Shuffle(e, 0) == e by { ShuffleRestores(e, 0); }
    TravLeavesLink();
    assert TravIn(e, D(0), 1, 1) == e["x" := Dir(x, true)];
    assert Trav(e["x" := Dir(x, true)], 2, 1, 1) == e["x" := Dir(x, true)];
    TravRestoresAll(e, 2, 1);
    InsideEmpty();
  }

  lemma {:induction false} ExactlyIsKTree(e: Entries, lvl: nat, width: nat)
    requires Exactly(e, lvl, width)
    ensures KTreeAt(e, lvl, width)
    decreases lvl
  {
    hide D, F, FT, L;
    if lvl > 0 {
      forall cnt: nat | cnt < width ensures Complete(e, lvl, cnt, width) {
        assert Full(e, lvl, cnt, width);
        forall c: nat | c < width ensures FT(cnt) != F(c) && FT(cnt) != D(c) && L(cnt) != F(c) && L(cnt) != D(c) {
          NamesDiffer(c, cnt);
        }
        ExactlyIsKTree(e[D(cnt)].entries, lvl - 1, width);
      }
    }
  }

  /** The traverser undoes nothing of what the generator made, and adds nothing to it. */
  lemma {:induction false} TravKeepsGenerated(m: Made, lvl: nat, width: nat, stays: bool)
    requires m.entries == map[]
    ensures var e := Gen(m, lvl, 0, width, stays).entries; Exactly(e, lvl, width) && Trav(e, lvl, 0, width) == e
  {
    GenOnEmpty(m, lvl, width, stays);
    var e := Gen(m, lvl, 0, width, stays).entries;
    ExactlyIsKTree(e, lvl, width);
    TravRestores(e, lvl, 0, width);
  }

  // --------------------------------------------------------------------- the two programs

  class FileSystem {
    var root: Entries
    var cwd: seq<string>
    var files: nat
    var dirs: nat
    const stays: bool  // of the directories that the process makes: whether it is privileged

    function Here(): Entries
      requires IsDir(root, cwd)
      reads this
    {
      Get(root, cwd)
    }

    /** A system call on the working directory gives it the entries e. */
    method SetHere(e: Entries)
      requires IsDir(root, cwd)
      modifies this`root
      ensures IsDir(root, cwd) && Here() == e && root == Put(old(root), cwd, e)
      ensures forall t: Entries :: IsDir(t, cwd) && old(root) == Put(t, cwd, old(Here())) ==> root == Put(t, cwd, e)
    {
      root := Put(root, cwd, e);
      PutLaws(old(root), cwd, e, e);
      forall t: Entries | IsDir(t, cwd) && old(root) == Put(t, cwd, old(Here())) ensures root == Put(t, cwd, e) {
        PutLaws(t, cwd, old(Here()), e);
      }
    }

    /** chdir to a name in the working directory, links followed. */
    method Enter(dir: string)
      requires IsDir(root, cwd)
      modifies this`cwd
      ensures var here := old(Here()); var n := Final(here, dir);
        cwd == if n in here && here[n].Dir? then old(cwd) + [n] else old(cwd)
      ensures IsDir(root, cwd)
    {
      var n := Final(Here(), dir);
      PutBelow(root, cwd, n, map[]);
      if n in Here() && Here()[n].Dir? { cwd := cwd + [n]; }
    }

    /** chdir to where the process was, as getcwd told. */
    method Chdir(path: seq<string>)
      modifies this`cwd
      ensures cwd == if IsDir(root, path) then path else old(cwd)
    {
      if IsDir(root, path) { cwd := path; }
    }

    ghost function Progress(): Made
      requires IsDir(root, cwd)
      reads this
    {
      Made(Here(), files, dirs)
    }

    /** k_tree_gen: only the working directory's subtree changes, as Gen says, and the process ends where it began. */
    method KTreeGen(lvl: int, width: int)
      requires IsDir(root, cwd)
      modifies this
      ensures cwd == old(cwd) && IsDir(root, cwd) && root == Put(old(root), cwd, Here())
      ensures Progress() == Gen(old(Progress()), lvl, 0, width, stays)
      decreases if lvl > 0 then lvl else 0, 0
    {
      hide IsDir, Get, Put, GenIn;
      PutLaws(root, cwd, map[], map[]);
      if lvl <= 0 { return; }
      var cnt := 0;
      while cnt < width
        invariant cnt >= 0 && cwd == old(cwd) && IsDir(root, cwd) && root == Put(old(root), cwd, Here())
        invariant Gen(Progress(), lvl, cnt, width, stays) == Gen(old(Progress()), lvl, 0, width, stays)
      {
        ghost var m := Progress();
        Create(cnt);
        ghost var mid := Progress();
        GenBelow(D(cnt), lvl - 1, width);
        PutLaws(old(root), cwd, m.entries, mid.entries);
        PutLaws(old(root), cwd, mid.entries, Here());
        assert Progress() == GenIn(NewDir(NewFile(m, cnt), cnt, stays), D(cnt), lvl - 1, width, stays);
        cnt := cnt + 1;
      }
    }

    /** open, write, mkdir. */
    method Create(cnt: nat)
      requires IsDir(root, cwd)
      modifies this
      ensures cwd == old(cwd) && IsDir(root, cwd) && root == Put(old(root), cwd, Here())
      ensures Progress() == NewDir(NewFile(old(Progress()), cnt), cnt, stays)
    {
      hide IsDir, Get, Put;
      var leaf, dir := Final(Here(), F(cnt)), D(cnt);
      var isNew := leaf !in Here();
      SetHere(CreateAndWrite(Here(), leaf, F(cnt)[..3], files));
      ghost var mid := Here();
      if isNew { files := files + 1; }
      isNew := dir !in Here();
      SetHere(Mkdir(Here(), dir, stays));
      if isNew { dirs := dirs + 1; }
      PutLaws(old(root), cwd, mid, Here());
    }

    /** getcwd, chdir(dir), k_tree_gen, chdir(cwd). */
    method GenBelow(dir: string, lvl: int, width: int)
      requires IsDir(root, cwd)
      modifies this
      ensures cwd == old(cwd) && IsDir(root, cwd) && root == Put(old(root), cwd, Here())
      ensures Progress() == GenIn(old(Progress()), dir, lvl, width, stays)
      decreases if lvl > 0 then lvl else 0, 1
    {
      hide IsDir, Get, Put, Gen;
      var saved := cwd;
      Enter(dir);
      ghost var here, n := old(Here()), Final(old(Here()), dir);
      PutBelow(root, saved, n, map[]);
      KTreeGen(lvl, width);
      ghost var e := Here();
      if cwd != saved {
        PutBelow(old(root), saved, n, e);
        PutLaws(old(root), saved, here[n := here[n].(entries := e)], map[]);
      }
      Chdir(saved);
    }

    /** k_tree_trav, in the same way as Trav says. */
    method KTreeTrav(lvl: int, width: int)
      requires IsDir(root, cwd)
      modifies this`root, this`cwd
      ensures cwd == old(cwd) && IsDir(root, cwd) && root == Put(old(root), cwd, Here())
      ensures Here() == Trav(old(Here()), lvl, 0, width)
      decreases if lvl > 0 then lvl else 0, 0
    {
      hide IsDir, Get, Put, TravIn, Shuffle;
      PutLaws(root, cwd, map[], map[]);
      if lvl <= 0 { return; }
      var cnt := 0;
      while cnt < width
        invariant cnt >= 0 && cwd == old(cwd) && IsDir(root, cwd) && root == Put(old(root), cwd, Here())
        invariant Trav(Here(), lvl, cnt, width) == Trav(old(Here()), lvl, 0, width)
      {
        ghost var e := Here();
        ShuffleFile(cnt);
        ghost var mid := Here();
        TravBelow(D(cnt), lvl - 1, width);
        PutLaws(old(root), cwd, e, mid);
        PutLaws(old(root), cwd, mid, Here());
        assert Here() == TravIn(Shuffle(e, cnt), D(cnt), lvl - 1, width);
        cnt := cnt + 1;
      }
    }

    /** link, unlink, rename, symlink, unlink. */
    method ShuffleFile(cnt: nat)
      requires IsDir(root, cwd)
      modifies this`root
      ensures IsDir(root, cwd) && root == Put(old(root), cwd, Here()) && Here() == Shuffle(old(Here()), cnt)
    {
      hide IsDir, Get, Put, Link, Unlink, Rename, MakeSymlink;
      var f1, f2, ln := F(cnt), FT(cnt), L(cnt);
      PutLaws(root, cwd, Link(Here(), f1, f2), map[]);
      SetHere(Link(Here(), f1, f2));
      SetHere(Unlink(Here(), f1));
      SetHere(Rename(Here(), f2, f1));
      SetHere(MakeSymlink(Here(), ln, f1));
      SetHere(Unlink(Here(), ln));
    }

    method TravBelow(dir: string, lvl: int, width: int)
      requires IsDir(root, cwd)
      modifies this`root, this`cwd
      ensures cwd == old(cwd) && IsDir(root, cwd) && root == Put(old(root), cwd, Here())
      ensures Here() == TravIn(old(Here()), dir, lvl, width)
      decreases if lvl > 0 then lvl else 0, 1
    {
      hide IsDir, Get, Put, Trav;
      var saved := cwd;
      ghost var here, n := Here(), Final(Here(), dir);
      if Entered(Here(), Final(Here(), dir)) { Enter(dir); }
      PutBelow(root, saved, n, map[]);
      KTreeTrav(lvl, width);
      ghost var e := Here();
      if cwd != saved {
        PutBelow(old(root), saved, n, e);
        PutLaws(old(root), saved, here[n := here[n].(entries := e)], map[]);
      }
      Chdir(saved);
    }
  }
}
