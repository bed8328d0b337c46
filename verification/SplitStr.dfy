/** `splitstr` (splitstr.c) cuts a command line into arguments; `cat_args` (zoolib.c) joins arguments to a line. */
module SplitStr {
  import opened Basics

  predicate IsSep(c: char, sep: string) { c in sep }

  /** The separators strtok skips at the front. */
  function SkipSeps(s: string, sep: string): (t: string)
    ensures |t| <= |s| && (t != "" ==> !IsSep(t[0], sep))
  {
    if s != "" && IsSep(s[0], sep) then SkipSeps(s[1..], sep) else s
  }

  /** The length of the token at the front. */
  function TokenLength(s: string, sep: string): (n: nat)
    ensures n <= |s| && (forall i :: 0 <= i < n ==> !IsSep(s[i], sep)) && (n < |s| ==> IsSep(s[n], sep))
    ensures s != "" && !IsSep(s[0], sep) ==> n >= 1
  {
    if s == "" || IsSep(s[0], sep) then 0 else 1 + TokenLength(s[1..], sep)
  }

  /** The tokens that successive calls of strtok deliver; each call resumes behind the separator it overwrote. */
  function Tokens(s: string, sep: string): seq<string>
    decreases |s|
  {
    var t := SkipSeps(s, sep);
    if t == "" then []
    else var n := TokenLength(t, sep); [t[..n]] + Tokens(t[n..], sep)
  }

  predicate PureToken(t: string, sep: string) {
    t != "" && forall i :: 0 <= i < |t| ==> !IsSep(t[i], sep)
  }

  predicate PureTokens(ts: seq<string>, sep: string) {
    forall i :: 0 <= i < |ts| ==> PureToken(ts[i], sep)
  }

  /** For any input the tokens are non-empty and free of separators. */
  lemma {:induction false} TokensArePure(s: string, sep: string)
    ensures PureTokens(Tokens(s, sep), sep)
    decreases |s|
  {
    var t := SkipSeps(s, sep);
    if t != "" { TokensArePure(t[TokenLength(t, sep)..], sep); }
  }

  /** The text without its separators. */
  function Strip(s: string, sep: string): string {
    if s == "" then "" else (if IsSep(s[0], sep) then "" else s[..1]) + Strip(s[1..], sep)
  }

  function Concat(ts: seq<string>): string {
    if ts == [] then "" else ts[0] + Concat(ts[1..])
  }

  /** How many positions start a token: no separator there, and none or a separator before. */
  function Starts(s: string, sep: string, afterSep: bool): nat {
    if s == "" then 0
    else (if afterSep && !IsSep(s[0], sep) then 1 else 0) + Starts(s[1..], sep, IsSep(s[0], sep))
  }

  lemma {:induction false} SkipKeeps(s: string, sep: string)
    ensures Strip(SkipSeps(s, sep), sep) == Strip(s, sep)
    ensures Starts(SkipSeps(s, sep), sep, true) == Starts(s, sep, true)
  {
    if s != "" && IsSep(s[0], sep) { SkipKeeps(s[1..], sep); }
  }

  lemma {:induction false} TokenKeeps(t: string, n: nat, sep: string, afterSep: bool)
    requires n <= |t| && (forall i :: 0 <= i < n ==> !IsSep(t[i], sep)) && (n < |t| ==> IsSep(t[n], sep))
    ensures Strip(t, sep) == t[..n] + Strip(t[n..], sep)
    ensures Starts(t, sep, afterSep) == (if n > 0 && afterSep then 1 else 0) + Starts(t[n..], sep, true)
    decreases n
  {
    if n == 0 {
      assert t[0..] == t;
    } else {
      TokenKeeps(t[1..], n - 1, sep, false);
      assert t[1..][n - 1..] == t[n..] && t[..n] == t[..1] + t[1..][..n - 1];
    }
  }

  /** The tokens are the text without its separators, in order, cut exactly where separators stand. */
  lemma {:induction false} TokensInOrder(s: string, sep: string)
    ensures Concat(Tokens(s, sep)) == Strip(s, sep)
    ensures |Tokens(s, sep)| == Starts(s, sep, true)
    decreases |s|
  {
    var t := SkipSeps(s, sep);
    SkipKeeps(s, sep);
    if t != "" {
      var n := TokenLength(t, sep);
      TokenKeeps(t, n, sep, true);
      TokensInOrder(t[n..], sep);
    }
  }

  // ------------------------------------------------------------------ round trip

  /** The line cat_args builds. */
  function Join(args: seq<string>): string {
    if args == [] then "" else if |args| == 1 then args[0] else args[0] + " " + Join(args[1..])
  }

  lemma {:induction false} TokenLengthIs(a: string, rest: string, sep: string)
    requires (forall i :: 0 <= i < |a| ==> !IsSep(a[i], sep)) && (rest == "" || IsSep(rest[0], sep))
    ensures TokenLength(a + rest, sep) == |a|
  {
    if a == "" {
      assert a + rest == rest;
    } else {
      assert (a + rest)[1..] == a[1..] + rest && (a + rest)[0] == a[0];
      TokenLengthIs(a[1..], rest, sep);
    }
  }

  lemma {:induction false} FirstToken(a: string, rest: string, sep: string)
    requires PureToken(a, sep) && (rest == "" || IsSep(rest[0], sep))
    ensures Tokens(a + rest, sep) == [a] + Tokens(rest, sep)
  {
    var s := a + rest;
    assert s[0] == a[0] && SkipSeps(s, sep) == s;
    TokenLengthIs(a, rest, sep);
    assert s[..|a|] == a && s[|a|..] == rest;
  }

  lemma {:induction false} JoinSplits(args: seq<string>, sep: string)
    requires PureTokens(args, sep) && IsSep(' ', sep)
    ensures Tokens(Join(args), sep) == args
  {
    if |args| == 1 {
      FirstToken(args[0], "", sep);
      assert args[0] + "" == args[0] && Tokens("", sep) == [];
    } else if |args| > 1 {
      var rest := " " + Join(args[1..]);
      FirstToken(args[0], rest, sep);
      assert Join(args) == args[0] + rest;
      JoinSplits(args[1..], sep);
      assert rest[1..] == Join(args[1..]) && SkipSeps(rest, sep) == SkipSeps(Join(args[1..]), sep);
    }
  }

  /** Splitting the joined line gives the arguments back exactly when none of them is empty or holds a space or a tab. */
  lemma {:induction false} SplitUndoesJoinExactly(args: seq<string>)
    ensures Tokens(Join(args), " \t") == args <==> PureTokens(args, " \t")
    ensures Tokens(Join(args), " ") == args <==> PureTokens(args, " ")
  {
    if PureTokens(args, " \t") {
      JoinSplits(args, " \t");
    }
    if PureTokens(args, " ") {
      JoinSplits(args, " ");
    }
    TokensArePure(Join(args), " \t");
    TokensArePure(Join(args), " ");
  }

  lemma {:induction false} EmptyArgumentIsLost()
    ensures Tokens(Join([""]), " \t") == []
  {
  }

  // ----------------------------------------------------------------- the methods

  /** The separators of a call; a NULL separator stands for space and tab. */
  function Separators(separator: Option<string>): string {
    if separator.None? then " \t" else separator.value
  }

  /** splitstr: None is a NULL pointer, in the arguments and in the array. */
  method Splitstr(str: Option<string>, separator: Option<string>) returns (argArray: array?<Option<string>>, argcount: nat)
    ensures str.None? ==> argArray == null && argcount == 0
    ensures str.Some? ==> var tokens := Tokens(str.value, if separator.None? then " \t" else separator.value);
      && argArray != null && fresh(argArray) && argcount == |tokens| < argArray.Length <= argcount + 20
      && (forall i :: 0 <= i < argcount ==> argArray[i] == Some(tokens[i]))
      && (forall i :: argcount <= i < argArray.Length ==> argArray[i] == None)
  {
    if str.None? {
      return null, 0;
    }
    argArray, argcount := SplitInto(str.value, Separators(separator));
  }

  /** The body of splitstr for a string. The array grows by twenty when it is full. */
  method SplitInto(str: string, sep: string) returns (argArray: array<Option<string>>, argcount: nat)
    ensures fresh(argArray) && argcount == |Tokens(str, sep)| < argArray.Length <= argcount + 20
    ensures forall i :: 0 <= i < argcount ==> argArray[i] == Some(Tokens(str, sep)[i])
    ensures forall i :: argcount <= i < argArray.Length ==> argArray[i] == None
  {
    ghost var tokens := Tokens(str, sep);
    var numToks, maxToks := 0, 20;
    argArray := new Option<string>[maxToks](_ => None);
    var left := SkipSeps(str, sep);
    while left != ""
      invariant fresh(argArray) && argArray.Length == maxToks && numToks < maxToks <= numToks + 20 && numToks <= |tokens|
      invariant left == SkipSeps(left, sep) && tokens[numToks..] == Tokens(left, sep)
      invariant forall i :: 0 <= i < numToks ==> argArray[i] == Some(tokens[i])
      decreases |left|
    {
      var n := TokenLength(left, sep);
      assert tokens[numToks..][0] == left[..n] && tokens[numToks..][1..] == tokens[numToks + 1..];
      argArray[numToks] := Some(left[..n]);
      numToks := numToks + 1;
      ghost var behind := left[n..];
      left := SkipSeps(left[n..], sep);
      SkipTwice(behind, sep);
      if numToks == maxToks {
        maxToks := maxToks + 20;
        argArray := Realloc(argArray, maxToks);
      }
    }
    assert tokens[numToks..] == [];
    argArray[numToks] := None;
    for i := numToks + 1 to maxToks
      invariant forall k :: 0 <= k < numToks ==> argArray[k] == Some(tokens[k])
      invariant forall k :: numToks <= k < i ==> argArray[k] == None
    {
      argArray[i] := None;
    }
    argcount := numToks;
  }

  lemma {:induction false} SkipTwice(s: string, sep: string)
    ensures SkipSeps(SkipSeps(s, sep), sep) == SkipSeps(s, sep)
    ensures Tokens(SkipSeps(s, sep), sep) == Tokens(s, sep)
  {
    if s != "" && IsSep(s[0], sep) { SkipTwice(s[1..], sep); }
  }

  /** realloc to a larger size: the old elements are kept. */
  method Realloc(a: array<Option<string>>, size: nat) returns (b: array<Option<string>>)
    requires a.Length <= size
    ensures fresh(b) && b.Length == size && forall i :: 0 <= i < a.Length ==> b[i] == a[i]
  {
    b := new Option<string>[size](_ => None);
    forall i | 0 <= i < a.Length {
      b[i] := a[i];
    }
  }

  /** The size cat_args computes: every argument and one more character for each. */
  function Size(args: seq<string>): nat {
    if args == [] then 0 else Size(args[..|args| - 1]) + |args[|args| - 1]| + 1
  }

  lemma {:induction false} JoinSnoc(args: seq<string>, a: string)
    ensures Join(args + [a]) == if args == [] then a else Join(args) + " " + a
  {
    if args == [] {
      assert args + [a] == [a];
    } else {
      assert (args + [a])[1..] == args[1..] + [a];
      JoinSnoc(args[1..], a);
      if |args| > 1 {
        assert Join(args) + " " + a == args[0] + " " + (Join(args[1..]) + " " + a);
      }
    }
  }

  /** A non-empty list joined and terminated has exactly the computed size. */
  lemma {:induction false} JoinSize(args: seq<string>)
    ensures |Join(args)| + (if args == [] then 0 else 1) == Size(args)
  {
    if args != [] {
      var n := |args| - 1;
      JoinSize(args[..n]);
      JoinSnoc(args[..n], args[n]);
      assert args == args[..n] + [args[n]];
    }
  }

  /** The computed size holds the joined text and its terminator exactly when there is an argument. */
  lemma {:induction false} SizeSufficesExactly(args: seq<string>)
    ensures |Join(args)| + 1 <= Size(args) <==> args != []
  {
    JoinSize(args);
  }

  predicate CString(s: string) { '\0' !in s }

  /** The buffer holds the text s, terminated. */
  ghost predicate Holds(cmd: array<char>, s: string)
    reads cmd
  {
    |s| < cmd.Length && cmd[..|s|] == s && cmd[|s|] == '\0' && CString(s)
  }

  /** strcat: the terminator is searched for, and a copied behind it. */
  method Strcat(cmd: array<char>, a: string, ghost s: string)
    requires Holds(cmd, s) && CString(a) && |s| + |a| < cmd.Length
    modifies cmd
    ensures Holds(cmd, s + a)
  {
    var p := 0;
    while cmd[p] != '\0'
      invariant 0 <= p <= |s| && forall k :: 0 <= k < |s| ==> cmd[k] == s[k] && s[k] != '\0'
      decreases |s| - p
    {
      p := p + 1;
    }
    for i := 0 to |a|
      invariant cmd[..p] == s && forall k :: 0 <= k < i ==> cmd[p + k] == a[k]
    {
      cmd[p + i] := a[i];
    }
    cmd[p + |a|] := '\0';
  }

  /** cat_args: for a non-empty list the buffer of the computed size is filled to its last character. For an empty one the
      size is 0, and the terminator that the source stores at once has no place; `fits` says so. */
  method CatArgs(argv: seq<string>) returns (cmd: array<char>, fits: bool)
    requires forall i :: 0 <= i < |argv| ==> CString(argv[i])
    ensures fresh(cmd) && cmd.Length == Size(argv)
    ensures fits <==> argv != []
    ensures fits ==> cmd[..] == Join(argv) + "\0"
  {
    var size := ComputeSize(argv);
    cmd := new char[size];
    SizeSufficesExactly(argv);
    fits := size > 0;
    if fits { JoinAll(argv, cmd); }
  }

  /** The stores into the buffer. */
  method JoinAll(argv: seq<string>, cmd: array<char>)
    requires argv != [] && cmd.Length == Size(argv) && forall i :: 0 <= i < |argv| ==> CString(argv[i])
    modifies cmd
    ensures cmd[..] == Join(argv) + "\0"
  {
    JoinSize(argv);
    cmd[0] := '\0';
    for a := 0 to |argv|
      invariant Holds(cmd, Join(argv[..a]))
    {
      JoinPrefix(argv, a + 1);
      assert argv[..a + 1] == argv[..a] + [argv[a]];
      Append(cmd, argv[..a], a == 0, argv[a]);
    }
    assert argv[..|argv|] == argv;
    assert cmd[..] == cmd[..cmd.Length - 1] + [cmd[cmd.Length - 1]];
  }

  method ComputeSize(argv: seq<string>) returns (size: nat)
    ensures size == Size(argv)
  {
    size := 0;
    for a := 0 to |argv|
      invariant size == Size(argv[..a])
    {
      assert argv[..a + 1][..a] == argv[..a];
      size := size + |argv[a]|;
      size := size + 1;
    }
    assert argv[..|argv|] == argv;
  }

  /** One turn of the joining loop of cat_args. */
  method Append(cmd: array<char>, ghost before: seq<string>, first: bool, arg: string)
    requires first == (before == []) && Holds(cmd, Join(before)) && CString(arg) && |Join(before + [arg])| < cmd.Length
    modifies cmd
    ensures Holds(cmd, Join(before + [arg]))
  {
    JoinSnoc(before, arg);
    if !first {
      Strcat(cmd, " ", Join(before));
      Strcat(cmd, arg, Join(before) + " ");
    } else {
      Strcat(cmd, arg, "");
      assert "" + arg == arg;
    }
  }

  lemma {:induction false} JoinPrefix(args: seq<string>, k: nat)
    requires k <= |args|
    ensures |Join(args[..k])| <= |Join(args)|
    decreases |args| - k
  {
    if k < |args| {
      assert args[..k + 1] == args[..k] + [args[k]];
      JoinSnoc(args[..k], args[k]);
      JoinPrefix(args, k + 1);
    } else {
      assert args[..k] == args;
    }
  }
}
