/** The command line rewriting of the gcc wrapper, on both ends of a connection. */
module Gcc {
  import opened Sequences

  /* ---------- names ---------- */

  /** Where the last dot is; the length if there is none. */
  function LastDot(s: string): (i: nat)
    ensures i <= |s|
    ensures i < |s| ==> s[i] == '.'
    ensures forall k :: i < k < |s| ==> s[k] != '.'
    ensures i == |s| ==> '.' !in s
  {
    if s == [] then 0
    else if s[|s| - 1] == '.' then |s| - 1
    else
      var i := LastDot(s[..|s| - 1]);
      if i == |s| - 1 then |s| else i
  }

  /** `arg.split('.')[-1]`: all of it when there is no dot. */
  function Extension(arg: string): string {
    var i := LastDot(arg);
    if i == |arg| then arg else arg[i + 1..]
  }

  function LowerChar(c: char): char {
    if 'A' <= c <= 'Z' then c - 'A' + 'a' else c
  }

  function Lower(s: string): string {
    seq(|s|, i requires 0 <= i < |s| => LowerChar(s[i]))
  }

  predicate IsSource(arg: string) {
    Lower(Extension(arg)) in {"cpp", "cxx", "cc", "c", "i", "ii"}
  }

  const LANG_C := "c"
  const LANG_CXX := "c++"

  function Language(src: string): string {
    if Lower(Extension(src)) == "c" then LANG_C else LANG_CXX
  }

  /** The object's name with the extension of preprocessed source. */
  function Preprocessed(obj: string, src: string): string {
    var suffix := if Language(src) == LANG_CXX then "ii" else "i";
    var i := LastDot(obj);
    if i == |obj| then suffix else obj[..i] + "." + suffix
  }

  /** Capitals become small letters, and nothing else changes. */
  lemma LowerLetters(c: char)
    ensures 'A' <= c <= 'Z' ==> 'a' <= LowerChar(c) <= 'z' && LowerChar(c) - 'a' == c - 'A'
    ensures LowerChar(c) != c ==> 'A' <= c <= 'Z'
  {}

  /** What counts as a source, and in which language, goes by the last extension. */
  lemma SourceByExtension(stem: string, ext: string)
    requires '.' !in ext
    ensures IsSource(stem + ['.'] + ext) <==> Lower(ext) in {"cpp", "cxx", "cc", "c", "i", "ii"}
    ensures IsSource(ext) <==> Lower(ext) in {"cpp", "cxx", "cc", "c", "i", "ii"}
    ensures Language(stem + ['.'] + ext) == if Lower(ext) == "c" then "c" else "c++"
  {
    ExtensionAppend(stem, ext);
    hide Extension, Lower;
  }

  /** Extensions in small and in capital letters. */
  lemma BothCases()
    ensures Lower("c") == Lower("C") == "c" && Lower("cc") == Lower("CC") == "cc"
    ensures Lower("cpp") == Lower("CPP") == "cpp" && Lower("cxx") == Lower("CXX") == "cxx"
    ensures Lower("i") == Lower("I") == "i" && Lower("ii") == Lower("II") == "ii"
  {}

  /* ---------- preprocessor flags ---------- */

  predicate StartsWith(arg: string, prefix: string) { prefix <= arg }

  datatype Flag = NotFlag | Alone | WithOperand

  /** `is_preprocessor_flag`: whether to skip the argument, and the one after it. */
  function PreprocessorFlag(arg: string): Flag {
    if StartsWith(arg, "-D") then Alone
    else if arg == "-I" then WithOperand
    else if StartsWith(arg, "-I") then Alone
    else if StartsWith(arg, "-Wp,") then Alone
    else if arg == "-Xpreprocessor" then WithOperand
    else if arg in {"-MD", "-M", "-nostdinc"} then Alone
    else if arg in {"-MT", "-MF"} then WithOperand
    else if arg in {"-include", "-imacro", "-iquote", "-isystem"} then WithOperand
    else NotFlag
  }

  /** The flags that are dropped together with the argument after them. */
  predicate DropsTwo(arg: string) {
    arg in {"-I", "-Xpreprocessor", "-MT", "-MF", "-include", "-imacro", "-iquote", "-isystem"}
  }

  /** The flags that are dropped alone. */
  predicate DropsOne(arg: string) {
    || arg in {"-MD", "-M", "-nostdinc"}
    || (|arg| >= 2 && arg[0] == '-' && arg[1] == 'D')
    || (|arg| > 2 && arg[0] == '-' && arg[1] == 'I')
    || (|arg| >= 4 && arg[..4] == ['-', 'W', 'p', ','])
  }

  lemma FlagTable(arg: string)
    ensures PreprocessorFlag(arg) == if DropsTwo(arg) then WithOperand else if DropsOne(arg) then Alone else NotFlag
  {
    assert StartsWith(arg, "-D") <==> |arg| >= 2 && arg[0] == '-' && arg[1] == 'D';
    assert StartsWith(arg, "-I") <==> |arg| >= 2 && arg[0] == '-' && arg[1] == 'I';
    assert StartsWith(arg, "-Wp,") <==> |arg| >= 4 && arg[..4] == ['-', 'W', 'p', ','];
    hide StartsWith;
  }

  /* ---------- the loops, as functions of the arguments still to come ---------- */

  datatype Scanned = Scanned(skip: bool, sources: nat, compiles: bool, hasObject: bool,
                             src: Option<string>, obj: Option<string>)

  /** One round of the loop in `can_handle_command`. */
  function ScanOne(args: seq<string>, s: Scanned): Scanned
    requires args != []
  {
    var arg := args[0];
    if s.skip then s.(skip := false)
    else if arg == "-c" || arg == "-S" then s.(compiles := true)
    else if arg == "-x" then s.(skip := true)
    else if IsSource(arg) then s.(sources := s.sources + 1, src := Some(arg))
    else if arg == "-o" then
      if |args| > 1 then s.(skip := true, obj := Some(args[1]), hasObject := true)
      else s.(skip := true)
    else s
  }

  function Scan(args: seq<string>, s: Scanned): Scanned {
    if args == [] then s else Scan(args[1..], ScanOne(args, s))
  }

  const START := Scanned(false, 0, false, false, None, None)

  datatype Verdict = Accepted | NoSources | MultipleSources | Linking | NoObject

  function Judge(s: Scanned): Verdict {
    if s.sources == 0 then NoSources
    else if s.sources > 1 then MultipleSources
    else if !s.compiles then Linking
    else if !s.hasObject then NoObject
    else Accepted
  }

  function PreprocessorArgs(args: seq<string>, nextIsObject: bool, src: string): seq<string> {
    if args == [] then []
    else if args[0] == "-c" then ["-E"] + PreprocessorArgs(args[1..], nextIsObject, src)
    else if nextIsObject then [Preprocessed(args[0], src)] + PreprocessorArgs(args[1..], false, src)
    else [args[0]] + PreprocessorArgs(args[1..], args[0] == "-o", src)
  }

  /** The last argument that the preprocessing loop takes for the object. */
  function PreprocessorObject(args: seq<string>, nextIsObject: bool, obj: Option<string>): Option<string> {
    if args == [] then obj
    else if args[0] == "-c" then PreprocessorObject(args[1..], nextIsObject, obj)
    else if nextIsObject then PreprocessorObject(args[1..], false, Some(args[0]))
    else PreprocessorObject(args[1..], args[0] == "-o", obj)
  }

  function CompilerArgs(args: seq<string>, skip: bool, hasX: bool, src: string, pre: string): seq<string> {
    if args == [] then []
    else if skip then CompilerArgs(args[1..], false, hasX, src, pre)
    else
      var flag := PreprocessorFlag(args[0]);
      var rest := CompilerArgs(args[1..], flag == WithOperand, hasX, src, pre);
      if flag != NotFlag then rest
      else if args[0] == src then (if hasX then [] else ["-x", Language(src)]) + [pre] + rest
      else [args[0]] + rest
  }

  function Replace(args: seq<string>, old_: string, new_: string): seq<string> {
    seq(|args|, i requires 0 <= i < |args| => if args[i] == old_ then new_ else args[i])
  }

  /** The operand of the first `-o` that has one. */
  function FirstObject(args: seq<string>): Option<string> {
    if |args| < 2 then None
    else if args[0] == "-o" then Some(args[1])
    else FirstObject(args[1..])
  }

  /** What `object_file` finds when the scan has not: the argument after the first `-o`. */
  lemma {:induction false} FirstObjectFound(args: seq<string>, n: nat)
    requires n < |args| && forall k :: 0 <= k < n ==> args[k] != "-o"
    ensures args[n] == "-o" && n + 1 < |args| ==> FirstObject(args) == Some(args[n + 1])
    ensures n + 1 == |args| ==> FirstObject(args) == None
  {
    if n > 0 && |args| > 1 {
      FirstObjectFound(args[1..], n - 1);
    }
  }

  /* ---------- command lines by what their arguments are for ---------- */

  datatype Item =
    | Compile
    | Assemble
    | Source(name: string)
    | Object(name: string)
    | Lang(name: string)
    | Macro(token: string)
    | MacroWith(flag: string, operand: string)
    | Other(token: string)

  function Tokens(item: Item): seq<string> {
    match item
    case Compile => ["-c"]
    case Assemble => ["-S"]
    case Source(name) => [name]
    case Object(name) => ["-o", name]
    case Lang(name) => ["-x", name]
    case Macro(token) => [token]
    case MacroWith(flag, operand) => [flag, operand]
    case Other(token) => [token]
  }

  function Flat(items: seq<Item>): seq<string> {
    if items == [] then [] else Tokens(items[0]) + Flat(items[1..])
  }

  predicate Special(arg: string) { arg in {"-c", "-S", "-x", "-o"} }

  predicate Plain(arg: string) { !Special(arg) && PreprocessorFlag(arg) == NotFlag }

  /** Flags that have an operand.  To the compiler a `-D` on its own has one, too. */
  predicate TakesOperand(arg: string) {
    arg in {"-o", "-x", "-D"} || PreprocessorFlag(arg) == WithOperand
  }

  function Pair(flag: string, operand: string): Item {
    if flag == "-o" then Object(operand) else if flag == "-x" then Lang(operand) else MacroWith(flag, operand)
  }

  function Single(arg: string): Item {
    if arg == "-c" then Compile
    else if arg == "-S" then Assemble
    else if PreprocessorFlag(arg) == Alone then Macro(arg)
    else if IsSource(arg) then Source(arg)
    else Other(arg)
  }

  /** A command line as the compiler reads it. */
  function Parse(args: seq<string>): seq<Item> {
    if args == [] then []
    else if |args| > 1 && TakesOperand(args[0]) then [Pair(args[0], args[1])] + Parse(args[2..])
    else [Single(args[0])] + Parse(args[1..])
  }

  /** Flags have their operands; operands are no flags, and only that of `-x` (the
      language `c`) may look like a source; the object is not the source.  Other
      sources than `src` do not occur in a command that is accepted. */
  predicate ItemOk(item: Item, src: string) {
    match item
    case Compile => true
    case Assemble => false
    case Source(name) => IsSource(name) && Plain(name) && name == src
    case Object(name) => Plain(name) && name != src
    case Lang(name) => Plain(name) && name != src
    case Macro(token) => PreprocessorFlag(token) == Alone && token != "-D" && !IsSource(token)
    case MacroWith(flag, operand) =>
      && (flag == "-D" || PreprocessorFlag(flag) == WithOperand)
      && (flag == "-D" ==> Plain(operand))
      && !Special(operand) && !IsSource(operand)
    case Other(token) => Plain(token) && !IsSource(token)
  }

  predicate AllOk(items: seq<Item>, src: string) {
    forall i :: 0 <= i < |items| ==> ItemOk(items[i], src)
  }

  /** The letter after the dash tells preprocessor flags from the others. */
  lemma FlagLetter(arg: string)
    ensures PreprocessorFlag(arg) != NotFlag ==> |arg| >= 2 && arg[1] in {'D', 'I', 'W', 'X', 'M', 'n', 'i'}
  {
    if StartsWith(arg, "-D") {
      assert arg[1] == "-D"[1];
    } else if StartsWith(arg, "-I") {
      assert arg[1] == "-I"[1];
    } else if StartsWith(arg, "-Wp,") {
      assert arg[1] == "-Wp,"[1];
    }
  }

  lemma SpecialNotFlag(arg: string)
    ensures Special(arg) ==> PreprocessorFlag(arg) == NotFlag
  {
    FlagLetter(arg);
    hide PreprocessorFlag;
    assert Special(arg) ==> |arg| == 2 && arg[1] in {'c', 'S', 'x', 'o'};
  }

  lemma DefineAlone()
    ensures PreprocessorFlag("-D") == Alone
  {}

  /** A dash and no dot: not a source file. */
  lemma DashNotSource(arg: string)
    requires arg != [] && arg[0] == '-' && '.' !in arg
    ensures !IsSource(arg)
  {
    assert LastDot(arg) == |arg|;
    assert Lower(Extension(arg))[0] == '-';
  }

  lemma FlagsNotSources(flag: string)
    requires Special(flag) || TakesOperand(flag)
    ensures !IsSource(flag)
    ensures TakesOperand(flag) && flag !in {"-o", "-x"} ==> !Special(flag)
  {
    SpecialNotFlag(flag);
    DashNotSource(flag);
  }

  lemma MacrosNotSpecial(item: Item)
    ensures item.Macro? && PreprocessorFlag(item.token) == Alone ==> !Special(item.token)
  {
    if item.Macro? {
      SpecialNotFlag(item.token);
    }
  }

  /** Reading loses nothing. */
  lemma {:induction false} ParseKeepsArguments(args: seq<string>)
    ensures Flat(Parse(args)) == args
  {
    hide TakesOperand, PreprocessorFlag, IsSource;
    if args != [] {
      if |args| > 1 && TakesOperand(args[0]) {
        ParseKeepsArguments(args[2..]);
        assert args == Tokens(Pair(args[0], args[1])) + args[2..];
      } else {
        ParseKeepsArguments(args[1..]);
        assert args == Tokens(Single(args[0])) + args[1..];
      }
    }
  }

  lemma ParseItem(item: Item, src: string, t: seq<string>)
    requires ItemOk(item, src)
    ensures Parse(Tokens(item) + t) == [item] + Parse(t)
  {
    var args := Tokens(item) + t;
    if Special(args[0]) || TakesOperand(args[0]) {
      FlagsNotSources(args[0]);
    }
    SpecialNotFlag(args[0]);
    MacrosNotSpecial(item);
    DefineAlone();
    hide IsSource, PreprocessorFlag;
    if |Tokens(item)| == 1 {
      assert args[1..] == t;
    } else {
      assert args[2..] == t;
    }
  }

  /** There is only one way of reading a command that is as it should be. */
  lemma {:induction false} ParseUnique(items: seq<Item>, src: string)
    requires AllOk(items, src)
    ensures Parse(Flat(items)) == items
  {
    hide ItemOk, Tokens, Parse;
    if items == [] {
      ParseNothing();
    } else {
      ParseItem(items[0], src, Flat(items[1..]));
      ParseUnique(items[1..], src);
    }
  }

  lemma ParseNothing()
    ensures Parse([]) == []
  {}

  lemma FlatCons(item: Item, t: seq<Item>)
    ensures Flat([item] + t) == Tokens(item) + Flat(t)
  {
    hide Tokens;
    assert ([item] + t)[1..] == t;
  }

  lemma {:induction false} FlatAppend(a: seq<Item>, b: seq<Item>)
    ensures Flat(a + b) == Flat(a) + Flat(b)
  {
    if a == [] {
      assert a + b == b;
    } else {
      HeadAndTail(a, b);
      FlatAppend(a[1..], b);
      FlatCons(a[0], a[1..]);
      FlatCons(a[0], a[1..] + b);
      hide Flat, Tokens;
      Associative(Tokens(a[0]), Flat(a[1..]), Flat(b));
    }
  }

  lemma FlatUpToTwo(a: Item, b: Item, c: Item)
    ensures Flat([]) == [] && Flat([a]) == Tokens(a) && Flat([c]) == Tokens(c)
    ensures Flat([b] + [c]) == Tokens(b) + Tokens(c) && Flat([] + [c]) == Tokens(c)
  {
    FlatAppend([b], [c]);
    assert [a][1..] == [] && [b][1..] == [] && [c][1..] == [] && [] + [c] == [c];
  }

  /* ---------- scanning ---------- */

  /** What the scan relies on. */
  predicate Scannable(item: Item) {
    match item
    case Source(name) => IsSource(name) && !Special(name)
    case Macro(token) => !IsSource(token) && !Special(token)
    case MacroWith(flag, operand) => !IsSource(flag) && !Special(flag) && !IsSource(operand) && !Special(operand)
    case Other(token) => !IsSource(token) && !Special(token)
    case _ => true
  }

  lemma OkScannable(item: Item, src: string)
    requires ItemOk(item, src)
    ensures Scannable(item)
  {
    MacrosNotSpecial(item);
    if item.MacroWith? {
      FlagsNotSources(item.flag);
    }
    hide IsSource, Special, PreprocessorFlag;
    assert !Special("-D") by {
      assert "-D"[1] == 'D';
    }
  }

  function Summarise(item: Item, s: Scanned): Scanned {
    match item
    case Compile => s.(compiles := true)
    case Assemble => s.(compiles := true)
    case Source(name) => s.(sources := s.sources + 1, src := Some(name))
    case Object(name) => s.(hasObject := true, obj := Some(name))
    case _ => s
  }

  /** What the scan is for, read off the items. */
  function Summary(items: seq<Item>, s: Scanned): Scanned {
    if items == [] then s else Summary(items[1..], Summarise(items[0], s))
  }

  lemma ScanToken(arg: string, t: seq<string>, s: Scanned)
    ensures Scan([arg] + t, s) == Scan(t, ScanOne([arg] + t, s))
    ensures s.skip ==> ScanOne([arg] + t, s) == s.(skip := false)
    ensures !s.skip && !Special(arg) && !IsSource(arg) ==> ScanOne([arg] + t, s) == s
  {
    hide IsSource;
    assert ([arg] + t)[1..] == t;
  }

  lemma ScanPair(a: string, b: string, t: seq<string>, s: Scanned)
    requires !s.skip && !IsSource(a) && a !in {"-c", "-S"} && (!Special(a) ==> !IsSource(b) && !Special(b))
    ensures Scan([a, b] + t, s) == Scan(t, if a == "-o" then s.(hasObject := true, obj := Some(b)) else s)
  {
    hide IsSource, Scan;
    ScanToken(a, [b] + t, s);
    ScanToken(b, t, ScanOne([a] + ([b] + t), s));
    assert [a, b] + t == [a] + ([b] + t);
  }

  lemma ScanItem(item: Item, t: seq<string>, s: Scanned)
    requires Scannable(item) && !s.skip
    ensures Scan(Tokens(item) + t, s) == Scan(t, Summarise(item, s))
  {
    FlagsNotSources("-o");
    FlagsNotSources("-x");
    hide IsSource, Scan;
    match item {
      case Object(name) => ScanPair("-o", name, t, s);
      case Lang(name) => ScanPair("-x", name, t, s);
      case MacroWith(flag, operand) => ScanPair(flag, operand, t, s);
      case _ => ScanToken(Tokens(item)[0], t, s);
    }
  }

  lemma {:induction false} ScanItems(items: seq<Item>, s: Scanned)
    requires (forall i :: 0 <= i < |items| ==> Scannable(items[i])) && !s.skip
    ensures Scan(Flat(items), s) == Summary(items, s)
  {
    hide Scan, Scannable;
    if items != [] {
      ScanItem(items[0], Flat(items[1..]), s);
      ScanItems(items[1..], Summarise(items[0], s));
    } else {
      ScanNothing(s);
    }
  }

  lemma ScanNothing(s: Scanned)
    ensures Scan([], s) == s
  {}

  /** Any command line as the scan reads it: only `-o` and `-x` have operands. */
  function Glance(args: seq<string>): seq<Item> {
    if args == [] then []
    else if |args| > 1 && args[0] == "-o" then [Object(args[1])] + Glance(args[2..])
    else if |args| > 1 && args[0] == "-x" then [Lang(args[1])] + Glance(args[2..])
    else [GlanceOne(args[0])] + Glance(args[1..])
  }

  function GlanceOne(arg: string): Item {
    if arg == "-c" then Compile else if arg == "-S" then Assemble
    else if IsSource(arg) then Source(arg) else Other(arg)
  }

  lemma GlancePair(a: string, b: string, t: seq<string>)
    ensures a == "-o" ==> Glance([a, b] + t) == [Object(b)] + Glance(t)
    ensures a == "-x" ==> Glance([a, b] + t) == [Lang(b)] + Glance(t)
    ensures a !in {"-o", "-x"} ==> Glance([a] + t) == [GlanceOne(a)] + Glance(t)
  {
    hide IsSource, GlanceOne;
    assert ([a, b] + t)[2..] == t && ([a] + t)[1..] == t;
  }

  lemma ScanSingle(arg: string, t: seq<string>, s: Scanned)
    requires arg !in {"-o", "-x"} && !s.skip
    ensures Scan([arg] + t, s) == Scan(t, Summarise(GlanceOne(arg), s))
  {
    ScanToken(arg, t, s);
    hide IsSource, Scan;
  }

  lemma ScanDangling(arg: string, s: Scanned)
    requires arg in {"-o", "-x"} && !s.skip
    ensures Scan([arg], s) == s.(skip := true) && Summary(Glance([arg]), s) == s
  {
    FlagsNotSources("-o");
    FlagsNotSources("-x");
    hide IsSource;
    assert [arg][1..] == [];
  }

  lemma {:induction false} GlanceScan(args: seq<string>, s: Scanned)
    requires !s.skip
    ensures Scan(args, s).(skip := false) == Summary(Glance(args), s)
  {
    FlagsNotSources("-o");
    FlagsNotSources("-x");
    hide IsSource, Special;
    if args != [] {
      hide Scan, Glance, Summary, GlanceOne, Summarise;
      var a, t := args[0], args[1..];
      if a !in {"-o", "-x"} {
        assert args == [a] + t;
        ScanSingle(a, t, s);
        GlancePair(a, a, t);
        SummarySkip(GlanceOne(a), s);
        GlanceScan(t, Summarise(GlanceOne(a), s));
        SummaryCons(GlanceOne(a), Glance(t), s);
      } else if |args| > 1 {
        var b, u := args[1], args[2..];
        var item := if a == "-o" then Object(b) else Lang(b);
        assert args == [a, b] + u;
        ScanPair(a, b, u, s);
        GlancePair(a, b, u);
        SummarySkip(item, s);
        GlanceScan(u, Summarise(item, s));
        SummaryCons(item, Glance(u), s);
      } else {
        assert args == [a];
        ScanDangling(a, s);
      }
    }
  }

  lemma SummarySkip(item: Item, s: Scanned)
    ensures Summarise(item, s).skip == s.skip
    ensures item.Object? ==> Summarise(item, s) == s.(hasObject := true, obj := Some(item.name))
    ensures item.Lang? ==> Summarise(item, s) == s
  {}

  lemma SummaryCons(item: Item, t: seq<Item>, s: Scanned)
    ensures Summary([item] + t, s) == Summary(t, Summarise(item, s))
  {
    assert ([item] + t)[1..] == t;
  }

  function SourcesOf(items: seq<Item>): seq<string> {
    if items == [] then [] else (if items[0].Source? then [items[0].name] else []) + SourcesOf(items[1..])
  }

  function ObjectsOf(items: seq<Item>): seq<string> {
    if items == [] then [] else (if items[0].Object? then [items[0].name] else []) + ObjectsOf(items[1..])
  }

  function Last(names: seq<string>, otherwise: Option<string>): Option<string> {
    if names == [] then otherwise else Some(names[|names| - 1])
  }

  predicate Compiles(items: seq<Item>) { Compile in items || Assemble in items }

  lemma {:induction false} SummaryCounts(items: seq<Item>, s: Scanned)
    ensures Summary(items, s) == Scanned(s.skip, s.sources + |SourcesOf(items)|, s.compiles || Compiles(items),
                                         s.hasObject || ObjectsOf(items) != [],
                                         Last(SourcesOf(items), s.src), Last(ObjectsOf(items), s.obj))
  {
    if items != [] {
      CompilesCons(items);
      hide Compiles;
      SummaryCounts(items[1..], Summarise(items[0], s));
    }
  }

  lemma CompilesCons(items: seq<Item>)
    requires items != []
    ensures Compiles(items) <==> items[0] in {Compile, Assemble} || Compiles(items[1..])
  {
    assert items == [items[0]] + items[1..];
  }

  /** The verdict on any command line, and the names that go with it. */
  lemma Verdicts(args: seq<string>)
    ensures var items, r := Glance(args), Scan(args, START);
      && (Judge(r) == NoSources <==> SourcesOf(items) == [])
      && (Judge(r) == MultipleSources <==> |SourcesOf(items)| > 1)
      && (Judge(r) == Linking <==> |SourcesOf(items)| == 1 && !Compiles(items))
      && (Judge(r) == NoObject <==> |SourcesOf(items)| == 1 && Compiles(items) && ObjectsOf(items) == [])
      && (Judge(r) == Accepted <==> |SourcesOf(items)| == 1 && Compiles(items) && ObjectsOf(items) != [])
      && r.src == Last(SourcesOf(items), None) && r.obj == Last(ObjectsOf(items), None)
  {
    GlanceScan(args, START);
    SummaryCounts(Glance(args), START);
    hide Scan, Glance, Summary, SourcesOf, ObjectsOf, Compiles;
  }

  /** The simplest commands that are accepted: every extension in small or capital letters. */
  lemma SimplestAccepted(stem: string, ext: string, obj: string)
    requires '.' !in ext && Lower(ext) in {"cpp", "cxx", "cc", "c", "i", "ii"}
    ensures var src := stem + ['.'] + ext; var r := Scan(["-c", src, "-o", obj], START);
      Judge(r) == Accepted && r.src == Some(src) && r.obj == Some(obj)
  {
    var src := stem + ['.'] + ext;
    SourceByExtension(stem, ext);
    if Special(src) {
      FlagsNotSources(src);
    }
    hide IsSource, Scan, Special, Lower;
    ScanItem(Compile, [src, "-o", obj], START);
    ScanItem(Source(src), ["-o", obj], Summarise(Compile, START));
    ScanItem(Object(obj), [], Summarise(Source(src), Summarise(Compile, START)));
    ScanNothing(Summarise(Object(obj), Summarise(Source(src), Summarise(Compile, START))));
    assert ["-c"] + [src, "-o", obj] == ["-c", src, "-o", obj];
    assert [src] + ["-o", obj] == [src, "-o", obj] && ["-o", obj] + [] == ["-o", obj];
  }

  /* ---------- rewriting for the compiling side ---------- */

  /** What the compiling side gets for an item: preprocessor flags are gone, the source
      is replaced, and its language is said unless the command says it already.  But of
      `-D` with an operand the operand stays behind. */
  function RemoteItem(item: Item, hasX: bool, pre: string): seq<Item> {
    match item
    case Source(name) => (if hasX then [] else [Lang(Language(name))]) + [Source(pre)]
    case Macro(_) => []
    case MacroWith(flag, operand) => if flag == "-D" then [Other(operand)] else []
    case _ => [item]
  }

  function Remote(items: seq<Item>, hasX: bool, pre: string): seq<Item> {
    if items == [] then [] else RemoteItem(items[0], hasX, pre) + Remote(items[1..], hasX, pre)
  }

  /** One round of the loop in `compiler_cmd`. */
  lemma CompilerToken(arg: string, t: seq<string>, hasX: bool, src: string, pre: string)
    ensures CompilerArgs([arg] + t, true, hasX, src, pre) == CompilerArgs(t, false, hasX, src, pre)
    ensures CompilerArgs([arg] + t, false, hasX, src, pre) ==
            match PreprocessorFlag(arg)
            case WithOperand => CompilerArgs(t, true, hasX, src, pre)
            case Alone => CompilerArgs(t, false, hasX, src, pre)
            case NotFlag =>
              (if arg != src then [arg] else if hasX then [pre] else ["-x", Language(src), pre])
              + CompilerArgs(t, false, hasX, src, pre)
  {
    hide PreprocessorFlag, Language;
    assert ([arg] + t)[1..] == t;
  }

  lemma CompilerPair(arg: string, operand: string, t: seq<string>, hasX: bool, src: string, pre: string)
    requires src !in {arg, operand}
    requires PreprocessorFlag(arg) != WithOperand ==> PreprocessorFlag(operand) == NotFlag
    ensures CompilerArgs([arg, operand] + t, false, hasX, src, pre) ==
            match PreprocessorFlag(arg)
            case WithOperand => CompilerArgs(t, false, hasX, src, pre)
            case Alone => [operand] + CompilerArgs(t, false, hasX, src, pre)
            case NotFlag => [arg, operand] + CompilerArgs(t, false, hasX, src, pre)
  {
    CompilerToken(arg, [operand] + t, hasX, src, pre);
    CompilerToken(operand, t, hasX, src, pre);
    assert [arg, operand] + t == [arg] + ([operand] + t);
  }

  /** What becomes of a token, and of the one after it. */
  lemma TokenFate(arg: string, o: string, t: seq<string>, hasX: bool, src: string, pre: string)
    ensures DropsTwo(arg) ==>
      CompilerArgs([arg, o] + t, false, hasX, src, pre) == CompilerArgs(t, false, hasX, src, pre)
    ensures DropsOne(arg) && !DropsTwo(arg) ==>
      CompilerArgs([arg] + t, false, hasX, src, pre) == CompilerArgs(t, false, hasX, src, pre)
    ensures !DropsTwo(arg) && !DropsOne(arg) && arg != src ==>
      CompilerArgs([arg] + t, false, hasX, src, pre) == [arg] + CompilerArgs(t, false, hasX, src, pre)
    ensures !DropsTwo(src) && !DropsOne(src) ==>
      CompilerArgs([src] + t, false, hasX, src, pre)
      == (if hasX then [pre] else ["-x", Language(src), pre]) + CompilerArgs(t, false, hasX, src, pre)
  {
    FlagTable(arg);
    FlagTable(src);
    CompilerToken(arg, t, hasX, src, pre);
    CompilerToken(src, t, hasX, src, pre);
    CompilerToken(arg, [o] + t, hasX, src, pre);
    CompilerToken(o, t, hasX, src, pre);
    assert [arg, o] + t == [arg] + ([o] + t);
    hide PreprocessorFlag, DropsOne, DropsTwo, CompilerArgs, Language;
  }

  lemma CompilerItem(item: Item, src: string, t: seq<string>, hasX: bool, pre: string)
    requires ItemOk(item, src) && IsSource(src)
    ensures CompilerArgs(Tokens(item) + t, false, hasX, src, pre)
         == Flat(RemoteItem(item, hasX, pre)) + CompilerArgs(t, false, hasX, src, pre)
  {
    var first := Tokens(item)[0];
    FlatUpToTwo(if item.MacroWith? then Other(item.operand) else item, Lang(Language(src)), Source(pre));
    SpecialNotFlag(first);
    DefineAlone();
    if Special(first) || TakesOperand(first) {
      FlagsNotSources(first);
    }
    hide IsSource, Language, PreprocessorFlag, CompilerArgs, Flat;
    match item {
      case Object(name) =>
        CompilerPair("-o", name, t, hasX, src, pre);
      case Lang(name) =>
        CompilerPair("-x", name, t, hasX, src, pre);
      case MacroWith(flag, operand) =>
        CompilerPair(flag, operand, t, hasX, src, pre);
      case _ =>
        CompilerToken(first, t, hasX, src, pre);
    }
  }

  lemma {:induction false} CompilerItems(items: seq<Item>, src: string, hasX: bool, pre: string)
    requires AllOk(items, src) && IsSource(src)
    ensures CompilerArgs(Flat(items), false, hasX, src, pre) == Flat(Remote(items, hasX, pre))
  {
    hide CompilerArgs, ItemOk, RemoteItem, IsSource;
    if items == [] {
      CompilerNothing(hasX, src, pre);
    } else {
      CompilerItem(items[0], src, Flat(items[1..]), hasX, pre);
      CompilerItems(items[1..], src, hasX, pre);
      FlatAppend(RemoteItem(items[0], hasX, pre), Remote(items[1..], hasX, pre));
    }
  }

  lemma CompilerNothing(hasX: bool, src: string, pre: string)
    ensures CompilerArgs([], false, hasX, src, pre) == []
  {}

  /** Whatever the command, no preprocessor flag gets through. */
  lemma {:induction false} NoFlagLeft(args: seq<string>, skip: bool, hasX: bool, src: string, pre: string)
    requires PreprocessorFlag(pre) == NotFlag
    ensures forall t :: t in CompilerArgs(args, skip, hasX, src, pre) ==> PreprocessorFlag(t) == NotFlag
  {
    SpecialNotFlag("-x");
    LanguagePlain(src);
    hide PreprocessorFlag, Language;
    if args != [] {
      NoFlagLeft(args[1..], false, hasX, src, pre);
      NoFlagLeft(args[1..], true, hasX, src, pre);
    }
  }

  lemma LanguagePlain(src: string)
    ensures Plain(Language(src)) && Language(src)[|Language(src)| - 1] != 'i'
  {
    assert LANG_C[0] == 'c' && LANG_CXX[0] == 'c';
  }

  /** Without flags to drop and a language to add, the loop only replaces the source. */
  lemma {:induction false} NoFlagsReplaces(args: seq<string>, src: string, pre: string)
    requires forall t :: t in args ==> PreprocessorFlag(t) == NotFlag
    ensures CompilerArgs(args, false, true, src, pre) == Replace(args, src, pre)
  {
    hide PreprocessorFlag, CompilerArgs;
    if args == [] {
      CompilerNothing(true, src, pre);
    } else {
      var first, rest := args[0], args[1..];
      assert args == [first] + rest && first in args;
      NoFlagsReplaces(rest, src, pre);
      CompilerToken(first, rest, true, src, pre);
      ReplaceAppend([first], rest, src, pre);
      assert Replace([first], src, pre) == [if first == src then pre else first];
      hide Replace;
    }
  }

  /* ---------- preprocessing ---------- */

  /** The local command: the same arguments, but preprocess instead of compiling, into
      a file named after the object. */
  function PreprocessorTokens(item: Item, src: string): seq<string> {
    match item
    case Compile => ["-E"]
    case Object(name) => ["-o", Preprocessed(name, src)]
    case _ => Tokens(item)
  }

  function PreprocessorFlat(items: seq<Item>, src: string): seq<string> {
    if items == [] then [] else PreprocessorTokens(items[0], src) + PreprocessorFlat(items[1..], src)
  }

  function ObjectOf(item: Item, obj: Option<string>): Option<string> {
    if item.Object? then Some(item.name) else obj
  }

  /** One round of the loop in `preprocessor_cmd`. */
  lemma PreprocessorToken(arg: string, t: seq<string>, isObject: bool, src: string, o: Option<string>)
    requires arg != "-c"
    ensures PreprocessorArgs([arg] + t, isObject, src)
         == if isObject then [Preprocessed(arg, src)] + PreprocessorArgs(t, false, src)
            else [arg] + PreprocessorArgs(t, arg == "-o", src)
    ensures PreprocessorObject([arg] + t, isObject, o)
         == if isObject then PreprocessorObject(t, false, Some(arg)) else PreprocessorObject(t, arg == "-o", o)
  {
    hide Preprocessed;
    assert ([arg] + t)[1..] == t;
  }

  lemma PreprocessorCompile(t: seq<string>, isObject: bool, src: string, o: Option<string>)
    ensures PreprocessorArgs(["-c"] + t, isObject, src) == ["-E"] + PreprocessorArgs(t, isObject, src)
    ensures PreprocessorObject(["-c"] + t, isObject, o) == PreprocessorObject(t, isObject, o)
  {
    assert (["-c"] + t)[1..] == t;
  }

  lemma PreprocessorNothing(isObject: bool, src: string, o: Option<string>)
    ensures PreprocessorArgs([], isObject, src) == [] && PreprocessorObject([], isObject, o) == o
  {}

  lemma PreprocessorPair(a: string, b: string, t: seq<string>, src: string, o: Option<string>)
    requires "-c" !in {a, b} && (a != "-o" ==> b != "-o")
    ensures PreprocessorArgs([a, b] + t, false, src)
         == [a, if a == "-o" then Preprocessed(b, src) else b] + PreprocessorArgs(t, false, src)
    ensures PreprocessorObject([a, b] + t, false, o) == PreprocessorObject(t, false, if a == "-o" then Some(b) else o)
  {
    hide Preprocessed, PreprocessorArgs, PreprocessorObject;
    assert [a, b] + t == [a] + ([b] + t);
    PreprocessorToken(a, [b] + t, false, src, o);
    if a == "-o" {
      PreprocessorToken(b, t, true, src, o);
      assert ["-o"] + ([Preprocessed(b, src)] + PreprocessorArgs(t, false, src))
          == ["-o", Preprocessed(b, src)] + PreprocessorArgs(t, false, src);
    } else {
      PreprocessorToken(b, t, false, src, o);
      assert [a] + ([b] + PreprocessorArgs(t, false, src)) == [a, b] + PreprocessorArgs(t, false, src);
    }
  }

  lemma PreprocessorItem(item: Item, src: string, t: seq<string>, o: Option<string>)
    requires ItemOk(item, src)
    ensures PreprocessorArgs(Tokens(item) + t, false, src)
         == PreprocessorTokens(item, src) + PreprocessorArgs(t, false, src)
    ensures PreprocessorObject(Tokens(item) + t, false, o) == PreprocessorObject(t, false, ObjectOf(item, o))
  {
    NotCompile(item, src);
    hide ItemOk, Preprocessed, PreprocessorArgs, PreprocessorObject;
    match item {
      case Compile => PreprocessorCompile(t, false, src, o);
      case Object(name) => PreprocessorPair("-o", name, t, src, o);
      case Lang(name) => PreprocessorPair("-x", name, t, src, o);
      case MacroWith(flag, operand) => PreprocessorPair(flag, operand, t, src, o);
      case Source(name) => PreprocessorToken(name, t, false, src, o);
      case Macro(token) => PreprocessorToken(token, t, false, src, o);
      case Other(token) => PreprocessorToken(token, t, false, src, o);
    }
  }

  lemma NotCompile(item: Item, src: string)
    requires ItemOk(item, src)
    ensures "-c" in Tokens(item) ==> item.Compile?
    ensures "-o" in Tokens(item) ==> item.Object?
  {
    OkScannable(item, src);
    hide IsSource, PreprocessorFlag;
    if item.Source? {
      FlagsNotSources("-c");
      FlagsNotSources("-o");
    }
  }

  function LastObject(items: seq<Item>, obj: Option<string>): Option<string> {
    if items == [] then obj else LastObject(items[1..], ObjectOf(items[0], obj))
  }

  lemma {:induction false} PreprocessorItems(items: seq<Item>, src: string, o: Option<string>)
    requires AllOk(items, src)
    ensures PreprocessorArgs(Flat(items), false, src) == PreprocessorFlat(items, src)
    ensures PreprocessorObject(Flat(items), false, o) == LastObject(items, o)
  {
    hide ItemOk, PreprocessorTokens, Preprocessed;
    if items != [] {
      PreprocessorItem(items[0], src, Flat(items[1..]), o);
      hide PreprocessorArgs, PreprocessorObject;
      PreprocessorItems(items[1..], src, ObjectOf(items[0], o));
    }
  }

  /** Both loops over the client's arguments find the same object. */
  lemma {:induction false} SameObject(items: seq<Item>, s: Scanned)
    ensures Summary(items, s).obj == LastObject(items, s.obj)
  {
    if items != [] {
      SameObject(items[1..], Summarise(items[0], s));
    }
  }

  /* ---------- the name of the preprocessed file ---------- */

  lemma {:induction false} LastDotAppend(a: string, b: string)
    requires '.' !in b
    ensures LastDot(a + ['.'] + b) == |a|
  {
    var s := a + ['.'] + b;
    if b == [] {
      assert s[|s| - 1] == '.';
    } else {
      LastDotAppend(a, b[..|b| - 1]);
      assert s[..|s| - 1] == a + ['.'] + b[..|b| - 1];
      assert s[|s| - 1] == b[|b| - 1];
    }
  }

  lemma PreprocessedEnd(obj: string, src: string)
    ensures Preprocessed(obj, src) != [] && Preprocessed(obj, src)[|Preprocessed(obj, src)| - 1] == 'i'
  {}

  function Suffix(src: string): (suffix: string)
    ensures suffix in {"i", "ii"} && '.' !in suffix && Lower(suffix) == suffix
  {
    if Language(src) == LANG_CXX then "ii" else "i"
  }

  lemma ExtensionAppend(a: string, b: string)
    requires '.' !in b
    ensures Extension(a + ['.'] + b) == b && Extension(b) == b
  {
    LastDotAppend(a, b);
    assert LastDot(b) == |b|;
  }

  /** Its extension is `i` for C and `ii` otherwise, so it counts as a source itself;
      and it is the object itself exactly if the object has that extension. */
  lemma PreprocessedName(obj: string, src: string)
    ensures Extension(Preprocessed(obj, src)) == if Language(src) == LANG_CXX then "ii" else "i"
    ensures IsSource(Preprocessed(obj, src))
    ensures Preprocessed(obj, src) == obj <==> Extension(obj) == if Language(src) == LANG_CXX then "ii" else "i"
  {
    var suffix, i := Suffix(src), LastDot(obj);
    hide Language, Lower;
    if i == |obj| {
      ExtensionAppend([], suffix);
    } else {
      ExtensionAppend(obj[..i], suffix);
      assert Preprocessed(obj, src) == obj[..i] + ['.'] + suffix;
      assert obj == obj[..i] + ['.'] + obj[i + 1..];
      hide LastDot;
      if Preprocessed(obj, src) == obj {
        assert obj[i + 1..] == suffix;
      }
    }
  }

  predicate FlagPrefix(arg: string) {
    StartsWith(arg, "-D") || StartsWith(arg, "-I") || StartsWith(arg, "-Wp,")
  }

  /** No flag that is matched as a whole ends like a preprocessed file. */
  lemma FlagShape(arg: string)
    ensures FlagPrefix(arg) ==> PreprocessorFlag(arg) != NotFlag
    ensures arg != [] && arg[|arg| - 1] == 'i' ==> !Special(arg)
    ensures arg != [] && arg[|arg| - 1] == 'i' && !FlagPrefix(arg) ==> PreprocessorFlag(arg) == NotFlag
  {}

  /** An object name that is no preprocessor flag gives a file name that is none. */
  lemma PreprocessedPlain(obj: string, src: string)
    requires Plain(obj)
    ensures Plain(Preprocessed(obj, src))
  {
    var pre, i := Preprocessed(obj, src), LastDot(obj);
    assert pre[|pre| - 1] == 'i';
    assert i == |obj| ==> pre in {"i", "ii"};
    assert i < |obj| ==> pre[..i] == obj[..i] && pre[i] == '.';
    FlagShape(obj);
    FlagShape(pre);
    hide PreprocessorFlag, Preprocessed, Language, LastDot, Special;
    if FlagPrefix(pre) {
      PrefixKept(obj, pre, i);
    }
  }

  lemma PrefixKept(obj: string, pre: string, i: nat)
    requires FlagPrefix(pre) && i <= |obj|
    requires i == |obj| ==> pre in {"i", "ii"}
    requires i < |obj| ==> i < |pre| && pre[..i] == obj[..i] && pre[i] == '.'
    ensures FlagPrefix(obj)
  {
    assert pre[0] == '-';
    assert i > 0;
    assert pre[..i][0] == pre[0];
    assert i > 1 && pre[..i][1] == pre[1];
    if pre[1] == 'W' {
      assert i > 2 && pre[..i][2] == pre[2];
      assert i > 3 && pre[..i][3] == pre[3];
    }
  }

  /* ---------- replacing the object ---------- */

  function SubstItem(item: Item, obj: string, new_: string): Item {
    if item == Object(obj) then Object(new_) else item
  }

  function Subst(items: seq<Item>, obj: string, new_: string): seq<Item> {
    seq(|items|, i requires 0 <= i < |items| => SubstItem(items[i], obj, new_))
  }

  /** The object's name occurs nowhere but as the operand of `-o`. */
  predicate NamesObjectOnly(item: Item, obj: string) {
    item.Object? || obj !in Tokens(item)
  }

  lemma ReplaceAppend(a: seq<string>, b: seq<string>, obj: string, new_: string)
    ensures Replace(a + b, obj, new_) == Replace(a, obj, new_) + Replace(b, obj, new_)
  {}

  lemma ReplaceTokens(item: Item, obj: string, new_: string)
    requires obj != "-o" && new_ != obj
    ensures |Replace(Tokens(item), obj, new_)| == |Tokens(SubstItem(item, obj, new_))|
    ensures Replace(Tokens(item), obj, new_) == Tokens(SubstItem(item, obj, new_)) <==> NamesObjectOnly(item, obj)
  {
    var a := Tokens(item);
    if !item.Object? && obj in a {
      var i :| 0 <= i < |a| && a[i] == obj;
      assert Replace(a, obj, new_)[i] != a[i];
    }
  }

  /** `set_object_file` replaces the operand of `-o` and nothing else exactly if the
      object's name is used for nothing else. */
  lemma {:induction false} ReplaceItems(items: seq<Item>, obj: string, new_: string)
    requires obj != "-o" && new_ != obj
    ensures |Replace(Flat(items), obj, new_)| == |Flat(Subst(items, obj, new_))|
    ensures Replace(Flat(items), obj, new_) == Flat(Subst(items, obj, new_))
            <==> forall i :: 0 <= i < |items| ==> NamesObjectOnly(items[i], obj)
  {
    if items != [] {
      var a, b := Tokens(items[0]), Flat(items[1..]);
      ReplaceItems(items[1..], obj, new_);
      ReplaceTokens(items[0], obj, new_);
      ReplaceAppend(a, b, obj, new_);
      assert Subst(items, obj, new_)[1..] == Subst(items[1..], obj, new_);
      assert (forall i :: 0 <= i < |items| ==> NamesObjectOnly(items[i], obj)) <==>
             (NamesObjectOnly(items[0], obj)
              && forall i :: 0 <= i < |items[1..]| ==> NamesObjectOnly(items[1..][i], obj)) by {
        assert forall i :: 0 < i < |items| ==> items[i] == items[1..][i - 1];
      }
      hide Tokens, NamesObjectOnly, Replace, SubstItem;
      SamePieces(Replace(a, obj, new_), Replace(b, obj, new_),
                 Tokens(SubstItem(items[0], obj, new_)), Flat(Subst(items[1..], obj, new_)));
    }
  }

  /* ---------- the two hops ---------- */

  /** A `-c` command about the source `src` and the object `obj` that the client
      accepts, and that is as it should be. */
  predicate WellFormed(args: seq<string>, src: string, obj: string) {
    var s := Scan(args, START);
    Judge(s) == Accepted && s.src == Some(src) && s.obj == Some(obj) && AllOk(Parse(args), src)
  }

  /** The command the client sends, compiler excluded. */
  function Sent(args: seq<string>, src: string, obj: string): seq<string> {
    CompilerArgs(args, false, "-x" in args, src, Preprocessed(obj, src))
  }

  /** The command the server runs for the one it received, compiler excluded: the source
      replaced by the file `doti` and the object by the file `new_`. */
  function Served(args: seq<string>, src: string, obj: string, new_: string, doti: string): seq<string> {
    var replaced := Replace(args, obj, new_);
    CompilerArgs(replaced, false, "-x" in replaced, src, doti)
  }

  /** What the compiling side should run for an item: only the source and the object
      are replaced, and nothing is left of the preprocessor flags. */
  function FinalItem(item: Item, hasX: bool, obj: string, new_: string, doti: string): seq<Item> {
    match item
    case Source(name) => (if hasX then [] else [Lang(Language(name))]) + [Source(doti)]
    case Object(_) => [SubstItem(item, obj, new_)]
    case Macro(_) => []
    case MacroWith(_, _) => []
    case _ => [item]
  }

  function Final(items: seq<Item>, hasX: bool, obj: string, new_: string, doti: string): seq<Item> {
    if items == [] then [] else FinalItem(items[0], hasX, obj, new_, doti) + Final(items[1..], hasX, obj, new_, doti)
  }

  lemma {:induction false} SummaryNames(items: seq<Item>, src: string, s: Scanned)
    requires AllOk(items, src) && !s.skip
    requires s.src.Some? ==> IsSource(s.src.value)
    requires s.obj.Some? ==> Plain(s.obj.value)
    ensures var r := Summary(items, s);
      && !r.skip
      && (r.src.Some? ==> IsSource(r.src.value))
      && (r.obj.Some? ==> Plain(r.obj.value))
  {
    hide IsSource, Plain;
    if items != [] {
      assert ItemOk(items[0], src);
      SummaryNames(items[1..], src, Summarise(items[0], s));
    }
  }

  lemma ScanOk(items: seq<Item>, src: string)
    requires AllOk(items, src)
    ensures Scan(Flat(items), START) == Summary(items, START)
  {
    hide Scan, ItemOk, Scannable;
    forall i | 0 <= i < |items| ensures Scannable(items[i]) {
      OkScannable(items[i], src);
    }
    ScanItems(items, START);
  }

  /** What a well-formed command is about. */
  lemma WellFormedFacts(args: seq<string>, src: string, obj: string)
    requires WellFormed(args, src, obj)
    ensures Flat(Parse(args)) == args && AllOk(Parse(args), src)
    ensures IsSource(src) && Plain(obj)
    ensures Summary(Parse(args), START) == Scan(args, START)
  {
    ParseKeepsArguments(args);
    hide Scan, IsSource, Plain, ItemOk, Parse;
    ScanOk(Parse(args), src);
    SummaryNames(Parse(args), src, START);
  }

  /** Hop one: the client preprocesses exactly the given command into the file named
      after the object, and sends it without preprocessor flags. */
  lemma ClientHop(args: seq<string>, src: string, obj: string)
    requires WellFormed(args, src, obj)
    ensures PreprocessorArgs(args, false, src) == PreprocessorFlat(Parse(args), src)
    ensures PreprocessorObject(args, false, None) == Some(obj)
    ensures Sent(args, src, obj) == Flat(Remote(Parse(args), "-x" in args, Preprocessed(obj, src)))
  {
    WellFormedFacts(args, src, obj);
    hide Scan, IsSource, Plain, Preprocessed, PreprocessorArgs, PreprocessorObject, CompilerArgs, ItemOk, Parse;
    PreprocessorItems(Parse(args), src, None);
    SameObject(Parse(args), START);
    CompilerItems(Parse(args), src, "-x" in args, Preprocessed(obj, src));
  }

  lemma {:induction false} SummaryAppend(a: seq<Item>, b: seq<Item>, s: Scanned)
    ensures Summary(a + b, s) == Summary(b, Summary(a, s))
  {
    if a == [] {
      assert a + b == b;
    } else {
      SummaryAppend(a[1..], b, Summarise(a[0], s));
      assert (a + b)[1..] == a[1..] + b;
    }
  }

  lemma SummaryOne(item: Item, s: Scanned)
    ensures Summary([item], s) == Summarise(item, s)
  {
    assert [item][1..] == [];
  }

  lemma RemoteItemSummary(item: Item, hasX: bool, pre: string, s: Scanned, t: Scanned)
    requires t == s.(src := if s.src.Some? then Some(pre) else None)
    ensures var r := Summarise(item, s);
      Summary(RemoteItem(item, hasX, pre), t) == r.(src := if r.src.Some? then Some(pre) else None)
  {
    hide Language;
    var r := RemoteItem(item, hasX, pre);
    if |r| == 1 {
      SummaryOne(r[0], t);
    } else if |r| == 2 {
      assert r == [r[0]] + [r[1]];
      SummaryAppend([r[0]], [r[1]], t);
      SummaryOne(r[0], t);
      SummaryOne(r[1], Summarise(r[0], t));
    }
  }

  /** The server's scan sees the client's, with the preprocessed file as the source. */
  lemma {:induction false} RemoteSummary(items: seq<Item>, hasX: bool, pre: string, s: Scanned, t: Scanned)
    requires t == s.(src := if s.src.Some? then Some(pre) else None)
    ensures var r := Summary(items, s);
      Summary(Remote(items, hasX, pre), t) == r.(src := if r.src.Some? then Some(pre) else None)
  {
    if items != [] {
      var a, b := RemoteItem(items[0], hasX, pre), Remote(items[1..], hasX, pre);
      SummaryAppend(a, b, t);
      RemoteItemSummary(items[0], hasX, pre, s, t);
      hide RemoteItem;
      RemoteSummary(items[1..], hasX, pre, Summarise(items[0], s), Summary(a, t));
    }
  }

  lemma RemoteItemScannable(item: Item, src: string, hasX: bool, pre: string)
    requires ItemOk(item, src) && IsSource(pre) && Plain(pre)
    ensures forall i :: 0 <= i < |RemoteItem(item, hasX, pre)| ==> Scannable(RemoteItem(item, hasX, pre)[i])
  {
    hide IsSource, PreprocessorFlag, Language;
  }

  lemma {:induction false} RemoteScannable(items: seq<Item>, src: string, hasX: bool, pre: string)
    requires AllOk(items, src) && IsSource(pre) && Plain(pre)
    ensures forall i :: 0 <= i < |Remote(items, hasX, pre)| ==> Scannable(Remote(items, hasX, pre)[i])
  {
    hide ItemOk, Scannable, RemoteItem, IsSource, Plain;
    if items != [] {
      RemoteItemScannable(items[0], src, hasX, pre);
      RemoteScannable(items[1..], src, hasX, pre);
    }
  }

  /** The server accepts what the client sends, as a command about the preprocessed
      file and the same object. */
  lemma ServerAccepts(args: seq<string>, src: string, obj: string)
    requires WellFormed(args, src, obj)
    ensures var s := Scan(Sent(args, src, obj), START);
      Judge(s) == Accepted && s.src == Some(Preprocessed(obj, src)) && s.obj == Some(obj)
  {
    var pre, hasX := Preprocessed(obj, src), "-x" in args;
    WellFormedFacts(args, src, obj);
    ClientHop(args, src, obj);
    PreprocessedName(obj, src);
    PreprocessedPlain(obj, src);
    hide Scan, IsSource, Plain, Preprocessed, Language, ItemOk, Scannable, Sent, Parse, Extension;
    RemoteScannable(Parse(args), src, hasX, pre);
    ScanItems(Remote(Parse(args), hasX, pre), START);
    RemoteSummary(Parse(args), hasX, pre, START, START);
  }

  /* ---------- how often a command says `-x` ---------- */

  function CountX(args: seq<string>): nat { multiset(args)["-x"] }

  lemma CountAppend(a: seq<string>, b: seq<string>)
    ensures CountX(a + b) == CountX(a) + CountX(b)
  {
    assert multiset(a + b) == multiset(a) + multiset(b);
  }

  lemma {:induction false} CountReplaced(args: seq<string>, old_: string, new_: string)
    requires old_ != "-x" && new_ != "-x"
    ensures CountX(Replace(args, old_, new_)) == CountX(args)
  {
    if args != [] {
      CountReplaced(args[1..], old_, new_);
      assert args == [args[0]] + args[1..];
      CountAppend([args[0]], args[1..]);
      CountAppend(Replace([args[0]], old_, new_), Replace(args[1..], old_, new_));
      ReplaceAppend([args[0]], args[1..], old_, new_);
    }
  }

  lemma CountTokens(item: Item, src: string)
    requires ItemOk(item, src)
    ensures CountX(Tokens(item)) == if item.Lang? then 1 else 0
  {
    OkScannable(item, src);
    FlagsNotSources("-x");
    hide IsSource, PreprocessorFlag;
  }

  function Langs(items: seq<Item>): nat {
    if items == [] then 0 else (if items[0].Lang? then 1 else 0) + Langs(items[1..])
  }

  lemma {:induction false} CountFlat(items: seq<Item>, src: string)
    requires AllOk(items, src)
    ensures CountX(Flat(items)) == Langs(items)
  {
    hide ItemOk, Tokens, CountX;
    if items == [] {
      CountNothing();
    } else {
      CountTokens(items[0], src);
      CountFlat(items[1..], src);
      CountAppend(Tokens(items[0]), Flat(items[1..]));
    }
  }

  lemma CountNothing()
    ensures CountX([]) == 0
  {}

  lemma CountUpToThree(a: string, b: string, c: string)
    ensures CountX([]) == 0
    ensures CountX([a]) == if a == "-x" then 1 else 0
    ensures CountX([a, b] + [c]) == CountX([a]) + CountX([b]) + CountX([c])
    ensures CountX([b]) == if b == "-x" then 1 else 0
    ensures CountX([c]) == if c == "-x" then 1 else 0
  {
    CountAppend([a, b], [c]);
    assert [a, b] == [a] + [b];
  }

  lemma CountRemoteItem(item: Item, src: string, hasX: bool, pre: string)
    requires ItemOk(item, src) && Plain(pre)
    ensures CountX(Flat(RemoteItem(item, hasX, pre))) == if item.Lang? || (item.Source? && !hasX) then 1 else 0
  {
    var lang := Language(src);
    LanguagePlain(src);
    if item.MacroWith? {
      FlatUpToTwo(Other(item.operand), item, item);
      CountUpToThree(item.operand, lang, pre);
    } else {
      FlatUpToTwo(item, Lang(lang), Source(pre));
      CountTokens(item, src);
      CountUpToThree("-x", lang, pre);
      CountUpToThree(pre, lang, pre);
    }
    hide IsSource, PreprocessorFlag, Language, Flat, CountX;
  }

  /** `-x` is added at most once: only for the source, and only if it is not there. */
  lemma {:induction false} CountRemote(items: seq<Item>, src: string, hasX: bool, pre: string, s: Scanned)
    requires AllOk(items, src) && Plain(pre)
    ensures CountX(Flat(Remote(items, hasX, pre)))
         == Langs(items) + (if hasX then 0 else Summary(items, s).sources - s.sources)
  {
    hide ItemOk, RemoteItem, Plain, CountX;
    if items == [] {
      CountNothing();
    } else {
      var a, b := RemoteItem(items[0], hasX, pre), Remote(items[1..], hasX, pre);
      CountRemoteItem(items[0], src, hasX, pre);
      CountRemote(items[1..], src, hasX, pre, Summarise(items[0], s));
      FlatAppend(a, b);
      CountAppend(Flat(a), Flat(b));
    }
  }

  lemma CountSent(args: seq<string>, src: string, obj: string)
    requires WellFormed(args, src, obj)
    ensures CountX(Sent(args, src, obj)) == if "-x" in args then CountX(args) else 1
  {
    var pre := Preprocessed(obj, src);
    WellFormedFacts(args, src, obj);
    ClientHop(args, src, obj);
    PreprocessedPlain(obj, src);
    CountFlat(Parse(args), src);
    CountRemote(Parse(args), src, "-x" in args, pre, START);
    hide Scan, IsSource, Plain, Preprocessed, ItemOk, Sent, Parse, Flat, Remote, Langs;
  }

  /* ---------- what the server runs ---------- */

  /** The names of the server's temporary files: no flags, and new. */
  predicate Temporary(new_: string, doti: string, src: string, obj: string) {
    Plain(new_) && Plain(doti) && new_ !in {obj, Preprocessed(obj, src)} && doti !in {new_, Preprocessed(obj, src)}
  }

  /** The tokens the server replaces, whatever they are for. */
  function Moved(args: seq<string>, obj: string, new_: string, pre: string, doti: string): seq<string> {
    Replace(Replace(args, obj, new_), pre, doti)
  }

  /** What the server runs is what it received with two names replaced wherever they
      occur; it drops nothing and adds nothing. */
  lemma ServerMoves(args: seq<string>, src: string, obj: string, new_: string, doti: string)
    requires WellFormed(args, src, obj) && Temporary(new_, doti, src, obj)
    ensures Served(Sent(args, src, obj), Preprocessed(obj, src), obj, new_, doti)
         == Moved(Sent(args, src, obj), obj, new_, Preprocessed(obj, src), doti)
  {
    var pre, sent := Preprocessed(obj, src), Sent(args, src, obj);
    var replaced := Replace(sent, obj, new_);
    WellFormedFacts(args, src, obj);
    PreprocessedPlain(obj, src);
    NoFlagLeft(args, false, "-x" in args, src, pre);
    CountSent(args, src, obj);
    CountReplaced(sent, obj, new_);
    hide Scan, IsSource, PreprocessorFlag, Preprocessed, Parse, ItemOk;
    assert "-x" in replaced;
    forall t | t in replaced ensures PreprocessorFlag(t) == NotFlag {
      var i :| 0 <= i < |replaced| && replaced[i] == t;
      assert sent[i] in sent;
    }
    hide CompilerArgs;
    NoFlagsReplaces(replaced, pre, doti);
  }

  /** No preprocessor flag reaches the server's compiler, and `-x` is there once unless
      the client said it more often. */
  lemma ServedTokens(args: seq<string>, src: string, obj: string, new_: string, doti: string)
    requires WellFormed(args, src, obj) && Temporary(new_, doti, src, obj)
    ensures var served := Served(Sent(args, src, obj), Preprocessed(obj, src), obj, new_, doti);
      && (forall t :: t in served ==> PreprocessorFlag(t) == NotFlag)
      && multiset(served)["-x"] == if "-x" in args then multiset(args)["-x"] else 1
  {
    var pre, sent := Preprocessed(obj, src), Sent(args, src, obj);
    var replaced := Replace(sent, obj, new_);
    WellFormedFacts(args, src, obj);
    PreprocessedPlain(obj, src);
    ServerMoves(args, src, obj, new_, doti);
    CountSent(args, src, obj);
    CountReplaced(sent, obj, new_);
    CountReplaced(replaced, pre, doti);
    NoFlagLeft(replaced, false, "-x" in replaced, pre, doti);
    hide Scan, IsSource, PreprocessorFlag, Preprocessed, Parse, ItemOk, CompilerArgs, Replace;
  }

  predicate IsBareDefine(item: Item) { item.MacroWith? && item.flag == "-D" }

  function BareDefines(items: seq<Item>): nat {
    if items == [] then 0 else (if IsBareDefine(items[0]) then 1 else 0) + BareDefines(items[1..])
  }

  /** Nothing happens to the item on the way that should not: the names of the object
      and of the preprocessed file stand for nothing else, and no `-D` is bare. */
  predicate Survives(item: Item, hasX: bool, src: string, obj: string) {
    match item
    case Source(_) => obj != Preprocessed(obj, src) && (hasX || obj != Language(src))
    case Object(name) => name == obj || name != Preprocessed(obj, src)
    case Lang(name) => name != obj && name != Preprocessed(obj, src)
    case Other(token) => token != obj
    case _ => !IsBareDefine(item)
  }

  lemma MovedUpToThree(a: string, b: string, c: string, obj: string, new_: string, pre: string, doti: string)
    requires new_ != pre
    ensures var m := (t: string) => if t == obj then new_ else if t == pre then doti else t;
      && Moved([], obj, new_, pre, doti) == []
      && Moved([a], obj, new_, pre, doti) == [m(a)]
      && Moved([a, b], obj, new_, pre, doti) == [m(a), m(b)]
      && Moved([a, b] + [c], obj, new_, pre, doti) == [m(a), m(b)] + [m(c)]
  {}

  lemma PreprocessedIsNew(src: string, obj: string)
    requires Plain(obj)
    ensures IsSource(Preprocessed(obj, src)) && Plain(Preprocessed(obj, src))
    ensures Preprocessed(obj, src) != Language(src)
    ensures obj !in {"-c", "-o", "-x"} && Preprocessed(obj, src) !in {"-c", "-o", "-x"}
  {
    PreprocessedName(obj, src);
    PreprocessedPlain(obj, src);
    PreprocessedEnd(obj, src);
    LanguagePlain(src);
    hide IsSource, PreprocessorFlag, Preprocessed, Language, Extension;
  }

  /** An item on its way through both hops, compared with what it should become. */
  predicate Hops(item: Item, src: string, obj: string, hasX: bool, new_: string, doti: string) {
    var pre := Preprocessed(obj, src);
    var moved := Moved(Flat(RemoteItem(item, hasX, pre)), obj, new_, pre, doti);
    var wanted := Flat(FinalItem(item, hasX, obj, new_, doti));
    && |moved| == |wanted| + (if IsBareDefine(item) then 1 else 0)
    && (moved == wanted <==> Survives(item, hasX, src, obj))
  }

  lemma HopDropped(item: Item, src: string, obj: string, hasX: bool, new_: string, doti: string)
    requires (item.Macro? || item.MacroWith?) && Temporary(new_, doti, src, obj)
    ensures Hops(item, src, obj, hasX, new_, doti)
  {
    var pre, rest := Preprocessed(obj, src), if item.Macro? then "" else item.operand;
    hide Preprocessed, Flat, Moved, Plain;
    FlatUpToTwo(Other(rest), item, item);
    MovedUpToThree(rest, rest, rest, obj, new_, pre, doti);
  }

  lemma ReplacedShape(name: string, src: string, obj: string, hasX: bool, new_: string, doti: string)
    ensures var x, pre := if hasX then [] else [Lang(Language(name))], Preprocessed(obj, src);
      && RemoteItem(Source(name), hasX, pre) == x + [Source(pre)]
      && FinalItem(Source(name), hasX, obj, new_, doti) == x + [Source(doti)]
      && !IsBareDefine(Source(name))
      && (Survives(Source(name), hasX, src, obj) <==> obj != pre && (hasX || obj != Language(src)))
  {
    hide Preprocessed, Language;
  }

  lemma HopReplaced(name: string, src: string, obj: string, hasX: bool, new_: string, doti: string)
    requires ItemOk(Source(name), src) && Plain(obj) && Temporary(new_, doti, src, obj)
    ensures Hops(Source(name), src, obj, hasX, new_, doti)
  {
    assert name == src;
    assert new_ !in {obj, Preprocessed(obj, src)} && doti !in {new_, Preprocessed(obj, src)};
    PreprocessedIsNew(src, obj);
    ReplacedShape(name, src, obj, hasX, new_, doti);
    HopSource(name, Language(src), hasX, obj, new_, Preprocessed(obj, src), doti);
    hide IsSource, Preprocessed, Language, Flat, Moved, Plain, ItemOk, Temporary;
    hide RemoteItem, FinalItem, Survives, IsBareDefine;
  }

  lemma KeptShape(item: Item, src: string, obj: string, hasX: bool, new_: string, doti: string)
    requires item.Compile? || item.Object? || item.Lang? || item.Other?
    ensures RemoteItem(item, hasX, Preprocessed(obj, src)) == [item]
    ensures FinalItem(item, hasX, obj, new_, doti) == [SubstItem(item, obj, new_)]
    ensures !IsBareDefine(item)
    ensures Survives(item, hasX, src, obj) == KeptSurvives(item, obj, Preprocessed(obj, src))
  {
    hide Preprocessed;
  }

  predicate KeptSurvives(item: Item, obj: string, pre: string) {
    match item
    case Object(name) => name == obj || name != pre
    case Lang(name) => name != obj && name != pre
    case Other(token) => token != obj
    case _ => true
  }

  lemma HopOther(item: Item, src: string, obj: string, hasX: bool, new_: string, doti: string)
    requires ItemOk(item, src) && Plain(obj) && Temporary(new_, doti, src, obj)
    requires item.Compile? || item.Object? || item.Lang? || item.Other?
    ensures Hops(item, src, obj, hasX, new_, doti)
  {
    assert new_ !in {obj, Preprocessed(obj, src)} && doti !in {new_, Preprocessed(obj, src)};
    PreprocessedIsNew(src, obj);
    KeptShape(item, src, obj, hasX, new_, doti);
    FlatUpToTwo(item, item, SubstItem(item, obj, new_));
    HopKept(item, src, obj, new_, Preprocessed(obj, src), doti);
    hide IsSource, Preprocessed, Flat, Moved, Plain, Tokens, ItemOk, Temporary;
    hide RemoteItem, FinalItem, SubstItem, Survives, KeptSurvives, IsBareDefine;
  }

  lemma HopItem(item: Item, src: string, obj: string, hasX: bool, new_: string, doti: string)
    requires ItemOk(item, src) && Plain(obj) && Temporary(new_, doti, src, obj)
    ensures Hops(item, src, obj, hasX, new_, doti)
  {
    assert !item.Assemble?;
    hide *;
    if item.Source? {
      HopReplaced(item.name, src, obj, hasX, new_, doti);
    } else if item.Macro? || item.MacroWith? {
      HopDropped(item, src, obj, hasX, new_, doti);
    } else {
      HopOther(item, src, obj, hasX, new_, doti);
    }
  }

  lemma HopSource(name: string, lang: string, hasX: bool, obj: string, new_: string, pre: string, doti: string)
    requires obj != "-x" && pre != "-x" && pre != lang && new_ !in {obj, pre} && doti !in {new_, pre}
    ensures var x := if hasX then [] else [Lang(lang)];
      var moved, wanted := Moved(Flat(x + [Source(pre)]), obj, new_, pre, doti), Flat(x + [Source(doti)]);
      && |moved| == |wanted|
      && (moved == wanted <==> obj != pre && (hasX || obj != lang))
  {
    FlatUpToTwo(Source(name), Lang(lang), Source(pre));
    FlatUpToTwo(Source(name), Lang(lang), Source(doti));
    hide Flat, Moved;
    MovedUpToThree("-x", lang, pre, obj, new_, pre, doti);
    MovedUpToThree(pre, pre, pre, obj, new_, pre, doti);
    if !hasX {
      SamePieces(Moved(["-x", lang], obj, new_, pre, doti), Moved([pre], obj, new_, pre, doti), ["-x", lang], [doti]);
    }
  }

  lemma HopKept(item: Item, src: string, obj: string, new_: string, pre: string, doti: string)
    requires ItemOk(item, src) && (item.Compile? || item.Object? || item.Lang? || item.Other?)
    requires Plain(obj) && IsSource(pre) && Plain(pre) && new_ !in {obj, pre} && doti !in {new_, pre}
    ensures var moved, wanted := Moved(Tokens(item), obj, new_, pre, doti), Tokens(SubstItem(item, obj, new_));
      && |moved| == |wanted|
      && (moved == wanted <==> KeptSurvives(item, obj, pre))
  {
    hide IsSource, PreprocessorFlag, Moved;
    var t := Tokens(item);
    MovedUpToThree(t[0], t[|t| - 1], t[0], obj, new_, pre, doti);
  }

  lemma MovedAppend(a: seq<string>, b: seq<string>, obj: string, new_: string, pre: string, doti: string)
    ensures Moved(a + b, obj, new_, pre, doti) == Moved(a, obj, new_, pre, doti) + Moved(b, obj, new_, pre, doti)
  {
    ReplaceAppend(a, b, obj, new_);
    ReplaceAppend(Replace(a, obj, new_), Replace(b, obj, new_), pre, doti);
    hide Replace;
  }

  predicate AllSurvive(items: seq<Item>, hasX: bool, src: string, obj: string) {
    forall i :: 0 <= i < |items| ==> Survives(items[i], hasX, src, obj)
  }

  lemma AllSurviveCons(items: seq<Item>, hasX: bool, src: string, obj: string)
    requires items != []
    ensures AllSurvive(items, hasX, src, obj)
            <==> Survives(items[0], hasX, src, obj) && AllSurvive(items[1..], hasX, src, obj)
  {
    hide Survives;
    assert forall i :: 0 < i < |items| ==> items[i] == items[1..][i - 1];
  }

  lemma {:induction false} HopItems(items: seq<Item>, src: string, obj: string, hasX: bool, new_: string, doti: string)
    requires AllOk(items, src) && Plain(obj) && Temporary(new_, doti, src, obj)
    ensures var pre := Preprocessed(obj, src);
      var moved := Moved(Flat(Remote(items, hasX, pre)), obj, new_, pre, doti);
      var wanted := Flat(Final(items, hasX, obj, new_, doti));
      && |moved| == |wanted| + BareDefines(items)
      && (moved == wanted <==> AllSurvive(items, hasX, src, obj))
  {
    if items != [] {
      hide ItemOk, RemoteItem, FinalItem, Survives, Preprocessed, Temporary, Plain, IsBareDefine, Replace, Moved, Flat;
      var pre := Preprocessed(obj, src);
      var a, b := RemoteItem(items[0], hasX, pre), Remote(items[1..], hasX, pre);
      var x, y := FinalItem(items[0], hasX, obj, new_, doti), Final(items[1..], hasX, obj, new_, doti);
      HopItem(items[0], src, obj, hasX, new_, doti);
      HopItems(items[1..], src, obj, hasX, new_, doti);
      AllSurviveCons(items, hasX, src, obj);
      FlatAppend(a, b);
      FlatAppend(x, y);
      MovedAppend(Flat(a), Flat(b), obj, new_, pre, doti);
      hide AllSurvive;
      SamePieces(Moved(Flat(a), obj, new_, pre, doti), Moved(Flat(b), obj, new_, pre, doti), Flat(x), Flat(y));
    }
  }

  /** Hop two: what the server runs is the client's command with the source and the
      object replaced and the preprocessor flags gone, exactly if every argument
      survives.  Otherwise it has one argument too many for each bare `-D`. */
  lemma ServerHop(args: seq<string>, src: string, obj: string, new_: string, doti: string)
    requires WellFormed(args, src, obj) && Temporary(new_, doti, src, obj)
    ensures var items, hasX := Parse(args), "-x" in args;
      var served := Served(Sent(args, src, obj), Preprocessed(obj, src), obj, new_, doti);
      && |served| == |Flat(Final(items, hasX, obj, new_, doti))| + BareDefines(items)
      && (served == Flat(Final(items, hasX, obj, new_, doti))
          <==> AllSurvive(items, hasX, src, obj))
  {
    WellFormedFacts(args, src, obj);
    ClientHop(args, src, obj);
    ServerMoves(args, src, obj, new_, doti);
    HopItems(Parse(args), src, obj, "-x" in args, new_, doti);
    hide *;
  }

  /* ---------- what that command contains ---------- */

  function KeptTokens(item: Item): seq<string> {
    if item.Compile? || item.Other? then Tokens(item) else []
  }

  /** The arguments that are neither preprocessor flags nor their operands, nor source,
      object or language, in order. */
  function Kept(items: seq<Item>): seq<string> {
    if items == [] then [] else KeptTokens(items[0]) + Kept(items[1..])
  }

  lemma KeptCons(item: Item, t: seq<Item>)
    ensures Kept([item] + t) == KeptTokens(item) + Kept(t)
  {
    hide KeptTokens;
    assert ([item] + t)[1..] == t;
  }

  lemma {:induction false} KeptAppend(a: seq<Item>, b: seq<Item>)
    ensures Kept(a + b) == Kept(a) + Kept(b)
  {
    if a == [] {
      assert a + b == b;
    } else {
      HeadAndTail(a, b);
      KeptAppend(a[1..], b);
      KeptCons(a[0], a[1..]);
      KeptCons(a[0], a[1..] + b);
      hide Kept, KeptTokens;
      Associative(KeptTokens(a[0]), Kept(a[1..]), Kept(b));
    }
  }

  /** No preprocessor flag, and no other source than the server's own. */
  predicate Clean(item: Item, doti: string) {
    && !item.Macro? && !item.MacroWith?
    && (forall t :: t in Tokens(item) ==> PreprocessorFlag(t) == NotFlag)
    && (item.Source? ==> item.name == doti)
  }

  predicate AllClean(items: seq<Item>, doti: string) {
    forall i :: 0 <= i < |items| ==> Clean(items[i], doti)
  }

  lemma KeptOne(item: Item)
    ensures Kept([item]) == KeptTokens(item) && Flat([item]) == Tokens(item)
  {
    assert [item][1..] == [];
  }

  lemma FinalItemKept(item: Item, hasX: bool, obj: string, new_: string, doti: string)
    ensures var a := FinalItem(item, hasX, obj, new_, doti);
      Kept(a) == KeptTokens(item) && (item.Source? ==> doti in Flat(a))
  {
    hide Language;
    var a := FinalItem(item, hasX, obj, new_, doti);
    if item.Source? && !hasX {
      assert a == [a[0]] + [a[1]];
      FlatAppend([a[0]], [a[1]]);
      KeptAppend([a[0]], [a[1]]);
      KeptOne(a[0]);
      KeptOne(a[1]);
    } else if |a| == 1 {
      KeptOne(a[0]);
    }
  }

  lemma FinalItemClean(item: Item, src: string, hasX: bool, obj: string, new_: string, doti: string)
    requires ItemOk(item, src) && Plain(new_) && Plain(doti)
    ensures AllClean(FinalItem(item, hasX, obj, new_, doti), doti)
  {
    LanguagePlain(src);
    SpecialNotFlag("-c");
    SpecialNotFlag("-o");
    SpecialNotFlag("-x");
    hide IsSource, PreprocessorFlag, Language;
  }

  lemma {:induction false} FinalClean(items: seq<Item>, src: string, hasX: bool, obj: string, new_: string, doti: string)
    requires AllOk(items, src) && Plain(new_) && Plain(doti)
    ensures AllClean(Final(items, hasX, obj, new_, doti), doti)
  {
    hide FinalItem, Clean, ItemOk, Plain;
    if items != [] {
      FinalItemClean(items[0], src, hasX, obj, new_, doti);
      FinalClean(items[1..], src, hasX, obj, new_, doti);
    }
  }

  lemma {:induction false} FinalKept(items: seq<Item>, hasX: bool, obj: string, new_: string, doti: string, s: Scanned)
    ensures Kept(Final(items, hasX, obj, new_, doti)) == Kept(items)
    ensures Summary(items, s).sources > s.sources ==> doti in Flat(Final(items, hasX, obj, new_, doti))
  {
    hide FinalItem, KeptTokens;
    if items != [] {
      var a, b := FinalItem(items[0], hasX, obj, new_, doti), Final(items[1..], hasX, obj, new_, doti);
      FinalItemKept(items[0], hasX, obj, new_, doti);
      FinalKept(items[1..], hasX, obj, new_, doti, Summarise(items[0], s));
      KeptAppend(a, b);
      FlatAppend(a, b);
    }
  }

  lemma OneSource(args: seq<string>, src: string, obj: string)
    requires WellFormed(args, src, obj)
    ensures Summary(Parse(args), START).sources == 1
  {
    WellFormedFacts(args, src, obj);
    hide Summary, Scan, Parse;
  }

  /** Nothing is left of the preprocessor flags and their operands, every other argument
      is kept in order, and the source is the preprocessed file. */
  lemma FinalContents(args: seq<string>, src: string, obj: string, new_: string, doti: string)
    requires WellFormed(args, src, obj) && Temporary(new_, doti, src, obj)
    ensures var r := Final(Parse(args), "-x" in args, obj, new_, doti);
      && AllClean(r, doti)
      && Kept(r) == Kept(Parse(args))
      && doti in Flat(r)
  {
    WellFormedFacts(args, src, obj);
    OneSource(args, src, obj);
    hide Parse, Plain;
    FinalClean(Parse(args), src, "-x" in args, obj, new_, doti);
    FinalKept(Parse(args), "-x" in args, obj, new_, doti, START);
    hide *;
  }

  /** The preprocessed file reaches the server's compiler exactly if the object is not
      itself named like the preprocessed file, that is, unless its extension is already
      `ii` (`i` for C).  Otherwise the server replaces the source as well. */
  lemma SourceArrives(args: seq<string>, src: string, obj: string, new_: string, doti: string)
    requires WellFormed(args, src, obj) && Temporary(new_, doti, src, obj)
    requires doti !in Sent(args, src, obj)
    ensures doti in Served(Sent(args, src, obj), Preprocessed(obj, src), obj, new_, doti)
            <==> Extension(obj) != if Language(src) == LANG_CXX then "ii" else "i"
  {
    var pre, sent := Preprocessed(obj, src), Sent(args, src, obj);
    PreprocessedName(obj, src);
    ServerMoves(args, src, obj, new_, doti);
    OneSource(args, src, obj);
    ClientHop(args, src, obj);
    hide Preprocessed, Extension, Sent, Served, Language, IsSource, Scan, Parse, ItemOk, Plain, Summary;
    hide Moved, Remote, Flat;
    RemoteFile(Parse(args), "-x" in args, pre, START);
    FileMoved(sent, obj, new_, pre, doti);
  }

  /** The preprocessed file takes the place of its name, unless the object has done so. */
  lemma FileMoved(sent: seq<string>, obj: string, new_: string, pre: string, doti: string)
    requires pre in sent && doti !in sent && new_ != pre && doti != new_
    ensures doti in Moved(sent, obj, new_, pre, doti) <==> obj != pre
  {
    if obj == pre {
      NotMoved(sent, pre, new_, doti);
    } else {
      var i :| 0 <= i < |sent| && sent[i] == pre;
      assert Moved(sent, obj, new_, pre, doti)[i] == doti;
    }
  }

  lemma NotMoved(sent: seq<string>, pre: string, new_: string, doti: string)
    requires doti !in sent && doti != new_ && new_ != pre
    ensures doti !in Moved(sent, pre, new_, pre, doti)
  {
    var moved := Moved(sent, pre, new_, pre, doti);
    assert forall i :: 0 <= i < |sent| ==> sent[i] in sent && moved[i] in {sent[i], new_};
  }

  lemma {:induction false} RemoteFile(items: seq<Item>, hasX: bool, pre: string, s: Scanned)
    ensures Summary(items, s).sources > s.sources ==> pre in Flat(Remote(items, hasX, pre))
  {
    hide Language;
    if items != [] {
      var a, b := RemoteItem(items[0], hasX, pre), Remote(items[1..], hasX, pre);
      RemoteFile(items[1..], hasX, pre, Summarise(items[0], s));
      FlatUpToTwo(Source(pre), Lang(Language(if items[0].Source? then items[0].name else pre)), Source(pre));
      FlatAppend(a, b);
    }
  }

  /* ---------- commands that do not survive ---------- */

  lemma NoDashPlain(arg: string)
    requires arg != [] && arg[0] != '-'
    ensures Plain(arg)
  {
    assert forall prefix :: prefix in {"-D", "-I", "-Wp,"} ==> prefix[0] == '-';
  }

  /** `-c src -o obj`, perhaps after something else. */
  function Short(more: seq<Item>, src: string, obj: string): seq<Item> {
    more + ([Compile] + ([Source(src)] + ([Object(obj)] + [])))
  }

  lemma OneItemMore(item: Item, t: seq<Item>, s: Scanned, hasX: bool, pre: string)
    ensures Flat([item] + t) == Tokens(item) + Flat(t)
    ensures Summary([item] + t, s) == Summary(t, Summarise(item, s))
    ensures Langs([item] + t) == (if item.Lang? then 1 else 0) + Langs(t)
    ensures Remote([item] + t, hasX, pre) == RemoteItem(item, hasX, pre) + Remote(t, hasX, pre)
    ensures Flat(Remote([item] + t, hasX, pre)) == Flat(RemoteItem(item, hasX, pre)) + Flat(Remote(t, hasX, pre))
  {
    hide Tokens, RemoteItem;
    assert ([item] + t)[1..] == t;
    FlatAppend(RemoteItem(item, hasX, pre), Remote(t, hasX, pre));
  }

  lemma ShortItems(src: string, obj: string, pre: string)
    ensures var items := [Compile] + ([Source(src)] + ([Object(obj)] + []));
      && Flat(items) == ["-c"] + ([src] + ["-o", obj])
      && Langs(items) == 0
      && Summary(items, START) == Scanned(false, 1, true, true, Some(src), Some(obj))
      && Flat(Remote(items, false, pre)) == ["-c"] + (["-x", Language(src), pre] + ["-o", obj])
  {
    var lang := Language(src);
    var s2 := Summarise(Compile, START);
    var s3 := Summarise(Source(src), s2);
    FlatUpToTwo(Compile, Lang(lang), Source(pre));
    FlatUpToTwo(Object(obj), Lang(lang), Source(pre));
    OneItemMore(Compile, [Source(src)] + ([Object(obj)] + []), START, false, pre);
    OneItemMore(Source(src), [Object(obj)] + [], s2, false, pre);
    OneItemMore(Object(obj), [], s3, false, pre);
    hide Flat, Language;
    assert Flat(Remote([], false, pre)) == [];
  }

  /** What comes first and is nothing to the scan. */
  predicate Ignored(items: seq<Item>) {
    forall i :: 0 <= i < |items| ==> items[i].Other? || items[i].MacroWith? || items[i].Macro?
  }

  lemma {:induction false} MoreItems(more: seq<Item>, items: seq<Item>, pre: string)
    requires Ignored(more)
    ensures Flat(more + items) == Flat(more) + Flat(items)
    ensures Langs(more + items) == Langs(items)
    ensures Summary(more + items, START) == Summary(items, START)
    ensures Flat(Remote(more + items, false, pre)) == Flat(Remote(more, false, pre)) + Flat(Remote(items, false, pre))
  {
    NothingMore(pre, "");
    hide Flat, Remote, Langs, Summary;
    if more == [] {
      assert more + items == items;
    } else {
      HeadAndTail(more, items);
      MoreItems(more[1..], items, pre);
      OneItemMore(more[0], more[1..] + items, START, false, pre);
      OneItemMore(more[0], more[1..], START, false, pre);
    }
  }

  lemma NothingMore(pre: string, src: string)
    ensures Flat([]) == [] && Flat(Remote([], false, pre)) == [] && AllOk([], src) && Langs([]) == 0 && Ignored([])
  {}

  lemma ShortOk(more: seq<Item>, src: string, obj: string)
    requires IsSource(src) && Plain(src) && Plain(obj) && obj != src && AllOk(more, src)
    ensures AllOk(Short(more, src, obj), src)
  {
    hide IsSource, Plain;
  }

  /** What the scan and the client make of it, when something that the scan ignores
      comes first. */
  lemma ShortCommand(more: seq<Item>, src: string, obj: string)
    requires IsSource(src) && Plain(src) && Plain(obj) && obj != src && AllOk(more, src)
    requires Ignored(more)
    ensures var args, pre := Flat(Short(more, src, obj)), Preprocessed(obj, src);
      && args == Flat(more) + (["-c"] + ([src] + ["-o", obj]))
      && WellFormed(args, src, obj)
      && Sent(args, src, obj) == Flat(Remote(more, false, pre)) + (["-c"] + (["-x", Language(src), pre] + ["-o", obj]))
  {
    var items, pre := Short(more, src, obj), Preprocessed(obj, src);
    ShortFacts(more, src, obj, pre);
    ShortOk(more, src, obj);
    hide *;
    ParseUnique(items, src);
    CountFlat(items, src);
    ScanOk(items, src);
    AcceptedShort(Flat(items), items, src, obj);
    ClientHop(Flat(items), src, obj);
    NoX(Flat(items));
  }

  lemma AcceptedShort(args: seq<string>, items: seq<Item>, src: string, obj: string)
    requires Parse(args) == items && AllOk(items, src)
    requires Scan(args, START) == Scanned(false, 1, true, true, Some(src), Some(obj))
    ensures WellFormed(args, src, obj)
  {
    hide Parse, Scan, AllOk;
  }

  lemma NoX(args: seq<string>)
    ensures CountX(args) == 0 <==> "-x" !in args
  {}

  lemma ShortFacts(more: seq<Item>, src: string, obj: string, pre: string)
    requires Ignored(more)
    ensures var items := Short(more, src, obj);
      && Flat(items) == Flat(more) + (["-c"] + ([src] + ["-o", obj]))
      && Langs(items) == 0
      && Summary(items, START) == Scanned(false, 1, true, true, Some(src), Some(obj))
      && Flat(Remote(items, false, pre))
         == Flat(Remote(more, false, pre)) + (["-c"] + (["-x", Language(src), pre] + ["-o", obj]))
  {
    ShortItems(src, obj, pre);
    MoreItems(more, [Compile] + ([Source(src)] + ([Object(obj)] + [])), pre);
    hide Flat, Remote, Langs, Summary, Language;
  }

  lemma ShortNames(stem: string, ext: string, name: string)
    requires stem != [] && stem[0] != '-' && '.' !in ext && name == stem + ['.'] + ext
    ensures Extension(name) == ext && Plain(name)
    ensures IsSource(name) <==> Lower(ext) in {"cpp", "cxx", "cc", "c", "i", "ii"}
    ensures Language(name) == if Lower(ext) == "c" then LANG_C else LANG_CXX
  {
    ExtensionAppend(stem, ext);
    NoDashPlain(name);
    SourceByExtension(stem, ext);
    hide PreprocessorFlag, Extension, Lower;
  }

  lemma MovedShort(c: string, x: string, lang: string, o: string, obj: string, new_: string, pre: string, doti: string)
    requires obj !in {c, x, o} && pre !in {c, x, o, lang, new_}
    ensures Moved([c] + ([x, lang, pre] + [o, obj]), obj, new_, pre, doti)
         == [c, x, if lang == obj then new_ else lang, if pre == obj then new_ else doti, o, new_]
    ensures [c] + ([x, lang, pre] + [o, obj]) == [c, x, lang, pre, o, obj]
  {
    var replaced := [c, x, if lang == obj then new_ else lang, if pre == obj then new_ else pre, o, new_];
    assert Replace([c] + ([x, lang, pre] + [o, obj]), obj, new_) == replaced;
  }

  lemma NotMovedAtAll(rest: seq<string>, obj: string, new_: string, pre: string, doti: string)
    requires obj !in rest && pre !in rest
    ensures Moved(rest, obj, new_, pre, doti) == rest
  {
    assert Replace(rest, obj, new_) == rest;
  }

  /** What becomes of `-c src -o obj` if the tokens `rest` are left of what comes first. */
  lemma ShortServed(more: seq<Item>, rest: seq<string>, src: string, obj: string, new_: string, doti: string)
    requires IsSource(src) && Plain(src) && Plain(obj) && obj != src && AllOk(more, src)
    requires Ignored(more)
    requires rest == Flat(Remote(more, false, Preprocessed(obj, src)))
    requires obj !in rest && Preprocessed(obj, src) !in rest && Temporary(new_, doti, src, obj)
    ensures var args, pre, lang := Flat(more) + (["-c"] + ([src] + ["-o", obj])), Preprocessed(obj, src), Language(src);
      && WellFormed(args, src, obj)
      && Sent(args, src, obj) == rest + ["-c", "-x", lang, pre, "-o", obj]
      && Served(Sent(args, src, obj), pre, obj, new_, doti)
         == rest + ["-c", "-x", if lang == obj then new_ else lang, if pre == obj then new_ else doti, "-o", new_]
  {
    var pre, lang := Preprocessed(obj, src), Language(src);
    assert new_ != pre;
    hide *;
    ShortCommand(more, src, obj);
    PreprocessedIsNew(src, obj);
    ServerMoves(Flat(Short(more, src, obj)), src, obj, new_, doti);
    MovedAppend(rest, ["-c"] + (["-x", lang, pre] + ["-o", obj]), obj, new_, pre, doti);
    NotMovedAtAll(rest, obj, new_, pre, doti);
    MovedShort("-c", "-x", lang, "-o", obj, new_, pre, doti);
  }

  lemma NameOfSource()
    ensures IsSource("a.cc") && Plain("a.cc") && Language("a.cc") == "c++"
    ensures IsSource("a.c") && Plain("a.c") && Language("a.c") == "c"
  {
    BothCases();
    ShortNames("a", "cc", "a.cc");
    ShortNames("a", "c", "a.c");
    hide *;
  }

  /** The preprocessed file is named after the object: the extension is replaced, or is
      all there is if the object has none. */
  lemma NameOfPreprocessed(stem: string, ext: string, src: string)
    requires '.' !in ext
    ensures Preprocessed(stem + ['.'] + ext, src) == stem + if Language(src) == "c++" then ".ii" else ".i"
    ensures Preprocessed(ext, src) == if Language(src) == "c++" then "ii" else "i"
  {
    var obj := stem + ['.'] + ext;
    LastDotAppend(stem, ext);
    assert LastDot(ext) == |ext|;
    hide LastDot, Language;
    assert obj[..|stem|] == stem;
  }

  lemma PreprocessedNames()
    ensures Plain("a.ii") && Preprocessed("a.ii", "a.cc") == "a.ii"
    ensures Plain("a.o") && Preprocessed("a.o", "a.cc") == "a.ii" && Preprocessed("a.o", "a.c") == "a.i"
  {
    NameOfSource();
    ShortNames("a", "ii", "a.ii");
    ShortNames("a", "o", "a.o");
    NameOfPreprocessed("a", "ii", "a.cc");
    NameOfPreprocessed("a", "o", "a.cc");
    NameOfPreprocessed("a", "o", "a.c");
    hide *;
  }

  lemma NoExtension()
    ensures Plain("c++") && Preprocessed("c++", "a.cc") == "ii"
  {
    NameOfSource();
    NoDashPlain("c++");
    assert LastDot("c++") == 3;
    hide LastDot, Language, IsSource, Plain;
  }

  lemma OperandOk()
    ensures AllOk([MacroWith("-D", "FOO")], "a.cc") && Ignored([MacroWith("-D", "FOO")])
    ensures Flat([MacroWith("-D", "FOO")]) == ["-D", "FOO"]
    ensures Flat(Remote([MacroWith("-D", "FOO")], false, "a.ii")) == ["FOO"]
  {
    OneItemMore(MacroWith("-D", "FOO"), [], START, false, "a.ii");
    FlatUpToTwo(Other("FOO"), MacroWith("-D", "FOO"), MacroWith("-D", "FOO"));
    NoDashPlain("FOO");
    assert LastDot("FOO") == 3;
    assert Lower("FOO")[1] == 'o';
    hide Plain;
  }

  /** `-c a.cc -o c++`: the object is named like the language that the client adds, and
      the server replaces both. */
  lemma LanguageReplaced(new_: string, doti: string)
    requires Temporary(new_, doti, "a.cc", "c++")
    ensures var args := ["-c", "a.cc", "-o", "c++"];
      && WellFormed(args, "a.cc", "c++")
      && Sent(args, "a.cc", "c++") == ["-c", "-x", "c++", "ii", "-o", "c++"]
      && Served(Sent(args, "a.cc", "c++"), "ii", "c++", new_, doti) == ["-c", "-x", new_, doti, "-o", new_]
  {
    NameOfSource();
    NoExtension();
    NothingMore("ii", "a.cc");
    hide *;
    ShortServed([], [], "a.cc", "c++", new_, doti);
    assert [] + (["-c"] + (["a.cc"] + ["-o", "c++"])) == ["-c", "a.cc", "-o", "c++"];
  }

  /** `-c a.cc -o a.ii`: the object is named like the preprocessed file, and the server's
      compiler never gets to see the source. */
  lemma SourceReplaced(new_: string, doti: string)
    requires Temporary(new_, doti, "a.cc", "a.ii")
    ensures var args := ["-c", "a.cc", "-o", "a.ii"];
      && WellFormed(args, "a.cc", "a.ii")
      && Sent(args, "a.cc", "a.ii") == ["-c", "-x", "c++", "a.ii", "-o", "a.ii"]
      && Served(Sent(args, "a.cc", "a.ii"), "a.ii", "a.ii", new_, doti) == ["-c", "-x", "c++", new_, "-o", new_]
  {
    NameOfSource();
    PreprocessedNames();
    NothingMore("a.ii", "a.cc");
    hide *;
    ShortServed([], [], "a.cc", "a.ii", new_, doti);
    assert [] + (["-c"] + (["a.cc"] + ["-o", "a.ii"])) == ["-c", "a.cc", "-o", "a.ii"];
  }

  /** `-D FOO -c a.cc -o a.o`: the `-D` is dropped, its operand reaches the server's
      compiler. */
  lemma OperandLeft(new_: string, doti: string)
    requires Temporary(new_, doti, "a.cc", "a.o")
    ensures var args := ["-D", "FOO", "-c", "a.cc", "-o", "a.o"];
      && WellFormed(args, "a.cc", "a.o")
      && Sent(args, "a.cc", "a.o") == ["FOO", "-c", "-x", "c++", "a.ii", "-o", "a.o"]
      && Served(Sent(args, "a.cc", "a.o"), "a.ii", "a.o", new_, doti) == ["FOO", "-c", "-x", "c++", doti, "-o", new_]
  {
    NameOfSource();
    PreprocessedNames();
    OperandOk();
    hide *;
    ShortServed([MacroWith("-D", "FOO")], ["FOO"], "a.cc", "a.o", new_, doti);
    assert ["-D", "FOO"] + (["-c"] + (["a.cc"] + ["-o", "a.o"])) == ["-D", "FOO", "-c", "a.cc", "-o", "a.o"];
  }

  /* ---------- commands that survive ---------- */

  function DependencyFlags(): seq<Item> {
    [Macro("-MD")] + ([MacroWith("-MF", "a.d")] + ([MacroWith("-isystem", "inc")] + []))
  }

  lemma OperandsNotSources()
    ensures !IsSource("a.d") && !IsSource("inc")
  {
    SourceByExtension("a", "d");
    SourceByExtension("a", "inc");
    assert "a" + ['.'] + "d" == "a.d";
    assert |Lower("d")| == 1 && Lower("d")[0] == 'd';
    assert |Lower("inc")| == 3 && Lower("inc")[0] == 'i';
    hide IsSource, Lower;
  }

  lemma DependencyItemsOk(src: string)
    ensures ItemOk(Macro("-MD"), src) && ItemOk(MacroWith("-MF", "a.d"), src) && ItemOk(MacroWith("-isystem", "inc"), src)
  {
    FlagTable("-MD");
    FlagTable("-MF");
    FlagTable("-isystem");
    DashNotSource("-MD");
    OperandsNotSources();
    NoDashPlain("a.d");
    NoDashPlain("inc");
    hide IsSource, PreprocessorFlag;
  }

  lemma DependencyTokens(pre: string)
    ensures Flat(DependencyFlags()) == ["-MD"] + (["-MF", "a.d"] + (["-isystem", "inc"] + []))
    ensures Flat(Remote(DependencyFlags(), false, pre)) == []
  {
    OneItemMore(Macro("-MD"), [MacroWith("-MF", "a.d")] + ([MacroWith("-isystem", "inc")] + []), START, false, pre);
    OneItemMore(MacroWith("-MF", "a.d"), [MacroWith("-isystem", "inc")] + [], START, false, pre);
    OneItemMore(MacroWith("-isystem", "inc"), [], START, false, pre);
    NothingMore(pre, "");
    hide Flat, Remote;
  }

  lemma DependencyFlagsOk(src: string)
    ensures AllOk(DependencyFlags(), src) && Ignored(DependencyFlags())
  {
    DependencyItemsOk(src);
    hide ItemOk;
  }

  /** `-MD -MF a.d -isystem inc -c a.cc -o a.o`: nothing is left of the flags. */
  lemma DependencyFlagsGone(new_: string, doti: string)
    requires Temporary(new_, doti, "a.cc", "a.o")
    ensures var args := ["-MD", "-MF", "a.d", "-isystem", "inc"] + ["-c", "a.cc", "-o", "a.o"];
      && WellFormed(args, "a.cc", "a.o")
      && Sent(args, "a.cc", "a.o") == ["-c", "-x", "c++", "a.ii", "-o", "a.o"]
      && Served(Sent(args, "a.cc", "a.o"), "a.ii", "a.o", new_, doti) == ["-c", "-x", "c++", doti, "-o", new_]
  {
    NameOfSource();
    PreprocessedNames();
    hide *;
    DependencyFlagsOk("a.cc");
    DependencyTokens("a.ii");
    ShortServed(DependencyFlags(), [], "a.cc", "a.o", new_, doti);
    Spelled5("-MD", "-MF", "a.d", "-isystem", "inc");
    Spelled4("-c", "a.cc", "-o", "a.o");
  }

  lemma Spelled5(a: string, b: string, c: string, d: string, e: string)
    ensures [a] + ([b, c] + ([d, e] + [])) == [a, b, c, d, e]
  {}

  lemma Spelled4(a: string, b: string, c: string, d: string)
    ensures [a] + ([b] + [c, d]) == [a, b, c, d]
  {}

  /** `-c a.c -o a.o`: compiled as C. */
  lemma CommandInC(new_: string, doti: string)
    requires Temporary(new_, doti, "a.c", "a.o")
    ensures var args := ["-c", "a.c", "-o", "a.o"];
      && WellFormed(args, "a.c", "a.o")
      && Sent(args, "a.c", "a.o") == ["-c", "-x", "c", "a.i", "-o", "a.o"]
      && Served(Sent(args, "a.c", "a.o"), "a.i", "a.o", new_, doti) == ["-c", "-x", "c", doti, "-o", new_]
  {
    NameOfSource();
    PreprocessedNames();
    NothingMore("a.i", "a.c");
    hide *;
    ShortServed([], [], "a.c", "a.o", new_, doti);
    assert [] + (["-c"] + (["a.c"] + ["-o", "a.o"])) == ["-c", "a.c", "-o", "a.o"];
  }

  /* ---------- the wrapper, updated in place ---------- */

  class Wrapper {
    const compiler: string
    var args: seq<string>
    var srcfile: Option<string>
    var objfile: Option<string>
    var preprocessedFile: Option<string>

    constructor (command: seq<string>)
      requires command != []
      ensures compiler == command[0] && args == command[1..]
      ensures srcfile == None && objfile == None && preprocessedFile == None
    {
      compiler, args := command[0], command[1..];
      srcfile, objfile, preprocessedFile := None, None, None;
    }

    method CanHandleCommand() returns (verdict: Verdict)
      modifies `srcfile, `objfile
      ensures var s := Scan(args, START.(src := old(srcfile), obj := old(objfile)));
        verdict == Judge(s) && srcfile == s.src && objfile == s.obj
    {
      hide IsSource;
      ghost var start := START.(src := srcfile, obj := objfile);
      var sources, compiles, hasObject, skip := 0, false, false, false;
      var n := 0;
      while n < |args|
        invariant 0 <= n <= |args|
        invariant Scan(args, start)
               == Scan(args[n..], Scanned(skip, sources, compiles, hasObject, srcfile, objfile))
      {
        var arg := args[n];
        assert args[n..][1..] == args[n + 1..];
        if skip {
          skip := false;
        } else if arg == "-c" {
          compiles := true;
        } else if arg == "-S" {
          compiles := true;
        } else if arg == "-x" {
          skip := true;
        } else if IsSource(arg) {
          sources, srcfile := sources + 1, Some(arg);
        } else if arg == "-o" {
          skip := true;
          if n + 1 < |args| {
            objfile, hasObject := Some(args[n + 1]), true;
          }
        }
        n := n + 1;
      }
      if sources == 0 {
        return NoSources;
      }
      if sources > 1 {
        return MultipleSources;
      }
      if !compiles {
        return Linking;
      }
      if !hasObject {
        return NoObject;
      }
      return Accepted;
    }

    method PreprocessorCmd() returns (cmd: seq<string>)
      requires srcfile.Some?
      modifies `objfile, `preprocessedFile
      ensures cmd == [compiler] + PreprocessorArgs(args, false, srcfile.value)
      ensures objfile == PreprocessorObject(args, false, old(objfile))
      ensures objfile != old(objfile) ==>
        objfile.Some? && preprocessedFile == Some(Preprocessed(objfile.value, srcfile.value))
      ensures PreprocessorObject(args, false, None).Some? ==>
        preprocessedFile == Some(Preprocessed(PreprocessorObject(args, false, None).value, srcfile.value))
    {
      hide Preprocessed, PreprocessorArgs, PreprocessorObject;
      cmd := [compiler];
      var nextIsObject := false;
      ghost var found: Option<string> := None;
      var n := 0;
      assert args[n..] == args;
      while n < |args|
        invariant 0 <= n <= |args|
        invariant cmd + PreprocessorArgs(args[n..], nextIsObject, srcfile.value)
               == [compiler] + PreprocessorArgs(args, false, srcfile.value)
        invariant PreprocessorObject(args[n..], nextIsObject, objfile) == PreprocessorObject(args, false, old(objfile))
        invariant PreprocessorObject(args[n..], nextIsObject, found) == PreprocessorObject(args, false, None)
        invariant if found.None? then objfile == old(objfile)
                  else objfile == found && preprocessedFile == Some(Preprocessed(found.value, srcfile.value))
      {
        var arg := args[n];
        ghost var rest := args[n + 1..];
        assert args[n..] == [arg] + rest;
        if arg == "-c" {
          PreprocessorCompile(rest, nextIsObject, srcfile.value, objfile);
          PreprocessorCompile(rest, nextIsObject, srcfile.value, found);
        } else {
          PreprocessorToken(arg, rest, nextIsObject, srcfile.value, objfile);
          PreprocessorToken(arg, rest, nextIsObject, srcfile.value, found);
        }
        ghost var word := if arg == "-c" then "-E" else if nextIsObject then Preprocessed(arg, srcfile.value) else arg;
        ghost var isObject := if arg == "-c" then nextIsObject else !nextIsObject && arg == "-o";
        Associative(cmd, [word], PreprocessorArgs(rest, isObject, srcfile.value));
        if arg == "-c" {
          cmd := cmd + ["-E"];
        } else if nextIsObject {
          objfile, found := Some(arg), Some(arg);
          preprocessedFile := Some(Preprocessed(arg, srcfile.value));
          cmd := cmd + [preprocessedFile.value];
          nextIsObject := false;
        } else {
          if arg == "-o" {
            nextIsObject := true;
          }
          cmd := cmd + [arg];
        }
        n := n + 1;
      }
      assert args[n..] == [];
      PreprocessorNothing(nextIsObject, srcfile.value, objfile);
      PreprocessorNothing(nextIsObject, srcfile.value, found);
    }

    method SetPreprocessedFile(path: string)
      modifies `preprocessedFile
      ensures preprocessedFile == Some(path)
    {
      preprocessedFile := Some(path);
    }

    method SetObjectFile(path: string)
      modifies `args, `objfile
      ensures objfile == Some(path)
      ensures args == if old(objfile).Some? then Replace(old(args), old(objfile).value, path) else old(args)
    {
      if objfile == Some(path) {
        assert Replace(args, path, path) == args;
        return;
      }
      if objfile.Some? {
        args := Replace(args, objfile.value, path);
      }
      objfile := Some(path);
    }

    method ObjectFile() returns (obj: Option<string>)
      modifies `objfile
      ensures obj == objfile == if old(objfile).Some? then old(objfile) else FirstObject(args)
    {
      if objfile.None? {
        var n := 0;
        while n < |args|
          invariant 0 <= n <= |args|
          invariant objfile.None? && FirstObject(args) == FirstObject(args[n..])
        {
          if args[n] == "-o" && n + 1 < |args| {
            objfile := Some(args[n + 1]);
            break;
          }
          assert args[n..][1..] == args[n + 1..];
          n := n + 1;
        }
      }
      return objfile;
    }

    method CompilerCmd() returns (cmd: seq<string>)
      requires srcfile.Some? && preprocessedFile.Some?
      ensures cmd == [compiler] + CompilerArgs(args, false, "-x" in args, srcfile.value, preprocessedFile.value)
    {
      hide PreprocessorFlag, Language;
      cmd := [compiler];
      var skipNext := false;
      var n := 0;
      while n < |args|
        invariant 0 <= n <= |args|
        invariant cmd + CompilerArgs(args[n..], skipNext, "-x" in args, srcfile.value, preprocessedFile.value)
               == [compiler] + CompilerArgs(args, false, "-x" in args, srcfile.value, preprocessedFile.value)
      {
        var arg := args[n];
        assert args[n..][1..] == args[n + 1..];
        n := n + 1;
        if skipNext {
          skipNext := false;
          continue;
        }
        var flag := PreprocessorFlag(arg);
        skipNext := flag == WithOperand;
        if flag != NotFlag {
          continue;
        } else if arg == srcfile.value {
          if "-x" !in args {
            cmd := cmd + ["-x", Language(srcfile.value)];
          }
          cmd := cmd + [preprocessedFile.value];
        } else {
          cmd := cmd + [arg];
        }
      }
    }
  }

  /** The client's part: what is run locally, and what is sent. */
  method ClientSide(command: seq<string>, src: string, obj: string)
    returns (verdict: Verdict, localCmd: seq<string>, sent: seq<string>)
    requires command != [] && WellFormed(command[1..], src, obj)
    ensures verdict == Accepted
    ensures localCmd == [command[0]] + PreprocessorFlat(Parse(command[1..]), src)
    ensures sent == [command[0]] + Flat(Remote(Parse(command[1..]), "-x" in command[1..], Preprocessed(obj, src)))
    ensures sent == [command[0]] + Sent(command[1..], src, obj)
  {
    hide Scan, Preprocessed, Language, Remote, PreprocessorArgs, PreprocessorObject, Parse, ItemOk;
    ClientHop(command[1..], src, obj);
    var w := new Wrapper(command);
    assert START.(src := None, obj := None) == START;
    verdict := w.CanHandleCommand();
    localCmd := w.PreprocessorCmd();
    sent := w.CompilerCmd();
  }

  /** The server's part: parse what was received, put in the temporary names, rewrite. */
  method ServerSide(received: seq<string>, new_: string, doti: string)
    returns (verdict: Verdict, cmd: seq<string>)
    requires received != []
    ensures verdict == Judge(Scan(received[1..], START))
    ensures verdict == Accepted ==>
      var s := Scan(received[1..], START);
      && s.src.Some? && s.obj.Some?
      && cmd == [received[0]] + Served(received[1..], s.src.value, s.obj.value, new_, doti)
  {
    hide CompilerArgs;
    var w := new Wrapper(received);
    assert START.(src := None, obj := None) == START;
    verdict := w.CanHandleCommand();
    cmd := [];
    AcceptedNames(received[1..], START);
    if verdict == Accepted {
      w.SetPreprocessedFile(doti);
      var obj := w.ObjectFile();
      w.SetObjectFile(new_);
      cmd := w.CompilerCmd();
    }
  }

  lemma {:induction false} AcceptedNames(args: seq<string>, s: Scanned)
    requires (s.sources > 0 ==> s.src.Some?) && (s.hasObject ==> s.obj.Some?)
    ensures var r := Scan(args, s);
      (r.sources > 0 ==> r.src.Some?) && (r.hasObject ==> r.obj.Some?)
  {
    if args != [] {
      AcceptedNames(args[1..], ScanOne(args, s));
    }
  }

  /** Both hops together: the server runs the client's own arguments, in the client's
      order and in the client's language, exactly if they all survive. */
  method TwoHops(command: seq<string>, src: string, obj: string, new_: string, doti: string)
    returns (cmd: seq<string>)
    requires command != [] && WellFormed(command[1..], src, obj) && Temporary(new_, doti, src, obj)
    ensures var items, hasX := Parse(command[1..]), "-x" in command[1..];
      cmd == [command[0]] + Flat(Final(items, hasX, obj, new_, doti))
      <==> AllSurvive(items, hasX, src, obj)
    ensures cmd == [command[0]] + Moved(Sent(command[1..], src, obj), obj, new_, Preprocessed(obj, src), doti)
  {
    var args := command[1..];
    ServerAccepts(args, src, obj);
    ServerHop(args, src, obj, new_, doti);
    ServerMoves(args, src, obj, new_, doti);
    hide *;
    var verdict, localCmd, sent := ClientSide(command, src, obj);
    assert sent[0] == command[0] && sent[1..] == Sent(args, src, obj);
    verdict, cmd := ServerSide(sent, new_, doti);
    assert cmd[1..] == Served(Sent(args, src, obj), Preprocessed(obj, src), obj, new_, doti);
    assert ([command[0]] + Flat(Final(Parse(args), "-x" in args, obj, new_, doti)))[1..]
        == Flat(Final(Parse(args), "-x" in args, obj, new_, doti));
  }
}
