/**
 * The `Courses` model of models/courses.py: each operation checks that the
 * course directory exists, builds an argument vector for the cartridge CLI,
 * runs it and shapes the result.
 *
 * The collaborators are parameters bundled in `Env`: the filesystem is the set
 * of existing paths, the set of directories and the listing of the working
 * directory; the CLI process is an oracle from command line to what the process
 * printed and its exit code; JSON parsing of the CLI's output is an abstract
 * partial function. Every operation also returns the argument vectors it ran,
 * in order.
 */
module Courses {
  import opened Wrappers
  import opened Text

  const WorkingDir: string := "cartridge_current_working_state"
  const PythonBin: string := ".venv/bin/python"
  const CliScript: string := "cartridge_cli.py"

  /** What one CLI process printed and how it exited. */
  datatype Completed = Completed(stdout: string, stderr: string, exitCode: int)

  /** `_run_command`'s `(stdout, stderr, success)`. */
  datatype CommandResult = CommandResult(output: string, error: string, success: bool)

  /** The `(success, output if success else error)` pair the operations return. */
  datatype Reply = Reply(success: bool, message: string)

  /** A module and its items as the CLI's `list --json` reports them. */
  datatype Item = Item(title: string, contentType: string)
  datatype Module = Module(title: string, items: seq<Item>)
  datatype CourseData = CourseData(modules: seq<Module>)

  /** The rows of the `courses` property. */
  datatype ListedItem = ListedItem(title: string, contentType: string, content: string)
  datatype ListedModule = ListedModule(title: string, items: seq<ListedItem>)
  datatype ListedCourse = ListedCourse(name: string, modules: seq<ListedModule>)

  datatype Env = Env(
    existing: set<string>,
    directories: set<string>,
    listing: seq<string>,
    cli: seq<string> -> Completed,
    parseCourse: string -> Option<CourseData>,
    parseDetails: string -> Option<map<string, string>>)

  /** A value together with the argument vectors run to compute it. */
  datatype Traced<T> = Traced(value: T, commands: seq<seq<string>>)

  /** The keyword arguments `add_module_item` reads, each with its per-type default. */
  datatype ItemFields = ItemFields(content: Option<string>, description: Option<string>, points: Option<int>)

  /** The keyword arguments `update_module_item` reads. */
  datatype ItemUpdate = ItemUpdate(
    newTitle: Option<string>, content: Option<string>, description: Option<string>,
    newFilename: Option<string>, points: Option<int>, position: Option<int>)

  const ContentTypes: set<string> := {"WikiPage", "Assignment", "DiscussionTopic", "File", "Quiz"}

  // ----- argument vectors -----

  /** An option flag with its value; a `None` value means the flag is not passed. */
  type Opt = (string, Option<string>)

  /** The words one option contributes: the flag and its value, or nothing. */
  function OptArg(o: Opt): seq<string> {
    if o.1.Some? then [o.0, o.1.value] else []
  }

  function Flatten(opts: seq<Opt>): seq<string> {
    if opts == [] then [] else OptArg(opts[0]) + Flatten(opts[1..])
  }

  /** The argument vector `subcommand path --flag value ...` for the options that have a value. */
  function Argv(subcommand: string, path: string, opts: seq<Opt>): seq<string> {
    [subcommand, path] + Flatten(opts)
  }

  lemma {:induction false} FlattenAppend(a: seq<Opt>, b: seq<Opt>)
    ensures Flatten(a + b) == Flatten(a) + Flatten(b)
  {
    if a == [] {
      assert a + b == b;
    } else {
      assert (a + b)[0] == a[0];
      assert (a + b)[1..] == a[1..] + b;
      FlattenAppend(a[1..], b);
      calc {
        Flatten(a + b);
        OptArg(a[0]) + Flatten(a[1..] + b);
        OptArg(a[0]) + (Flatten(a[1..]) + Flatten(b));
        (OptArg(a[0]) + Flatten(a[1..])) + Flatten(b);
      }
    }
  }

  /** Appending an option to the argument vector appends its words. */
  lemma ArgvExtend(subcommand: string, path: string, opts: seq<Opt>, o: Opt)
    ensures Argv(subcommand, path, opts + [o]) == Argv(subcommand, path, opts) + OptArg(o)
  {
    FlattenAppend(opts, [o]);
    assert Flatten([o]) == OptArg(o) by {
      assert [o][1..] == [];
    }
  }

  lemma AppendAssoc<T>(x: seq<T>, y: seq<T>, z: seq<T>)
    ensures (x + y) + z == x + (y + z)
  {
  }

  lemma DistinctThree(a: Opt, b: Opt, c: Opt)
    requires a.0 != b.0 && a.0 != c.0 && b.0 != c.0
    ensures DistinctFlags([a, b, c])
  {
  }

  lemma DistinctFour(a: Opt, b: Opt, c: Opt, d: Opt)
    requires a.0 != b.0 && a.0 != c.0 && a.0 != d.0 && b.0 != c.0 && b.0 != d.0 && c.0 != d.0
    ensures DistinctFlags([a, b, c, d])
  {
  }

  lemma NumberArg(flag: string, n: Option<int>)
    ensures OptArg((flag, ShowInt(n))) == if n.Some? then [flag, IntToString(n.value)] else []
  {
  }

  /** The argument vector of five options, option by option. */
  lemma ArgvOfFive(subcommand: string, path: string, a: Opt, b: Opt, c: Opt, d: Opt, e: Opt)
    ensures Argv(subcommand, path, [a, b, c, d, e])
         == [subcommand, path] + OptArg(a) + OptArg(b) + OptArg(c) + OptArg(d) + OptArg(e)
  {
    FlattenFive(a, b, c, d, e);
    var x := [subcommand, path];
    AppendAssoc(x, OptArg(a) + OptArg(b) + OptArg(c) + OptArg(d), OptArg(e));
    AppendAssoc(x, OptArg(a) + OptArg(b) + OptArg(c), OptArg(d));
    AppendAssoc(x, OptArg(a) + OptArg(b), OptArg(c));
    AppendAssoc(x, OptArg(a), OptArg(b));
  }

  /** Reading back five options with distinct flags, and two flags they do not list. */
  lemma ReadBackFive(subcommand: string, path: string, a: Opt, b: Opt, c: Opt, d: Opt, e: Opt, x: string, y: string)
    requires a.0 != b.0 && a.0 != c.0 && a.0 != d.0 && a.0 != e.0
    requires b.0 != c.0 && b.0 != d.0 && b.0 != e.0 && c.0 != d.0 && c.0 != e.0 && d.0 != e.0
    requires x != a.0 && x != b.0 && x != c.0 && x != d.0 && x != e.0
    requires y != a.0 && y != b.0 && y != c.0 && y != d.0 && y != e.0
    ensures var argv := Argv(subcommand, path, [a, b, c, d, e]);
      && |argv| >= 2 && argv[0] == subcommand && argv[1] == path
      && OptionValue(argv, a.0) == a.1 && OptionValue(argv, b.0) == b.1 && OptionValue(argv, c.0) == c.1
      && OptionValue(argv, d.0) == d.1 && OptionValue(argv, e.0) == e.1
      && OptionValue(argv, x) == None && OptionValue(argv, y) == None
  {
    var opts := [a, b, c, d, e];
    assert DistinctFlags(opts);
    ArgvReadBack(subcommand, path, opts);
    assert opts[0] == a && opts[1] == b && opts[2] == c && opts[3] == d && opts[4] == e;
    ArgvReadBackAbsent(subcommand, path, opts, x);
    ArgvReadBackAbsent(subcommand, path, opts, y);
  }

  /** Reading back three or four options with distinct flags, and two or one flags they do not list. */
  lemma ReadBackThree(subcommand: string, path: string, a: Opt, b: Opt, c: Opt, x: string, y: string)
    requires a.0 != b.0 && a.0 != c.0 && b.0 != c.0
    requires x != a.0 && x != b.0 && x != c.0 && y != a.0 && y != b.0 && y != c.0
    ensures var argv := Argv(subcommand, path, [a, b, c]);
      && |argv| >= 2 && argv[0] == subcommand && argv[1] == path
      && OptionValue(argv, a.0) == a.1 && OptionValue(argv, b.0) == b.1 && OptionValue(argv, c.0) == c.1
      && OptionValue(argv, x) == None && OptionValue(argv, y) == None
  {
    var opts := [a, b, c];
    DistinctThree(a, b, c);
    ArgvReadBack(subcommand, path, opts);
    assert opts[0] == a && opts[1] == b && opts[2] == c;
    ArgvReadBackAbsent(subcommand, path, opts, x);
    ArgvReadBackAbsent(subcommand, path, opts, y);
  }

  lemma ReadBackFour(subcommand: string, path: string, a: Opt, b: Opt, c: Opt, d: Opt, x: string)
    requires a.0 != b.0 && a.0 != c.0 && a.0 != d.0 && b.0 != c.0 && b.0 != d.0 && c.0 != d.0
    requires x != a.0 && x != b.0 && x != c.0 && x != d.0
    ensures var argv := Argv(subcommand, path, [a, b, c, d]);
      && |argv| >= 2 && argv[0] == subcommand && argv[1] == path
      && OptionValue(argv, a.0) == a.1 && OptionValue(argv, b.0) == b.1
      && OptionValue(argv, c.0) == c.1 && OptionValue(argv, d.0) == d.1
      && OptionValue(argv, x) == None
  {
    var opts := [a, b, c, d];
    DistinctFour(a, b, c, d);
    ArgvReadBack(subcommand, path, opts);
    assert opts[0] == a && opts[1] == b && opts[2] == c && opts[3] == d;
    ArgvReadBackAbsent(subcommand, path, opts, x);
  }

  lemma FlattenCons(o: Opt, rest: seq<Opt>)
    ensures Flatten([o] + rest) == OptArg(o) + Flatten(rest)
  {
    assert ([o] + rest)[1..] == rest;
  }

  /** The words of one to five options, option by option. */
  lemma FlattenOne(a: Opt)
    ensures Flatten([a]) == OptArg(a)
  {
    assert [a] == [a] + [];
    FlattenCons(a, []);
  }

  lemma FlattenTwo(a: Opt, b: Opt)
    ensures Flatten([a, b]) == OptArg(a) + OptArg(b)
  {
    assert [a, b] == [a] + [b];
    FlattenCons(a, [b]);
    FlattenOne(b);
  }

  lemma FlattenThree(a: Opt, b: Opt, c: Opt)
    ensures Flatten([a, b, c]) == OptArg(a) + OptArg(b) + OptArg(c)
  {
    assert [a, b, c] == [a] + [b, c];
    FlattenCons(a, [b, c]);
    FlattenTwo(b, c);
  }

  lemma FlattenFour(a: Opt, b: Opt, c: Opt, d: Opt)
    ensures Flatten([a, b, c, d]) == OptArg(a) + OptArg(b) + OptArg(c) + OptArg(d)
  {
    assert [a, b, c, d] == [a] + [b, c, d];
    FlattenCons(a, [b, c, d]);
    FlattenThree(b, c, d);
  }

  lemma FlattenFive(a: Opt, b: Opt, c: Opt, d: Opt, e: Opt)
    ensures Flatten([a, b, c, d, e]) == OptArg(a) + OptArg(b) + OptArg(c) + OptArg(d) + OptArg(e)
  {
    assert [a, b, c, d, e] == [a] + [b, c, d, e];
    FlattenCons(a, [b, c, d, e]);
    FlattenFour(b, c, d, e);
  }

  /** How the CLI reads an argument vector: a subcommand, a path, then `--flag value` pairs. */
  function OptionValue(argv: seq<string>, flag: string): Option<string> {
    if |argv| < 2 then None else PairValue(argv[2..], flag)
  }

  function PairValue(rest: seq<string>, flag: string): Option<string>
    decreases |rest|
  {
    if |rest| < 2 then None
    else if rest[0] == flag then Some(rest[1])
    else PairValue(rest[2..], flag)
  }

  /** The value a list of options gives `flag`: that of its first occurrence. */
  function Lookup(opts: seq<Opt>, flag: string): Option<string> {
    if opts == [] then None
    else if opts[0].0 == flag then opts[0].1
    else Lookup(opts[1..], flag)
  }

  predicate DistinctFlags(opts: seq<Opt>) {
    forall i, j :: 0 <= i < j < |opts| ==> opts[i].0 != opts[j].0
  }

  /**
   * Reading back: when no flag is given twice, the CLI sees the subcommand and
   * the path first and each flag with exactly the value the builder gave it.
   */
  lemma ArgvReadBack(subcommand: string, path: string, opts: seq<Opt>)
    requires DistinctFlags(opts)
    ensures var argv := Argv(subcommand, path, opts);
      && |argv| >= 2 && argv[0] == subcommand && argv[1] == path
      && (forall i :: 0 <= i < |opts| ==> OptionValue(argv, opts[i].0) == opts[i].1)
  {
    var argv := Argv(subcommand, path, opts);
    assert argv[2..] == Flatten(opts);
    forall i | 0 <= i < |opts| ensures OptionValue(argv, opts[i].0) == opts[i].1 {
      FlattenReadBack(opts, opts[i].0);
      LookupAt(opts, i);
    }
  }

  /** A flag the builder did not list is not seen at all. */
  lemma ArgvReadBackAbsent(subcommand: string, path: string, opts: seq<Opt>, flag: string)
    requires DistinctFlags(opts)
    requires forall i :: 0 <= i < |opts| ==> opts[i].0 != flag
    ensures OptionValue(Argv(subcommand, path, opts), flag) == None
  {
    assert Argv(subcommand, path, opts)[2..] == Flatten(opts);
    FlattenReadBack(opts, flag);
    LookupAbsent(opts, flag);
  }

  lemma {:induction false} DistinctTail(opts: seq<Opt>)
    requires opts != [] && DistinctFlags(opts)
    ensures DistinctFlags(opts[1..])
    ensures forall i :: 0 <= i < |opts[1..]| ==> opts[1..][i].0 != opts[0].0
  {
    var rest := opts[1..];
    forall i, j | 0 <= i < j < |rest| ensures rest[i].0 != rest[j].0 {
      assert rest[i] == opts[i + 1] && rest[j] == opts[j + 1];
    }
    forall i | 0 <= i < |rest| ensures rest[i].0 != opts[0].0 {
      assert rest[i] == opts[i + 1];
    }
  }

  lemma {:induction false} FlattenReadBack(opts: seq<Opt>, flag: string)
    requires DistinctFlags(opts)
    ensures PairValue(Flatten(opts), flag) == Lookup(opts, flag)
  {
    if opts != [] {
      var rest := opts[1..];
      DistinctTail(opts);
      FlattenReadBack(rest, flag);
      var f := Flatten(opts);
      if opts[0].1.Some? {
        assert f[2..] == Flatten(rest);
      } else {
        assert f == Flatten(rest);
        if opts[0].0 == flag {
          LookupAbsent(rest, flag);
        }
      }
    }
  }

  lemma {:induction false} LookupAt(opts: seq<Opt>, i: int)
    requires DistinctFlags(opts) && 0 <= i < |opts|
    ensures Lookup(opts, opts[i].0) == opts[i].1
  {
    if i > 0 {
      DistinctTail(opts);
      LookupAt(opts[1..], i - 1);
    }
  }

  lemma {:induction false} LookupAbsent(opts: seq<Opt>, flag: string)
    requires forall i :: 0 <= i < |opts| ==> opts[i].0 != flag
    ensures Lookup(opts, flag) == None
  {
    if opts != [] {
      assert forall i :: 0 <= i < |opts[1..]| ==> opts[1..][i] == opts[i + 1];
      LookupAbsent(opts[1..], flag);
    }
  }

  // ----- paths, commands and results -----

  /** `_get_cartridge_path`: `os.path.join(working_dir, name)`; an absolute name replaces the directory. */
  function CartridgePath(name: string): string {
    if |name| > 0 && name[0] == '/' then name else WorkingDir + "/" + name
  }

  /** Distinct course names never share a cartridge directory. */
  lemma CartridgePathInjective(a: string, b: string)
    requires CartridgePath(a) == CartridgePath(b)
    ensures a == b
  {
    var prefix := WorkingDir + "/";
    if !(|a| > 0 && a[0] == '/') && !(|b| > 0 && b[0] == '/') {
      assert a == CartridgePath(a)[|prefix|..];
      assert b == CartridgePath(b)[|prefix|..];
    }
  }

  /** The full command line `_run_command` starts. */
  function CommandLine(args: seq<string>): seq<string> {
    [PythonBin, CliScript] + args
  }

  /**
   * `_run_command`: a zero exit gives the stripped standard output and no
   * error, any other exit gives no output and the stripped standard error.
   */
  function RunCommand(env: Env, args: seq<string>): (r: CommandResult)
    ensures r.success <==> env.cli(CommandLine(args)).exitCode == 0
    ensures r.success ==> r.error == "" && r.output == Strip(env.cli(CommandLine(args)).stdout)
    ensures !r.success ==> r.output == "" && r.error == Strip(env.cli(CommandLine(args)).stderr)
    ensures Stripped(r.output) && Stripped(r.error)
  {
    var p := env.cli(CommandLine(args));
    StripShape(p.stdout);
    StripShape(p.stderr);
    if p.exitCode == 0 then CommandResult(Strip(p.stdout), "", true)
    else CommandResult("", Strip(p.stderr), false)
  }

  /** Runs one argument vector and returns `(success, output if success else error)`. */
  function Invoke(env: Env, args: seq<string>): (r: Traced<Reply>)
    ensures r.commands == [args]
    ensures r.value.success <==> env.cli(CommandLine(args)).exitCode == 0
    ensures r.value.message == if r.value.success then Strip(env.cli(CommandLine(args)).stdout)
                               else Strip(env.cli(CommandLine(args)).stderr)
  {
    var res := RunCommand(env, args);
    Traced(Reply(res.success, if res.success then res.output else res.error), [args])
  }

  function NotFound(courseName: string): Reply {
    Reply(false, "Course '" + courseName + "' not found")
  }

  function Unsupported(contentType: string): Reply {
    Reply(false, "Unsupported content type: " + contentType)
  }

  /** The CLI subcommand suffix of each supported content type. */
  function Suffix(contentType: string): (r: Option<string>)
    ensures r.Some? <==> contentType in ContentTypes
  {
    if contentType == "WikiPage" then Some("wiki")
    else if contentType == "Assignment" then Some("assignment")
    else if contentType == "DiscussionTopic" then Some("discussion")
    else if contentType == "File" then Some("file")
    else if contentType == "Quiz" then Some("quiz")
    else None
  }

  /** Files are named by `--filename`, every other type by `--title`. */
  function TitleFlag(contentType: string): string {
    if contentType == "File" then "--filename" else "--title"
  }

  function StripIfTruthy(s: Option<string>): Option<string> {
    if s.Some? && Truthy(s.value) then Some(Strip(s.value)) else None
  }

  function ShowInt(n: Option<int>): Option<string> {
    if n.Some? then Some(IntToString(n.value)) else None
  }

  // ----- courses -----

  function AddCourseOpts(courseName: string, title: Option<string>, code: Option<string>): seq<Opt> {
    [ ("--title", Some(if title.Some? && Truthy(title.value) then Strip(title.value) else Strip(courseName))),
      ("--code", Some(if code.Some? && Truthy(code.value) then Strip(code.value) else Upper(Strip(courseName)))) ]
  }

  /** The `create` command: the given title and code when truthy, else ones made from the course name. */
  function AddCourseArgs(path: string, courseName: string, title: Option<string>, code: Option<string>): seq<string> {
    Argv("create", path, AddCourseOpts(courseName, title, code))
  }

  /** `add_course` builds its arguments step by step, as the source does. */
  method BuildAddCourseArgs(path: string, courseName: string, title: Option<string>, code: Option<string>)
    returns (args: seq<string>)
    ensures args == AddCourseArgs(path, courseName, title, code)
  {
    var opts := AddCourseOpts(courseName, title, code);
    args := ["create", path];
    if title.Some? && Truthy(title.value) {
      args := args + ["--title", Strip(title.value)];
    } else {
      args := args + ["--title", Strip(courseName)];
    }
    assert args == ["create", path] + OptArg(opts[0]);
    ghost var afterTitle := args;
    if code.Some? && Truthy(code.value) {
      args := args + ["--code", Strip(code.value)];
    } else {
      args := args + ["--code", Upper(Strip(courseName))];
    }
    assert args == afterTitle + OptArg(opts[1]);
    FlattenTwo(opts[0], opts[1]);
    AppendAssoc(["create", path], OptArg(opts[0]), OptArg(opts[1]));
  }

  /** `add_course`: `None` and no command when the course exists, else the `create` command's reply. */
  function AddCourse(env: Env, courseName: string, title: Option<string>, code: Option<string>): Traced<Option<Reply>> {
    var path := CartridgePath(courseName);
    if path in env.existing then Traced(None, [])
    else
      var r := Invoke(env, AddCourseArgs(path, courseName, title, code));
      Traced(Some(r.value), r.commands)
  }

  /** `add_course` runs nothing exactly when the course exists, and otherwise one `create` with the chosen title and code. */
  lemma AddCourseFlags(env: Env, courseName: string, title: Option<string>, code: Option<string>)
    ensures AddCourse(env, courseName, title, code).value.None? <==> CartridgePath(courseName) in env.existing
    ensures CartridgePath(courseName) in env.existing ==> AddCourse(env, courseName, title, code).commands == []
    ensures CartridgePath(courseName) !in env.existing ==>
      var cmds := AddCourse(env, courseName, title, code).commands;
      && |cmds| == 1 && cmds[0][..2] == ["create", CartridgePath(courseName)]
      && OptionValue(cmds[0], "--title") == Some(if title.Some? && title.value != "" then Strip(title.value) else Strip(courseName))
      && OptionValue(cmds[0], "--code") == Some(if code.Some? && code.value != "" then Strip(code.value) else Upper(Strip(courseName)))
  {
    var opts := AddCourseOpts(courseName, title, code);
    ArgvReadBack("create", CartridgePath(courseName), opts);
    assert opts[0].0 == "--title" && opts[1].0 == "--code";
  }

  // ----- modules -----

  /** `get_course_modules`: the modules of a successful, non-empty, parsable `list --json`, else none. */
  function GetCourseModules(env: Env, courseName: string): (r: Traced<seq<Module>>)
    ensures CartridgePath(courseName) !in env.existing ==> r == Traced([], [])
    ensures CartridgePath(courseName) in env.existing ==> r.commands == [["list", CartridgePath(courseName), "--json"]]
    ensures CartridgePath(courseName) in env.existing ==>
      var res := RunCommand(env, ["list", CartridgePath(courseName), "--json"]);
      && (res.success && res.output != "" && env.parseCourse(res.output).Some? ==> r.value == env.parseCourse(res.output).value.modules)
      && (!(res.success && res.output != "") || env.parseCourse(res.output).None? ==> r.value == [])
  {
    var path := CartridgePath(courseName);
    if path !in env.existing then Traced([], [])
    else
      var args := ["list", path, "--json"];
      var res := RunCommand(env, args);
      if res.success && res.output != "" then
        match env.parseCourse(res.output)
        case Some(data) => Traced(data.modules, [args])
        case None => Traced([], [args])
      else Traced([], [args])
  }

  /** The items of the first module titled `moduleName`, or none when no module has that title. */
  function ModuleItems(modules: seq<Module>, moduleName: string): (r: seq<Item>)
    ensures (exists i :: 0 <= i < |modules| && modules[i].title == moduleName
               && (forall j :: 0 <= j < i ==> modules[j].title != moduleName) && r == modules[i].items)
         || ((forall i :: 0 <= i < |modules| ==> modules[i].title != moduleName) && r == [])
  {
    if modules == [] then []
    else if modules[0].title == moduleName then modules[0].items
    else
      var r := ModuleItems(modules[1..], moduleName);
      assert forall i :: 1 <= i < |modules| ==> modules[i] == modules[1..][i - 1];
      r
  }

  /** `get_module_items`: scans the modules in order and stops at the first title match. */
  method GetModuleItems(env: Env, courseName: string, moduleName: string)
    returns (items: seq<Item>, commands: seq<seq<string>>)
    ensures items == ModuleItems(GetCourseModules(env, courseName).value, moduleName)
    ensures commands == GetCourseModules(env, courseName).commands
  {
    var modules := GetCourseModules(env, courseName);
    commands := modules.commands;
    var i := 0;
    while i < |modules.value|
      invariant 0 <= i <= |modules.value|
      invariant ModuleItems(modules.value[i..], moduleName) == ModuleItems(modules.value, moduleName)
    {
      var m := modules.value[i];
      assert modules.value[i..][1..] == modules.value[i + 1..];
      if m.title == moduleName {
        return m.items, commands;
      }
      i := i + 1;
    }
    items := [];
  }

  function AddModuleOpts(moduleName: string, position: int): seq<Opt> {
    [("--title", Some(Strip(moduleName))), ("--position", Some(IntToString(position)))]
  }

  /** `add_module`: appends the module after the existing ones, at position count + 1. */
  function AddModule(env: Env, courseName: string, moduleName: string): Traced<Reply> {
    var path := CartridgePath(courseName);
    if path !in env.existing then Traced(NotFound(courseName), [])
    else
      var modules := GetCourseModules(env, courseName);
      var r := Invoke(env, Argv("add-module", path, AddModuleOpts(moduleName, |modules.value| + 1)));
      Traced(r.value, modules.commands + r.commands)
  }

  /** `add_module` lists the course first, then asks for the position after the last module. */
  lemma AddModulePosition(env: Env, courseName: string, moduleName: string)
    requires CartridgePath(courseName) in env.existing
    ensures var cmds := AddModule(env, courseName, moduleName).commands;
      && |cmds| == 2 && cmds[0] == ["list", CartridgePath(courseName), "--json"]
      && |cmds[1]| >= 2 && cmds[1][0] == "add-module" && cmds[1][1] == CartridgePath(courseName)
      && OptionValue(cmds[1], "--title") == Some(Strip(moduleName))
      && OptionValue(cmds[1], "--position") == Some(IntToString(|GetCourseModules(env, courseName).value| + 1))
  {
    var modules := GetCourseModules(env, courseName);
    var opts := AddModuleOpts(moduleName, |modules.value| + 1);
    var args := Argv("add-module", CartridgePath(courseName), opts);
    ArgvReadBack("add-module", CartridgePath(courseName), opts);
    assert opts[0].0 == "--title" && opts[1].0 == "--position";
    var cmds := AddModule(env, courseName, moduleName).commands;
    assert cmds == [["list", CartridgePath(courseName), "--json"]] + [args];
    assert cmds[1] == args;
  }

  function UpdateModuleOpts(currentTitle: string, newTitle: string, position: Option<int>): seq<Opt> {
    [("--title", Some(Strip(currentTitle))), ("--new-title", Some(Strip(newTitle))), ("--position", ShowInt(position))]
  }

  /** `update_module` builds its arguments step by step, as the source does. */
  method BuildUpdateModuleArgs(path: string, currentTitle: string, newTitle: string, position: Option<int>)
    returns (args: seq<string>)
    ensures args == Argv("update-module", path, UpdateModuleOpts(currentTitle, newTitle, position))
  {
    var opts := UpdateModuleOpts(currentTitle, newTitle, position);
    args := ["update-module", path, "--title", Strip(currentTitle), "--new-title", Strip(newTitle)];
    ghost var named := args;
    if position.Some? {
      args := args + ["--position", IntToString(position.value)];
    }
    assert args == named + OptArg(opts[2]);
    FlattenThree(opts[0], opts[1], opts[2]);
    assert named == ["update-module", path] + (OptArg(opts[0]) + OptArg(opts[1]));
    AppendAssoc(["update-module", path], OptArg(opts[0]) + OptArg(opts[1]), OptArg(opts[2]));
  }

  /** `update_module`: renames the module and moves it only when a position is given. */
  function UpdateModule(env: Env, courseName: string, currentTitle: string, newTitle: string, position: Option<int>): Traced<Reply> {
    var path := CartridgePath(courseName);
    if path !in env.existing then Traced(NotFound(courseName), [])
    else Invoke(env, Argv("update-module", path, UpdateModuleOpts(currentTitle, newTitle, position)))
  }

  /** `update_module` passes `--position` exactly when a position is given. */
  lemma UpdateModuleFlags(env: Env, courseName: string, currentTitle: string, newTitle: string, position: Option<int>)
    requires CartridgePath(courseName) in env.existing
    ensures var cmds := UpdateModule(env, courseName, currentTitle, newTitle, position).commands;
      && |cmds| == 1 && |cmds[0]| >= 2 && cmds[0][0] == "update-module" && cmds[0][1] == CartridgePath(courseName)
      && OptionValue(cmds[0], "--title") == Some(Strip(currentTitle))
      && OptionValue(cmds[0], "--new-title") == Some(Strip(newTitle))
      && (OptionValue(cmds[0], "--position").Some? <==> position.Some?)
      && (position.Some? ==> OptionValue(cmds[0], "--position") == Some(IntToString(position.value)))
  {
    var opts := UpdateModuleOpts(currentTitle, newTitle, position);
    ArgvReadBack("update-module", CartridgePath(courseName), opts);
    assert opts[0].0 == "--title" && opts[1].0 == "--new-title" && opts[2].0 == "--position";
  }

  /** `delete_module`. */
  function DeleteModule(env: Env, courseName: string, moduleName: string): Traced<Reply> {
    var path := CartridgePath(courseName);
    if path !in env.existing then Traced(NotFound(courseName), [])
    else Invoke(env, Argv("delete-module", path, [("--title", Some(Strip(moduleName)))]))
  }

  /** `delete_module` runs exactly `delete-module <path> --title <module>` and reports its exit. */
  lemma DeleteModuleCommand(env: Env, courseName: string, moduleName: string)
    requires CartridgePath(courseName) in env.existing
    ensures var r := DeleteModule(env, courseName, moduleName);
      && |r.commands| == 1 && r.commands[0] == ["delete-module", CartridgePath(courseName), "--title", Strip(moduleName)]
      && (r.value.success <==> env.cli(CommandLine(r.commands[0])).exitCode == 0)
  {
    FlattenOne(("--title", Some(Strip(moduleName))));
  }

  // ----- items -----

  /**
   * `add_module_item`'s per-type command: Discussion topics and quizzes carry a
   * description, the others a content; assignments and quizzes carry points.
   */
  function AddItemOpts(contentType: string, moduleName: string, itemTitle: string, f: ItemFields): seq<Opt> {
    var moduleOpt := ("--module", Some(Strip(moduleName)));
    var titleOpt := (TitleFlag(contentType), Some(Strip(itemTitle)));
    var text := TextDefault(contentType);
    if contentType == "WikiPage" || contentType == "File" then
      [moduleOpt, titleOpt, ("--content", Some(Strip(f.content.GetOr(text))))]
    else if contentType == "Assignment" then
      [moduleOpt, titleOpt, ("--content", Some(Strip(f.content.GetOr(text)))),
       ("--points", Some(IntToString(f.points.GetOr(10))))]
    else if contentType == "DiscussionTopic" then
      [moduleOpt, titleOpt, ("--description", Some(Strip(f.description.GetOr(text))))]
    else
      [moduleOpt, titleOpt, ("--description", Some(Strip(f.description.GetOr(text)))),
       ("--points", Some(IntToString(f.points.GetOr(10))))]
  }

  /** The content or description `add_module_item` passes when the caller gives none. */
  function TextDefault(contentType: string): string {
    if contentType == "WikiPage" then "placeholder content"
    else if contentType == "Assignment" then "Assignment description"
    else if contentType == "DiscussionTopic" then "Discussion topic description"
    else if contentType == "File" then "File content here"
    else "Quiz description"
  }

  function AddItemArgs(contentType: string, path: string, moduleName: string, itemTitle: string, f: ItemFields): Option<seq<string>> {
    match Suffix(contentType)
    case None => None
    case Some(suffix) => Some(Argv("add-" + suffix, path, AddItemOpts(contentType, moduleName, itemTitle, f)))
  }

  /**
   * Which flags `add_module_item` passes depends only on the content type;
   * each carries the stripped given value, and an absent field takes the
   * per-type default text or 10 points.
   */
  lemma AddItemFlags(contentType: string, path: string, moduleName: string, itemTitle: string, f: ItemFields)
    requires contentType in ContentTypes
    ensures var args := AddItemArgs(contentType, path, moduleName, itemTitle, f).value;
      && |args| >= 2 && args[0] == "add-" + Suffix(contentType).value && args[1] == path
      && OptionValue(args, "--module") == Some(Strip(moduleName))
      && OptionValue(args, TitleFlag(contentType)) == Some(Strip(itemTitle))
      && (OptionValue(args, "--description").Some? <==> contentType in {"DiscussionTopic", "Quiz"})
      && (OptionValue(args, "--content").Some? <==> contentType in {"WikiPage", "Assignment", "File"})
      && (OptionValue(args, "--points").Some? <==> contentType in {"Assignment", "Quiz"})
      && (contentType in {"WikiPage", "Assignment", "File"} ==>
            OptionValue(args, "--content") == Some(Strip(f.content.GetOr(TextDefault(contentType)))))
      && (contentType in {"DiscussionTopic", "Quiz"} ==>
            OptionValue(args, "--description") == Some(Strip(f.description.GetOr(TextDefault(contentType)))))
      && (contentType in {"Assignment", "Quiz"} ==> OptionValue(args, "--points") == Some(IntToString(f.points.GetOr(10))))
      && (contentType in {"Assignment", "Quiz"} && f.points.None? ==> OptionValue(args, "--points") == Some("10"))
  {
    var sub := "add-" + Suffix(contentType).value;
    var opts := AddItemOpts(contentType, moduleName, itemTitle, f);
    if contentType == "WikiPage" || contentType == "File" {
      ReadBackThree(sub, path, opts[0], opts[1], opts[2], "--description", "--points");
    } else if contentType == "Assignment" {
      ReadBackFour(sub, path, opts[0], opts[1], opts[2], opts[3], "--description");
      TenAsText();
    } else if contentType == "DiscussionTopic" {
      ReadBackThree(sub, path, opts[0], opts[1], opts[2], "--content", "--points");
    } else {
      ReadBackFour(sub, path, opts[0], opts[1], opts[2], opts[3], "--content");
      TenAsText();
    }
  }

  /** `add_module_item`. */
  function AddModuleItem(env: Env, courseName: string, moduleName: string, itemTitle: string, contentType: string, f: ItemFields): Traced<Reply> {
    var path := CartridgePath(courseName);
    if path !in env.existing then Traced(NotFound(courseName), [])
    else match AddItemArgs(contentType, path, moduleName, itemTitle, f)
      case None => Traced(Unsupported(contentType), [])
      case Some(args) => Invoke(env, args)
  }

  /** The per-type `delete-*`, `copy-*` and `display-*` commands: the item is named by title or file name. */
  function ItemArgs(verb: string, contentType: string, path: string, itemTitle: string, extra: seq<Opt>): Option<seq<string>> {
    match Suffix(contentType)
    case None => None
    case Some(suffix) => Some(Argv(verb + "-" + suffix, path, [(TitleFlag(contentType), Some(Strip(itemTitle)))] + extra))
  }

  /** With no extra option, the command is the verb, the path and the item's name flag. */
  lemma ItemArgsNamed(verb: string, contentType: string, path: string, itemTitle: string)
    requires contentType in ContentTypes
    ensures ItemArgs(verb, contentType, path, itemTitle, [])
         == Some([verb + "-" + Suffix(contentType).value, path, TitleFlag(contentType), Strip(itemTitle)])
  {
    var named := (TitleFlag(contentType), Some(Strip(itemTitle)));
    var sub := verb + "-" + Suffix(contentType).value;
    assert [named] + [] == [named];
    FlattenOne(named);
    assert Argv(sub, path, [named] + []) == [sub, path, TitleFlag(contentType), Strip(itemTitle)];
    assert ItemArgs(verb, contentType, path, itemTitle, []) == Some(Argv(sub, path, [named] + []));
  }

  /** `delete_module_item` (the module name is not passed to the CLI). */
  function DeleteModuleItem(env: Env, courseName: string, moduleName: string, itemTitle: string, contentType: string): Traced<Reply> {
    var path := CartridgePath(courseName);
    if path !in env.existing then Traced(NotFound(courseName), [])
    else match ItemArgs("delete", contentType, path, itemTitle, [])
      case None => Traced(Unsupported(contentType), [])
      case Some(args) => Invoke(env, args)
  }

  /** `copy_item`: the item goes to `targetModule`. */
  function CopyItem(env: Env, courseName: string, itemTitle: string, targetModule: string, contentType: string): Traced<Reply> {
    var path := CartridgePath(courseName);
    if path !in env.existing then Traced(NotFound(courseName), [])
    else match ItemArgs("copy", contentType, path, itemTitle, [("--target-module", Some(Strip(targetModule)))])
      case None => Traced(Unsupported(contentType), [])
      case Some(args) => Invoke(env, args)
  }

  /** For a supported type, delete and copy name the item by `--filename` exactly for files. */
  lemma ItemCommandFlags(verb: string, contentType: string, path: string, itemTitle: string, targetModule: string)
    requires contentType in ContentTypes
    ensures var args := ItemArgs(verb, contentType, path, itemTitle, [("--target-module", Some(Strip(targetModule)))]).value;
      && |args| >= 2 && args[0] == verb + "-" + Suffix(contentType).value && args[1] == path
      && OptionValue(args, "--filename") == (if contentType == "File" then Some(Strip(itemTitle)) else None)
      && OptionValue(args, "--title") == (if contentType == "File" then None else Some(Strip(itemTitle)))
      && OptionValue(args, "--target-module") == Some(Strip(targetModule))
  {
    var opts: seq<Opt> := [(TitleFlag(contentType), Some(Strip(itemTitle)))] + [("--target-module", Some(Strip(targetModule)))];
    assert opts[0].0 == TitleFlag(contentType) && opts[1].0 == "--target-module";
    ArgvReadBack(verb + "-" + Suffix(contentType).value, path, opts);
    if contentType == "File" {
      ArgvReadBackAbsent(verb + "-" + Suffix(contentType).value, path, opts, "--title");
    } else {
      ArgvReadBackAbsent(verb + "-" + Suffix(contentType).value, path, opts, "--filename");
    }
  }

  /**
   * `update_module_item`'s command, described uniformly: the old name, then the
   * rename flag (`--new-filename` for files, `--new-title` otherwise) and the
   * text flag (`--description` for quizzes, `--content` otherwise) when truthy,
   * then `--points` (assignments and quizzes) and `--position` when given.
   */
  function UpdateItemOpts(contentType: string, oldTitle: string, kw: ItemUpdate): seq<Opt> {
    [ (TitleFlag(contentType), Some(Strip(oldTitle))),
      if contentType == "File" then ("--new-filename", StripIfTruthy(kw.newFilename)) else ("--new-title", StripIfTruthy(kw.newTitle)),
      if contentType == "Quiz" then ("--description", StripIfTruthy(kw.description)) else ("--content", StripIfTruthy(kw.content)),
      ("--points", ShowInt(if contentType == "Assignment" || contentType == "Quiz" then kw.points else None)),
      ("--position", ShowInt(kw.position)) ]
  }

  function UpdateItemArgs(contentType: string, path: string, oldTitle: string, kw: ItemUpdate): Option<seq<string>> {
    match Suffix(contentType)
    case None => None
    case Some(suffix) => Some(Argv("update-" + suffix, path, UpdateItemOpts(contentType, oldTitle, kw)))
  }

  /** `update_module_item` builds its arguments with one `extend` per given field, as the source does. */
  method BuildUpdateItemArgs(contentType: string, path: string, oldTitle: string, kw: ItemUpdate)
    returns (args: Option<seq<string>>)
    ensures args == UpdateItemArgs(contentType, path, oldTitle, kw)
  {
    if Suffix(contentType).None? {
      return None;
    }
    var opts := UpdateItemOpts(contentType, oldTitle, kw);
    var sub := "update-" + Suffix(contentType).value;
    var a := [sub, path, TitleFlag(contentType), Strip(oldTitle)];
    assert a == [sub, path] + OptArg(opts[0]);
    ghost var a0 := a;
    var rename := if contentType == "File" then ("--new-filename", kw.newFilename) else ("--new-title", kw.newTitle);
    if rename.1.Some? && Truthy(rename.1.value) {
      a := a + [rename.0, Strip(rename.1.value)];
    }
    assert a == a0 + OptArg(opts[1]);
    ghost var a1 := a;
    var text := if contentType == "Quiz" then ("--description", kw.description) else ("--content", kw.content);
    if text.1.Some? && Truthy(text.1.value) {
      a := a + [text.0, Strip(text.1.value)];
    }
    assert a == a1 + OptArg(opts[2]);
    ghost var a2 := a;
    var points := if contentType == "Assignment" || contentType == "Quiz" then kw.points else None;
    if points.Some? {
      a := a + ["--points", IntToString(points.value)];
    }
    assert opts[3] == ("--points", ShowInt(points));
    NumberArg("--points", points);
    assert a == a2 + OptArg(opts[3]);
    ghost var a3 := a;
    assert opts[4] == ("--position", ShowInt(kw.position));
    NumberArg("--position", kw.position);
    if kw.position.Some? {
      a := a + ["--position", IntToString(kw.position.value)];
      assert a == a3 + OptArg(opts[4]);
    } else {
      assert a == a3 + OptArg(opts[4]);
    }
    assert a == [sub, path] + OptArg(opts[0]) + OptArg(opts[1]) + OptArg(opts[2]) + OptArg(opts[3]) + OptArg(opts[4]);
    ArgvOfFive(sub, path, opts[0], opts[1], opts[2], opts[3], opts[4]);
    assert opts == [opts[0], opts[1], opts[2], opts[3], opts[4]];
    assert a == Argv(sub, path, opts);
    args := Some(a);
  }

  /** The CLI sees each update flag exactly when the source passes it, with the stripped value. */
  lemma UpdateItemFlags(contentType: string, path: string, oldTitle: string, kw: ItemUpdate)
    requires contentType in ContentTypes
    ensures var args := UpdateItemArgs(contentType, path, oldTitle, kw).value;
      && |args| >= 2 && args[0] == "update-" + Suffix(contentType).value && args[1] == path
      && OptionValue(args, TitleFlag(contentType)) == Some(Strip(oldTitle))
      && OptionValue(args, "--new-title") == (if contentType == "File" then None else StripIfTruthy(kw.newTitle))
      && OptionValue(args, "--new-filename") == (if contentType == "File" then StripIfTruthy(kw.newFilename) else None)
      && OptionValue(args, "--content") == (if contentType == "Quiz" then None else StripIfTruthy(kw.content))
      && OptionValue(args, "--description") == (if contentType == "Quiz" then StripIfTruthy(kw.description) else None)
      && OptionValue(args, "--points") == (if contentType in {"Assignment", "Quiz"} then ShowInt(kw.points) else None)
      && OptionValue(args, "--position") == ShowInt(kw.position)
  {
    var opts := UpdateItemOpts(contentType, oldTitle, kw);
    var sub := "update-" + Suffix(contentType).value;
    var x := if contentType == "File" then "--new-title" else "--new-filename";
    var y := if contentType == "Quiz" then "--content" else "--description";
    ReadBackFive(sub, path, opts[0], opts[1], opts[2], opts[3], opts[4], x, y);
    assert opts == [opts[0], opts[1], opts[2], opts[3], opts[4]];
  }

  /** `update_module_item` (the module name is not passed to the CLI). */
  function UpdateModuleItem(env: Env, courseName: string, moduleName: string, oldTitle: string, contentType: string, kw: ItemUpdate): Traced<Reply> {
    var path := CartridgePath(courseName);
    if path !in env.existing then Traced(NotFound(courseName), [])
    else match UpdateItemArgs(contentType, path, oldTitle, kw)
      case None => Traced(Unsupported(contentType), [])
      case Some(args) => Invoke(env, args)
  }

  /**
   * Every mutating operation of an item or module answers "not found" and
   * runs nothing when the course directory is missing.
   */
  lemma MissingCourseRunsNothing(env: Env, courseName: string, moduleName: string, title: string, contentType: string,
                                 f: ItemFields, kw: ItemUpdate, position: Option<int>)
    requires CartridgePath(courseName) !in env.existing
    ensures AddModule(env, courseName, moduleName) == Traced(NotFound(courseName), [])
    ensures UpdateModule(env, courseName, moduleName, title, position) == Traced(NotFound(courseName), [])
    ensures DeleteModule(env, courseName, moduleName) == Traced(NotFound(courseName), [])
    ensures AddModuleItem(env, courseName, moduleName, title, contentType, f) == Traced(NotFound(courseName), [])
    ensures DeleteModuleItem(env, courseName, moduleName, title, contentType) == Traced(NotFound(courseName), [])
    ensures UpdateModuleItem(env, courseName, moduleName, title, contentType, kw) == Traced(NotFound(courseName), [])
    ensures CopyItem(env, courseName, title, moduleName, contentType) == Traced(NotFound(courseName), [])
  {
  }

  /** An unsupported content type is refused before any command runs. */
  lemma UnsupportedTypeRunsNothing(env: Env, courseName: string, moduleName: string, title: string, contentType: string,
                                   f: ItemFields, kw: ItemUpdate)
    requires CartridgePath(courseName) in env.existing && contentType !in ContentTypes
    ensures AddModuleItem(env, courseName, moduleName, title, contentType, f) == Traced(Unsupported(contentType), [])
    ensures DeleteModuleItem(env, courseName, moduleName, title, contentType) == Traced(Unsupported(contentType), [])
    ensures UpdateModuleItem(env, courseName, moduleName, title, contentType, kw) == Traced(Unsupported(contentType), [])
    ensures CopyItem(env, courseName, title, moduleName, contentType) == Traced(Unsupported(contentType), [])
  {
  }

  // ----- item details -----

  /** The content type of the first item titled `itemTitle`, or the empty string when there is none. */
  function InferType(items: seq<Item>, itemTitle: string): (r: string)
    ensures (exists i :: 0 <= i < |items| && items[i].title == itemTitle
               && (forall j :: 0 <= j < i ==> items[j].title != itemTitle) && r == items[i].contentType)
         || ((forall i :: 0 <= i < |items| ==> items[i].title != itemTitle) && r == "")
  {
    if items == [] then ""
    else if items[0].title == itemTitle then items[0].contentType
    else
      var r := InferType(items[1..], itemTitle);
      assert forall i :: 1 <= i < |items| ==> items[i] == items[1..][i - 1];
      r
  }

  /**
   * `get_item_details`: an empty result unless the content type is given or
   * found among the module's items, is supported, and the `display-*`
   * command's output parses; then the parsed record with its content type set.
   */
  function ItemDetails(env: Env, courseName: string, moduleName: string, itemTitle: string, contentType: string): (r: Traced<map<string, string>>)
    ensures r.value != map[] ==> "content_type" in r.value && r.value["content_type"] in ContentTypes
    ensures contentType != "" && r.value != map[] ==> r.value["content_type"] == contentType
    ensures CartridgePath(courseName) !in env.existing ==> r == Traced(map[], [])
    ensures CartridgePath(courseName) in env.existing ==>
      var listing := GetCourseModules(env, courseName);
      var ct := if contentType != "" then contentType else InferType(ModuleItems(listing.value, moduleName), itemTitle);
      var lookups := if contentType != "" then [] else listing.commands;
      && (ct !in ContentTypes ==> r == Traced(map[], lookups))
      && (ct in ContentTypes ==>
            var args := ["display-" + Suffix(ct).value, CartridgePath(courseName), TitleFlag(ct), Strip(itemTitle)];
            var res := RunCommand(env, args);
            && r.commands == lookups + [args]
            && (res.success && res.output != "" && env.parseDetails(res.output).Some? ==>
                  r.value == env.parseDetails(res.output).value["content_type" := ct])
            && (!(res.success && res.output != "") || env.parseDetails(res.output).None? ==> r.value == map[]))
  {
    var path := CartridgePath(courseName);
    if path !in env.existing then Traced(map[], [])
    else
      var known :=
        if contentType != "" then Traced(contentType, [])
        else
          var items := GetCourseModules(env, courseName);
          Traced(InferType(ModuleItems(items.value, moduleName), itemTitle), items.commands);
      DetailsFor(env, path, itemTitle, known)
  }

  /** The part of `get_item_details` after the content type is settled. */
  function DetailsFor(env: Env, path: string, itemTitle: string, known: Traced<string>): (r: Traced<map<string, string>>)
    ensures r.value != map[] ==> "content_type" in r.value && r.value["content_type"] == known.value && known.value in ContentTypes
    ensures known.value !in ContentTypes ==> r == Traced(map[], known.commands)
    ensures known.value in ContentTypes ==>
      var args := ["display-" + Suffix(known.value).value, path, TitleFlag(known.value), Strip(itemTitle)];
      var res := RunCommand(env, args);
      && r.commands == known.commands + [args]
      && (res.success && res.output != "" && env.parseDetails(res.output).Some? ==>
            r.value == env.parseDetails(res.output).value["content_type" := known.value])
      && (!(res.success && res.output != "") || env.parseDetails(res.output).None? ==> r.value == map[])
  {
    var ct := known.value;
    if ct == "" then Traced(map[], known.commands)
    else match ItemArgs("display", ct, path, itemTitle, [])
      case None => Traced(map[], known.commands)
      case Some(args) =>
        ItemArgsNamed("display", ct, path, itemTitle);
        assert "display" + "-" == "display-";
        var res := RunCommand(env, args);
        var commands := known.commands + [args];
        if res.success && res.output != "" then
          match env.parseDetails(res.output)
          case Some(data) => Traced(data["content_type" := ct], commands)
          case None => Traced(map[], commands)
        else Traced(map[], commands)
  }

  /** `get_item_details` as the source runs it: a `for` loop with `break` finds the missing content type. */
  method GetItemDetails(env: Env, courseName: string, moduleName: string, itemTitle: string, contentType: string)
    returns (details: map<string, string>, commands: seq<seq<string>>)
    ensures details == ItemDetails(env, courseName, moduleName, itemTitle, contentType).value
    ensures commands == ItemDetails(env, courseName, moduleName, itemTitle, contentType).commands
  {
    var path := CartridgePath(courseName);
    if path !in env.existing {
      return map[], [];
    }
    var ct := contentType;
    commands := [];
    if ct == "" {
      var items;
      items, commands := GetModuleItems(env, courseName, moduleName);
      var i := 0;
      while i < |items|
        invariant 0 <= i <= |items|
        invariant InferType(items[i..], itemTitle) == InferType(items, itemTitle)
      {
        assert items[i..][1..] == items[i + 1..];
        if items[i].title == itemTitle {
          ct := items[i].contentType;
          break;
        }
        i := i + 1;
      }
    }
    var r := DetailsFor(env, path, itemTitle, Traced(ct, commands));
    details, commands := r.value, r.commands;
  }

  // ----- the `courses` property -----

  function Listed(modules: seq<Module>): seq<ListedModule> {
    seq(|modules|, i requires 0 <= i < |modules| =>
      ListedModule(modules[i].title,
        seq(|modules[i].items|, j requires 0 <= j < |modules[i].items| =>
          ListedItem(modules[i].items[j].title, modules[i].items[j].contentType, "placeholder content"))))
  }

  /** One directory entry: listed when `list --json` succeeds with output, with no modules if that output does not parse. */
  function CourseEntry(env: Env, name: string): Traced<Option<ListedCourse>> {
    var path := CartridgePath(name);
    if path !in env.directories then Traced(None, [])
    else
      var args := ["list", path, "--json"];
      var res := RunCommand(env, args);
      if res.success && res.output != "" then
        match env.parseCourse(res.output)
        case Some(data) => Traced(Some(ListedCourse(name, Listed(data.modules))), [args])
        case None => Traced(Some(ListedCourse(name, [])), [args])
      else Traced(None, [args])
  }

  function CourseListing(env: Env, names: seq<string>): Traced<seq<ListedCourse>> {
    if names == [] then Traced([], [])
    else
      var init := CourseListing(env, names[..|names| - 1]);
      var last := CourseEntry(env, names[|names| - 1]);
      Traced(init.value + (if last.value.Some? then [last.value.value] else []), init.commands + last.commands)
  }

  /** The `courses` property: nothing when the working directory is missing, else the listed entries in order. */
  function AllCourses(env: Env): Traced<seq<ListedCourse>> {
    if WorkingDir !in env.existing then Traced([], []) else CourseListing(env, env.listing)
  }

  /** `list --json` on a course directory succeeded and printed something. */
  predicate Listable(env: Env, name: string) {
    var res := RunCommand(env, ["list", CartridgePath(name), "--json"]);
    CartridgePath(name) in env.directories && res.success && res.output != ""
  }

  /** The modules the `courses` property shows for a listable course: the parsed ones, or none when the output does not parse. */
  function ListedModulesOf(env: Env, name: string): seq<ListedModule> {
    var out := RunCommand(env, ["list", CartridgePath(name), "--json"]).output;
    if env.parseCourse(out).Some? then Listed(env.parseCourse(out).value.modules) else []
  }

  /**
   * The `courses` property lists exactly the directory entries whose `list`
   * command succeeded with output, each with its parsed modules (or none).
   */
  lemma ListedCoursesAreDirectories(env: Env, names: seq<string>)
    ensures forall c :: c in CourseListing(env, names).value ==>
      c.name in names && Listable(env, c.name) && c.modules == ListedModulesOf(env, c.name)
    ensures forall n :: n in names && Listable(env, n) ==>
      exists c :: c in CourseListing(env, names).value && c.name == n
  {
    ListedCoursesSound(env, names);
    ListedCoursesComplete(env, names);
  }

  lemma {:induction false} ListedCoursesSound(env: Env, names: seq<string>)
    ensures forall c :: c in CourseListing(env, names).value ==>
      c.name in names && Listable(env, c.name) && c.modules == ListedModulesOf(env, c.name)
  {
    if names != [] {
      ListedCoursesSound(env, names[..|names| - 1]);
    }
  }

  lemma {:induction false} ListedCoursesComplete(env: Env, names: seq<string>)
    ensures forall n :: n in names && Listable(env, n) ==>
      exists c :: c in CourseListing(env, names).value && c.name == n
  {
    if names != [] {
      var init, last := names[..|names| - 1], names[|names| - 1];
      ListedCoursesComplete(env, init);
      forall n | n in names && Listable(env, n)
        ensures exists c :: c in CourseListing(env, names).value && c.name == n
      {
        if n in init {
          var c :| c in CourseListing(env, init).value && c.name == n;
          assert c in CourseListing(env, names).value;
        } else {
          assert n == last;
          var e := CourseEntry(env, last).value;
          assert e.Some? && e.value.name == n;
          assert e.value in CourseListing(env, names).value;
        }
      }
    }
  }

  lemma ListingStep(env: Env, names: seq<string>, i: int)
    requires 0 <= i < |names|
    ensures var init := CourseListing(env, names[..i]);
      var last := CourseEntry(env, names[i]);
      CourseListing(env, names[..i + 1])
        == Traced(init.value + (if last.value.Some? then [last.value.value] else []), init.commands + last.commands)
  {
    var p := names[..i + 1];
    assert p[..|p| - 1] == names[..i];
    assert p[|p| - 1] == names[i];
  }

  /** The `courses` property as the source runs it: a loop over the directory listing. */
  method ListCourses(env: Env) returns (courses: seq<ListedCourse>, commands: seq<seq<string>>)
    ensures courses == AllCourses(env).value && commands == AllCourses(env).commands
  {
    if WorkingDir !in env.existing {
      return [], [];
    }
    courses, commands := [], [];
    var i := 0;
    while i < |env.listing|
      invariant 0 <= i <= |env.listing|
      invariant Traced(courses, commands) == CourseListing(env, env.listing[..i])
    {
      var entry := CourseEntry(env, env.listing[i]);
      ListingStep(env, env.listing, i);
      if entry.value.Some? {
        courses := courses + [entry.value.value];
      }
      commands := commands + entry.commands;
      assert courses == CourseListing(env, env.listing[..i + 1]).value;
      assert commands == CourseListing(env, env.listing[..i + 1]).commands;
      i := i + 1;
    }
    assert env.listing[..i] == env.listing;
  }
}
