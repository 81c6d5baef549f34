/** The command registry and executor (build.py, ConfigRead.run, the handlers `copy`, `move`,
    `mkdir`, `echo` and `build`, and the registry built in ConfigRead.__init__). Entries run
    in queue order; an unknown command name is reported at error level and skipped; a
    handler's error is unwrapped, which ends the process. */
module Executor {
  import opened Results
  import opened Paths
  import opened FileSystem

  /** The registered handlers, one variant per command. */
  datatype Command = CopyCommand | EchoCommand | MkdirCommand | MoveCommand | BuildCommand

  /** The registry as the constructor builds it. */
  const Registry: map<string, Command> :=
    map["copy" := CopyCommand, "echo" := EchoCommand, "mkdir" := MkdirCommand,
        "move" := MoveCommand, "build" := BuildCommand]

  /** A queue entry: `[name, args]`. */
  datatype Entry = Entry(name: string, args: seq<string>)

  /** A message of the leveled logger: an unknown command (level 'e') or the fatal message
      of an unwrapped error (level 'f'). */
  datatype Diagnostic = Unresolved(command: string) | Fatal(cause: Error)

  /** What the commands act on: the filesystem, the lines printed by `echo`, and the log. */
  datatype World = World(fs: FileSystem, stdout: seq<string>, log: seq<Diagnostic>)

  /** How a run ends: every entry processed, or the process exiting at entry `at`. */
  datatype RunOutcome = Completed | Exited(at: nat, status: int)

  // ---------------------------------------------------------------------------
  // `echo`: the space join and its inverse.

  /** `" ".join(words)`. */
  function JoinWords(words: seq<string>): string
    decreases |words|
  {
    if words == [] then ""
    else if |words| == 1 then words[0]
    else JoinWords(words[..|words| - 1]) + " " + words[|words| - 1]
  }

  /** `s.split(" ")`: the pieces between single spaces. */
  function SplitOnSpace(s: string): (parts: seq<string>)
    ensures |parts| >= 1
    decreases |s|
  {
    if s == [] then [""]
    else
      var parts := SplitOnSpace(s[..|s| - 1]);
      if s[|s| - 1] == ' ' then parts + [""]
      else parts[..|parts| - 1] + [parts[|parts| - 1] + [s[|s| - 1]]]
  }

  lemma {:induction false} SplitAfterSpace(head: string, word: string)
    requires ' ' !in word
    ensures SplitOnSpace(head + " " + word) == SplitOnSpace(head) + [word]
    decreases |word|
  {
    if word == [] {
      assert head + " " + word == head + " ";
      assert (head + " ")[..|head|] == head;
    } else {
      var init := word[..|word| - 1];
      assert (head + " " + word)[..|head + " " + word| - 1] == head + " " + init;
      SplitAfterSpace(head, init);
      assert init + [word[|word| - 1]] == word;
    }
  }

  lemma {:induction false} SplitPlainWord(word: string)
    requires ' ' !in word
    ensures SplitOnSpace(word) == [word]
    decreases |word|
  {
    if word != [] {
      var init := word[..|word| - 1];
      SplitPlainWord(init);
      assert init + [word[|word| - 1]] == word;
    }
  }

  /** Splitting an echoed line at its spaces gives back the words, when none of them
      holds a space. */
  lemma {:induction false} EchoRoundTrip(words: seq<string>)
    requires words != []
    requires forall k :: 0 <= k < |words| ==> ' ' !in words[k]
    ensures SplitOnSpace(JoinWords(words)) == words
    decreases |words|
  {
    if |words| == 1 {
      SplitPlainWord(words[0]);
    } else {
      var init, last := words[..|words| - 1], words[|words| - 1];
      assert forall k :: 0 <= k < |init| ==> init[k] == words[k];
      EchoRoundTrip(init);
      assert ' ' !in last;
      SplitAfterSpace(JoinWords(init), last);
      assert JoinWords(words) == JoinWords(init) + " " + last;
      assert init + [last] == words;
    }
  }

  // ---------------------------------------------------------------------------
  // One command, and the whole queue, as functions.

  /** What running handler `cmd` on `args` returns and leaves behind. */
  function Execute(cmd: Command, args: seq<string>, w: World): (r: (Result<()>, World))
    ensures r.1.log == w.log
    ensures cmd == EchoCommand || cmd == BuildCommand ==> r.0.Ok? && r.1.fs == w.fs
    ensures cmd != EchoCommand ==> r.1.stdout == w.stdout
    ensures cmd == EchoCommand ==> r.1.stdout == w.stdout + [JoinWords(args)]
  {
    match cmd
    case CopyCommand =>
      var (res, fs) := Transfer(w.fs, args, CopyMode); (res, w.(fs := fs))
    case MoveCommand =>
      var (res, fs) := Transfer(w.fs, args, MoveMode); (res, w.(fs := fs))
    case MkdirCommand =>
      var (res, fs) := MkdirAll(w.fs, args); (res, w.(fs := fs))
    case EchoCommand => (Ok(()), w.(stdout := w.stdout + [JoinWords(args)]))
    case BuildCommand => (Ok(()), w)
  }

  /** The run from queue index `i` on: an unknown name is logged and skipped; an error
      that a handler returns is unwrapped, logging it and exiting with status 2; the
      IndexError of copy or move on an empty argument list escapes uncaught (status 1). */
  function RunFrom(registry: map<string, Command>, queue: seq<Entry>, i: nat, w: World): (RunOutcome, World)
    decreases |queue| - i
  {
    if i >= |queue| then (Completed, w)
    else if queue[i].name !in registry then
      RunFrom(registry, queue, i + 1, w.(log := w.log + [Unresolved(queue[i].name)]))
    else
      var (res, next) := Execute(registry[queue[i].name], queue[i].args, w);
      match res
      case Ok(_) => RunFrom(registry, queue, i + 1, next)
      case Err(IndexOutOfRange) => (Exited(i, UncaughtStatus), next)
      case Err(_) =>
        var u := res.Unwrap();
        (Exited(i, u.status), next.(log := next.log + [Fatal(u.cause)]))
  }

  /** The names of the queue's entries from `i` on that the registry does not know, in order. */
  function UnknownFrom(registry: map<string, Command>, queue: seq<Entry>, i: nat): seq<Diagnostic>
    decreases |queue| - i
  {
    if i >= |queue| then []
    else (if queue[i].name in registry then [] else [Unresolved(queue[i].name)]) + UnknownFrom(registry, queue, i + 1)
  }

  // ---------------------------------------------------------------------------
  // Properties of a run.

  /** A run that ends by exiting stops at a registered entry whose handler failed on the
      world the run had reached, every entry before it having run to completion; the
      status is 1 for the uncaught index error, and otherwise 2 with the error logged as
      fatal; the entries after it have no effect. */
  lemma {:induction false} ExitStopsRun(registry: map<string, Command>, queue: seq<Entry>, i: nat, w: World, rest: seq<Entry>)
    requires RunFrom(registry, queue, i, w).0.Exited?
    ensures var k := RunFrom(registry, queue, i, w).0.at;
      i <= k < |queue| && queue[k].name in registry
      && RunFrom(registry, queue, i, w).0.status in {FatalStatus, UncaughtStatus}
      && RunFrom(registry, queue[..k + 1] + rest, i, w) == RunFrom(registry, queue, i, w)
    ensures var k := RunFrom(registry, queue, i, w).0.at;
      var mid := RunFrom(registry, queue[..k], i, w);
      mid.0.Completed? && Execute(registry[queue[k].name], queue[k].args, mid.1).0.Err?
    ensures var (out, last) := RunFrom(registry, queue, i, w);
      var (res, after) := Execute(registry[queue[out.at].name], queue[out.at].args, RunFrom(registry, queue[..out.at], i, w).1);
      (out.status == FatalStatus <==> res.error != IndexOutOfRange)
      && (res.error == IndexOutOfRange ==> last == after)
      && (res.error != IndexOutOfRange ==> last == after.(log := after.log + [Fatal(res.error)]))
    decreases |queue| - i
  {
    if i < |queue| {
      var next := w.(log := w.log + [Unresolved(queue[i].name)]);
      if queue[i].name !in registry {
        ExitStopsRun(registry, queue, i + 1, next, rest);
        var k := RunFrom(registry, queue, i, w).0.at;
        assert queue[..k][i] == queue[i];
      } else {
        var (res, after) := Execute(registry[queue[i].name], queue[i].args, w);
        if res.Ok? {
          ExitStopsRun(registry, queue, i + 1, after, rest);
          var k := RunFrom(registry, queue, i, w).0.at;
          assert queue[..k][i] == queue[i];
        } else {
          assert RunFrom(registry, queue[..i], i, w) == (Completed, w);
        }
      }
      var k := RunFrom(registry, queue, i, w).0.at;
      assert (queue[..k + 1] + rest)[i] == queue[i];
    }
  }

  /** Conversely, when every entry before `k` runs to completion and the handler of entry
      `k` fails on the world they leave, the run exits at `k`: with status 1 for the
      uncaught index error, and otherwise with status 2 and the error logged as fatal. */
  lemma HandlerErrorStops(registry: map<string, Command>, queue: seq<Entry>, k: nat, w: World)
    requires k < |queue| && queue[k].name in registry
    requires RunFrom(registry, queue[..k], 0, w).0.Completed?
    requires Execute(registry[queue[k].name], queue[k].args, RunFrom(registry, queue[..k], 0, w).1).0.Err?
    ensures var (res, after) := Execute(registry[queue[k].name], queue[k].args, RunFrom(registry, queue[..k], 0, w).1);
      RunFrom(registry, queue, 0, w)
      == if res.error == IndexOutOfRange then (Exited(k, UncaughtStatus), after)
         else (Exited(k, FatalStatus), after.(log := after.log + [Fatal(res.error)]))
  {
    RunInOrder(registry, queue[..k], queue[k..], 0, w);
    assert queue[..k] + queue[k..] == queue;
    assert queue[k..][0] == queue[k];
  }

  /** A run that completes has logged exactly the unknown names, in queue order. */
  lemma {:induction false} CompletedRun(registry: map<string, Command>, queue: seq<Entry>, i: nat, w: World)
    requires RunFrom(registry, queue, i, w).0.Completed?
    ensures RunFrom(registry, queue, i, w).1.log == w.log + UnknownFrom(registry, queue, i)
    decreases |queue| - i
  {
    if i < |queue| {
      if queue[i].name !in registry {
        var next := w.(log := w.log + [Unresolved(queue[i].name)]);
        assert RunFrom(registry, queue, i, w) == RunFrom(registry, queue, i + 1, next);
        CompletedRun(registry, queue, i + 1, next);
        assert UnknownFrom(registry, queue, i) == [Unresolved(queue[i].name)] + UnknownFrom(registry, queue, i + 1);
        assert next.log + UnknownFrom(registry, queue, i + 1) == w.log + UnknownFrom(registry, queue, i);
      } else {
        var r := Execute(registry[queue[i].name], queue[i].args, w);
        assert r.0.Ok? && RunFrom(registry, queue, i, w) == RunFrom(registry, queue, i + 1, r.1);
        CompletedRun(registry, queue, i + 1, r.1);
        assert UnknownFrom(registry, queue, i) == [] + UnknownFrom(registry, queue, i + 1);
        assert [] + UnknownFrom(registry, queue, i + 1) == UnknownFrom(registry, queue, i + 1);
      }
    } else {
      assert w.log + [] == w.log;
    }
  }

  /** Running `a + b` is running `a` and then, if it completed, `b` on what `a` left: the
      entries run strictly in queue order. */
  lemma {:induction false} RunInOrder(registry: map<string, Command>, a: seq<Entry>, b: seq<Entry>, i: nat, w: World)
    requires i <= |a|
    ensures RunFrom(registry, a + b, i, w)
         == match RunFrom(registry, a, i, w)
            case (Completed, mid) => ShiftExit(RunFrom(registry, b, 0, mid), |a|)
            case other => other
    decreases |a| - i
  {
    if i < |a| {
      assert (a + b)[i] == a[i];
      var next := w.(log := w.log + [Unresolved(a[i].name)]);
      if a[i].name !in registry {
        RunInOrder(registry, a, b, i + 1, next);
      } else {
        var (res, after) := Execute(registry[a[i].name], a[i].args, w);
        if res.Ok? {
          RunInOrder(registry, a, b, i + 1, after);
        }
      }
    } else {
      RunShift(registry, a, b, 0, w);
    }
  }

  /** A run's outcome with its exit index moved by `offset`. */
  function ShiftExit(r: (RunOutcome, World), offset: nat): (RunOutcome, World)
  {
    match r.0
    case Completed => r
    case Exited(at, status) => (Exited(at + offset, status), r.1)
  }

  lemma {:induction false} RunShift(registry: map<string, Command>, a: seq<Entry>, b: seq<Entry>, j: nat, w: World)
    requires j <= |b|
    ensures RunFrom(registry, a + b, |a| + j, w) == ShiftExit(RunFrom(registry, b, j, w), |a|)
    decreases |b| - j
  {
    if j < |b| {
      assert (a + b)[|a| + j] == b[j];
      var next := w.(log := w.log + [Unresolved(b[j].name)]);
      if b[j].name !in registry {
        RunShift(registry, a, b, j + 1, next);
      } else {
        var (res, after) := Execute(registry[b[j].name], b[j].args, w);
        if res.Ok? {
          RunShift(registry, a, b, j + 1, after);
        }
      }
    }
  }

  // ---------------------------------------------------------------------------
  // The interpreter object.

  class ConfigRead {
    var queue: seq<Entry>
    var world: World
    const commandRegistry: map<string, Command>

    /** The queue is given rather than parsed: the parser of the source is unfinished. */
    constructor (queue: seq<Entry>, world: World)
      ensures this.queue == queue && this.world == world && commandRegistry == Registry
    {
      this.queue := queue;
      this.world := world;
      commandRegistry := Registry;
    }

    method Build(pointer: nat) returns (r: Result<()>)
      ensures r == Ok(())
    {
      r := Ok(());
    }

    method Echo(pointer: nat) returns (r: Result<()>)
      requires pointer < |queue|
      modifies this`world
      ensures (r, world) == Execute(EchoCommand, queue[pointer].args, old(world))
    {
      world := world.(stdout := world.stdout + [JoinWords(queue[pointer].args)]);
      r := Ok(());
    }

    method Mkdir(pointer: nat) returns (r: Result<()>)
      requires pointer < |queue|
      modifies this`world
      ensures (r, world) == Execute(MkdirCommand, queue[pointer].args, old(world))
    {
      var data := queue[pointer].args;
      var i := 0;
      while i < |data|
        invariant 0 <= i <= |data|
        invariant world.stdout == old(world).stdout && world.log == old(world).log
        invariant MkdirAll(world.fs, data[i..]) == MkdirAll(old(world).fs, data)
      {
        match MakeDirs(world.fs, data[i]) {
          case Err(e) =>
            return Err(e);
          case Ok(next) =>
            assert data[i..][1..] == data[i + 1..];
            world := world.(fs := next);
        }
        i := i + 1;
      }
      r := Ok(());
    }

    method Copy(pointer: nat) returns (r: Result<()>)
      requires pointer < |queue|
      modifies this`world
      ensures (r, world) == Execute(CopyCommand, queue[pointer].args, old(world))
    {
      r := TransferEntry(pointer, CopyMode);
    }

    method Move(pointer: nat) returns (r: Result<()>)
      requires pointer < |queue|
      modifies this`world
      ensures (r, world) == Execute(MoveCommand, queue[pointer].args, old(world))
    {
      r := TransferEntry(pointer, MoveMode);
    }

    /** The body shared by `copy` and `move`: split off the destination, check, then
      transfer the sources one by one, stopping at the first failure. */
    method TransferEntry(pointer: nat, mode: Mode) returns (r: Result<()>)
      requires pointer < |queue|
      modifies this`world
      ensures (r, world.fs) == Transfer(old(world).fs, queue[pointer].args, mode)
      ensures world.stdout == old(world).stdout && world.log == old(world).log
    {
      var data := queue[pointer].args;
      if |data| == 0 {
        return Err(IndexOutOfRange);
      }
      var destination, sources := data[|data| - 1], data[..|data| - 1];
      var check := FsIoCheck(world.fs, sources, destination);
      if check.IsErr() {
        return Err(check.error);
      }
      var i := 0;
      while i < |sources|
        invariant 0 <= i <= |sources|
        invariant world.stdout == old(world).stdout && world.log == old(world).log
        invariant TransferAll(world.fs, sources[i..], destination, mode) == Transfer(old(world).fs, data, mode)
      {
        TransferAllStep(world.fs, sources, i, destination, mode);
        match FsIoReal(world.fs, sources[i], destination, mode) {
          case Err(e) =>
            return Err(e);
          case Ok(next) =>
            world := world.(fs := next);
        }
        i := i + 1;
      }
      r := Ok(());
    }

    /** Runs the queue: each entry's handler is looked up by name and its result unwrapped. */
    method Run() returns (outcome: RunOutcome)
      modifies this`world
      ensures (outcome, world) == RunFrom(commandRegistry, queue, 0, old(world))
    {
      if |queue| < 1 {
        return Completed;
      }
      var x := 0;
      while x < |queue|
        invariant 0 <= x <= |queue|
        invariant RunFrom(commandRegistry, queue, x, world) == RunFrom(commandRegistry, queue, 0, old(world))
      {
        var command := queue[x].name;
        if command !in commandRegistry {
          world := world.(log := world.log + [Unresolved(command)]);
        } else {
          var r: Result<()>;
          match commandRegistry[command] {
            case CopyCommand => r := Copy(x);
            case EchoCommand => r := Echo(x);
            case MkdirCommand => r := Mkdir(x);
            case MoveCommand => r := Move(x);
            case BuildCommand => r := Build(x);
          }
          if r.Err? {
            if r.error == IndexOutOfRange {
              return Exited(x, UncaughtStatus);
            }
            var u := r.Unwrap();
            world := world.(log := world.log + [Fatal(u.cause)]);
            return Exited(x, u.status);
          }
        }
        x := x + 1;
      }
      outcome := Completed;
    }
  }

  // ---------------------------------------------------------------------------
  // Scenarios.

  /** An unknown command does not halt the queue: it is logged and the next entry runs. */
  lemma UnknownCommandScenario(w: World)
    ensures RunFrom(Registry, [Entry("frobnicate", []), Entry("echo", ["ok"])], 0, w)
         == (Completed, w.(stdout := w.stdout + ["ok"], log := w.log + [Unresolved("frobnicate")]))
  {
    var q := [Entry("frobnicate", []), Entry("echo", ["ok"])];
    assert "frobnicate" !in Registry;
    assert Registry["echo"] == EchoCommand;
    var w1 := w.(log := w.log + [Unresolved("frobnicate")]);
    assert RunFrom(Registry, q, 0, w) == RunFrom(Registry, q, 1, w1);
    assert RunFrom(Registry, q, 1, w1) == RunFrom(Registry, q, 2, w1.(stdout := w1.stdout + [JoinWords(["ok"])]));
  }

  /** Two sources and a destination that is not a directory: the run exits with status 2 at
      that entry and the filesystem is untouched. */
  lemma CopyPreconditionScenario(w: World)
    requires "/dst" !in w.fs.dirs
    ensures RunFrom(Registry, [Entry("copy", ["/a", "/b", "/dst"])], 0, w)
         == (Exited(0, FatalStatus), w.(log := w.log + [Fatal(DestinationNotDir)]))
  {
    var args := ["/a", "/b", "/dst"];
    assert args[..2] == ["/a", "/b"] && args[2] == "/dst";
    assert Registry["copy"] == CopyCommand;
  }

  /** `mkdir /tmp/x` then `echo hello world`: the directory exists and the line is printed. */
  lemma MkdirEchoScenario(w: World)
    requires "/tmp/x" !in w.fs.files
    ensures RunFrom(Registry, [Entry("mkdir", ["/tmp/x"]), Entry("echo", ["hello", "world"])], 0, w)
         == (Completed, w.(fs := w.fs.(dirs := w.fs.dirs + {"/tmp/x"}), stdout := w.stdout + ["hello world"]))
  {
    var q := [Entry("mkdir", ["/tmp/x"]), Entry("echo", ["hello", "world"])];
    assert Registry["mkdir"] == MkdirCommand && Registry["echo"] == EchoCommand;
    var w1 := w.(fs := w.fs.(dirs := w.fs.dirs + {"/tmp/x"}));
    assert ["/tmp/x"][1..] == [];
    assert MkdirAll(w.fs, ["/tmp/x"]) == (Ok(()), w1.fs);
    assert RunFrom(Registry, q, 0, w) == RunFrom(Registry, q, 1, w1);
    assert JoinWords(["hello", "world"]) == "hello world" by {
      assert ["hello", "world"][..1] == ["hello"];
    }
  }
}
