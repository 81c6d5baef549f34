/** The filesystem side of the copy, move and mkdir commands (build.py, ConfigRead._fs_io_check,
    ConfigRead._fs_io_real and the loops of `copy`, `move` and `mkdir`), over an abstract
    filesystem: the set of directory paths and the set of file paths. */
module FileSystem {
  import opened Paths
  import opened Results

  datatype FileSystem = FileSystem(dirs: set<Path>, files: set<Path>) {

    /** No path is both a directory and a file. */
    predicate Valid() { dirs !! files }

    /** `os.path.isdir`. */
    predicate IsDir(p: Path) { p in dirs }

    predicate Exists(p: Path) { p in dirs || p in files }
  }

  /** Which pair of handlers `_fs_io_real` receives: `copy` passes (copytree, copyfile),
      `move` passes (move, move). */
  datatype Mode = CopyMode | MoveMode

  // ---------------------------------------------------------------------------
  // The primitives, abstracted.

  /** `os.makedirs(p, exist_ok=True)`: an existing directory is no error; an existing file is. */
  function MakeDirs(fs: FileSystem, p: Path): (r: Result<FileSystem>)
    ensures r.Ok? <==> p !in fs.files
    ensures r.Ok? ==> r.value.dirs == fs.dirs + {p} && r.value.files == fs.files
    ensures fs.Valid() && r.Ok? ==> r.value.Valid()
  {
    if p in fs.files then Err(OsFailure(p)) else Ok(fs.(dirs := fs.dirs + {p}))
  }

  /** `shutil.copytree`, the copy handler for a directory source: it creates the target
      and refuses one that already exists. */
  function CopyTree(fs: FileSystem, src: Path, dst: Path): (r: Result<FileSystem>)
    ensures r.Ok? <==> !fs.Exists(dst)
    ensures fs.Valid() && r.Ok? ==> r.value.Valid()
  {
    if fs.Exists(dst) then Err(OsFailure(dst)) else Ok(fs.(dirs := fs.dirs + {dst}))
  }

  /** `shutil.copyfile`, the copy handler for any other source: the source must be an
      existing file, the target must not be the source itself nor a directory; an
      existing target file is overwritten. */
  function CopyFile(fs: FileSystem, src: Path, dst: Path): (r: Result<FileSystem>)
    ensures r.Ok? <==> src in fs.files && src != dst && dst !in fs.dirs
    ensures fs.Valid() && r.Ok? ==> r.value.Valid()
  {
    if src !in fs.files then Err(OsFailure(src))
    else if src == dst then Err(OsFailure(dst))
    else if dst in fs.dirs then Err(OsFailure(dst))
    else Ok(fs.(files := fs.files + {dst}))
  }

  /** Where `shutil.move(src, dst)` puts the source: inside `dst` under its own basename
      when `dst` is an existing directory other than `src`, at `dst` otherwise. */
  function MoveTarget(fs: FileSystem, src: Path, dst: Path): Path
  {
    if fs.IsDir(dst) && src != dst then Join(dst, Basename(src)) else dst
  }

  /** When `shutil.move(src, dst)` succeeds: a directory moved onto itself is renamed onto
      itself; otherwise the source must exist, a target inside a directory must not exist
      yet, and a directory cannot replace a file nor move into its own subtree. */
  predicate MoveAllowed(fs: FileSystem, src: Path, dst: Path)
  {
    (fs.IsDir(dst) && src == dst)
    || (fs.Exists(src)
        && !(fs.IsDir(dst) && fs.Exists(MoveTarget(fs, src, dst)))
        && (src in fs.dirs ==> !Within(dst, src) && MoveTarget(fs, src, dst) !in fs.files))
  }

  /** `shutil.move`, the move handler for every source: a rename to the move target. */
  function Move(fs: FileSystem, src: Path, dst: Path): (r: Result<FileSystem>)
    ensures r.Ok? <==> MoveAllowed(fs, src, dst)
    ensures fs.IsDir(dst) && src == dst ==> r == Ok(fs)
    ensures fs.Valid() && r.Ok? ==> r.value.Valid()
  {
    if fs.IsDir(dst) && src == dst then Ok(fs)
    else
      var target := MoveTarget(fs, src, dst);
      if fs.IsDir(dst) && fs.Exists(target) then Err(OsFailure(target))
      else if src in fs.dirs then
        if Within(dst, src) || target in fs.files then Err(OsFailure(target))
        else Ok(fs.(dirs := fs.dirs - {src} + {target}))
      else if src in fs.files then Ok(fs.(files := fs.files - {src} + {target}))
      else Err(OsFailure(src))
  }

  // ---------------------------------------------------------------------------
  // `_fs_io_check` and `_fs_io_real`.

  /** The precondition of copy and move: several sources need a directory destination,
      and there must be at least one source. */
  function FsIoCheck(fs: FileSystem, sources: seq<Path>, destination: Path): (r: Result<()>)
    ensures r.IsErr() <==> |sources| == 0 || (|sources| > 1 && !fs.IsDir(destination))
    ensures r.Err? && |sources| > 1 ==> r.error == DestinationNotDir
    ensures r.Err? && |sources| == 0 ==> r.error == DestinationNotSet
  {
    if !fs.IsDir(destination) && |sources| > 1 then Err(DestinationNotDir)
    else if |sources| < 1 then Err(DestinationNotSet)
    else Ok(())
  }

  /** Where one source goes: into the destination directory under its own basename, or to
      the destination path itself. */
  function EffectiveDestination(fs: FileSystem, src: Path, dst: Path): Path
  {
    if fs.IsDir(dst) then Join(dst, Basename(src)) else dst
  }

  /** Into a directory, a source keeps its basename and lands inside that directory;
      otherwise the destination is used as given. */
  lemma EffectiveDestinationKeepsName(fs: FileSystem, src: Path, dst: Path)
    ensures fs.IsDir(dst) ==> Basename(EffectiveDestination(fs, src, dst)) == Basename(src)
    ensures fs.IsDir(dst) ==> EffectiveDestination(fs, src, dst)[..|dst|] == dst
    ensures !fs.IsDir(dst) ==> EffectiveDestination(fs, src, dst) == dst
  {
    if fs.IsDir(dst) {
      JoinPlainName(dst, Basename(src));
    }
  }

  /** Where one source ends up: the effective destination when copying, and where
      `shutil.move` puts it when moving. */
  function Landing(fs: FileSystem, src: Path, dst: Path, mode: Mode): Path
  {
    var target := EffectiveDestination(fs, src, dst);
    match mode
    case CopyMode => target
    case MoveMode => MoveTarget(fs, src, target)
  }

  /** One source transferred: copying hands a directory source to `copytree` and any other
      source to `copyfile`; moving hands every source to `shutil.move`. The source then
      exists at its landing path, of its own kind; nothing else is added; copying removes
      nothing and moving removes nothing but the source. */
  function FsIoReal(fs: FileSystem, src: Path, dst: Path, mode: Mode): (r: Result<FileSystem>)
    ensures fs.Valid() && r.Ok? ==> r.value.Valid()
    ensures mode == CopyMode && fs.IsDir(src) ==>
      (r.Ok? <==> !fs.Exists(EffectiveDestination(fs, src, dst)))
    ensures mode == CopyMode && !fs.IsDir(src) ==>
      (r.Ok? <==> src in fs.files && src != EffectiveDestination(fs, src, dst)
                  && EffectiveDestination(fs, src, dst) !in fs.dirs)
    ensures mode == MoveMode ==> (r.Ok? <==> MoveAllowed(fs, src, EffectiveDestination(fs, src, dst)))
    ensures r.Ok? && fs.IsDir(src) ==> Landing(fs, src, dst, mode) in r.value.dirs
    ensures r.Ok? && !fs.IsDir(src) ==> Landing(fs, src, dst, mode) in r.value.files
    ensures r.Ok? ==> r.value.dirs <= fs.dirs + {Landing(fs, src, dst, mode)}
    ensures r.Ok? ==> r.value.files <= fs.files + {Landing(fs, src, dst, mode)}
    ensures r.Ok? && mode == CopyMode ==> fs.dirs <= r.value.dirs && fs.files <= r.value.files
    ensures r.Ok? && mode == MoveMode ==> fs.dirs - {src} <= r.value.dirs && fs.files - {src} <= r.value.files
    ensures fs.Valid() && r.Ok? && mode == MoveMode && src != Landing(fs, src, dst, mode) ==> !r.value.Exists(src)
  {
    var target := EffectiveDestination(fs, src, dst);
    match mode
    case CopyMode => if fs.IsDir(src) then CopyTree(fs, src, target) else CopyFile(fs, src, target)
    case MoveMode => Move(fs, src, target)
  }

  // ---------------------------------------------------------------------------
  // The handlers' loops, as functions.

  /** The sources transferred one after another; the first failure ends the loop and the
      transfers before it stay done. */
  function TransferAll(fs: FileSystem, sources: seq<Path>, dst: Path, mode: Mode): (Result<()>, FileSystem)
    decreases |sources|
  {
    if sources == [] then (Ok(()), fs)
    else match FsIoReal(fs, sources[0], dst, mode)
      case Err(e) => (Err(e), fs)
      case Ok(next) => TransferAll(next, sources[1..], dst, mode)
  }

  /** `copy` or `move` on its argument list: the last argument is the destination, the
      others are the sources; the check runs before any source is touched. */
  function Transfer(fs: FileSystem, args: seq<Path>, mode: Mode): (Result<()>, FileSystem)
  {
    if args == [] then (Err(IndexOutOfRange), fs)
    else
      var destination, sources := args[|args| - 1], args[..|args| - 1];
      var check := FsIoCheck(fs, sources, destination);
      if check.Err? then (Err(check.error), fs) else TransferAll(fs, sources, destination, mode)
  }

  /** `mkdir` on its argument list: every path created in order, up to the first failure. */
  function MkdirAll(fs: FileSystem, paths: seq<Path>): (Result<()>, FileSystem)
    decreases |paths|
  {
    if paths == [] then (Ok(()), fs)
    else match MakeDirs(fs, paths[0])
      case Err(e) => (Err(e), fs)
      case Ok(next) => MkdirAll(next, paths[1..])
  }

  /** One step of the transfer loop: the source at `i` is transferred, and on success the
      loop goes on from `i + 1`. */
  lemma TransferAllStep(fs: FileSystem, sources: seq<Path>, i: nat, dst: Path, mode: Mode)
    requires i < |sources|
    ensures FsIoReal(fs, sources[i], dst, mode).Err? ==>
      TransferAll(fs, sources[i..], dst, mode) == (Err(FsIoReal(fs, sources[i], dst, mode).error), fs)
    ensures FsIoReal(fs, sources[i], dst, mode).Ok? ==>
      TransferAll(fs, sources[i..], dst, mode) == TransferAll(FsIoReal(fs, sources[i], dst, mode).value, sources[i + 1..], dst, mode)
  {
    assert sources[i..][0] == sources[i];
    assert sources[i..][1..] == sources[i + 1..];
  }

  // ---------------------------------------------------------------------------
  // Properties.

  /** A rejected argument list changes nothing: no arguments, no sources, or several
      sources with a destination that is not a directory. */
  lemma TransferRejects(fs: FileSystem, args: seq<Path>, mode: Mode)
    requires args == [] || FsIoCheck(fs, args[..|args| - 1], args[|args| - 1]).IsErr()
    ensures Transfer(fs, args, mode).0.Err?
    ensures Transfer(fs, args, mode).1 == fs
  {
  }

  /** Transferring `a + b` is transferring `a` and then, if that succeeded, `b`: the
      sources are handled in order and the first failure stops the rest. */
  lemma {:induction false} TransferAllInOrder(fs: FileSystem, a: seq<Path>, b: seq<Path>, dst: Path, mode: Mode)
    ensures TransferAll(fs, a + b, dst, mode)
         == if TransferAll(fs, a, dst, mode).0.Ok? then TransferAll(TransferAll(fs, a, dst, mode).1, b, dst, mode)
            else TransferAll(fs, a, dst, mode)
    decreases |a|
  {
    if a == [] {
      assert a + b == b;
    } else {
      assert (a + b)[0] == a[0] && (a + b)[1..] == a[1..] + b;
      match FsIoReal(fs, a[0], dst, mode)
      case Err(e) =>
      case Ok(next) => TransferAllInOrder(next, a[1..], b, dst, mode);
    }
  }

  /** Every transfer keeps the filesystem valid, whether it succeeds or stops early. */
  lemma {:induction false} TransferAllValid(fs: FileSystem, sources: seq<Path>, dst: Path, mode: Mode)
    requires fs.Valid()
    ensures TransferAll(fs, sources, dst, mode).1.Valid()
    decreases |sources|
  {
    if sources != [] {
      match FsIoReal(fs, sources[0], dst, mode)
      case Err(e) =>
      case Ok(next) => TransferAllValid(next, sources[1..], dst, mode);
    }
  }

  /** One existing file copied to another path that is not a directory succeeds and leaves a file
      at exactly that path, changing nothing else. */
  lemma CopySingleFile(fs: FileSystem, src: Path, dst: Path)
    requires fs.Valid() && src in fs.files && dst !in fs.dirs && src != dst
    ensures Transfer(fs, [src, dst], CopyMode) == (Ok(()), fs.(files := fs.files + {dst}))
  {
    assert [src, dst][..1] == [src];
    assert [src][1..] == [];
    assert src !in fs.dirs;
    var next := fs.(files := fs.files + {dst});
    assert FsIoReal(fs, src, dst, CopyMode) == Ok(next);
    assert TransferAll(fs, [src], dst, CopyMode) == TransferAll(next, [], dst, CopyMode);
  }

  /** Moving a directory into a directory that already holds a directory of the same name
      moves it one level further in, as `shutil.move` does: `move a d` with `d/a` present
      leaves `a` at `d/a/a`. */
  lemma MoveIntoNestedDirectory()
    ensures Transfer(FileSystem({"a", "d", "d/a"}, {}), ["a", "d"], MoveMode)
         == (Ok(()), FileSystem({"d", "d/a", "d/a/a"}, {}))
  {
    var fs := FileSystem({"a", "d", "d/a"}, {});
    var moved := FileSystem({"d", "d/a", "d/a/a"}, {});
    assert ["a", "d"][..1] == ["a"] && ["a"][1..] == [];
    assert FsIoReal(fs, "a", "d", MoveMode) == Ok(moved) by {
      NestedTargets(fs);
      assert !Within("d/a", "a");
      assert fs.dirs - {"a"} + {"d/a/a"} == moved.dirs;
    }
    assert TransferAll(fs, ["a"], "d", MoveMode) == TransferAll(moved, [], "d", MoveMode);
  }

  lemma NestedTargets(fs: FileSystem)
    requires fs == FileSystem({"a", "d", "d/a"}, {})
    ensures EffectiveDestination(fs, "a", "d") == "d/a"
    ensures MoveTarget(fs, "a", "d/a") == "d/a/a"
  {
    PlainBasename();
    var b := Basename("a");
    assert Join("d", b) == "d/a";
    assert Join("d/a", b) == "d/a/a";
  }

  lemma PlainBasename()
    ensures Basename("a") == "a"
  {
    BasenameAfterSeparator([], "a");
    assert [] + "a" == "a";
  }

  /** Moving `d/a` into `d` names `d/a` itself as the target, which `shutil.move`
      renames onto itself: the move succeeds and changes nothing. */
  lemma MoveOntoItself()
    ensures Transfer(FileSystem({"d", "d/a"}, {}), ["d/a", "d"], MoveMode)
         == (Ok(()), FileSystem({"d", "d/a"}, {}))
  {
    var fs := FileSystem({"d", "d/a"}, {});
    assert ["d/a", "d"][..1] == ["d/a"] && ["d/a"][1..] == [];
    BasenameAfterSeparator("d/", "a");
    assert "d/" + "a" == "d/a";
    assert Join("d", "a") == "d/a";
    assert EffectiveDestination(fs, "d/a", "d") == "d/a";
    assert FsIoReal(fs, "d/a", "d", MoveMode) == Ok(fs);
    assert TransferAll(fs, ["d/a"], "d", MoveMode) == TransferAll(fs, [], "d", MoveMode);
  }

  /** `mkdir` succeeds exactly when none of its paths is an existing file, and then adds
      all of them as directories and nothing else. */
  lemma {:induction false} MkdirAllEffect(fs: FileSystem, paths: seq<Path>)
    ensures MkdirAll(fs, paths).0.Ok? <==> forall k :: 0 <= k < |paths| ==> paths[k] !in fs.files
    ensures MkdirAll(fs, paths).1.files == fs.files
    ensures MkdirAll(fs, paths).0.Ok? ==>
      MkdirAll(fs, paths).1.dirs == fs.dirs + set k | 0 <= k < |paths| :: paths[k]
    decreases |paths|
  {
    if paths != [] {
      var rest := paths[1..];
      match MakeDirs(fs, paths[0])
      case Err(e) =>
      case Ok(next) =>
        MkdirAllEffect(next, rest);
        assert forall k :: 0 <= k < |rest| ==> rest[k] == paths[k + 1];
        assert (set k | 0 <= k < |paths| :: paths[k]) == {paths[0]} + set k | 0 <= k < |rest| :: rest[k] by {
          forall k | 0 <= k < |paths| ensures paths[k] in {paths[0]} + set j | 0 <= j < |rest| :: rest[j] {
            if k > 0 { assert rest[k - 1] == paths[k]; }
          }
        }
    }
  }

  /** `mkdir` is idempotent: running it again on the same paths succeeds and changes nothing. */
  lemma MkdirIdempotent(fs: FileSystem, paths: seq<Path>)
    requires MkdirAll(fs, paths).0.Ok?
    ensures MkdirAll(MkdirAll(fs, paths).1, paths).0.Ok?
    ensures MkdirAll(MkdirAll(fs, paths).1, paths).1 == MkdirAll(fs, paths).1
  {
    var after := MkdirAll(fs, paths).1;
    MkdirAllEffect(fs, paths);
    MkdirAllEffect(after, paths);
    assert after.files == fs.files;
    assert MkdirAll(after, paths).0.Ok?;
    var again := MkdirAll(after, paths).1;
    assert again.dirs == after.dirs && again.files == after.files;
  }
}
