/** src/Checkpointers.ts: the file-system checkpointer that records what each executable produced,
    so that a later run can skip it.

    The file system is a value: the files (path to contents) and the directories that exist.
    Only the operations the checkpointer uses are modelled: existsSync, mkdir with
    `recursive: true`, writeFile and readFile. */
module Checkpointers {

  import opened Outcomes
  import opened Paths
  import Json
  import opened Executables

  datatype FsState = FsState(files: map<string, string>, dirs: set<string>)

  /** No path is both a file and a directory. */
  predicate Consistent(fs: FsState)
  {
    fs.files.Keys !! fs.dirs
  }

  /** existsSync: true for files and directories alike. */
  predicate Exists(fs: FsState, p: string)
  {
    p in fs.files || p in fs.dirs
  }

  /** "" is the directory relative paths start from, and always exists. */
  predicate IsDir(fs: FsState, p: string)
  {
    p == "" || p in fs.dirs
  }

  /** writeFile succeeds when the path is not a directory and its parent is one. */
  predicate CanWrite(fs: FsState, p: string)
  {
    p != "" && p !in fs.dirs && IsDir(fs, Dirname(p))
  }

  /** fs.promises.writeFile: creates or replaces one file. */
  function WriteFile(fs: FsState, p: string, data: string): (r: Outcome<FsState>)
    ensures r.Ok? <==> CanWrite(fs, p)
    ensures r.Ok? ==> r.value.files == fs.files[p := data] && r.value.dirs == fs.dirs
    ensures r.Err? ==> r.error == WriteFailed(p)
    ensures r.Ok? && Consistent(fs) ==> Consistent(r.value)
  {
    if CanWrite(fs, p) then Ok(fs.(files := fs.files[p := data])) else Err(WriteFailed(p))
  }

  /** fs.promises.mkdir(p, {recursive: true}): creates p and its missing ancestors; fails when
      one of them is a file. */
  function MakeDirs(fs: FsState, p: string): (r: Outcome<FsState>)
    ensures r.Ok? <==> p != "" && forall a :: a in Ancestors(p) ==> a !in fs.files
    ensures r.Ok? ==> r.value.files == fs.files && r.value.dirs == fs.dirs + Ancestors(p)
    ensures r.Err? ==> r.error == MkdirFailed(p)
    ensures r.Ok? && Consistent(fs) ==> Consistent(r.value)
  {
    if p != "" && forall a :: a in Ancestors(p) ==> a !in fs.files then
      Ok(fs.(dirs := fs.dirs + Ancestors(p)))
    else Err(MkdirFailed(p))
  }

  /** Where the record of an executable goes: <base>/<qualified name>. */
  function RecordPath(baseDir: string, name: string): string
  {
    Join(baseDir, name)
  }

  /** Where a text result itself goes: the record path with ".data" appended. */
  function DataPath(baseDir: string, name: string): string
  {
    RecordPath(baseDir, name) + ".data"
  }

  /** What init(id) does: the base directory becomes <base>/<id>, whether or not it can be
      created; it is created unless something already exists there. */
  function InitSpec(baseDir: string, fs: FsState, id: string): (r: (string, FsState, Outcome<()>))
    ensures r.0 == Join(baseDir, id)
    ensures r.1.files == fs.files && fs.dirs <= r.1.dirs
    ensures r.2.Ok? ==> IsDir(r.1, r.0) || r.0 in fs.files
    ensures Exists(fs, r.0) ==> r.1 == fs && r.2.Ok?
  {
    var b := Join(baseDir, id);
    if Exists(fs, b) then (b, fs, Ok(()))
    else
      match MakeDirs(fs, b)
      case Ok(fs') => (b, fs', Ok(()))
      case Err(e) => (b, fs, Err(e))
  }

  /** What saveCheckpoint does: a text result is written to the data file and the record lists that
      file; a list of paths is recorded as it is. Either way the record is a JSON list of strings
      and the list is what the call returns. */
  function SaveSpec(baseDir: string, fs: FsState, name: string, toSave: ExecutableResult): (r: (Outcome<seq<string>>, FsState))
    ensures r.1.dirs == fs.dirs
    ensures forall p :: p in fs.files ==> p in r.1.files
    ensures forall p :: p in r.1.files && p != RecordPath(baseDir, name) && p != DataPath(baseDir, name) ==>
      p in fs.files && r.1.files[p] == fs.files[p]
    ensures toSave.Urls? ==>
      (r.0.Ok? <==> CanWrite(fs, RecordPath(baseDir, name)))
      && (r.0.Ok? ==> r.0.value == toSave.paths && r.1.files == fs.files[RecordPath(baseDir, name) := Json.Encode(toSave.paths)])
      && (r.0.Err? ==> r.1 == fs)
    ensures toSave.Stdout? ==>
      (r.0.Ok? <==> CanWrite(fs, DataPath(baseDir, name)) && CanWrite(fs, RecordPath(baseDir, name)))
      && (r.0.Ok? ==>
            r.0.value == [DataPath(baseDir, name)] &&
            r.1.files == fs.files[DataPath(baseDir, name) := toSave.text][RecordPath(baseDir, name) := Json.Encode([DataPath(baseDir, name)])])
    ensures r.0.Err? && RecordPath(baseDir, name) in r.1.files ==>
      RecordPath(baseDir, name) in fs.files && r.1.files[RecordPath(baseDir, name)] == fs.files[RecordPath(baseDir, name)]
  {
    var checkpointPath := RecordPath(baseDir, name);
    match toSave
    case Stdout(text) =>
      var dataPath := checkpointPath + ".data";
      (match WriteFile(fs, dataPath, text)
       case Err(e) => (Err(e), fs)
       case Ok(fs1) =>
         (match WriteFile(fs1, checkpointPath, Json.Encode([dataPath]))
          case Err(e) => (Err(e), fs1)
          case Ok(fs2) => (Ok([dataPath]), fs2)))
    case Urls(paths) =>
      match WriteFile(fs, checkpointPath, Json.Encode(paths))
      case Err(e) => (Err(e), fs)
      case Ok(fs1) => (Ok(paths), fs1)
  }

  /** What readCheckpoint does: the record parsed back; a missing record or one that is not a
      JSON list of strings is an error. */
  function ReadSpec(baseDir: string, fs: FsState, name: string): (r: Outcome<seq<string>>)
    ensures RecordPath(baseDir, name) !in fs.files ==> r == Err(ReadFailed(RecordPath(baseDir, name)))
    ensures RecordPath(baseDir, name) in fs.files ==> (r.Ok? <==> Json.Decode(fs.files[RecordPath(baseDir, name)]).Some?)
    ensures RecordPath(baseDir, name) in fs.files && r.Err? ==> r == Err(Corrupt(RecordPath(baseDir, name)))
    ensures r.Ok? ==> Json.Decode(fs.files[RecordPath(baseDir, name)]) == Some(r.value)
  {
    var checkpointPath := RecordPath(baseDir, name);
    if checkpointPath !in fs.files then Err(ReadFailed(checkpointPath))
    else
      match Json.Decode(fs.files[checkpointPath])
      case None => Err(Corrupt(checkpointPath))
      case Some(xs) => Ok(xs)
  }

  /** What doCheckPointExists does: existsSync of the record path. A checkpoint that reads back
      exists, and one that does not exist cannot be read; one that exists may still fail to read
      (a directory there, or a record that does not parse). */
  function ExistsSpec(baseDir: string, fs: FsState, name: string): (r: bool)
    ensures ReadSpec(baseDir, fs, name).Ok? ==> r
    ensures !r ==> ReadSpec(baseDir, fs, name) == Err(ReadFailed(RecordPath(baseDir, name)))
  {
    Exists(fs, RecordPath(baseDir, name))
  }

  /** A saved checkpoint exists and reads back as exactly the list the save returned. */
  lemma SaveThenRead(baseDir: string, fs: FsState, name: string, toSave: ExecutableResult)
    requires SaveSpec(baseDir, fs, name, toSave).0.Ok?
    ensures var (r, fs') := SaveSpec(baseDir, fs, name, toSave);
      ExistsSpec(baseDir, fs', name) && ReadSpec(baseDir, fs', name) == Ok(r.value)
  {
    var (r, fs') := SaveSpec(baseDir, fs, name, toSave);
    Json.DecodeEncode(r.value);
    assert fs'.files[RecordPath(baseDir, name)] == Json.Encode(r.value);
  }

  /** A checkpoint that exists stays there, whatever is saved afterwards. */
  lemma SaveKeepsExisting(baseDir: string, fs: FsState, name: string, other: string, toSave: ExecutableResult)
    requires ExistsSpec(baseDir, fs, other)
    ensures ExistsSpec(baseDir, SaveSpec(baseDir, fs, name, toSave).1, other)
  {
  }

  /** Saving under one name leaves the record of any name whose record and data paths differ
      from it untouched. */
  lemma SaveLeavesOthers(baseDir: string, fs: FsState, name: string, other: string, toSave: ExecutableResult)
    requires RecordPath(baseDir, other) != RecordPath(baseDir, name)
    requires RecordPath(baseDir, other) != DataPath(baseDir, name)
    ensures ReadSpec(baseDir, SaveSpec(baseDir, fs, name, toSave).1, other) == ReadSpec(baseDir, fs, other)
  {
    var fs' := SaveSpec(baseDir, fs, name, toSave).1;
    var p := RecordPath(baseDir, other);
    assert p in fs'.files <==> p in fs.files;
  }

  /** The data file of a text result is the record path of the name with ".data" appended, so the
      two share one path. */
  lemma DataPathIsRecordPath(baseDir: string, name: string)
    requires name != ""
    ensures DataPath(baseDir, name) == RecordPath(baseDir, name + ".data")
  {
    if baseDir != "" && baseDir[|baseDir| - 1] == '/' {
      assert baseDir + name + ".data" == baseDir + (name + ".data");
    } else if baseDir != "" {
      assert baseDir + "/" + name + ".data" == baseDir + "/" + (name + ".data");
    }
  }

  /** After a successful init, an executable with a plain name can be checkpointed: its record
      and data file go straight into the directory init made or found. */
  lemma InitThenSave(baseDir: string, fs: FsState, id: string, name: string, toSave: ExecutableResult)
    requires name != "" && '/' !in name
    requires var b := Join(baseDir, id); b != "" && b[|b| - 1] != '/' && b !in fs.files
    requires RecordPath(Join(baseDir, id), name) !in fs.dirs && DataPath(Join(baseDir, id), name) !in fs.dirs
    requires InitSpec(baseDir, fs, id).2.Ok?
    ensures var (b, fs', _) := InitSpec(baseDir, fs, id);
      SaveSpec(b, fs', name, toSave).0.Ok?
  {
    var (b, fs', _) := InitSpec(baseDir, fs, id);
    var p, dp := RecordPath(b, name), DataPath(b, name);
    DirnameOfJoin(b, name);
    DataPathIsRecordPath(b, name);
    DirnameOfJoin(b, name + ".data");
    assert |p| > |b| && |dp| > |b|;
    assert forall a :: a in fs'.dirs ==> a in fs.dirs || |a| <= |b|;
  }

  /** Calling init twice nests the id: the second base directory is inside the first. */
  lemma InitTwiceNests(baseDir: string, fs: FsState, id: string)
    ensures var (b1, fs1, _) := InitSpec(baseDir, fs, id);
      InitSpec(b1, fs1, id).0 == Join(Join(baseDir, id), id)
  {
  }

  class FsCheckpointer {
    var baseDir: string
    /** The file system as the checkpointer sees it; nothing else writes to it. */
    var fs: FsState

    constructor (baseDir: string, fs: FsState)
      ensures this.baseDir == baseDir && this.fs == fs
    {
      this.baseDir := baseDir;
      this.fs := fs;
    }

    /** init. */
    method Init(id: string) returns (r: Outcome<()>)
      modifies this
      ensures (baseDir, fs, r) == InitSpec(old(baseDir), old(fs), id)
    {
      baseDir := Join(baseDir, id);
      if !Exists(fs, baseDir) {
        var made := MakeDirs(fs, baseDir);
        if made.Err? {
          return Err(made.error);
        }
        fs := made.value;
      }
      r := Ok(());
    }

    /** readCheckpoint. */
    method ReadCheckpoint(name: string) returns (r: Outcome<seq<string>>)
      ensures r == ReadSpec(baseDir, fs, name)
    {
      var checkpointPath := Join(baseDir, name);
      if checkpointPath !in fs.files {
        return Err(ReadFailed(checkpointPath));
      }
      var parsed := Json.Decode(fs.files[checkpointPath]);
      if parsed.None? {
        return Err(Corrupt(checkpointPath));
      }
      r := Ok(parsed.value);
    }

    /** saveCheckpoint. */
    method SaveCheckpoint(name: string, toSave: ExecutableResult) returns (r: Outcome<seq<string>>)
      modifies this
      ensures baseDir == old(baseDir)
      ensures (r, fs) == SaveSpec(baseDir, old(fs), name, toSave)
    {
      var checkpointPath := Join(baseDir, name);
      match toSave
      case Stdout(text) =>
        var dataPath := checkpointPath + ".data";
        var wrote := WriteFile(fs, dataPath, text);
        if wrote.Err? {
          return Err(wrote.error);
        }
        fs := wrote.value;
        wrote := WriteFile(fs, checkpointPath, Json.Encode([dataPath]));
        if wrote.Err? {
          return Err(wrote.error);
        }
        fs := wrote.value;
        r := Ok([dataPath]);
      case Urls(paths) =>
        var wrote := WriteFile(fs, checkpointPath, Json.Encode(paths));
        if wrote.Err? {
          return Err(wrote.error);
        }
        fs := wrote.value;
        r := Ok(paths);
    }

    /** doCheckPointExists: a query that changes nothing. */
    function DoCheckPointExists(name: string): (b: bool)
      reads this
      ensures b == ExistsSpec(baseDir, fs, name)
    {
      Exists(fs, Join(baseDir, name))
    }
  }
}
