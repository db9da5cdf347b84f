/**
 * The watchman backend's translation of a watchman "files" response into
 * calls on a watcher's event list (`handleFiles` in src/watchman/watchman.cc).
 *
 * The event list itself (Event.hh) is not part of this model: it is an
 * append-only log of the `create`, `update` and `remove` calls made on it,
 * whatever it later does with them.
 */
module WatchmanFiles {
  import opened Wrappers
  import opened Sequences

  type Path = string

  /** The POSIX directory separator that joins the watch root and a record name. */
  const DirSep: string := "/"

  /** The message thrown when a response has no "files" key. */
  const FilesError: string := "Error reading changes from watchman"

  /** A 64-bit signed integer, as BSER's intValue returns it. */
  newtype int64 = x: int | -0x8000_0000_0000_0000 <= x < 0x8000_0000_0000_0000

  /** The file-type mask and the directory type of POSIX `st_mode`. */
  const S_IFMT: bv32 := 0xF000
  const S_IFDIR: bv32 := 0x4000

  /** One entry of a watchman "files" array, with the four fields the subscription asks for. */
  datatype FileRecord = FileRecord(name: string, mode: int64, isNew: bool, existsNow: bool)

  /** A watchman response object: its "files" array and its "subscription" name, each possibly absent. */
  datatype Message = Message(files: Option<seq<FileRecord>>, subscription: Option<string>)

  /** One call made on a watcher's event list. */
  datatype EventCall = Create(path: Path) | Update(path: Path) | Remove(path: Path)

  /** `S_ISDIR(mode)`: the mode, converted to the 32-bit `mode_t`, has the directory file type. */
  predicate IsDir(mode: int64) {
    var bits := (mode as int % 0x1_0000_0000) as bv32;
    bits & S_IFMT == S_IFDIR
  }

  /** The absolute path of a record: the watch root, the separator, then the record's name. */
  function RecordPath(dir: Path, name: string): (p: Path)
    ensures |p| == |dir| + |DirSep| + |name|
    ensures p[..|dir|] == dir && p[|dir| + |DirSep|..] == name
  {
    dir + DirSep + name
  }

  /**
   * The decision table of `handleFiles`: at most one event per record, at the
   * record's path. A record that is new and exists is a create, whatever its
   * mode; one that exists, is not new and is no directory is an update; one
   * that is neither new nor existing is a remove. A record that is new but no
   * longer exists, and a directory that existed before and still exists,
   * yield nothing.
   */
  function Classify(rec: FileRecord, path: Path): (e: Option<EventCall>)
    ensures e.Some? ==> e.value.path == path
    ensures e == Some(Create(path)) <==> rec.isNew && rec.existsNow
    ensures e == Some(Update(path)) <==> !rec.isNew && rec.existsNow && !IsDir(rec.mode)
    ensures e == Some(Remove(path)) <==> !rec.isNew && !rec.existsNow
    ensures e.None? <==> (rec.isNew && !rec.existsNow) || (!rec.isNew && rec.existsNow && IsDir(rec.mode))
  {
    if rec.isNew && rec.existsNow then Some(Create(path))
    else if rec.existsNow && !IsDir(rec.mode) then Some(Update(path))
    else if !rec.isNew && !rec.existsNow then Some(Remove(path))
    else None
  }

  /** The events one record contributes: none when its path is ignored, else its classification. */
  function RecordEvents(dir: Path, isIgnored: Path -> bool, rec: FileRecord): seq<EventCall>
  {
    var path := RecordPath(dir, rec.name);
    if isIgnored(path) then []
    else match Classify(rec, path)
      case None => []
      case Some(e) => [e]
  }

  /** `RecordEvents` for one watcher's root and ignore test, as a function of the record. */
  function RecordStep(dir: Path, isIgnored: Path -> bool): FileRecord -> seq<EventCall>
  {
    rec => RecordEvents(dir, isIgnored, rec)
  }

  /** The events a whole "files" array appends to the event list, record by record in array order. */
  function Translate(dir: Path, isIgnored: Path -> bool, files: seq<FileRecord>): seq<EventCall>
  {
    FlatMap(RecordStep(dir, isIgnored), files)
  }

  /** Translating two arrays one after the other is translating their concatenation: records are handled in input order. */
  lemma TranslateAppend(dir: Path, isIgnored: Path -> bool, a: seq<FileRecord>, b: seq<FileRecord>)
    ensures Translate(dir, isIgnored, a + b) == Translate(dir, isIgnored, a) + Translate(dir, isIgnored, b)
  {
    FlatMapAppend(RecordStep(dir, isIgnored), a, b);
  }

  /** At most one event is appended per record. */
  lemma TranslateAtMostOnePerRecord(dir: Path, isIgnored: Path -> bool, files: seq<FileRecord>)
    ensures |Translate(dir, isIgnored, files)| <= |files|
  {
    FlatMapAtMostOneEach(RecordStep(dir, isIgnored), files);
  }

  /**
   * Every appended event comes from some record of the array: it sits at that
   * record's path, the path is not ignored, and the event is the record's
   * classification.
   */
  lemma TranslateSound(dir: Path, isIgnored: Path -> bool, files: seq<FileRecord>, e: EventCall)
    requires e in Translate(dir, isIgnored, files)
    ensures exists k :: 0 <= k < |files| && e.path == RecordPath(dir, files[k].name)
                        && !isIgnored(e.path) && Classify(files[k], e.path) == Some(e)
  {
    FlatMapMember(RecordStep(dir, isIgnored), files, e);
    var k :| 0 <= k < |files| && e in RecordStep(dir, isIgnored)(files[k]);
    assert e in RecordEvents(dir, isIgnored, files[k]);
  }

  /** Every record that is not ignored and classifies to an event has that event in the translation. */
  lemma TranslateComplete(dir: Path, isIgnored: Path -> bool, files: seq<FileRecord>, k: nat)
    requires k < |files|
    requires !isIgnored(RecordPath(dir, files[k].name))
    requires Classify(files[k], RecordPath(dir, files[k].name)).Some?
    ensures Classify(files[k], RecordPath(dir, files[k].name)).value in Translate(dir, isIgnored, files)
  {
    var e := Classify(files[k], RecordPath(dir, files[k].name)).value;
    assert RecordStep(dir, isIgnored)(files[k]) == [e];
    FlatMapContains(RecordStep(dir, isIgnored), files, k, e);
  }

  /** An ignored record adds nothing, and handling goes on with the next record unaffected. */
  lemma IgnoredRecordSkipped(dir: Path, isIgnored: Path -> bool, before: seq<FileRecord>, rec: FileRecord, after: seq<FileRecord>)
    requires isIgnored(RecordPath(dir, rec.name))
    ensures Translate(dir, isIgnored, before + [rec] + after)
         == Translate(dir, isIgnored, before) + Translate(dir, isIgnored, after)
  {
    FlatMapAppend(RecordStep(dir, isIgnored), before + [rec], after);
    FlatMapSnoc(RecordStep(dir, isIgnored), before, rec);
    assert RecordStep(dir, isIgnored)(rec) == [];
  }

  /** The branches of the loop body of `handleFiles`, one record at a time. */
  lemma RecordEventsCases(dir: Path, isIgnored: Path -> bool, rec: FileRecord, path: Path)
    requires path == dir + DirSep + rec.name
    ensures isIgnored(path) ==> RecordStep(dir, isIgnored)(rec) == []
    ensures !isIgnored(path) && rec.isNew && rec.existsNow ==> RecordStep(dir, isIgnored)(rec) == [Create(path)]
    ensures !isIgnored(path) && !rec.isNew && rec.existsNow && !IsDir(rec.mode) ==> RecordStep(dir, isIgnored)(rec) == [Update(path)]
    ensures !isIgnored(path) && !rec.isNew && !rec.existsNow ==> RecordStep(dir, isIgnored)(rec) == [Remove(path)]
    ensures !isIgnored(path) && rec.isNew && !rec.existsNow ==> RecordStep(dir, isIgnored)(rec) == []
    ensures !isIgnored(path) && !rec.isNew && rec.existsNow && IsDir(rec.mode) ==> RecordStep(dir, isIgnored)(rec) == []
  {
  }

  /**
   * A watcher as the watchman backend sees it: its root directory, its ignore
   * rules, its ignore test, its address (from which the subscription name is
   * built) and the log of calls made on its event list. Watcher.hh is not part
   * of this model, so `isIgnored` is an uninterpreted function of the path.
   */
  class Watcher {
    const dir: Path
    const ignore: seq<Path>
    const isIgnored: Path -> bool
    const address: nat
    var events: seq<EventCall>
    /** How many times `notify` has been called, waking the subscriber. */
    var notifications: nat

    constructor (dir: Path, ignore: seq<Path>, isIgnored: Path -> bool, address: nat)
      ensures this.dir == dir && this.ignore == ignore && this.isIgnored == isIgnored && this.address == address
      ensures events == [] && notifications == 0
    {
      this.dir := dir;
      this.ignore := ignore;
      this.isIgnored := isIgnored;
      this.address := address;
      events := [];
      notifications := 0;
    }
  }

  /**
   * `handleFiles`: a response without "files" is an error and appends nothing;
   * otherwise each record is classified in turn and its event, if any, is
   * appended to the watcher's event list.
   */
  method HandleFiles(watcher: Watcher, msg: Message) returns (outcome: Outcome<string>)
    modifies watcher`events
    ensures msg.files.None? ==> outcome == Fail(FilesError) && watcher.events == old(watcher.events)
    ensures msg.files.Some? ==>
              && outcome == Pass
              && watcher.events == old(watcher.events) + Translate(watcher.dir, watcher.isIgnored, msg.files.value)
  {
    if msg.files.None? {
      return Fail(FilesError);
    }
    var files := msg.files.value;
    var dir, isIgnored := watcher.dir, watcher.isIgnored;
    var i := 0;
    while i < |files|
      invariant 0 <= i <= |files|
      invariant watcher.events == old(watcher.events) + Translate(dir, isIgnored, files[..i])
    {
      var rec := files[i];
      assert files[..i + 1] == files[..i] + [rec];
      FlatMapSnoc(RecordStep(dir, isIgnored), files[..i], rec);
      var path := dir + DirSep + rec.name;
      RecordEventsCases(dir, isIgnored, rec, path);
      if isIgnored(path) {
        i := i + 1;
        continue;
      }
      if rec.isNew && rec.existsNow {
        watcher.events := watcher.events + [Create(path)];
      } else if rec.existsNow && !IsDir(rec.mode) {
        watcher.events := watcher.events + [Update(path)];
      } else if !rec.isNew && !rec.existsNow {
        watcher.events := watcher.events + [Remove(path)];
      }
      i := i + 1;
    }
    assert files[..i] == files;
    outcome := Pass;
  }
}
