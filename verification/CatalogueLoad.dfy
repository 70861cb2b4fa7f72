/** Loading and refreshing `models.json` over releases, write permissions and write faults (src/model_catalogue.rs). */
module CatalogueLoad {
  import opened Text
  import opened Sequences
  import opened Catalogue

  /** The parsed file; `extra` holds the top-level keys nanopi does not know. */
  datatype CatalogueFile = CatalogueFile(
    generatedBy: string, comment: string, custom: seq<ModelInfo>, builtin: seq<ModelInfo>, extra: map<string, string>)

  datatype DiskFile = Absent | Unreadable | Malformed(text: string) | Parsed(cat: CatalogueFile)

  /** What one binary brings: its version, its note and its compiled table. */
  datatype Release = Release(version: string, comment: string, compiled: seq<ModelInfo>)

  /** Which writes the environment lets fail, and what a failed copy leaves where the backup was. */
  datatype Faults = Faults(copyFails: bool, writeFails: bool, torn: DiskFile)

  const NO_FAULTS: Faults := Faults(false, false, Absent)

  datatype Diagnostic =
    | CouldNotRead | CouldNotWrite | InvalidJson | CouldNotBackUp | CouldNotRefresh | Refreshed(kept: nat)

  function FreshFile(rel: Release, custom: seq<ModelInfo>, extra: map<string, string>): CatalogueFile {
    CatalogueFile(rel.version, rel.comment, custom, rel.compiled, extra)
  }

  /** The on-disk builtin block that counts: only one written by the same version. */
  function CurrentBuiltin(cat: CatalogueFile, version: string): seq<ModelInfo> {
    if cat.generatedBy == version then cat.builtin else []
  }

  /** The table a load yields: a matter of the file and the release alone. */
  function LoadedTable(file: DiskFile, rel: Release): Option<Table> {
    if file.Parsed? then Some(Merged(rel.compiled, CurrentBuiltin(file.cat, rel.version), file.cat.custom)) else None
  }

  /** The file after a load. */
  function FileAfter(file: DiskFile, rel: Release, allowWrite: bool, faults: Faults): DiskFile {
    if !allowWrite || faults.writeFails then file
    else if file.Absent? then Parsed(FreshFile(rel, [], map[]))
    else if file.Parsed? && file.cat.generatedBy != rel.version && !faults.copyFails then
      Parsed(FreshFile(rel, file.cat.custom, file.cat.extra))
    else file
  }

  predicate Refreshes(file: DiskFile, rel: Release, allowWrite: bool) {
    allowWrite && file.Parsed? && file.cat.generatedBy != rel.version
  }

  /** The backup after a load: the file before a refresh, or whatever a failed copy made of it. */
  function BackupAfter(
      file: DiskFile, backup: DiskFile, rel: Release, allowWrite: bool, faults: Faults): DiskFile
  {
    if !Refreshes(file, rel, allowWrite) then backup else if faults.copyFails then faults.torn else file
  }

  /** Everything that did not go as planned is said, and a refresh is announced. */
  function Complaints(file: DiskFile, rel: Release, allowWrite: bool, faults: Faults): seq<Diagnostic> {
    if file.Unreadable? then [CouldNotRead]
    else if file.Malformed? then [InvalidJson]
    else if file.Absent? then (if allowWrite && faults.writeFails then [CouldNotWrite] else [])
    else if !Refreshes(file, rel, allowWrite) then []
    else if faults.copyFails then [CouldNotBackUp]
    else if faults.writeFails then [CouldNotRefresh]
    else [Refreshed(|file.cat.custom|)]
  }

  /** A silent load leaves the file as this release writes it, unless writing was not allowed. */
  lemma SilenceMeansCurrent(file: DiskFile, rel: Release, faults: Faults)
    requires Complaints(file, rel, true, faults) == []
    ensures var after := FileAfter(file, rel, true, faults);
            after.Parsed? && after.cat.generatedBy == rel.version
  {
  }

  /** What is said tells what happened to file and backup, and every kind of mishap has its own word. */
  lemma ComplaintsTell(file: DiskFile, backup: DiskFile, rel: Release, allowWrite: bool, faults: Faults)
    ensures var said := Complaints(file, rel, allowWrite, faults);
            var after := FileAfter(file, rel, allowWrite, faults);
            var saved := BackupAfter(file, backup, rel, allowWrite, faults);
            && |said| <= 1
            && (said == [CouldNotRead] <==> file.Unreadable?) && (said == [InvalidJson] <==> file.Malformed?)
            && (said == [CouldNotWrite] <==> file.Absent? && allowWrite && after == file)
            && (forall n :: said == [Refreshed(n)] ==>
                  && file.Parsed? && file.cat.generatedBy != rel.version && saved == file && n == |file.cat.custom|
                  && after == Parsed(CatalogueFile(
                       rel.version, rel.comment, file.cat.custom, rel.compiled, file.cat.extra)))
            && (said == [CouldNotBackUp] ==> after == file && saved == faults.torn && faults.copyFails)
            && (said == [CouldNotRefresh] ==> after == file && saved == file && faults.writeFails)
            && (said == [] ==> saved == backup && (after == file || file.Absent?))
            && (file.Absent? && after != file ==>
                  after == Parsed(CatalogueFile(rel.version, rel.comment, [], rel.compiled, map[])))
            && (allowWrite && file.Parsed? && file.cat.generatedBy != rel.version ==> said != [])
  {
  }

  class Disk {
    var file: DiskFile
    var backup: DiskFile

    /** Write a temporary file and rename it over the target: all or nothing. */
    method WriteAtomic(cat: CatalogueFile, fails: bool) returns (ok: bool)
      modifies this`file
      ensures ok == !fails && file == if fails then old(file) else Parsed(cat)
    {
      if !fails { file := Parsed(cat); }
      ok := !fails;
    }

    method Load(rel: Release, allowWrite: bool, faults: Faults)
      returns (merged: Option<seq<ModelInfo>>, diags: seq<Diagnostic>)
      modifies this
      ensures file == FileAfter(old(file), rel, allowWrite, faults)
      ensures backup == BackupAfter(old(file), old(backup), rel, allowWrite, faults)
      ensures merged.Some? <==> LoadedTable(old(file), rel).Some?
      ensures merged.Some? ==> Lists(merged.value, LoadedTable(old(file), rel).value) && Sorted(merged.value, Le)
      ensures diags == Complaints(old(file), rel, allowWrite, faults)
    {
      merged, diags := None, [];
      match file
      case Unreadable =>
        diags := [CouldNotRead];
      case Absent =>
        if allowWrite {
          var ok := WriteAtomic(FreshFile(rel, [], map[]), faults.writeFails);
          if !ok { diags := [CouldNotWrite]; }
        }
      case Malformed(_) =>
        diags := [InvalidJson];
      case Parsed(parsed) =>
        if allowWrite && parsed.generatedBy != rel.version {
          if faults.copyFails {
            backup := faults.torn;
            diags := [CouldNotBackUp];
          } else {
            backup := file;
            var ok := WriteAtomic(FreshFile(rel, parsed.custom, parsed.extra), faults.writeFails);
            diags := if ok then [Refreshed(|parsed.custom|)] else [CouldNotRefresh];
          }
        }
        var list := MergeParts(rel.compiled, CurrentBuiltin(parsed, rel.version), parsed.custom);
        merged := Some(list);
    }
  }

  // ---------- runs ----------

  datatype Call = Call(rel: Release, allowWrite: bool, faults: Faults)

  function FileAfterAll(file: DiskFile, calls: seq<Call>): DiskFile {
    if calls == [] then file else
      var c := calls[|calls| - 1];
      FileAfter(FileAfterAll(file, calls[..|calls| - 1]), c.rel, c.allowWrite, c.faults)
  }

  /** Over any run, a file that cannot be read or parsed is never touched, and custom entries and unknown keys stay. */
  lemma {:induction false} NothingOfTheUsersIsLost(file: DiskFile, calls: seq<Call>)
    ensures file.Malformed? || file.Unreadable? ==> FileAfterAll(file, calls) == file
    ensures file.Parsed? ==>
              var after := FileAfterAll(file, calls);
              after.Parsed? && after.cat.custom == file.cat.custom && after.cat.extra == file.cat.extra
  {
    if calls != [] { NothingOfTheUsersIsLost(file, calls[..|calls| - 1]); }
  }

  function BackupAfterAll(file: DiskFile, backup: DiskFile, calls: seq<Call>): DiskFile {
    if calls == [] then backup else
      var init, c := calls[..|calls| - 1], calls[|calls| - 1];
      BackupAfter(FileAfterAll(file, init), BackupAfterAll(file, backup, init), c.rel, c.allowWrite, c.faults)
  }

  /** A load that could write leaves nothing to write, in file or backup, for any later loads of the same version. */
  lemma {:induction false} LaterLoadsWriteNothing(file: DiskFile, backup: DiskFile, rel: Release, calls: seq<Call>)
    requires forall i :: 0 <= i < |calls| ==> calls[i].rel == rel
    ensures var after := FileAfter(file, rel, true, NO_FAULTS);
            FileAfterAll(after, calls) == after && BackupAfterAll(after, backup, calls) == backup
  {
    if calls != [] { LaterLoadsWriteNothing(file, backup, rel, calls[..|calls| - 1]); }
  }

  /** A file that a load replaces is in the backup as it was. */
  lemma ReplacedIsBackedUp(file: DiskFile, backup: DiskFile, rel: Release, allowWrite: bool, faults: Faults)
    ensures var after := FileAfter(file, rel, allowWrite, faults);
            after != file && !file.Absent? ==> BackupAfter(file, backup, rel, allowWrite, faults) == file
  {
  }
}
