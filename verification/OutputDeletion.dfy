/**
 Which interrupted output may be deleted (`isDeletableOutput` in
 src/model/ServiceChildTerminationCleanup.ts). Paths are resolved: sequences of names from the root.
 */
module OutputDeletion {
  import opened Options
  import opened PathComponents
  import opened SubDirectory

  type Path = seq<string>

  datatype VideoFile = VideoFile(id: int, registeredPath: Option<Path>)

  /** What was read for the decision; `files` is None if reading failed. */
  datatype Reading = Reading(files: Option<seq<VideoFile>>, parentDirPath: Option<Path>, sameFile: (Path, Path) -> bool)

  ghost predicate IsRegistered(files: seq<VideoFile>, id: int) {
    exists i :: 0 <= i < |files| && files[i].id == id
  }

  /** The output is some registered file, by its path or as the same file under another path. */
  ghost predicate IsRecordedFile(files: seq<VideoFile>, n: nat, outputPath: Path, sameFile: (Path, Path) -> bool)
    requires n <= |files|
  {
    exists i :: 0 <= i < n && files[i].registeredPath.Some?
      && (files[i].registeredPath.value == outputPath || sameFile(files[i].registeredPath.value, outputPath))
  }

  method HasSource(files: seq<VideoFile>, id: int) returns (found: bool)
    ensures found <==> IsRegistered(files, id)
  {
    for i := 0 to |files|
      invariant forall j :: 0 <= j < i ==> files[j].id != id
    {
      if files[i].id == id { return true; }
    }
    return false;
  }

  /** The source is still registered, no registered file is the output, and it lies strictly under the parent directory. */
  ghost predicate Deletable(r: Reading, sourceVideoFileId: int, outputPath: Path) {
    && r.files.Some? && IsRegistered(r.files.value, sourceVideoFileId)
    && !IsRecordedFile(r.files.value, |r.files.value|, outputPath, r.sameFile)
    && r.parentDirPath.Some? && r.parentDirPath.value < outputPath && !(".." <= outputPath[|r.parentDirPath.value|])
  }

  method IsDeletableOutput(r: Reading, sourceVideoFileId: int, outputPath: Path) returns (deletable: bool)
    requires ProperNames(outputPath) && (r.parentDirPath.Some? ==> ProperNames(r.parentDirPath.value))
    ensures deletable <==> Deletable(r, sourceVideoFileId, outputPath)
  {
    var parentDirPath, sameFile := r.parentDirPath, r.sameFile;
    if r.files.None? { return false; }
    var videoFiles := r.files.value;
    var found := HasSource(videoFiles, sourceVideoFileId);
    if !found { return false; }
    for i := 0 to |videoFiles|
      invariant !IsRecordedFile(videoFiles, i, outputPath, sameFile)
    {
      var registeredPath := videoFiles[i].registeredPath;
      if registeredPath.None? { continue; }
      if registeredPath.value == outputPath || sameFile(registeredPath.value, outputPath) {
        assert IsRecordedFile(videoFiles, |videoFiles|, outputPath, sameFile);
        return false;
      }
    }
    if parentDirPath.None? { return false; }
    InsideParentExactly(parentDirPath.value, outputPath);
    return IsInsideParentDirectory(parentDirPath.value, outputPath);
  }
}
