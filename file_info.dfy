/** The per-file state shown in the file list (`src/models/file_info.rs`). */
module FileInfoModel {
  newtype u8 = x: int | 0 <= x < 256

  /** `FileStatus`; `Pending` is its default. */
  datatype FileStatus = Pending | Processing(progress: u8) | Completed | Error(message: string)

  function DefaultStatus(): (s: FileStatus)
    ensures s.Pending?
  {
    Pending
  }

  /** `FileStatus::processing`: the progress is clamped to 100. */
  function ProcessingStatus(progress: u8): (s: FileStatus)
    ensures s.Processing? && s.progress <= 100
    ensures progress <= 100 ==> s.progress == progress
    ensures progress > 100 ==> s.progress == 100
  {
    Processing(if progress < 100 then progress else 100)
  }

  /** `FileStatus::completed`. */
  function CompletedStatus(): (s: FileStatus)
    ensures s.Completed?
  {
    Completed
  }

  /** `FileStatus::error`: carries the message unchanged. */
  function ErrorStatus(message: string): (s: FileStatus)
    ensures s.Error? && s.message == message
  {
    Error(message)
  }

  /** `is_error`. */
  predicate IsError(s: FileStatus) {
    s.Error?
  }

  /** Only the error constructor yields a status `is_error` accepts. */
  lemma IsErrorOfConstructors(p: u8, m: string)
    ensures IsError(ErrorStatus(m))
    ensures !IsError(DefaultStatus()) && !IsError(ProcessingStatus(p)) && !IsError(CompletedStatus())
  {
  }

  /**
   * A file in the list. `fileName` is the last component of the path, which
   * the caller supplies: path handling is not part of this model.
   */
  datatype FileInfo = FileInfo(
    filePath: string,
    fileName: string,
    columns: seq<string>,
    rowCount: nat,
    status: FileStatus,
    selected: bool)

  /** `FileInfo::from_path`: pending, selected, no rows and no columns yet. */
  function FromPath(path: string, fileName: string): (f: FileInfo)
    ensures f.filePath == path && f.fileName == fileName
    ensures f.status == Pending && f.selected && f.rowCount == 0 && f.columns == []
  {
    FileInfo(path, fileName, [], 0, Pending, true)
  }
}
