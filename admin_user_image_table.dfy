/**
 * The admin's bulk upload of rating images for one user
 * (AdminUserImageTable.tsx): files are queued, uploaded one after another
 * with a per-file status, and the queue is cleared only when no upload
 * failed. Each upload's outcome is an input (`upload(i)` for the `i`-th
 * file); reading the file's bytes and the progress callbacks are not modelled.
 */
module AdminUserImageTable {
  import opened Backend
  import opened JsText

  /** A file picked in the browser, known here by its name only. */
  datatype ImageFile = ImageFile(name: string)

  datatype UploadStatus = Idle | Uploading | Success | Error

  /** `FileUploadState`: the file, its status, its progress in percent and the message of its last failure. */
  datatype FileUploadState = FileUploadState(file: ImageFile, status: UploadStatus, progress: nat, error: Option<string>)

  const UserNameMessage: string := "Please enter a user name"
  const NoFilesMessage: string := "Please select at least one image"

  /** The queue entries `handleFileSelect` makes for newly picked files: idle, at 0%, no error. */
  function NewFileStates(files: seq<ImageFile>): (states: seq<FileUploadState>)
    ensures |states| == |files|
    ensures forall i :: 0 <= i < |states| ==> states[i] == FileUploadState(files[i], Idle, 0, None)
  {
    if files == [] then [] else [FileUploadState(files[0], Idle, 0, None)] + NewFileStates(files[1..])
  }

  /** The entry after its upload settles: a success reaches 100%, a failure records its message. */
  function Settle(state: FileUploadState, outcome: Reply<()>): (settled: FileUploadState)
    ensures settled.file == state.file
    ensures outcome.Ok? ==> settled.status == Success && settled.progress == 100
    ensures outcome.Err? ==> settled.status == Error && settled.error == Some(outcome.message)
  {
    match outcome
    case Ok(_) => state.(status := Success, progress := 100)
    case Err(message) => state.(status := Error, error := Some(message))
  }

  /** The queue after the upload loop, entry by entry. */
  function Settled(states: seq<FileUploadState>, upload: nat -> Reply<()>): (settled: seq<FileUploadState>)
    ensures |settled| == |states|
    ensures forall i :: 0 <= i < |settled| ==> settled[i] == Settle(states[i], upload(i))
  {
    seq(|states|, i requires 0 <= i < |states| => Settle(states[i], upload(i)))
  }

  /** How many of the first `n` uploads fail. */
  function FailureCount(upload: nat -> Reply<()>, n: nat): (count: nat)
    ensures count <= n
    ensures count == 0 <==> forall i :: 0 <= i < n ==> upload(i).Ok?
  {
    if n == 0 then 0 else FailureCount(upload, n - 1) + (if upload(n - 1).Err? then 1 else 0)
  }

  /** After the loop every entry has settled, keeping its file, and none is left idle or uploading. */
  lemma SettledEntriesAreFinal(states: seq<FileUploadState>, upload: nat -> Reply<()>, i: nat)
    requires i < |states|
    ensures var s := Settled(states, upload)[i];
            && s.file == states[i].file
            && (s.status == Success || s.status == Error)
            && (s.status == Success <==> upload(i).Ok?)
  {
  }

  /** The message shown after the loop. */
  function SummaryMessage(successCount: nat, errorCount: nat): string {
    if errorCount == 0 then "Successfully uploaded " + NatToString(successCount) + " images"
    else "Upload completed with " + NatToString(errorCount) + " errors. " + NatToString(successCount) + " succeeded."
  }

  /** `prev.filter((_, idx) => idx !== index)`, walking the queue from position `from`. */
  function WithoutIndex(states: seq<FileUploadState>, index: nat, from: nat): seq<FileUploadState>
    decreases |states|
  {
    if states == [] then []
    else (if from == index then [] else [states[0]]) + WithoutIndex(states[1..], index, from + 1)
  }

  /** Removing by index deletes exactly that entry, keeping the order of the others; an index past the end removes nothing. */
  lemma {:induction false} WithoutIndexIsSplice(states: seq<FileUploadState>, index: nat, from: nat)
    requires from <= index
    ensures index - from < |states| ==> WithoutIndex(states, index, from) == states[..index - from] + states[index - from + 1..]
    ensures index - from >= |states| ==> WithoutIndex(states, index, from) == states
    decreases |states|
  {
    if states != [] {
      if from == index {
        KeepsAllBeyond(states[1..], index, from + 1);
        assert states[..0] + states[1..] == states[1..];
      } else {
        WithoutIndexIsSplice(states[1..], index, from + 1);
        if index - from < |states| {
          assert [states[0]] + (states[1..][..index - from - 1] + states[1..][index - from..])
              == states[..index - from] + states[index - from + 1..];
        } else {
          assert [states[0]] + states[1..] == states;
        }
      }
    }
  }

  lemma {:induction false} KeepsAllBeyond(states: seq<FileUploadState>, index: nat, from: nat)
    requires index < from
    ensures WithoutIndex(states, index, from) == states
    decreases |states|
  {
    if states != [] {
      KeepsAllBeyond(states[1..], index, from + 1);
      assert [states[0]] + states[1..] == states;
    }
  }

  class ImageTable {
    var userName: string
    var selectedFiles: seq<FileUploadState>
    var isUploading: bool

    constructor ()
      ensures userName == "" && selectedFiles == [] && !isUploading
    {
      userName := "";
      selectedFiles := [];
      isUploading := false;
    }

    /** `handleFileSelect`: the picked files join the end of the queue, idle and at 0%. */
    method HandleFileSelect(files: seq<ImageFile>)
      modifies this`selectedFiles
      ensures selectedFiles == old(selectedFiles) + NewFileStates(files)
    {
      selectedFiles := selectedFiles + NewFileStates(files);
    }

    /**
     * `handleBulkUpload`, run to the end. A blank user name or an empty queue
     * stops it before any upload. Otherwise each file is uploaded in turn under
     * the trimmed name and settles as `Settle` says; the counts add up to the
     * number of files; and the queue and the name are cleared when no upload
     * failed, or kept, settled, for a retry.
     */
    method HandleBulkUpload(upload: nat -> Reply<()>)
      returns (uploads: seq<(string, ImageFile)>, successCount: nat, errorCount: nat, toast: string)
      modifies this`selectedFiles, this`userName, this`isUploading
      ensures IsBlank(old(userName)) ==>
                uploads == [] && toast == UserNameMessage && selectedFiles == old(selectedFiles) && userName == old(userName)
                && isUploading == old(isUploading)
      ensures !IsBlank(old(userName)) && old(selectedFiles) == [] ==>
                uploads == [] && toast == NoFilesMessage && selectedFiles == old(selectedFiles) && userName == old(userName)
                && isUploading == old(isUploading)
      ensures !IsBlank(old(userName)) && old(selectedFiles) != [] ==>
                && |uploads| == |old(selectedFiles)|
                && (forall i :: 0 <= i < |uploads| ==> uploads[i] == (Trim(old(userName)), old(selectedFiles)[i].file))
                && successCount + errorCount == |old(selectedFiles)|
                && errorCount == FailureCount(upload, |old(selectedFiles)|)
                && toast == SummaryMessage(successCount, errorCount)
                && !isUploading
                && (errorCount == 0 ==> selectedFiles == [] && userName == "")
                && (errorCount > 0 ==> selectedFiles == Settled(old(selectedFiles), upload) && userName == old(userName))
    {
      uploads, successCount, errorCount := [], 0, 0;
      var name := Trim(userName);
      if name == "" {
        return [], 0, 0, UserNameMessage;
      }
      if |selectedFiles| == 0 {
        return [], 0, 0, NoFilesMessage;
      }
      uploads, successCount, errorCount, toast := UploadAll(name, upload);
    }

    /**
     * The part of `handleBulkUpload` after its guards: the upload loop
     * between the two `isUploading` updates, then the summary, and the
     * queue and name cleared only when no upload failed.
     */
    method UploadAll(name: string, upload: nat -> Reply<()>)
      returns (uploads: seq<(string, ImageFile)>, successCount: nat, errorCount: nat, toast: string)
      modifies this`selectedFiles, this`userName, this`isUploading
      ensures |uploads| == |old(selectedFiles)|
      ensures forall i :: 0 <= i < |uploads| ==> uploads[i] == (name, old(selectedFiles)[i].file)
      ensures successCount + errorCount == |old(selectedFiles)|
      ensures errorCount == FailureCount(upload, |old(selectedFiles)|)
      ensures toast == SummaryMessage(successCount, errorCount)
      ensures !isUploading
      ensures errorCount == 0 ==> selectedFiles == [] && userName == ""
      ensures errorCount > 0 ==> selectedFiles == Settled(old(selectedFiles), upload) && userName == old(userName)
    {
      isUploading := true;
      uploads, successCount, errorCount := UploadEach(name, upload);
      isUploading := false;
      toast := SummaryMessage(successCount, errorCount);
      if errorCount == 0 {
        selectedFiles := [];
        userName := "";
      }
    }

    /**
     * The `for` loop of `handleBulkUpload`: file `i` is marked uploading,
     * uploaded under `name`, then marked as its outcome says, and counted.
     */
    method UploadEach(name: string, upload: nat -> Reply<()>) returns (uploads: seq<(string, ImageFile)>, successCount: nat, errorCount: nat)
      modifies this`selectedFiles
      ensures selectedFiles == Settled(old(selectedFiles), upload)
      ensures |uploads| == |old(selectedFiles)|
      ensures forall i :: 0 <= i < |uploads| ==> uploads[i] == (name, old(selectedFiles)[i].file)
      ensures errorCount == FailureCount(upload, |old(selectedFiles)|) && successCount + errorCount == |old(selectedFiles)|
    {
      uploads, successCount, errorCount := [], 0, 0;
      var n := |selectedFiles|;
      ghost var queued := selectedFiles;
      var i := 0;
      while i < n
        invariant 0 <= i <= n && |selectedFiles| == n
        invariant forall k :: 0 <= k < i ==> selectedFiles[k] == Settle(queued[k], upload(k))
        invariant forall k :: i <= k < n ==> selectedFiles[k] == queued[k]
        invariant |uploads| == i
        invariant forall k :: 0 <= k < i ==> uploads[k] == (name, queued[k].file)
        invariant errorCount == FailureCount(upload, i) && successCount + errorCount == i
      {
        var fileState := selectedFiles[i];
        selectedFiles := selectedFiles[i := fileState.(status := Uploading)];
        uploads := uploads + [(name, fileState.file)];
        match upload(i) {
          case Ok(_) =>
            selectedFiles := selectedFiles[i := selectedFiles[i].(status := Success, progress := 100)];
            successCount := successCount + 1;
          case Err(message) =>
            selectedFiles := selectedFiles[i := selectedFiles[i].(status := Error, error := Some(message))];
            errorCount := errorCount + 1;
        }
        assert selectedFiles[i] == Settle(queued[i], upload(i));
        i := i + 1;
      }
      assert selectedFiles == Settled(queued, upload);
    }

    /** `handleRemoveFile(index)`: the queue without the entry at `index`. */
    method HandleRemoveFile(index: nat)
      modifies this`selectedFiles
      ensures selectedFiles == WithoutIndex(old(selectedFiles), index, 0)
    {
      selectedFiles := WithoutIndex(selectedFiles, index, 0);
    }
  }
}
