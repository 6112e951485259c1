/** UploadImagesCommandHandler: each uploaded file is buffered, given a fresh
    identifier and queued for background processing, or, when buffering it
    throws, reported as an error; every file gets exactly one of the two. */
module UploadHandling {
  import opened Common
  import opened Background

  /** An uploaded form file: its name, and what copying it into a memory
      stream yields — its bytes, or the exception the copy threw. */
  datatype FormFile = FormFile(fileName: string, content: Result<seq<byte>, Exception>)

  /** UploadImagesResponse. */
  datatype UploadResponse = UploadResponse(ids: seq<string>, errors: seq<string>)

  /** The error recorded for a file whose copy threw. */
  function ErrorLine(fileName: string, e: Exception): string {
    "Error processing " + fileName + ": " + e.Message()
  }

  /** The handler's response and the jobs it queued, in order, for the files;
      `guids` are the successive values of Guid.NewGuid(), which is called
      once per file whose copy succeeded. */
  function Upload(files: seq<FormFile>, guids: seq<string>): (r: (UploadResponse, seq<Job>))
    requires |files| <= |guids|
    ensures |r.0.ids| + |r.0.errors| == |files|
    ensures r.0.ids == guids[..|r.0.ids|]
    ensures |r.1| == |r.0.ids|
    ensures forall k :: 0 <= k < |r.1| ==> r.1[k].id == r.0.ids[k] && r.1[k].stream.position == 0
    decreases |files|
  {
    if files == [] then (UploadResponse([], []), [])
    else
      var (resp, jobs) := Upload(files[..|files| - 1], guids);
      var f := files[|files| - 1];
      match f.content
      case Success(data) =>
        var id := guids[|resp.ids|];
        assert guids[..|resp.ids| + 1] == guids[..|resp.ids|] + [id];
        (resp.(ids := resp.ids + [id]), jobs + [Job(Stream(data, 0), f.fileName, id)])
      case Failure(e) =>
        (resp.(errors := resp.errors + [ErrorLine(f.fileName, e)]), jobs)
  }

  /** The files whose copy succeeded, in order. */
  function Copied(files: seq<FormFile>): (r: seq<FormFile>)
    ensures |r| <= |files|
    ensures forall k :: 0 <= k < |r| ==> r[k].content.Success? && r[k] in files
    decreases |files|
  {
    if files == [] then []
    else Copied(files[..|files| - 1]) + (if files[|files| - 1].content.Success? then [files[|files| - 1]] else [])
  }

  /** The error lines of the files whose copy failed, in order. */
  function FailureLines(files: seq<FormFile>): (r: seq<string>)
    ensures |r| <= |files|
    decreases |files|
  {
    if files == [] then []
    else
      var f := files[|files| - 1];
      FailureLines(files[..|files| - 1]) + (if f.content.Failure? then [ErrorLine(f.fileName, f.content.error)] else [])
  }

  /** Every copied file is queued once, in file order, as a rewound stream
      over its bytes under its own name; every failed file is reported once,
      in file order, and never queued. */
  lemma {:induction false} UploadMatchesFiles(files: seq<FormFile>, guids: seq<string>)
    requires |files| <= |guids|
    ensures var (resp, jobs) := Upload(files, guids);
      && |jobs| == |Copied(files)|
      && (forall k :: 0 <= k < |jobs| ==>
            jobs[k] == Job(Stream(Copied(files)[k].content.value, 0), Copied(files)[k].fileName, guids[k]))
      && resp.errors == FailureLines(files)
    decreases |files|
  {
    if files != [] {
      UploadMatchesFiles(files[..|files| - 1], guids);
    }
  }

  /** With distinct GUIDs, the identifiers handed out are distinct. */
  lemma DistinctIds(files: seq<FormFile>, guids: seq<string>)
    requires |files| <= |guids|
    requires forall i, j :: 0 <= i < j < |guids| ==> guids[i] != guids[j]
    ensures var ids := Upload(files, guids).0.ids;
      forall i, j :: 0 <= i < j < |ids| ==> ids[i] != ids[j]
  {
    var ids := Upload(files, guids).0.ids;
    assert forall i :: 0 <= i < |ids| ==> ids[i] == guids[i];
  }

  /** When every copy succeeds there are no errors, and every file is queued. */
  lemma AllCopied(files: seq<FormFile>, guids: seq<string>)
    requires |files| <= |guids|
    requires forall k :: 0 <= k < |files| ==> files[k].content.Success?
    ensures Upload(files, guids).0 == UploadResponse(guids[..|files|], [])
  {
    AllCopiedNoFailures(files);
    UploadMatchesFiles(files, guids);
  }

  lemma {:induction false} AllCopiedNoFailures(files: seq<FormFile>)
    requires forall k :: 0 <= k < |files| ==> files[k].content.Success?
    ensures FailureLines(files) == []
    decreases |files|
  {
    if files != [] {
      AllCopiedNoFailures(files[..|files| - 1]);
    }
  }

  /** Handle: the loop over the request's files. The copy runs first; the
      identifier is minted and the job queued only when it succeeded. */
  method Handle(queue: ImageProcessingBackgroundService, files: seq<FormFile>, guids: seq<string>)
    returns (response: UploadResponse)
    requires queue.Valid() && |files| <= |guids|
    modifies queue
    ensures queue.Valid()
    ensures response == Upload(files, guids).0
    ensures queue.Model() == EnqueueAll(old(queue.Model()), Upload(files, guids).1)
    ensures queue.queue == old(queue.queue) + Upload(files, guids).1
    ensures queue.available == old(queue.available) + |response.ids|
  {
    var ids: seq<string> := [];
    var errors: seq<string> := [];
    ghost var jobs: seq<Job> := [];
    ghost var start := queue.Model();
    for i := 0 to |files|
      invariant queue.Valid()
      invariant (UploadResponse(ids, errors), jobs) == Upload(files[..i], guids)
      invariant queue.Model() == EnqueueAll(start, jobs)
    {
      assert files[..i + 1][..i] == files[..i];
      var file := files[i];
      match file.content {
        case Success(data) =>
          var id := guids[|ids|];
          var job := Job(Stream(data, 0), file.fileName, id);
          queue.EnqueueImage(Stream(data, 0), file.fileName, id);
          ids := ids + [id];
          jobs := jobs + [job];
        case Failure(e) =>
          errors := errors + [ErrorLine(file.fileName, e)];
      }
    }
    assert files[..|files|] == files;
    EnqueueAllAppends(start, jobs);
    response := UploadResponse(ids, errors);
  }
}
