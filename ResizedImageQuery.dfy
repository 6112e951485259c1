/** GetResizedImageQueryHandler: rejects a missing size, otherwise asks the
    processing service for the variant whose label is the size's display
    name, lower-cased. */
module ResizedImageQuery {
  import opened Common
  import opened Models
  import opened ImageProcessing

  const SizeMissingMessage := "Size must be provided"

  /** What the handler answers against a given store. */
  function Answer(s: Storage, id: string, size: Option<ImageSize>): (r: Result<seq<byte>, Exception>)
    requires WellFormed(s)
    ensures size.None? ==> r == Failure(Argument(SizeMissingMessage))
    ensures size.Some? ==> r == ResizedImageOf(s, id, Lower(DisplayName(size.value)))
  {
    if size.None? then Failure(Argument(SizeMissingMessage))
    else ResizedImageOf(s, id, SizeLabel(size.value))
  }

  /** Handle: a null size is an ArgumentException raised before the service
      is called; any other size is passed on, with the identifier unchanged,
      and the service's bytes are returned as they are. */
  method Handle(service: ImageProcessingService, id: string, size: Option<ImageSize>)
    returns (r: Result<seq<byte>, Exception>)
    requires service.Valid()
    ensures r == Answer(service.storage, id, size)
  {
    if size.None? {
      r := Failure(Argument(SizeMissingMessage));
    } else {
      r := service.GetResizedImage(id, Lower(DisplayName(size.value)));
    }
  }

  /** Because the size table's keys are built by the same normalisation, no
      member of ImageSize is ever an invalid size: the only failures are the
      missing size and a variant that is not on disk. */
  lemma NeverInvalidSize(s: Storage, id: string, size: Option<ImageSize>)
    requires WellFormed(s)
    ensures Answer(s, id, size) != Failure(Argument("Invalid size specified"))
    ensures Answer(s, id, size).Failure? ==>
      Answer(s, id, size).error in {Argument(SizeMissingMessage), FileNotFound("Image not found")}
  {
    if size.Some? {
      assert SizeLabel(size.value) in SizeConfigurations();
    }
  }

  /** After an image has been processed successfully, every size can be
      fetched; after a failure, every size is "not found". */
  lemma AnswerAfterProcess(s: Storage, c: Collaborators, stream: Stream, fileName: string, id: string,
                           now: DateTime, size: ImageSize)
    requires StoreInvariant(s)
    ensures var (r, s') := Process(s, c, stream, fileName, id, now);
      WellFormed(s') && (Answer(s', id, Some(size)).Success? <==> r.Success?)
  {
    QueriesAfterProcess(s, c, stream, fileName, id, now);
  }
}
