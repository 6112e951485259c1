# Abjjad image pipeline in Dafny

Abjjad is an image upload service with four parts:

- An upload request is validated (non-empty, each file at most 2 MiB, extension `.jpg`, `.jpeg`, `.png` or `.webp`).
- Each file is buffered into a memory stream, given a fresh identifier and put on a queue.
- A background coordinator takes jobs off the queue in order and runs at most a configured number (default 3) at a time.
- Each job runs the processing routine. The routine writes `original.jpg`, reads the EXIF tags into an `ImageMetadata`, writes one WebP variant per entry of the size table (phone, tablet, desktop), and writes `metadata.json` last. Any failure removes the identifier's whole directory.

Two queries read the results back. Exceptions that escape a request are turned into JSON error responses by an ordered type switch.

The model has one module per source file:

| module | models |
|---|---|
| `Common` | option, result, stream and exception values, and ASCII case folding |
| `Models` | `ImageMetadata` and `ImageSize` |
| `Exif` | the GPS sign rule and the EXIF block of the routine |
| `ImageProcessing` | the size table, the routine and the two queries |
| `Background` | the background coordinator |
| `UploadValidation` | the upload validator |
| `UploadHandling` | the upload handler |
| `Middleware` | the error middleware |
| `ResizedImageQuery` | the resized-image query handler |

How each source form is modelled:

- **Storage.** A map from identifier to a map from file name to contents.
- **Processing routine.** `ProcessImage` works step by step on a class that holds the storage. It is proved equal to the pure function `Process`, and the commit-or-rollback and invariant lemmas are proved about `Process`.
- **Background coordinator.** A class whose methods are the atomic steps of `EnqueueImage`, of the `ExecuteAsync` loop and of one processing task. Each method is proved equal to a step function on the `Coordinator` state record. The lemmas beside them show that every step keeps the coordinator invariant:
  - jobs are dispatched in FIFO order;
  - free slots plus running tasks equal the maximum;
  - every dispatched stream is disposed exactly once;
  - a queued job never lacks its signal at the outer wait.
- **Upload handler.** A loop method that queues onto the coordinator, proved against the function `Upload`.
- **Everything else** is pure functions and lemmas.

## Model

| member | source | states |
|---|---|---|
| Common.Stream.Remaining | Abjjad/Services/ImageProcessingService.cs:46 | a copy reads exactly the bytes from the current position to the end: all of them from position 0, none from past the end |
| Common.Exception.Message | Abjjad/Common/Middleware/ErrorMiddleware.cs:34-47 | the message an exception carries; for a ValidationException the "Validation failed" summary |
| Common.LowerChar | Abjjad/Services/ImageProcessingService.cs:23-25 | an ASCII capital letter becomes the lower-case letter 32 code points above it; every other character is unchanged |
| Common.Lower | Abjjad/Features/Images/Commands/UploadImages/UploadImagesCommandValidator.cs:21 | ToLower and ToLowerInvariant fold each character on its own, keep the length, and leave no ASCII capital letter |
| Common.EqualsIgnoreCase | Abjjad/Services/ImageProcessingService.cs:62 | two strings are equal ignoring case exactly when they have the same length and agree character by character after folding |
| Models.ImageMetadata.constructor | Abjjad/Models/ImageMetadata.cs:5-12 | the init-only Id, OriginalFileName and UploadAt take the initializer's values; the five optional properties start absent |
| Models.ImageMetadata.Default | Abjjad/Models/ImageMetadata.cs:5-12 | without an initializer Id and OriginalFileName are empty, UploadAt is the default time, and every optional property is absent |
| Models.ImageMetadata.Snapshot | Abjjad/Models/ImageMetadata.cs:3-13 | the record holds exactly the eight property values |
| Models.ImageMetadata.SetCameraMake | Abjjad/Models/ImageMetadata.cs:6 | sets CameraMake and leaves every other property unchanged |
| Models.ImageMetadata.SetCameraModel | Abjjad/Models/ImageMetadata.cs:7 | sets CameraModel and leaves every other property unchanged |
| Models.ImageMetadata.SetLatitude | Abjjad/Models/ImageMetadata.cs:8 | sets Latitude and leaves every other property unchanged |
| Models.ImageMetadata.SetLongitude | Abjjad/Models/ImageMetadata.cs:9 | sets Longitude and leaves every other property unchanged |
| Models.ImageMetadata.SetTakenAt | Abjjad/Models/ImageMetadata.cs:10 | sets TakenAt and leaves every other property unchanged |
| Models.SizeLabel | Abjjad/Services/ImageProcessingService.cs:23-25 | a size's label is its display name lower-cased, and lower-casing it again changes nothing |
| Models.DisplayName | Abjjad/Services/ImageProcessingService.cs:23-25 | no contract of its own: the enum member's name, specified through `SizeLabel`, whose contract gives the three lower-cased labels |
| Exif.Coordinate | Abjjad/Services/ImageProcessingService.cs:57-71 | a coordinate is produced only when both the triple and the reference were read; an index-out-of-range failure happens exactly when the triple has fewer than three elements; the value is plus or minus d + m/60 + s/3600, and for a non-zero magnitude the result keeps the magnitude's sign exactly when the reference equals the positive letter ignoring case, and has the opposite sign otherwise |
| Exif.Magnitude | Abjjad/Services/ImageProcessingService.cs:60 | degrees plus minutes/60 plus seconds/3600: with non-negative parts it is at least the degrees, and with no minutes or seconds it is the degrees |
| Exif.Latitude | Abjjad/Services/ImageProcessingService.cs:57-63 | the latitude fails exactly when both tags were read and the triple has fewer than three elements, and is set exactly when both were read and it has three |
| Exif.Longitude | Abjjad/Services/ImageProcessingService.cs:65-71 | the same for the longitude tags, with "E" as the positive reference |
| Exif.Extract | Abjjad/Services/ImageProcessingService.cs:49-72 | the block succeeds exactly when both coordinates do; each tag that was read sets its own property, the others and the identity fields keep their values; a failure is the index-out-of-range exception |
| Exif.SignExamples | Abjjad/Services/ImageProcessingService.cs:60-62 | 10°30′ is 10.5 with "N" or "n" and -10.5 with "S", "s", or "w" against "E" |
| ImageProcessing.SizeConfigurations | Abjjad/Services/ImageProcessingService.cs:21-26 | exactly three lower-case keys, phone→800×600, tablet→1024×768, desktop→1920×1080, and every ImageSize's label is a key |
| ImageProcessing.SizeKeys | Abjjad/Services/ImageProcessingService.cs:76 | the enumeration visits every key of the table exactly once |
| ImageProcessing.Variants | Abjjad/Services/ImageProcessingService.cs:76-83 | no contract of its own: the resize loop as a function, specified by `VariantsWritten` and `VariantsFailureSticks` |
| ImageProcessing.Finish | Abjjad/Services/ImageProcessingService.cs:74-87 | no contract of its own: decode, resize loop and metadata write, specified by `FinishCompletes` |
| ImageProcessing.Run | Abjjad/Services/ImageProcessingService.cs:41-89 | no contract of its own: the body of the `try`, specified by `RunCompletes` and `ProcessRethrows` |
| ImageProcessing.Process | Abjjad/Services/ImageProcessingService.cs:29-96 | no contract of its own: the routine on a whole store, specified by `ProcessCommitsOrRollsBack`, `ProcessRethrows` and `ProcessKeepsInvariant` |
| ImageProcessing.VariantsWritten | Abjjad/Services/ImageProcessingService.cs:76-83 | when every resize succeeds, the files written are exactly one `<key>.webp` per key, and `<key>.webp` holds the encoding of the image at that key's dimensions |
| ImageProcessing.VariantsFailureSticks | Abjjad/Services/ImageProcessingService.cs:76-83 | once one resize fails, the loop's outcome is that failure |
| ImageProcessing.VariantNameNotMetadata | Abjjad/Services/ImageProcessingService.cs:81 | no variant file name collides with `metadata.json` or `original.jpg` |
| ImageProcessing.FinishCompletes | Abjjad/Services/ImageProcessingService.cs:74-87 | after decoding, resizing and writing metadata succeed, the directory is complete and stays well formed; the original keeps its bytes, each `<key>.webp` holds the decoded original encoded at that key's dimensions, and `metadata.json` holds the record |
| ImageProcessing.RunCompletes | Abjjad/Services/ImageProcessingService.cs:29-89 | a successful routine returns a record whose Id, OriginalFileName and UploadAt are the given id, file name and time, and which is the EXIF block applied to the tags of the copied bytes; the directory holds the copied bytes as `original.jpg`, each key's encoding as its variant, and the record |
| ImageProcessing.ProcessCommitsOrRollsBack | Abjjad/Services/ImageProcessingService.cs:29-96 | other identifiers are never touched; on failure the identifier's directory is gone; on success it holds the stream's bytes from the current position as `original.jpg`, each key's encoding of the decoded original as `<key>.webp`, and the returned record, which is the EXIF block applied to those bytes' tags |
| ImageProcessing.ProcessRethrows | Abjjad/Services/ImageProcessingService.cs:41-95 | the exception rethrown is the one thrown by the first step that failed, in the order copy, EXIF read, GPS conversion, decode, resize, metadata write; when none fails the record is returned |
| ImageProcessing.ProcessKeepsInvariant | Abjjad/Services/ImageProcessingService.cs:74-95 | processing keeps the store invariant: every `metadata.json` sits beside the original and every variant |
| ImageProcessing.QueriesAfterProcess | Abjjad/Services/ImageProcessingService.cs:98-118 | after a success the metadata query returns the stored record and every size returns the decoded original encoded at that size's dimensions; after a failure both queries report "not found" |
| ImageProcessing.ResizedImageOf | Abjjad/Services/ImageProcessingService.cs:98-108 | an unknown size is "Invalid size specified" (checked first); a missing variant is "Image not found"; otherwise the stored bytes are returned unchanged |
| ImageProcessing.MetadataOf | Abjjad/Services/ImageProcessingService.cs:110-118 | a missing `metadata.json` is "Metadata not found"; otherwise the stored record comes back |
| ImageProcessing.ReadTags | Abjjad/Services/ImageProcessingService.cs:49-72 | assigning the tags to the metadata object in place yields the record `Extract` computes, or its exception |
| ImageProcessing.ImageProcessingService.constructor | Abjjad/Services/ImageProcessingService.cs:16-19 | the service opens a store that satisfies the store invariant |
| ImageProcessing.ImageProcessingService.DeleteDirectory | Abjjad/Services/ImageProcessingService.cs:93 | the identifier's directory and everything in it is removed, and nothing else changes |
| ImageProcessing.ImageProcessingService.WriteFile | Abjjad/Services/ImageProcessingService.cs:81-82 | one file of one directory is written, and no other directory changes |
| ImageProcessing.ImageProcessingService.WriteVariants | Abjjad/Services/ImageProcessingService.cs:76-83 | the loop writes the variants that `Variants` computes, or stops at the first failing resize |
| ImageProcessing.ImageProcessingService.WriteVariantsOf | Abjjad/Services/ImageProcessingService.cs:76-83 | over any sequence of size-table keys, the loop leaves the directory extended by exactly the variants `Variants` computes, or returns the first resize exception |
| ImageProcessing.ImageProcessingService.FinishImage | Abjjad/Services/ImageProcessingService.cs:74-87 | decode, variants and metadata write change the directory as `Finish` says, or report its exception |
| ImageProcessing.ImageProcessingService.ProcessImage | Abjjad/Services/ImageProcessingService.cs:29-96 | the in-place routine returns a fresh metadata object and leaves the store exactly as `Process` says, on success and on failure, keeping the store invariant |
| ImageProcessing.ImageProcessingService.GetResizedImage | Abjjad/Services/ImageProcessingService.cs:98-108 | answers what `ResizedImageOf` says for the current store |
| ImageProcessing.ImageProcessingService.GetImageMetadata | Abjjad/Services/ImageProcessingService.cs:110-118 | answers what `MetadataOf` says for the current store |
| Background.MaxConcurrentProcessing | Abjjad/Services/ImageProcessingBackgroundService.cs:11-12 | the configured maximum, or 3 when none is configured |
| Background.Pruned | Abjjad/Services/ImageProcessingBackgroundService.cs:46 | no contract of its own: RemoveAll of the completed tasks, specified by `PrunedKeepsRunning` |
| Background.Initial | Abjjad/Services/ImageProcessingBackgroundService.cs:14-29 | no contract of its own: the state at the start of the loop, specified by `InitialInv` |
| Background.Enqueue | Abjjad/Services/ImageProcessingBackgroundService.cs:17-20 | no contract of its own: one EnqueueImage, specified by `EnqueueInv` and `EnqueueAllAppends` |
| Background.EnqueueAll | Abjjad/Services/ImageProcessingBackgroundService.cs:17-20 | no contract of its own: a run of EnqueueImage calls, specified by `EnqueueAllAppends` and `EnqueueAllInv` |
| Background.WaitSignal | Abjjad/Services/ImageProcessingBackgroundService.cs:31-34 | no contract of its own: the outer wait, specified by `WaitSignalInv` |
| Background.Dequeue | Abjjad/Services/ImageProcessingBackgroundService.cs:37 | no contract of its own: TryDequeue, specified by `DequeueInv`, `QueueIsSuffix` and `DispatchIsFifo` |
| Background.Dispatch | Abjjad/Services/ImageProcessingBackgroundService.cs:41-46 | no contract of its own: the slot wait, task start and prune, specified by `DispatchInv` and `InFlightBounded` |
| Background.TaskDone | Abjjad/Services/ImageProcessingBackgroundService.cs:79-84 | no contract of its own: the `finally` of a task, specified by `CompleteInv` and `AllCompletedReleasesEverything` |
| Background.PrunedKeepsRunning | Abjjad/Services/ImageProcessingBackgroundService.cs:46 | pruning leaves only uncompleted tasks and keeps every running task, in order |
| Background.InitialInv | Abjjad/Services/ImageProcessingBackgroundService.cs:14-29 | the empty queue, no signals and all slots free satisfy the coordinator invariant |
| Background.EnqueueInv | Abjjad/Services/ImageProcessingBackgroundService.cs:17-20 | enqueueing keeps the invariant |
| Background.EnqueueAllAppends | Abjjad/Services/ImageProcessingBackgroundService.cs:17-20 | a run of enqueues appends the jobs at the back of the queue, adds exactly one signal per job, and changes nothing else |
| Background.EnqueueAllInv | Abjjad/Services/ImageProcessingBackgroundService.cs:17-20 | a run of enqueues keeps the invariant |
| Background.WaitSignalInv | Abjjad/Services/ImageProcessingBackgroundService.cs:31-34 | the outer wait keeps the invariant |
| Background.DequeueInv | Abjjad/Services/ImageProcessingBackgroundService.cs:37 | taking the head of the queue keeps the invariant |
| Background.DispatchInv | Abjjad/Services/ImageProcessingBackgroundService.cs:41-46 | the slot wait, the start of the task and the prune keep the invariant, including when cancellation drops the held job |
| Background.StartInv | Abjjad/Services/ImageProcessingBackgroundService.cs:41-46 | taking a free slot and starting the task keeps slots plus running tasks equal to the maximum |
| Background.CompleteInv | Abjjad/Services/ImageProcessingBackgroundService.cs:79-84 | finishing a task disposes its stream and releases its slot, keeping the invariant |
| Background.DispatchIsFifo | Abjjad/Services/ImageProcessingBackgroundService.cs:14-43 | the dispatched jobs are a prefix of the enqueued jobs, in enqueue order |
| Background.QueueIsSuffix | Abjjad/Services/ImageProcessingBackgroundService.cs:14-37 | the queue is always the most recently enqueued jobs, in order |
| Background.InFlightBounded | Abjjad/Services/ImageProcessingBackgroundService.cs:29-43 | never more running tasks than the configured maximum |
| Background.AllCompletedReleasesEverything | Abjjad/Services/ImageProcessingBackgroundService.cs:59-60 | once every task has completed, all slots are free and every dispatched stream has been disposed exactly once |
| Background.ImageProcessingBackgroundService.constructor | Abjjad/Services/ImageProcessingBackgroundService.cs:11-15 | the service starts in the initial coordinator state, which satisfies the invariant |
| Background.ImageProcessingBackgroundService.EnqueueImage | Abjjad/Services/ImageProcessingBackgroundService.cs:17-22 | appends the job at the back, releases one signal, changes nothing else, and keeps the invariant |
| Background.ImageProcessingBackgroundService.Cancel | Abjjad/Services/ImageProcessingBackgroundService.cs:31 | requesting cancellation changes only the token |
| Background.ImageProcessingBackgroundService.WaitForSignal | Abjjad/Services/ImageProcessingBackgroundService.cs:31-34 | a cancelled token ends the loop; with no signal the wait blocks; otherwise exactly one signal is consumed and draining starts |
| Background.ImageProcessingBackgroundService.TryDequeue | Abjjad/Services/ImageProcessingBackgroundService.cs:37 | takes the head of the queue, or ends the drain when the queue is empty |
| Background.ImageProcessingBackgroundService.AcquireSlotAndDispatch | Abjjad/Services/ImageProcessingBackgroundService.cs:41-46 | a cancelled token drops the held job; with no free slot the wait blocks; otherwise one slot is taken, the task starts and completed tasks are pruned |
| Background.ImageProcessingBackgroundService.CompleteTask | Abjjad/Services/ImageProcessingBackgroundService.cs:64-85 | the task runs the processing routine; its exception is caught and goes no further; the stream is disposed and the slot released whether it succeeded or not |
| Background.ImageProcessingBackgroundService.WaitForAll | Abjjad/Services/ImageProcessingBackgroundService.cs:59-60 | after the loop every tracked task completes: all slots are free, every dispatched stream is disposed, and the queue is left unprocessed |
| UploadValidation.ExtensionFrom | Abjjad/Features/Images/Commands/UploadImages/UploadImagesCommandValidator.cs:21 | the backward scan yields nothing, or a suffix of the name that starts with '.' and has at least one more character |
| UploadValidation.Extension | Abjjad/Features/Images/Commands/UploadImages/UploadImagesCommandValidator.cs:21 | Path.GetExtension yields nothing, or a '.'-led suffix of the name |
| UploadValidation.ScanFindsLastDot | Abjjad/Features/Images/Commands/UploadImages/UploadImagesCommandValidator.cs:21 | the scan finds an extension exactly when some '.' that is not the last character is followed by neither '.' nor '/', and the extension starts at that '.' |
| UploadValidation.ExtensionCharacterised | Abjjad/Features/Images/Commands/UploadImages/UploadImagesCommandValidator.cs:21 | the extension exists exactly when such a '.' exists, and it contains no further '.' or '/' |
| UploadValidation.ExtensionAt | Abjjad/Features/Images/Commands/UploadImages/UploadImagesCommandValidator.cs:21 | the extension is the text from the last '.' after the last '/' |
| UploadValidation.NoDotNoExtension | Abjjad/Features/Images/Commands/UploadImages/UploadImagesCommandValidator.cs:21 | a name without '.' has no extension |
| UploadValidation.WithinSizeLimit | Abjjad/Features/Images/Commands/UploadImages/UploadImagesCommandValidator.cs:17 | no contract of its own: the size predicate, whose verdicts `SizeVerdicts` states |
| UploadValidation.HasAllowedFormat | Abjjad/Features/Images/Commands/UploadImages/UploadImagesCommandValidator.cs:21 | no contract of its own: the format predicate, whose verdicts `FormatVerdicts` states |
| UploadValidation.SizeVerdicts | Abjjad/Features/Images/Commands/UploadImages/UploadImagesCommandValidator.cs:16-18 | a file passes the size rule exactly when its length is at most 2·1024·1024 |
| UploadValidation.FormatVerdicts | Abjjad/Features/Images/Commands/UploadImages/UploadImagesCommandValidator.cs:20-22 | a file passes the format rule exactly when its lower-cased extension is allowed |
| UploadValidation.EachFailures | Abjjad/Features/Images/Commands/UploadImages/UploadImagesCommandValidator.cs:16-22 | every failure a rule reports names a file that fails the rule and carries the rule's message |
| UploadValidation.EachFailuresComplete | Abjjad/Features/Images/Commands/UploadImages/UploadImagesCommandValidator.cs:16-22 | every file that fails a rule is reported, at its index |
| UploadValidation.EachFailuresOrdered | Abjjad/Features/Images/Commands/UploadImages/UploadImagesCommandValidator.cs:16-22 | a rule's failures come in file order, at most one per file |
| UploadValidation.EachFailuresEmpty | Abjjad/Features/Images/Commands/UploadImages/UploadImagesCommandValidator.cs:16-22 | a rule reports nothing exactly when every file passes it |
| UploadValidation.Messages | Abjjad/Common/Middleware/ErrorMiddleware.cs:31 | the error messages of the failures, in order |
| UploadValidation.Validate | Abjjad/Features/Images/Commands/UploadImages/UploadImagesCommandValidator.cs:12-22 | no contract of its own: the three rules in order, specified by `ValidIff`, `EmptyCollection`, `FailuresNameFiles` and `PerFileReports` |
| UploadValidation.ValidIff | Abjjad/Features/Images/Commands/UploadImages/UploadImagesCommandValidator.cs:12-22 | no failure exactly when the collection is non-empty and every file is within the limit and has an allowed extension |
| UploadValidation.EmptyCollection | Abjjad/Features/Images/Commands/UploadImages/UploadImagesCommandValidator.cs:12-14 | an empty collection yields "No files were uploaded" and nothing else |
| UploadValidation.FailuresNameFiles | Abjjad/Features/Images/Commands/UploadImages/UploadImagesCommandValidator.cs:12-22 | in a non-empty collection every failure names one of its files |
| UploadValidation.PerFileReports | Abjjad/Features/Images/Commands/UploadImages/UploadImagesCommandValidator.cs:16-22 | each file gets the size message exactly when it is too large and the format message exactly when its extension is not allowed, independently |
| UploadValidation.FormatAndSizeExamples | Abjjad/Features/Images/Commands/UploadImages/UploadImagesCommandValidator.cs:7-8 | ".JPG" passes; ".gif", no extension and a trailing '.' fail; 2,097,152 bytes passes and one more byte fails |
| UploadValidation.MixedVerdicts | Abjjad/Features/Images/Commands/UploadImages/UploadImagesCommandValidator.cs:16-22 | the verdicts of both rules on a valid JPEG, a GIF and an oversized PNG |
| UploadValidation.RuleOnVerdicts | Abjjad/Features/Images/Commands/UploadImages/UploadImagesCommandValidator.cs:16-22 | a rule reports the failing file of a three-file collection at its index |
| UploadValidation.MixedExample | Abjjad/Features/Images/Commands/UploadImages/UploadImagesCommandValidator.cs:16-22 | that mixed collection reports the size failure of the PNG and then the format failure of the GIF |
| UploadHandling.Upload | Abjjad/Features/Images/Commands/UploadImages/UploadImagesCommandHandler.cs:11-35 | every file yields exactly one identifier or one error; identifiers are the minted GUIDs in order; each queued job carries its identifier and a stream rewound to position 0 |
| UploadHandling.ErrorLine | Abjjad/Features/Images/Commands/UploadImages/UploadImagesCommandHandler.cs:31 | no contract of its own: the error text for a failed copy, specified through `UploadMatchesFiles` |
| UploadHandling.UploadMatchesFiles | Abjjad/Features/Images/Commands/UploadImages/UploadImagesCommandHandler.cs:17-32 | exactly the files whose copy succeeded are queued, in order, under their own names and bytes; exactly the failed files are reported as "Error processing {name}: {message}", in order |
| UploadHandling.DistinctIds | Abjjad/Features/Images/Commands/UploadImages/UploadImagesCommandHandler.cs:24 | with distinct GUIDs every identifier handed out is distinct |
| UploadHandling.AllCopied | Abjjad/Features/Images/Commands/UploadImages/UploadImagesCommandHandler.cs:17-27 | when every copy succeeds there are no errors and every file gets an identifier |
| UploadHandling.Handle | Abjjad/Features/Images/Commands/UploadImages/UploadImagesCommandHandler.cs:11-35 | the loop answers what `Upload` says and appends exactly the queued jobs to the coordinator's queue, one signal each, keeping its invariant |
| Middleware.FirstMatch | Abjjad/Common/Middleware/ErrorMiddleware.cs:27-48 | the chosen arm matches the exception and no earlier arm does |
| Middleware.Matches | Abjjad/Common/Middleware/ErrorMiddleware.cs:29-44 | no contract of its own: the type pattern of each arm, specified through `FirstMatch` and `ValidationArmWins` |
| Middleware.ArmResponse | Abjjad/Common/Middleware/ErrorMiddleware.cs:29-47 | no contract of its own: the response each arm builds, specified through `Classify` and `ClassifyCases` |
| Middleware.Classify | Abjjad/Common/Middleware/ErrorMiddleware.cs:27-48 | the status is 400 exactly for validation failures and argument exceptions, 404 exactly for file-not-found, and 500 otherwise; validation errors are listed as they are, any other exception as its message alone |
| Middleware.ValidationArmWins | Abjjad/Common/Middleware/ErrorMiddleware.cs:29-42 | a validation exception matches the validation arm and neither the file-not-found nor the argument arm (it derives from Exception, not ArgumentException), so the response lists its errors with status 400 |
| Middleware.ClassifyCases | Abjjad/Common/Middleware/ErrorMiddleware.cs:34-47 | the exact response for file-not-found, argument and other exceptions, and the "Validation failed" message |
| Middleware.RejectedUploadResponse | Abjjad/Common/Middleware/ErrorMiddleware.cs:29-32 | a rejected upload is answered with 400 and the validator's messages in order; an empty one with "No files were uploaded" |
| Middleware.HttpResponse.constructor | Abjjad/Common/Middleware/ErrorMiddleware.cs:24 | the response the middleware writes to starts with no content type and status 200 |
| Middleware.HandleException | Abjjad/Common/Middleware/ErrorMiddleware.cs:22-51 | the content type becomes application/json and the status code that of the classified response, which is returned |
| Middleware.Invoke | Abjjad/Common/Middleware/ErrorMiddleware.cs:10-20 | a normal completion leaves the response untouched; a thrown exception is handled as above |
| ResizedImageQuery.Answer | Abjjad/Features/Images/Queries/GetResizedImage/GetResizedImageQueryHandler.cs:10-16 | a missing size is "Size must be provided"; otherwise the service's answer for the unchanged id and the lower-cased display name |
| ResizedImageQuery.Handle | Abjjad/Features/Images/Queries/GetResizedImage/GetResizedImageQueryHandler.cs:10-16 | the handler answers what `Answer` says, returning the service's bytes as they are |
| ResizedImageQuery.NeverInvalidSize | Abjjad/Features/Images/Queries/GetResizedImage/GetResizedImageQueryHandler.cs:15 | no ImageSize ever gets "Invalid size specified"; the only failures are the missing size and "Image not found" |
| ResizedImageQuery.AnswerAfterProcess | Abjjad/Features/Images/Queries/GetResizedImage/GetResizedImageQueryHandler.cs:15 | after processing, a size can be fetched exactly when processing succeeded |

## Left out

- Image decoding, resizing, WebP encoding and EXIF parsing are external libraries. They appear as the fields of `Collaborators`, each of which may fail. The bytes they produce are opaque.
- The file system is the `Storage` map. Paths, the application base directory and partial writes are not modelled.
- Creating the storage root and the identifier's directory happens outside the routine's `try`, and its failure is not modelled.
- JSON serialisation is not modelled. `metadata.json` holds the record itself, so reading it back yields the stored record by construction.
- The deserialised metadata cannot be null in the model.
- The metadata query returns the record's values rather than a fresh `ImageMetadata` object.
- GetImageMetadataQueryHandler only forwards to the service, so it is covered by `GetImageMetadata`.
- The GPS formula uses `real`. The rounding of `double` is not modelled.
- Culture-aware and non-ASCII case folding are not modelled. `Lower` folds only A-Z, which is enough for the literals the code compares against.
- Path.GetExtension is modelled with '/' as the only directory separator, as on Unix. The '\\' separator of Windows is not modelled.
- `DateTime.UtcNow` is the `now` parameter and `Guid.NewGuid` is the `guids` sequence.
- Background.ImageProcessingBackgroundService.CompleteTask: it takes the time as a parameter, so a job is not given its own clock reading.
- Concurrency is not modelled. The coordinator's methods are atomic steps, and the scheduler that interleaves them, real blocking, DI scopes and logging are left out.
- Background.ImageProcessingBackgroundService.constructor: it requires a maximum of at least 0. A negative configured value makes `new SemaphoreSlim` throw when the loop starts, and that case is not modelled.
- The `catch (Exception)` around the coordinator loop is not modelled. No modelled step throws anything other than cancellation.
- When cancellation arrives while a dequeued job waits for a slot, the source drops that job. It is never processed and its stream is never disposed. The model records this in the `lost` history rather than changing the behaviour. At most one job is lost, and only once the loop has stopped.
- ImageSize.cs is not part of this model. The display names of its members are taken to be their names: Phone, Tablet and Desktop.
- The validation pipeline behaviour that turns validator failures into a ValidationException is not part of this model. `Middleware.RejectedUploadResponse` starts from that exception.
- Common.Exception.Message: for a ValidationException it yields only the "Validation failed" summary. FluentValidation appends one line per failure, which is left out because the middleware lists the failures itself and never reads that text.
- Writing the error response body is I/O. `HandleException` returns the response that would be serialised.
- ImageProcessing.ResizedImageOf and ImageProcessing.MetadataOf: they require a well-formed store, which every reachable store is (`ProcessKeepsInvariant`).
