/** ImageProcessingService: the fixed size table, the per-image processing
    routine that commits every artifact of an identifier or none of them, and
    the two read operations. Storage is a map from identifier (directory) to
    a map from file name to file contents. */
module ImageProcessing {
  import opened Common
  import opened Models
  import opened Exif

  /** A decoded image; its pixels are the codec's business. */
  type Image = seq<byte>

  datatype Dimensions = Dimensions(width: int, height: int)

  /** A stored file. metadata.json holds the serialized record; the model keeps
      the record itself, so serialization round-trips by construction. */
  datatype Blob = Bytes(data: seq<byte>) | Json(record: MetadataRecord)

  type Directory = map<string, Blob>
  type Storage = map<string, Directory>

  const OriginalName: string := "original.jpg"
  const MetadataName: string := "metadata.json"

  function VariantName(key: string): string {
    key + ".webp"
  }

  /** The external collaborators of the routine, each of which may throw:
      copying the input stream into original.jpg, opening the EXIF reader on
      it, decoding it, resizing and WebP-encoding it to one size (including
      the save), and writing metadata.json. */
  datatype Collaborators = Collaborators(
    copyFault: Stream -> Option<Exception>,
    readExif: seq<byte> -> Result<ExifTags, Exception>,
    load: seq<byte> -> Result<Image, Exception>,
    resizeEncode: (Image, Dimensions) -> Result<seq<byte>, Exception>,
    writeFault: MetadataRecord -> Option<Exception>)

  // ---------------------------------------------------------------- size table

  /** The size table built by the constructor: keys are the lower-cased
      display names of the ImageSize members. */
  function SizeConfigurations(): (r: map<string, Dimensions>)
    ensures r.Keys == {"phone", "tablet", "desktop"}
    ensures r["phone"] == Dimensions(800, 600)
    ensures r["tablet"] == Dimensions(1024, 768)
    ensures r["desktop"] == Dimensions(1920, 1080)
    ensures forall k :: k in r ==> Lower(k) == k
    ensures forall s: ImageSize :: SizeLabel(s) in r
  {
    map[SizeLabel(Phone) := Dimensions(800, 600),
        SizeLabel(Tablet) := Dimensions(1024, 768),
        SizeLabel(Desktop) := Dimensions(1920, 1080)]
  }

  /** The keys of the size table in the order the dictionary enumerates them
      (insertion order). */
  function SizeKeys(): (r: seq<string>)
    ensures forall i, j :: 0 <= i < j < |r| ==> r[i] != r[j]
    ensures forall k :: k in r <==> k in SizeConfigurations()
  {
    [SizeLabel(Phone), SizeLabel(Tablet), SizeLabel(Desktop)]
  }

  /** The resize and WebP encoding of a decoded image to one key's dimensions. */
  function Encoding(c: Collaborators, img: Image, k: string): Result<seq<byte>, Exception>
    requires k in SizeConfigurations()
  {
    c.resizeEncode(img, SizeConfigurations()[k])
  }

  function VariantNames(keys: seq<string>): set<string> {
    set k | k in keys :: VariantName(k)
  }

  // ------------------------------------------------------- the routine, as a function

  function FreshRecord(id: string, fileName: string, now: DateTime): MetadataRecord {
    MetadataRecord(id, None, None, None, None, None, fileName, now)
  }

  /** The variant files written for the first |keys| entries of the size
      table, or the exception of the first resize that failed. */
  function Variants(c: Collaborators, img: Image, keys: seq<string>): Result<Directory, Exception>
    requires forall k :: k in keys ==> k in SizeConfigurations()
    decreases |keys|
  {
    if keys == [] then Success(map[])
    else
      match Variants(c, img, keys[..|keys| - 1])
      case Failure(e) => Failure(e)
      case Success(d) =>
        var k := keys[|keys| - 1];
        match Encoding(c, img, k)
        case Failure(e) => Failure(e)
        case Success(b) => Success(d[VariantName(k) := Bytes(b)])
  }

  /** The end of the routine: decode the stored original, write one variant
      per size table entry, then write metadata.json. */
  function Finish(c: Collaborators, original: seq<byte>, rec: MetadataRecord, dir1: Directory)
    : Result<(MetadataRecord, Directory), Exception>
  {
    match c.load(original)
    case Failure(e) => Failure(e)
    case Success(img) =>
      match Variants(c, img, SizeKeys())
      case Failure(e) => Failure(e)
      case Success(vs) =>
        match c.writeFault(rec)
        case Some(e) => Failure(e)
        case None => Success((rec, (dir1 + vs)[MetadataName := Json(rec)]))
  }

  /** The body of the routine's `try` on a directory that already holds `dir0`:
      the record and the directory contents on success, or the first
      exception thrown. */
  function Run(c: Collaborators, stream: Stream, fileName: string, id: string, now: DateTime, dir0: Directory)
    : Result<(MetadataRecord, Directory), Exception>
  {
    match c.copyFault(stream)
    case Some(e) => Failure(e)
    case None =>
      var original := stream.Remaining();
      match c.readExif(original)
      case Failure(e) => Failure(e)
      case Success(tags) =>
        match Extract(FreshRecord(id, fileName, now), tags)
        case Failure(e) => Failure(e)
        case Success(rec) => Finish(c, original, rec, dir0[OriginalName := Bytes(original)])
  }

  /** ProcessImageAsync on a whole store: the directory is created (or reused),
      filled on success, and deleted with everything in it on failure, the
      exception being rethrown. */
  function Process(s: Storage, c: Collaborators, stream: Stream, fileName: string, id: string, now: DateTime)
    : (Result<MetadataRecord, Exception>, Storage)
  {
    var dir0 := if id in s then s[id] else map[];
    match Run(c, stream, fileName, id, now, dir0)
    case Success((rec, dir)) => (Success(rec), s[id := dir])
    case Failure(e) => (Failure(e), s - {id})
  }

  // ---------------------------------------------------------------- store invariant

  /** In one directory, only metadata.json holds a record; every other file holds bytes. */
  ghost predicate WellFormedDir(dir: Directory) {
    forall name :: name in dir ==> (dir[name].Json? <==> name == MetadataName)
  }

  ghost predicate WellFormed(s: Storage) {
    forall id :: id in s ==> WellFormedDir(s[id])
  }

  /** A committed directory: the original, every variant, and the record. */
  ghost predicate Complete(dir: Directory, rec: MetadataRecord) {
    && OriginalName in dir
    && MetadataName in dir && dir[MetadataName] == Json(rec)
    && forall k :: k in SizeConfigurations() ==> VariantName(k) in dir
  }

  /** An identifier whose metadata.json exists holds the original and every
      variant. */
  ghost predicate Committed(s: Storage) {
    forall id :: id in s && MetadataName in s[id] ==>
      && OriginalName in s[id]
      && forall k :: k in SizeConfigurations() ==> VariantName(k) in s[id]
  }

  /** What the routine leaves in a committed directory: the uploaded bytes as
      the original, under each key the encoding of the decoded original at
      that key's dimensions, and the record as metadata.json. */
  ghost predicate Holds(dir: Directory, c: Collaborators, original: seq<byte>, rec: MetadataRecord) {
    && OriginalName in dir && dir[OriginalName] == Bytes(original)
    && MetadataName in dir && dir[MetadataName] == Json(rec)
    && c.load(original).Success?
    && forall k :: k in SizeConfigurations() ==>
         && Encoding(c, c.load(original).value, k).Success?
         && VariantName(k) in dir
         && dir[VariantName(k)] == Bytes(Encoding(c, c.load(original).value, k).value)
  }

  ghost predicate StoreInvariant(s: Storage) {
    WellFormed(s) && Committed(s)
  }

  // ---------------------------------------------------------------- queries

  /** GetResizedImageAsync: an unknown size label is rejected before the file
      is looked up; a missing variant is "not found"; otherwise the stored
      bytes come back unchanged. */
  function ResizedImageOf(s: Storage, id: string, size: string): (r: Result<seq<byte>, Exception>)
    requires WellFormed(s)
    ensures size !in SizeConfigurations() <==> r == Failure(Argument("Invalid size specified"))
    ensures size in SizeConfigurations() && !(id in s && VariantName(size) in s[id])
      <==> r == Failure(FileNotFound("Image not found"))
    ensures r.Success? <==> size in SizeConfigurations() && id in s && VariantName(size) in s[id]
    ensures r.Success? ==> s[id][VariantName(size)] == Bytes(r.value)
  {
    if size !in SizeConfigurations() then Failure(Argument("Invalid size specified"))
    else if !(id in s && VariantName(size) in s[id]) then Failure(FileNotFound("Image not found"))
    else
      assert VariantName(size) != MetadataName by {
        assert VariantName(size)[|VariantName(size)| - 1] == 'p';
      }
      Success(s[id][VariantName(size)].data)
  }

  /** GetImageMetadataAsync: "not found" when metadata.json is absent,
      otherwise the record that was stored. */
  function MetadataOf(s: Storage, id: string): (r: Result<MetadataRecord, Exception>)
    requires WellFormed(s)
    ensures r.Failure? <==> !(id in s && MetadataName in s[id])
    ensures r.Failure? ==> r.error == FileNotFound("Metadata not found")
    ensures r.Success? ==> s[id][MetadataName] == Json(r.value)
  {
    if !(id in s && MetadataName in s[id]) then Failure(FileNotFound("Metadata not found"))
    else Success(s[id][MetadataName].record)
  }

  // ---------------------------------------------------------------- properties

  lemma {:induction false} VariantsWritten(c: Collaborators, img: Image, keys: seq<string>)
    requires forall k :: k in keys ==> k in SizeConfigurations()
    ensures Variants(c, img, keys).Success? ==>
      && Variants(c, img, keys).value.Keys == VariantNames(keys)
      && forall n :: n in Variants(c, img, keys).value ==> Variants(c, img, keys).value[n].Bytes?
    ensures Variants(c, img, keys).Success? ==>
      forall k :: k in keys ==>
        && Encoding(c, img, k).Success?
        && VariantName(k) in Variants(c, img, keys).value
        && Variants(c, img, keys).value[VariantName(k)] == Bytes(Encoding(c, img, k).value)
    decreases |keys|
  {
    if keys != [] {
      var init := keys[..|keys| - 1];
      var last := keys[|keys| - 1];
      VariantsWritten(c, img, init);
      assert keys == init + [last];
      assert VariantNames(keys) == VariantNames(init) + {VariantName(last)};
      if Variants(c, img, keys).Success? {
        var vs := Variants(c, img, keys).value;
        assert vs == Variants(c, img, init).value[VariantName(last) := Bytes(Encoding(c, img, last).value)];
        forall k | k in keys
          ensures Encoding(c, img, k).Success? && VariantName(k) in vs && vs[VariantName(k)] == Bytes(Encoding(c, img, k).value)
        {
          if k != last {
            assert k in init;
            VariantNameInjective(k, last);
          }
        }
      }
    }
  }

  lemma VariantNameInjective(k1: string, k2: string)
    ensures VariantName(k1) == VariantName(k2) ==> k1 == k2
  {
    if VariantName(k1) == VariantName(k2) {
      assert k1 == VariantName(k1)[..|k1|];
      assert k2 == VariantName(k2)[..|k2|];
    }
  }

  lemma VariantNameNotMetadata(k: string)
    requires k in SizeConfigurations()
    ensures VariantName(k) != MetadataName && VariantName(k) != OriginalName
  {
    assert VariantName(k)[|VariantName(k)| - 1] == 'p';
  }

  /** Decoding, resizing and the metadata write either all succeed, leaving a
      complete directory, or fail. */
  lemma FinishCompletes(c: Collaborators, original: seq<byte>, rec: MetadataRecord, dir1: Directory)
    requires OriginalName in dir1
    ensures Finish(c, original, rec, dir1).Success? ==>
      && Finish(c, original, rec, dir1).value.0 == rec
      && Complete(Finish(c, original, rec, dir1).value.1, rec)
    ensures Finish(c, original, rec, dir1).Success? && WellFormedDir(dir1) ==>
      WellFormedDir(Finish(c, original, rec, dir1).value.1)
    ensures Finish(c, original, rec, dir1).Success? && dir1[OriginalName] == Bytes(original) ==>
      Holds(Finish(c, original, rec, dir1).value.1, c, original, rec)
  {
    if Finish(c, original, rec, dir1).Success? {
      var img := c.load(original).value;
      VariantsWritten(c, img, SizeKeys());
      var vs := Variants(c, img, SizeKeys()).value;
      var dir := (dir1 + vs)[MetadataName := Json(rec)];
      assert Finish(c, original, rec, dir1).value.1 == dir;
      forall k | k in SizeConfigurations() ensures VariantName(k) in dir {
        assert VariantName(k) in VariantNames(SizeKeys());
      }
      if dir1[OriginalName] == Bytes(original) {
        FinishHolds(c, original, rec, dir1);
      }
      if WellFormedDir(dir1) {
        forall name | name in dir ensures dir[name].Json? <==> name == MetadataName {
          if name in vs {
            var k :| k in SizeKeys() && name == VariantName(k);
            VariantNameNotMetadata(k);
          }
        }
      }
    }
  }

  /** No variant file name is `original.jpg` or `metadata.json`. */
  lemma VariantNamesAvoid()
    ensures OriginalName !in VariantNames(SizeKeys()) && MetadataName !in VariantNames(SizeKeys())
  {
    forall k | k in SizeKeys() ensures VariantName(k) != OriginalName && VariantName(k) != MetadataName {
      VariantNameNotMetadata(k);
    }
  }

  /** The contents a successful end of the routine leaves behind. */
  lemma FinishHolds(c: Collaborators, original: seq<byte>, rec: MetadataRecord, dir1: Directory)
    requires OriginalName in dir1 && dir1[OriginalName] == Bytes(original)
    requires Finish(c, original, rec, dir1).Success?
    ensures Holds(Finish(c, original, rec, dir1).value.1, c, original, rec)
  {
    var img := c.load(original).value;
    VariantsWritten(c, img, SizeKeys());
    var vs := Variants(c, img, SizeKeys()).value;
    VariantNamesAvoid();
    assert OriginalName !in vs && MetadataName !in vs;
    var dir := (dir1 + vs)[MetadataName := Json(rec)];
    assert Finish(c, original, rec, dir1) == Success((rec, dir));
    assert dir[OriginalName] == Bytes(original) && dir[MetadataName] == Json(rec);
    forall k | k in SizeConfigurations()
      ensures Encoding(c, img, k).Success? && VariantName(k) in dir && dir[VariantName(k)] == Bytes(Encoding(c, img, k).value)
    {
      assert k in SizeKeys();
      assert VariantName(k) in vs && vs[VariantName(k)] == Bytes(Encoding(c, img, k).value);
      VariantNameNotMetadata(k);
    }
  }

  /** A successful run leaves a complete directory whose record carries the
      given id, file name and upload time. */
  lemma RunCompletes(c: Collaborators, stream: Stream, fileName: string, id: string, now: DateTime, dir0: Directory)
    ensures Run(c, stream, fileName, id, now, dir0).Success? ==>
      var (rec, dir) := Run(c, stream, fileName, id, now, dir0).value;
      && rec.id == id && rec.originalFileName == fileName && rec.uploadAt == now
      && Complete(dir, rec)
    ensures Run(c, stream, fileName, id, now, dir0).Success? && WellFormedDir(dir0) ==>
      WellFormedDir(Run(c, stream, fileName, id, now, dir0).value.1)
    ensures Run(c, stream, fileName, id, now, dir0).Success? ==>
      var (rec, dir) := Run(c, stream, fileName, id, now, dir0).value;
      && c.readExif(stream.Remaining()).Success?
      && Extract(FreshRecord(id, fileName, now), c.readExif(stream.Remaining()).value)
         == Success(rec)
      && Holds(dir, c, stream.Remaining(), rec)
  {
    if Run(c, stream, fileName, id, now, dir0).Success? {
      var original := stream.Remaining();
      var tags := c.readExif(original).value;
      var rec := Extract(FreshRecord(id, fileName, now), tags).value;
      FinishCompletes(c, original, rec, dir0[OriginalName := Bytes(original)]);
    }
  }

  /** Commit or rollback: on success the identifier's directory holds the
      original, one variant per size-table key and the stored record; on
      failure the directory is gone; no other identifier is touched. The
      returned record carries the given id, file name and upload time. */
  lemma ProcessCommitsOrRollsBack(s: Storage, c: Collaborators, stream: Stream, fileName: string, id: string, now: DateTime)
    ensures Process(s, c, stream, fileName, id, now).1 - {id} == s - {id}
    ensures var (r, s') := Process(s, c, stream, fileName, id, now);
      r.Failure? ==> id !in s'
    ensures var (r, s') := Process(s, c, stream, fileName, id, now);
      r.Success? ==>
        && r.value.id == id && r.value.originalFileName == fileName && r.value.uploadAt == now
        && id in s' && Complete(s'[id], r.value)
    ensures var (r, s') := Process(s, c, stream, fileName, id, now);
      r.Success? ==>
        && c.readExif(stream.Remaining()).Success?
        && Extract(FreshRecord(id, fileName, now), c.readExif(stream.Remaining()).value) == r
        && id in s' && Holds(s'[id], c, stream.Remaining(), r.value)
  {
    var dir0 := if id in s then s[id] else map[];
    var run := Run(c, stream, fileName, id, now, dir0);
    if run.Success? {
      ProcessCommits(s, c, stream, fileName, id, now);
    } else {
      assert Process(s, c, stream, fileName, id, now) == (Failure(run.error), s - {id});
    }
  }

  /** The success half of ProcessCommitsOrRollsBack. */
  lemma ProcessCommits(s: Storage, c: Collaborators, stream: Stream, fileName: string, id: string, now: DateTime)
    requires Run(c, stream, fileName, id, now, if id in s then s[id] else map[]).Success?
    ensures var (r, s') := Process(s, c, stream, fileName, id, now);
      && r.Success? && s' - {id} == s - {id}
      && r.value.id == id && r.value.originalFileName == fileName && r.value.uploadAt == now
      && id in s' && Complete(s'[id], r.value)
      && c.readExif(stream.Remaining()).Success?
      && Extract(FreshRecord(id, fileName, now), c.readExif(stream.Remaining()).value) == r
      && Holds(s'[id], c, stream.Remaining(), r.value)
  {
    var dir0 := if id in s then s[id] else map[];
    RunCompletes(c, stream, fileName, id, now, dir0);
    var (rec, dir) := Run(c, stream, fileName, id, now, dir0).value;
    var s' := s[id := dir];
    assert Process(s, c, stream, fileName, id, now) == (Success(rec), s');
    UpdateOutside(s, id, dir);
    assert s'[id] == dir;
  }

  lemma UpdateOutside(s: Storage, id: string, dir: Directory)
    ensures s[id := dir] - {id} == s - {id}
  {
  }

  /** Processing keeps the store invariant: metadata.json is only ever
      written together with every variant, and a failure leaves nothing
      behind. */
  lemma ProcessKeepsInvariant(s: Storage, c: Collaborators, stream: Stream, fileName: string, id: string, now: DateTime)
    requires StoreInvariant(s)
    ensures StoreInvariant(Process(s, c, stream, fileName, id, now).1)
  {
    RunCompletes(c, stream, fileName, id, now, if id in s then s[id] else map[]);
  }

  /** What the queries see once processing settles: after a success the
      stored record and every size's bytes; after a failure "not found" for
      the metadata and for every size. */
  lemma QueriesAfterProcess(s: Storage, c: Collaborators, stream: Stream, fileName: string, id: string, now: DateTime)
    requires StoreInvariant(s)
    ensures var (r, s') := Process(s, c, stream, fileName, id, now);
      WellFormed(s') &&
      (r.Success? ==>
        && MetadataOf(s', id) == Success(r.value)
        && forall z: ImageSize :: ResizedImageOf(s', id, SizeLabel(z)).Success?)
    ensures var (r, s') := Process(s, c, stream, fileName, id, now);
      WellFormed(s') &&
      (r.Failure? ==>
        && MetadataOf(s', id) == Failure(FileNotFound("Metadata not found"))
        && forall z: ImageSize :: ResizedImageOf(s', id, SizeLabel(z)) == Failure(FileNotFound("Image not found")))
    ensures var (r, s') := Process(s, c, stream, fileName, id, now);
      r.Success? ==>
        && c.load(stream.Remaining()).Success?
        && forall z: ImageSize ::
             && Encoding(c, c.load(stream.Remaining()).value, SizeLabel(z)).Success?
             && ResizedImageOf(s', id, SizeLabel(z))
                == Success(Encoding(c, c.load(stream.Remaining()).value, SizeLabel(z)).value)
  {
    ProcessKeepsInvariant(s, c, stream, fileName, id, now);
    ProcessCommitsOrRollsBack(s, c, stream, fileName, id, now);
  }

  /** The exception a failed run rethrows is the one the first failing step
      threw, in the order copy, EXIF read, GPS conversion, decode, resize,
      metadata write; when no step fails the run succeeds. */
  lemma ProcessRethrows(s: Storage, c: Collaborators, stream: Stream, fileName: string, id: string, now: DateTime)
    ensures var r := Process(s, c, stream, fileName, id, now).0;
      c.copyFault(stream).Some? ==> r == Failure(c.copyFault(stream).value)
    ensures var (r, original) := (Process(s, c, stream, fileName, id, now).0, stream.Remaining());
      c.copyFault(stream).None? && c.readExif(original).Failure? ==>
        r == Failure(c.readExif(original).error)
    ensures var (r, original) := (Process(s, c, stream, fileName, id, now).0, stream.Remaining());
      c.copyFault(stream).None? && c.readExif(original).Success? ==>
        var tagged := Extract(FreshRecord(id, fileName, now), c.readExif(original).value);
        && (tagged.Failure? ==> r == Failure(tagged.error))
        && (tagged.Success? && c.load(original).Failure? ==> r == Failure(c.load(original).error))
        && (tagged.Success? && c.load(original).Success? ==>
              var vs := Variants(c, c.load(original).value, SizeKeys());
              && (vs.Failure? ==> r == Failure(vs.error))
              && (vs.Success? && c.writeFault(tagged.value).Some? ==> r == Failure(c.writeFault(tagged.value).value))
              && (vs.Success? && c.writeFault(tagged.value).None? ==> r == Success(tagged.value)))
  {
  }

  /** Once one resize has failed, the whole loop reports that failure. */
  lemma {:induction false} VariantsFailureSticks(c: Collaborators, img: Image, keys: seq<string>, n: nat)
    requires forall k :: k in keys ==> k in SizeConfigurations()
    requires n <= |keys| && Variants(c, img, keys[..n]).Failure?
    ensures Variants(c, img, keys) == Variants(c, img, keys[..n])
    decreases |keys| - n
  {
    if n < |keys| {
      assert keys[..n + 1][..n] == keys[..n];
      VariantsFailureSticks(c, img, keys, n + 1);
    } else {
      assert keys[..n] == keys;
    }
  }

  lemma UnionUpdate(dir: Directory, written: Directory, name: string, blob: Blob)
    ensures (dir + written)[name := blob] == dir + written[name := blob]
  {
  }

  /** The EXIF block of the routine applied to the record in place: each tag
      that was read is assigned to its property; a malformed GPS triple
      throws before the remaining assignments. */
  method ReadTags(meta: ImageMetadata, tags: ExifTags) returns (fault: Option<Exception>)
    modifies meta
    ensures Extract(old(meta.Snapshot()), tags).Success? ==>
      fault.None? && meta.Snapshot() == Extract(old(meta.Snapshot()), tags).value
    ensures Extract(old(meta.Snapshot()), tags).Failure? ==>
      fault == Some(Extract(old(meta.Snapshot()), tags).error)
  {
    if tags.make.Some? {
      meta.SetCameraMake(tags.make.value);
    }
    if tags.model.Some? {
      meta.SetCameraModel(tags.model.value);
    }
    if tags.dateTime.Some? {
      meta.SetTakenAt(tags.dateTime.value);
    }
    var lat := Latitude(tags);
    if lat.Failure? {
      return Some(lat.error);
    }
    if lat.value.Some? {
      meta.SetLatitude(lat.value.value);
    }
    var lon := Longitude(tags);
    if lon.Failure? {
      return Some(lon.error);
    }
    if lon.value.Some? {
      meta.SetLongitude(lon.value.value);
    }
    return None;
  }

  lemma SameOutside(s: Storage, t: Storage, id: string)
    requires id in t && t - {id} == s - {id}
    ensures t == s[id := t[id]]
  {
    assert forall x :: x in t <==> x in s[id := t[id]] by {
      forall x ensures x in t <==> x in s[id := t[id]] {
        if x != id {
          assert x in t <==> x in t - {id};
          assert x in s <==> x in s - {id};
        }
      }
    }
    forall x | x in t ensures t[x] == s[id := t[id]][x] {
      if x != id {
        assert t[x] == (t - {id})[x];
      }
    }
  }

  // ---------------------------------------------------------------- the service

  class ImageProcessingService {
    var storage: Storage

    ghost predicate Valid()
      reads this
    {
      StoreInvariant(storage)
    }

    /** The service opens an existing storage root; creating it when absent
        is the empty store. */
    constructor (existing: Storage)
      requires StoreInvariant(existing)
      ensures Valid() && storage == existing
    {
      storage := existing;
    }

    /** Directory.Delete(imageDirectory, true) when the directory exists. */
    method DeleteDirectory(id: string)
      modifies this
      ensures storage == old(storage) - {id}
    {
      if id in storage {
        storage := storage - {id};
      }
    }

    /** Writes one file into an existing directory. */
    method WriteFile(id: string, name: string, blob: Blob)
      requires id in storage
      modifies this
      ensures storage == old(storage)[id := old(storage)[id][name := blob]]
      ensures storage - {id} == old(storage) - {id}
    {
      storage := storage[id := storage[id][name := blob]];
    }

    /** The resize loop: one `<key>.webp` per size-table entry, in table
        order, stopping at the first exception. */
    method WriteVariants(id: string, img: Image, c: Collaborators) returns (fault: Option<Exception>)
      requires id in storage
      modifies this
      ensures id in storage && storage - {id} == old(storage) - {id}
      ensures Variants(c, img, SizeKeys()).Success? ==>
        fault.None? && storage[id] == old(storage)[id] + Variants(c, img, SizeKeys()).value
      ensures Variants(c, img, SizeKeys()).Failure? ==> fault == Some(Variants(c, img, SizeKeys()).error)
    {
      fault := WriteVariantsOf(id, img, c, SizeKeys());
    }

    /** The loop of WriteVariants over a sequence of size-table keys. */
    method WriteVariantsOf(id: string, img: Image, c: Collaborators, keys: seq<string>)
      returns (fault: Option<Exception>)
      requires id in storage
      requires forall k :: k in keys ==> k in SizeConfigurations()
      modifies this
      ensures id in storage && storage - {id} == old(storage) - {id}
      ensures Variants(c, img, keys).Success? ==>
        fault.None? && storage[id] == old(storage)[id] + Variants(c, img, keys).value
      ensures Variants(c, img, keys).Failure? ==> fault == Some(Variants(c, img, keys).error)
    {
      ghost var dir := storage[id];
      for i := 0 to |keys|
        invariant id in storage && storage - {id} == old(storage) - {id}
        invariant Variants(c, img, keys[..i]).Success?
        invariant storage[id] == dir + Variants(c, img, keys[..i]).value
      {
        assert keys[..i + 1][..i] == keys[..i];
        var k := keys[i];
        var encoded := c.resizeEncode(img, SizeConfigurations()[k]);
        if encoded.Failure? {
          assert Variants(c, img, keys[..i + 1]) == Failure(encoded.error);
          VariantsFailureSticks(c, img, keys, i + 1);
          return Some(encoded.error);
        }
        UnionUpdate(dir, Variants(c, img, keys[..i]).value, VariantName(k), Bytes(encoded.value));
        WriteFile(id, VariantName(k), Bytes(encoded.value));
      }
      assert keys[..|keys|] == keys;
      return None;
    }

    /** The end of the routine on the identifier's directory: decode, write the
        variants, then write metadata.json. */
    method FinishImage(id: string, original: seq<byte>, meta: ImageMetadata, c: Collaborators)
      returns (fault: Option<Exception>)
      requires id in storage
      modifies this
      ensures id in storage && storage - {id} == old(storage) - {id}
      ensures Finish(c, original, meta.Snapshot(), old(storage)[id]).Success? ==>
        fault.None? && storage[id] == Finish(c, original, meta.Snapshot(), old(storage)[id]).value.1
      ensures Finish(c, original, meta.Snapshot(), old(storage)[id]).Failure? ==>
        fault == Some(Finish(c, original, meta.Snapshot(), old(storage)[id]).error)
    {
      var image := c.load(original);
      if image.Failure? {
        return Some(image.error);
      }
      fault := WriteVariants(id, image.value, c);
      if fault.Some? {
        return;
      }
      var written := c.writeFault(meta.Snapshot());
      if written.Some? {
        return written;
      }
      WriteFile(id, MetadataName, Json(meta.Snapshot()));
    }

    /** ProcessImageAsync: the steps inside `try` record the first exception
        in `fault`; the single `catch` deletes the directory and rethrows it. */
    method ProcessImage(stream: Stream, fileName: string, id: string, now: DateTime, c: Collaborators)
      returns (r: Result<ImageMetadata, Exception>)
      requires Valid()
      modifies this
      ensures Valid()
      ensures r.Success? ==> fresh(r.value)
      ensures r.Success? ==> Process(old(storage), c, stream, fileName, id, now) == (Success(r.value.Snapshot()), storage)
      ensures r.Failure? ==> Process(old(storage), c, stream, fileName, id, now) == (Failure(r.error), storage)
    {
      ghost var s0 := storage;
      ProcessKeepsInvariant(s0, c, stream, fileName, id, now);
      var meta := new ImageMetadata(id, fileName, now);

      var dir0 := if id in storage then storage[id] else map[];
      ghost var run := Run(c, stream, fileName, id, now, dir0);
      storage := storage[id := dir0];
      assert storage - {id} == s0 - {id};

      var fault := c.copyFault(stream);
      if fault.None? {
        var original := stream.Remaining();
        WriteFile(id, OriginalName, Bytes(original));
        var tags := c.readExif(original);
        if tags.Failure? {
          fault := Some(tags.error);
          assert run == Failure(tags.error);
        } else {
          ghost var untagged := meta.Snapshot();
          assert untagged == FreshRecord(id, fileName, now);
          fault := ReadTags(meta, tags.value);
          if fault.None? {
            ghost var dir1 := storage[id];
            assert dir1 == dir0[OriginalName := Bytes(original)];
            assert run == Finish(c, original, meta.Snapshot(), dir1);
            fault := FinishImage(id, original, meta, c);
          } else {
            assert run == Failure(fault.value);
          }
        }
      } else {
        assert run == Failure(fault.value);
      }
      assert fault.Some? ==> run == Failure(fault.value);
      assert fault.None? ==> run == Success((meta.Snapshot(), storage[id]));

      if fault.Some? {
        DeleteDirectory(id);
        return Failure(fault.value);
      }
      SameOutside(s0, storage, id);
      return Success(meta);
    }

    /** GetResizedImageAsync. */
    method GetResizedImage(id: string, size: string) returns (r: Result<seq<byte>, Exception>)
      requires Valid()
      ensures r == ResizedImageOf(storage, id, size)
    {
      if size !in SizeConfigurations() {
        return Failure(Argument("Invalid size specified"));
      }
      var name := VariantName(size);
      if !(id in storage && name in storage[id]) {
        return Failure(FileNotFound("Image not found"));
      }
      VariantNameNotMetadata(size);
      r := Success(storage[id][name].data);
    }

    /** GetImageMetadataAsync. */
    method GetImageMetadata(id: string) returns (r: Result<MetadataRecord, Exception>)
      requires Valid()
      ensures r == MetadataOf(storage, id)
    {
      if !(id in storage && MetadataName in storage[id]) {
        return Failure(FileNotFound("Metadata not found"));
      }
      return Success(storage[id][MetadataName].record);
    }
  }
}
