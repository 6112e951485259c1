/** The image metadata record and the enumeration of output sizes. */
module Models {
  import opened Common

  /** The values an ImageMetadata holds; this is what metadata.json stores
      and what reading it back yields. */
  datatype MetadataRecord = MetadataRecord(
    id: string,
    cameraMake: Option<string>,
    cameraModel: Option<string>,
    latitude: Option<real>,
    longitude: Option<real>,
    takenAt: Option<DateTime>,
    originalFileName: string,
    uploadAt: DateTime)

  /** ImageMetadata: Id, OriginalFileName and UploadAt are init-only, so they
      are constants fixed by the constructor; the five optional fields have
      setters and start out absent. */
  class ImageMetadata {
    const Id: string
    const OriginalFileName: string
    const UploadAt: DateTime
    var CameraMake: Option<string>
    var CameraModel: Option<string>
    var Latitude: Option<real>
    var Longitude: Option<real>
    var TakenAt: Option<DateTime>

    /** The object initializer `new ImageMetadata { Id = .., OriginalFileName = .., UploadAt = .. }`. */
    constructor (id: string, fileName: string, uploadAt: DateTime)
      ensures Id == id && OriginalFileName == fileName && UploadAt == uploadAt
      ensures CameraMake == None && CameraModel == None
      ensures Latitude == None && Longitude == None && TakenAt == None
    {
      Id, OriginalFileName, UploadAt := id, fileName, uploadAt;
      CameraMake, CameraModel := None, None;
      Latitude, Longitude, TakenAt := None, None, None;
    }

    /** `new ImageMetadata()` with no initializer: the init-only strings
        default to the empty string and UploadAt to default(DateTime). */
    constructor Default()
      ensures Id == "" && OriginalFileName == "" && UploadAt == 0
      ensures CameraMake == None && CameraModel == None
      ensures Latitude == None && Longitude == None && TakenAt == None
    {
      Id, OriginalFileName, UploadAt := "", "", 0;
      CameraMake, CameraModel := None, None;
      Latitude, Longitude, TakenAt := None, None, None;
    }

    /** The current values of all eight properties. */
    function Snapshot(): (r: MetadataRecord)
      reads this
      ensures r.id == Id && r.originalFileName == OriginalFileName && r.uploadAt == UploadAt
      ensures r.cameraMake == CameraMake && r.cameraModel == CameraModel
      ensures r.latitude == Latitude && r.longitude == Longitude && r.takenAt == TakenAt
    {
      MetadataRecord(Id, CameraMake, CameraModel, Latitude, Longitude, TakenAt, OriginalFileName, UploadAt)
    }

    method SetCameraMake(v: string)
      modifies this
      ensures Snapshot() == old(Snapshot()).(cameraMake := Some(v))
    {
      CameraMake := Some(v);
    }

    method SetCameraModel(v: string)
      modifies this
      ensures Snapshot() == old(Snapshot()).(cameraModel := Some(v))
    {
      CameraModel := Some(v);
    }

    method SetLatitude(v: real)
      modifies this
      ensures Snapshot() == old(Snapshot()).(latitude := Some(v))
    {
      Latitude := Some(v);
    }

    method SetLongitude(v: real)
      modifies this
      ensures Snapshot() == old(Snapshot()).(longitude := Some(v))
    {
      Longitude := Some(v);
    }

    method SetTakenAt(v: DateTime)
      modifies this
      ensures Snapshot() == old(Snapshot()).(takenAt := Some(v))
    {
      TakenAt := Some(v);
    }
  }

  /** The ImageSize enumeration that the resized-image query takes. */
  datatype ImageSize = Phone | Tablet | Desktop

  /** GetDisplayName(): the enum member's name. */
  function DisplayName(s: ImageSize): string {
    match s
    case Phone => "Phone"
    case Tablet => "Tablet"
    case Desktop => "Desktop"
  }

  /** The label under which a size is stored and queried: its display name, lower-cased. */
  function SizeLabel(s: ImageSize): (r: string)
    ensures r == Lower(DisplayName(s))
    ensures Lower(r) == r
  {
    match s
    case Phone => "phone"
    case Tablet => "tablet"
    case Desktop => "desktop"
  }
}
