/** The EXIF tags the processing routine reads, and the rules that turn them
    into optional metadata fields. The tag reader itself is a collaborator:
    a tag that it cannot read is `None` here. */
module Exif {
  import opened Common
  import opened Models

  datatype ExifTags = ExifTags(
    make: Option<string>,
    model: Option<string>,
    dateTime: Option<DateTime>,
    gpsLatitude: Option<seq<real>>,
    gpsLatitudeRef: Option<string>,
    gpsLongitude: Option<seq<real>>,
    gpsLongitudeRef: Option<string>)

  /** The message of the IndexOutOfRangeException raised by `latitude[2]`
      on a tag array with fewer than three elements. */
  const IndexOutOfRange := "Index was outside the bounds of the array."

  /** Degrees, minutes and seconds as decimal degrees. */
  function Magnitude(dms: seq<real>): (r: real)
    requires |dms| >= 3
    ensures dms[0] >= 0.0 && dms[1] >= 0.0 && dms[2] >= 0.0 ==> r >= dms[0]
    ensures dms[1] == 0.0 && dms[2] == 0.0 ==> r == dms[0]
  {
    dms[0] + dms[1] / 60.0 + dms[2] / 3600.0
  }

  /** One GPS coordinate: used only when both the degree/minute/second triple
      and its reference tag were read; kept positive when the reference equals
      `positiveRef` ignoring case and negated for any other reference. Reading
      the triple's third element fails when the tag holds fewer than three. */
  function Coordinate(dms: Option<seq<real>>, reference: Option<string>, positiveRef: string)
    : (r: Result<Option<real>, Exception>)
    ensures r.Failure? <==> dms.Some? && reference.Some? && |dms.value| < 3
    ensures r.Failure? ==> r.error == Other(IndexOutOfRange)
    ensures (r.Success? && r.value.Some?) <==> dms.Some? && reference.Some? && |dms.value| >= 3
    ensures r.Success? && r.value.Some? ==>
      var m := Magnitude(dms.value);
      (r.value.value == m || r.value.value == -m) &&
      (m > 0.0 ==> (r.value.value > 0.0 <==> EqualsIgnoreCase(reference.value, positiveRef))) &&
      (m < 0.0 ==> (r.value.value < 0.0 <==> EqualsIgnoreCase(reference.value, positiveRef)))
  {
    if dms.Some? && reference.Some? then
      if |dms.value| < 3 then Failure(Other(IndexOutOfRange))
      else
        var m := Magnitude(dms.value);
        Success(Some(if EqualsIgnoreCase(reference.value, positiveRef) then m else -m))
    else Success(None)
  }

  /** The latitude block: read only with both tags present, "N" positive. */
  function Latitude(tags: ExifTags): (r: Result<Option<real>, Exception>)
    ensures r.Failure? <==>
      tags.gpsLatitude.Some? && tags.gpsLatitudeRef.Some? && |tags.gpsLatitude.value| < 3
    ensures (r.Success? && r.value.Some?) <==>
      tags.gpsLatitude.Some? && tags.gpsLatitudeRef.Some? && |tags.gpsLatitude.value| >= 3
  {
    Coordinate(tags.gpsLatitude, tags.gpsLatitudeRef, "N")
  }

  /** The longitude block: read only with both tags present, "E" positive. */
  function Longitude(tags: ExifTags): (r: Result<Option<real>, Exception>)
    ensures r.Failure? <==>
      tags.gpsLongitude.Some? && tags.gpsLongitudeRef.Some? && |tags.gpsLongitude.value| < 3
    ensures (r.Success? && r.value.Some?) <==>
      tags.gpsLongitude.Some? && tags.gpsLongitudeRef.Some? && |tags.gpsLongitude.value| >= 3
  {
    Coordinate(tags.gpsLongitude, tags.gpsLongitudeRef, "E")
  }

  /** The metadata record after the tag-reading block: each tag that was read
      sets its field and every other field keeps its value; a malformed GPS
      triple aborts the block. */
  function Extract(rec: MetadataRecord, tags: ExifTags): (r: Result<MetadataRecord, Exception>)
    ensures r.Success? <==> Latitude(tags).Success? && Longitude(tags).Success?
    ensures r.Success? ==>
      && r.value.id == rec.id
      && r.value.originalFileName == rec.originalFileName
      && r.value.uploadAt == rec.uploadAt
      && r.value.cameraMake == (if tags.make.Some? then tags.make else rec.cameraMake)
      && r.value.cameraModel == (if tags.model.Some? then tags.model else rec.cameraModel)
      && r.value.takenAt == (if tags.dateTime.Some? then tags.dateTime else rec.takenAt)
      && r.value.latitude == (if Latitude(tags).value.Some? then Latitude(tags).value else rec.latitude)
      && r.value.longitude == (if Longitude(tags).value.Some? then Longitude(tags).value else rec.longitude)
    ensures r.Failure? ==> r.error == Other(IndexOutOfRange)
  {
    var r1 := if tags.make.Some? then rec.(cameraMake := tags.make) else rec;
    var r2 := if tags.model.Some? then r1.(cameraModel := tags.model) else r1;
    var r3 := if tags.dateTime.Some? then r2.(takenAt := tags.dateTime) else r2;
    match Latitude(tags)
    case Failure(e) => Failure(e)
    case Success(lat) =>
      var r4 := if lat.Some? then r3.(latitude := lat) else r3;
      match Longitude(tags)
      case Failure(e) => Failure(e)
      case Success(lon) =>
        Success(if lon.Some? then r4.(longitude := lon) else r4)
  }

  /** The worked examples: 10 degrees 30 minutes is 10.5 north and -10.5 south,
      whatever the case of the reference letter. */
  lemma SignExamples()
    ensures Coordinate(Some([10.0, 30.0, 0.0]), Some("N"), "N") == Success(Some(10.5))
    ensures Coordinate(Some([10.0, 30.0, 0.0]), Some("n"), "N") == Success(Some(10.5))
    ensures Coordinate(Some([10.0, 30.0, 0.0]), Some("S"), "N") == Success(Some(-10.5))
    ensures Coordinate(Some([10.0, 30.0, 0.0]), Some("s"), "N") == Success(Some(-10.5))
    ensures Coordinate(Some([10.0, 30.0, 0.0]), Some("w"), "E") == Success(Some(-10.5))
  {
    assert Lower("n") == Lower("N");
    assert Lower("S")[0] != Lower("N")[0];
    assert Lower("s")[0] != Lower("N")[0];
    assert Lower("w")[0] != Lower("E")[0];
  }
}
