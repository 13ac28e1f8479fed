/**
 * The metadata raw_to_fits scrapes from the decoder's report
 * (pyraw/rawimage.py:95-134): one search per field, in source order, each
 * of which aborts the conversion when its pattern is not found.
 */
module Metadata {
  import opened Results
  import opened Scrape
  import opened Timestamp
  import opened Channels

  /** The report markers and the part of the line each field takes. */
  const TimestampMarker := "Timestamp:"
  const ShutterMarker := "Shutter:"
  const ApertureMarker := "Aperture: f/"
  const IsoMarker := "ISO speed:"
  const FocalMarker := "Focal length: "
  const FilenameMarker := "Filename:"
  const CameraMarker := "Camera:"
  const PatternMarker := "Filter pattern:"

  const ShutterField := UpTo("sec")
  const FocalField := UpTo("mm")

  /** The values written into every header, and the filter tile. */
  datatype Exif = Exif(
    date: string,         // OBSTIME, "yyyy-mm-dd hh:mm:ss"
    shutter: string,      // EXPTIME, in seconds
    aperture: string,     // APERTUR, the f-number
    iso: string,          // ISO
    focal: string,        // FOCAL, in mm
    originalFile: string, // ORIGIN
    camera: string,       // CAMERA
    bayer: string,        // BAYERPA, the first four pattern characters
    tile: Tile)           // the pattern reshaped to 2x2

  datatype MetadataError =
    | MissingField(marker: string)          // re.search found nothing: m.group raises
    | BadTimestamp(cause: TimestampError)
    | BadPattern(pattern: string)           // reshape((2, 2)) of fewer than four characters

  /** The unstripped text after the marker: m.group(0). */
  function Group(report: string, marker: string, field: Field): (r: Option<string>)
    ensures r.Some? <==> Search(report, marker, field).Some?
  {
    match Search(report, marker, field)
    case None => None
    case Some(m) => Some(report[m.start .. m.end])
  }

  /** m.group(0).strip()[:4]. */
  function PatternPrefix(pattern: string): (r: string)
    ensures |r| == if |pattern| < 4 then |pattern| else 4
    ensures r == pattern[..|r|]
  {
    if |pattern| < 4 then pattern else pattern[..4]
  }

  /** The last four scraped fields, Filename to Filter pattern, given the first four. */
  function ExtractRest(report: string, date: string, shutter: string, aperture: string, iso: string)
    : (r: Result<Exif, MetadataError>)
    ensures r.Success? ==>
              var e := r.value;
              e.date == date && e.shutter == shutter && e.aperture == aperture && e.iso == iso &&
              ScrapeField(report, FocalMarker, FocalField) == Some(e.focal) &&
              ScrapeField(report, FilenameMarker, ToLineEnd) == Some(e.originalFile) &&
              ScrapeField(report, CameraMarker, ToLineEnd) == Some(e.camera) &&
              ScrapeField(report, PatternMarker, ToLineEnd).Some? &&
              e.bayer == PatternPrefix(ScrapeField(report, PatternMarker, ToLineEnd).value) &&
              |e.bayer| == 4 && Flatten(e.tile) == e.bayer
    ensures r.Failure? && r.error.BadPattern? ==> |r.error.pattern| < 4
  {
    match ScrapeField(report, FocalMarker, FocalField)
    case None => Failure(MissingField(FocalMarker))
    case Some(focal) =>
      match ScrapeField(report, FilenameMarker, ToLineEnd)
      case None => Failure(MissingField(FilenameMarker))
      case Some(originalFile) =>
        match ScrapeField(report, CameraMarker, ToLineEnd)
        case None => Failure(MissingField(CameraMarker))
        case Some(camera) =>
          match ScrapeField(report, PatternMarker, ToLineEnd)
          case None => Failure(MissingField(PatternMarker))
          case Some(pattern) =>
            var bayer := PatternPrefix(pattern);
            match ToTile(bayer)
            case None => Failure(BadPattern(bayer))
            case Some(tile) => Success(Exif(date, shutter, aperture, iso, focal, originalFile, camera, bayer, tile))
  }

  /**
   * The metadata of a report: the timestamp converted, each other field
   * the stripped text its pattern matches first, and the filter tile the
   * first four characters of the stripped pattern.  The first step that
   * fails, in source order, is the error.
   */
  function Extract(report: string): (r: Result<Exif, MetadataError>)
    ensures Group(report, TimestampMarker, ToLineEnd).None? ==> r == Failure(MissingField(TimestampMarker))
    ensures Group(report, TimestampMarker, ToLineEnd).Some? &&
            ParseTimestamp(Group(report, TimestampMarker, ToLineEnd).value).Failure? ==>
              r == Failure(BadTimestamp(ParseTimestamp(Group(report, TimestampMarker, ToLineEnd).value).error))
    ensures r.Success? ==>
              var e := r.value;
              Group(report, TimestampMarker, ToLineEnd).Some? &&
              ParseTimestamp(Group(report, TimestampMarker, ToLineEnd).value) == Success(e.date) &&
              ScrapeField(report, ShutterMarker, ShutterField) == Some(e.shutter) &&
              ScrapeField(report, ApertureMarker, ToLineEnd) == Some(e.aperture) &&
              ScrapeField(report, IsoMarker, ToLineEnd) == Some(e.iso) &&
              ExtractRest(report, e.date, e.shutter, e.aperture, e.iso) == r
    ensures r.Failure? && r.error.BadPattern? ==> |r.error.pattern| < 4
  {
    match Group(report, TimestampMarker, ToLineEnd)
    case None => Failure(MissingField(TimestampMarker))
    case Some(stamp) =>
      match ParseTimestamp(stamp)
      case Failure(e) => Failure(BadTimestamp(e))
      case Success(date) =>
        match ScrapeField(report, ShutterMarker, ShutterField)
        case None => Failure(MissingField(ShutterMarker))
        case Some(shutter) =>
          match ScrapeField(report, ApertureMarker, ToLineEnd)
          case None => Failure(MissingField(ApertureMarker))
          case Some(aperture) =>
            match ScrapeField(report, IsoMarker, ToLineEnd)
            case None => Failure(MissingField(IsoMarker))
            case Some(iso) => ExtractRest(report, date, shutter, aperture, iso)
  }

  /** The eight searches of raw_to_fits: each marker with the part of the line it takes. */
  const Searches: seq<(string, Field)> :=
    [(TimestampMarker, ToLineEnd), (ShutterMarker, ShutterField), (ApertureMarker, ToLineEnd),
     (IsoMarker, ToLineEnd), (FocalMarker, FocalField), (FilenameMarker, ToLineEnd),
     (CameraMarker, ToLineEnd), (PatternMarker, ToLineEnd)]

  /** There is no default: a report without one of the eight markers aborts the conversion. */
  lemma MissingMarkerAborts(report: string, n: nat)
    requires n < |Searches| && !Occurs(report, Searches[n].0)
    ensures Extract(report).Failure?
  {
    ExtractFinds(report);
    if n == 0 {
      SearchFindsLabel(report, TimestampMarker, ToLineEnd);
    } else if n == 1 {
      SearchFindsLabel(report, ShutterMarker, ShutterField);
    } else if n == 2 {
      SearchFindsLabel(report, ApertureMarker, ToLineEnd);
    } else if n == 3 {
      SearchFindsLabel(report, IsoMarker, ToLineEnd);
    } else if n == 4 {
      SearchFindsLabel(report, FocalMarker, FocalField);
    } else if n == 5 {
      SearchFindsLabel(report, FilenameMarker, ToLineEnd);
    } else if n == 6 {
      SearchFindsLabel(report, CameraMarker, ToLineEnd);
    } else {
      SearchFindsLabel(report, PatternMarker, ToLineEnd);
    }
  }

  /** A successful extraction found every one of the eight searches. */
  lemma ExtractFinds(report: string)
    ensures Extract(report).Success? ==>
              Search(report, TimestampMarker, ToLineEnd).Some? && Search(report, ShutterMarker, ShutterField).Some? &&
              Search(report, ApertureMarker, ToLineEnd).Some? && Search(report, IsoMarker, ToLineEnd).Some? &&
              Search(report, FocalMarker, FocalField).Some? && Search(report, FilenameMarker, ToLineEnd).Some? &&
              Search(report, CameraMarker, ToLineEnd).Some? && Search(report, PatternMarker, ToLineEnd).Some?
  {
    if Extract(report).Success? {
      var e := Extract(report).value;
      assert ExtractRest(report, e.date, e.shutter, e.aperture, e.iso).Success?;
    }
  }
}
