/**
 * raw_to_fits (pyraw/rawimage.py:67-197) and read_raw (39-65): the image
 * is read, the metadata scraped, and one of three HDU lists built:
 *   - interpolate: one primary HDU holding the interpolated colour image;
 *   - split_channels (without interpolate): four HDUs, one per filter
 *     cell, named R, G1, G2 and B;
 *   - otherwise: one primary HDU holding the whole raw mosaic, with a
 *     comment saying that BAYERPA is the filter pattern.
 * The decoder's outputs (the interpolated image, the .pgm file's bytes and
 * the metadata report) are parameters.
 */
module Conversion {
  import opened Results
  import opened PixelGrid
  import opened Pgm
  import opened Channels
  import opened Metadata
  import opened Fits

  /** The interpolated image as np.array(Image.open(ppm)) holds it: rows of RGB pixels. */
  type ColorImage = seq<seq<seq<nat>>>

  datatype ImageData = Color(pixels: ColorImage) | Raw(grid: Grid)

  datatype HduKind = Primary | Extension

  /** One HDU: its kind, its data and the header it owns. */
  datatype Hdu = Hdu(kind: HduKind, data: ImageData, header: Header)

  /** What an HDU holds, header included. */
  datatype HduValue = HduValue(kind: HduKind, data: ImageData, cards: seq<Card>, comments: seq<string>)

  /** The three outputs of raw_to_fits. */
  datatype OutputMode = ColorOutput | ChannelOutput | MosaicOutput

  /** interpolate wins over split_channels; with neither, the whole mosaic is written. */
  function SelectMode(interpolate: bool, splitChannels: bool): (m: OutputMode)
    ensures m == ColorOutput <==> interpolate
    ensures m == ChannelOutput <==> !interpolate && splitChannels
    ensures m == MosaicOutput <==> !interpolate && !splitChannels
  {
    if interpolate then ColorOutput else if splitChannels then ChannelOutput else MosaicOutput
  }

  datatype ConversionError =
    | PgmFailed(pgm: PgmError)
    | MetadataFailed(metadata: MetadataError)
    | SplitFailed(split: SplitError)

  /**
   * read_raw as intended, with Image imported from PIL: the interpolated
   * image, or the raster of the decoder's 16-bit .pgm output.
   */
  function ReadRaw(ppm: ColorImage, pgm: seq<Byte>, interpolate: bool): (r: Result<ImageData, PgmError>)
    ensures interpolate ==> r == Success(Color(ppm))
    ensures r.Success? ==> (r.value.Raw? <==> !interpolate)
    ensures !interpolate ==>
              (r.Success? <==> ReadPgm(pgm, BigEndian).Success?) &&
              (r.Success? ==> r.value == Raw(ReadPgm(pgm, BigEndian).value)) &&
              (r.Failure? ==> r.error == ReadPgm(pgm, BigEndian).error)
  {
    if interpolate then Success(Color(ppm))
    else
      match ReadPgm(pgm, BigEndian)
      case Failure(e) => Failure(e)
      case Success(grid) => Success(Raw(grid))
  }

  /** Why read_raw as written stops. */
  datatype ReadFailure =
    | ImageUndefined            // NameError: the module never imports Image
    | PgmUnreadable(pgm: PgmError)

  /**
   * read_raw as pyraw/rawimage.py writes it: no module imports the name
   * Image, so the interpolate branch raises NameError once dcraw has run,
   * and only the .pgm branch returns an image.
   */
  function ReadRawAsWritten(pgm: seq<Byte>, interpolate: bool): (r: Result<Grid, ReadFailure>)
    ensures r == Failure(ImageUndefined) <==> interpolate
    ensures !interpolate ==>
              (r.Success? <==> ReadPgm(pgm, BigEndian).Success?) &&
              (r.Success? ==> r.value == ReadPgm(pgm, BigEndian).value) &&
              (r.Failure? ==> r.error == PgmUnreadable(ReadPgm(pgm, BigEndian).error))
  {
    if interpolate then Failure(ImageUndefined)
    else
      match ReadPgm(pgm, BigEndian)
      case Failure(e) => Failure(PgmUnreadable(e))
      case Success(grid) => Success(grid)
  }

  /** The two reads give the same image or the same .pgm error. */
  predicate SameRead(asWritten: Result<Grid, ReadFailure>, intended: Result<ImageData, PgmError>)
  {
    match asWritten
    case Success(grid) => intended == Success(Raw(grid))
    case Failure(ImageUndefined) => false
    case Failure(PgmUnreadable(e)) => intended == Failure(e)
  }

  /**
   * read_raw as written and as intended agree exactly when interpolate is
   * off; with the default, interpolate=True, the written one always fails
   * and the intended one always returns the colour image.
   */
  lemma ReadRawFinding(ppm: ColorImage, pgm: seq<Byte>, interpolate: bool)
    ensures SameRead(ReadRawAsWritten(pgm, interpolate), ReadRaw(ppm, pgm, interpolate)) <==> !interpolate
    ensures interpolate ==>
              ReadRawAsWritten(pgm, interpolate) == Failure(ImageUndefined) &&
              ReadRaw(ppm, pgm, interpolate) == Success(Color(ppm))
  {
    if !interpolate {
      match ReadPgm(pgm, BigEndian)
      case Failure(e) =>
        assert ReadRawAsWritten(pgm, interpolate) == Failure(PgmUnreadable(e));
      case Success(grid) =>
        assert ReadRawAsWritten(pgm, interpolate) == Success(grid);
    }
  }

  /** The first channel is the primary HDU, the others extensions. */
  function ChannelKind(k: nat): HduKind
  {
    if k == 0 then Primary else Extension
  }

  /** The HDU of the k-th channel of the split. */
  function ChannelHdu(ch: Channel, exif: Exif, k: nat): HduValue
  {
    HduValue(ChannelKind(k), Raw(ch.data), ExifCards(exif) + [Card("FILTER", ch.filter)], ExifComments)
  }

  /** The HDU list of an output mode, for the image and the metadata read. */
  function Assemble(data: ImageData, exif: Exif, mode: OutputMode): Result<seq<HduValue>, ConversionError>
    requires mode == ChannelOutput ==> data.Raw?
  {
    match mode
    case ColorOutput => Success([HduValue(Primary, data, ExifCards(exif), ExifComments)])
    case MosaicOutput => Success([HduValue(Primary, data, ExifCards(exif), ExifComments + [BayerComment])])
    case ChannelOutput =>
      match SplitChannels(data.grid, exif.tile)
      case Failure(e) => Failure(SplitFailed(e))
      case Success(chans) =>
        Success([ChannelHdu(chans[0], exif, 0), ChannelHdu(chans[1], exif, 1),
                 ChannelHdu(chans[2], exif, 2), ChannelHdu(chans[3], exif, 3)])
  }

  /**
   * Only the split can fail; each single-HDU output holds the image as read,
   * the split four HDUs, and the first HDU is the primary one.
   */
  lemma AssembleShape(data: ImageData, exif: Exif, mode: OutputMode)
    requires mode == ChannelOutput ==> data.Raw?
    ensures var r := Assemble(data, exif, mode);
            r.Failure? ==> mode == ChannelOutput && r.error.SplitFailed?
    ensures var r := Assemble(data, exif, mode);
            mode != ChannelOutput ==> r.Success? && |r.value| == 1 && r.value[0].data == data
    ensures var r := Assemble(data, exif, mode);
            r.Success? ==> |r.value| == (if mode == ChannelOutput then 4 else 1) && r.value[0].kind == Primary
  {
  }

  /** The HDU list raw_to_fits builds, or why it raises: image errors first, then metadata, then the split. */
  function Convert(ppm: ColorImage, pgm: seq<Byte>, report: string, splitChannels: bool, interpolate: bool)
    : Result<seq<HduValue>, ConversionError>
  {
    match ReadRaw(ppm, pgm, interpolate)
    case Failure(e) => Failure(PgmFailed(e))
    case Success(data) =>
      match Extract(report)
      case Failure(e) => Failure(MetadataFailed(e))
      case Success(exif) => Assemble(data, exif, SelectMode(interpolate, splitChannels))
  }

  /**
   * raw_to_fits raises the image's error first, then the metadata's, and a
   * split error only in the split_channels mode; with interpolate on and
   * readable metadata it yields one HDU holding the colour image.
   */
  lemma ConvertOrder(ppm: ColorImage, pgm: seq<Byte>, report: string, splitChannels: bool, interpolate: bool)
    ensures var r := Convert(ppm, pgm, report, splitChannels, interpolate);
            ReadRaw(ppm, pgm, interpolate).Failure? ==> r == Failure(PgmFailed(ReadRaw(ppm, pgm, interpolate).error))
    ensures var r := Convert(ppm, pgm, report, splitChannels, interpolate);
            ReadRaw(ppm, pgm, interpolate).Success? && Extract(report).Failure? ==>
              r == Failure(MetadataFailed(Extract(report).error))
    ensures var r := Convert(ppm, pgm, report, splitChannels, interpolate);
            r.Success? ==>
              ReadRaw(ppm, pgm, interpolate).Success? && Extract(report).Success? &&
              r == Assemble(ReadRaw(ppm, pgm, interpolate).value, Extract(report).value, SelectMode(interpolate, splitChannels))
    ensures var r := Convert(ppm, pgm, report, splitChannels, interpolate);
            r.Failure? && r.error.SplitFailed? ==> splitChannels && !interpolate
    ensures var r := Convert(ppm, pgm, report, splitChannels, interpolate);
            interpolate && Extract(report).Success? ==> r.Success? && |r.value| == 1 && r.value[0].data == Color(ppm)
  {
    var read := ReadRaw(ppm, pgm, interpolate);
    if read.Success? && Extract(report).Success? {
      AssembleShape(read.value, Extract(report).value, SelectMode(interpolate, splitChannels));
    }
  }

  /** Each of the eight metadata keys reads its value in the HDU's header. */
  predicate CarriesMetadata(u: HduValue, exif: Exif)
  {
    forall n | 0 <= n < 8 :: Lookup(u.cards, ExifCards(exif)[n].key) == Some(ExifCards(exif)[n].value)
  }

  /**
   * The k-th HDU of a list: primary when first, the eight metadata keys,
   * FILTER reading filter (None: no FILTER card), and the comments notes.
   */
  predicate Stamped(u: HduValue, exif: Exif, k: nat, filter: Option<string>, notes: seq<string>)
  {
    u.kind == ChannelKind(k) && CarriesMetadata(u, exif) && Lookup(u.cards, "FILTER") == filter && u.comments == notes
  }

  /** A channel's HDU: the metadata, FILTER set to the channel's name, and the three comments. */
  lemma ChannelHduHeader(ch: Channel, exif: Exif, k: nat)
    ensures Stamped(ChannelHdu(ch, exif, k), exif, k, Some(ch.filter), ExifComments)
  {
    FilterCardLookups(exif, ch.filter);
  }

  /**
   * The split's HDUs, R, G1, G2 and B, in that order, the first primary,
   * each with the eight metadata keys, its FILTER and the three comments.
   * The split fails exactly on a tile that is not one R, two G and one B.
   */
  lemma ChannelOutputHeaders(grid: Grid, exif: Exif)
    ensures Assemble(Raw(grid), exif, ChannelOutput).Success? <==> IsBayerTile(exif.tile)
    ensures Assemble(Raw(grid), exif, ChannelOutput).Success? ==>
              var units := Assemble(Raw(grid), exif, ChannelOutput).value;
              |units| == 4 &&
              Stamped(units[0], exif, 0, Some("R"), ExifComments) && Stamped(units[1], exif, 1, Some("G1"), ExifComments) &&
              Stamped(units[2], exif, 2, Some("G2"), ExifComments) && Stamped(units[3], exif, 3, Some("B"), ExifComments)
  {
    var r := SplitChannels(grid, exif.tile);
    if r.Success? {
      var chans := r.value;
      ChannelHduHeader(chans[0], exif, 0);
      ChannelHduHeader(chans[1], exif, 1);
      ChannelHduHeader(chans[2], exif, 2);
      ChannelHduHeader(chans[3], exif, 3);
      var units := [ChannelHdu(chans[0], exif, 0), ChannelHdu(chans[1], exif, 1),
                    ChannelHdu(chans[2], exif, 2), ChannelHdu(chans[3], exif, 3)];
      assert Assemble(Raw(grid), exif, ChannelOutput) == Success(units);
    }
  }

  /**
   * The single-HDU outputs: one primary HDU with the eight metadata keys,
   * no FILTER card, and the three comments; the whole-mosaic HDU adds the
   * note on BAYERPA, the colour image does not.  Neither can fail.
   */
  lemma SingleOutputHeaders(data: ImageData, exif: Exif, mode: OutputMode)
    requires mode != ChannelOutput
    ensures Assemble(data, exif, mode).Success?
    ensures var units := Assemble(data, exif, mode).value;
            |units| == 1 &&
            Stamped(units[0], exif, 0, None, if mode == MosaicOutput then ExifComments + [BayerComment] else ExifComments)
  {
    ExifCardsOnFreshHeader(exif);
  }

  /** What an HDU holds now. */
  function Snapshot(u: Hdu): HduValue
    reads u.header
  {
    HduValue(u.kind, u.data, u.header.cards, u.header.comments)
  }

  /** What the HDUs of a list hold now. */
  function Contents(units: seq<Hdu>): (r: seq<HduValue>)
    reads set k | 0 <= k < |units| :: units[k].header
    ensures |r| == |units|
    ensures forall k | 0 <= k < |units| :: r[k] == Snapshot(units[k])
  {
    if units == [] then [] else [Snapshot(units[0])] + Contents(units[1..])
  }

  /** The HDU of the split's channel named name, cut at cell. */
  function CellHdu(grid: Grid, exif: Exif, kind: HduKind, cell: Offset, name: string): HduValue
  {
    HduValue(kind, Raw(Stride(grid, cell)), ExifCards(exif) + [Card("FILTER", name)], ExifComments)
  }

  /**
   * One block of the split: the cell split_map[bayer_pattern == color][index],
   * the strided slice there, and a new HDU with the metadata and FILTER = name.
   */
  method MakeChannel(grid: Grid, exif: Exif, color: char, index: nat, name: string, kind: HduKind)
    returns (r: Result<Hdu, SplitError>)
    ensures r.Success? <==> PickCell(exif.tile, color, index).Success?
    ensures r.Failure? ==> r.error == PickCell(exif.tile, color, index).error
    ensures r.Success? ==>
              fresh(r.value.header) &&
              Snapshot(r.value) == CellHdu(grid, exif, kind, PickCell(exif.tile, color, index).value, name)
  {
    var cell := PickCell(exif.tile, color, index);
    if cell.Failure? {
      return Failure(cell.error);
    }
    var data := Stride(grid, cell.value);
    var h := new Header();
    UpdateHeader(h, exif);
    ExifCardsOnFreshHeader(exif);
    ExifKeys(exif);
    SetNewCard(ExifCards(exif), "FILTER", name);
    h.Update("FILTER", name);
    assert [] + ExifComments == ExifComments;
    return Success(Hdu(kind, Raw(data), h));
  }

  /** HDUs built cell by cell, in the split's order, are the HDUs of the split. */
  lemma ChannelsAgree(grid: Grid, exif: Exif)
    requires PickCell(exif.tile, 'R', 0).Success? && PickCell(exif.tile, 'G', 0).Success?
    requires PickCell(exif.tile, 'G', 1).Success? && PickCell(exif.tile, 'B', 0).Success?
    ensures Assemble(Raw(grid), exif, ChannelOutput) ==
            Success([CellHdu(grid, exif, Primary, PickCell(exif.tile, 'R', 0).value, "R"),
                     CellHdu(grid, exif, Extension, PickCell(exif.tile, 'G', 0).value, "G1"),
                     CellHdu(grid, exif, Extension, PickCell(exif.tile, 'G', 1).value, "G2"),
                     CellHdu(grid, exif, Extension, PickCell(exif.tile, 'B', 0).value, "B")])
  {
    var t := exif.tile;
    var cells := [PickCell(t, 'R', 0).value, PickCell(t, 'G', 0).value, PickCell(t, 'G', 1).value, PickCell(t, 'B', 0).value];
    assert SplitChannels(grid, t).Success? && ChannelOffsets(t).value == cells by {
      assert ChannelOffsets(t) == Success(cells);
      SplitColorsAreBayer(t);
    }
    var chans := SplitChannels(grid, t).value;
    assert ChannelHdu(chans[0], exif, 0) == CellHdu(grid, exif, Primary, cells[0], "R");
    assert ChannelHdu(chans[1], exif, 1) == CellHdu(grid, exif, Extension, cells[1], "G1");
    assert ChannelHdu(chans[2], exif, 2) == CellHdu(grid, exif, Extension, cells[2], "G2");
    assert ChannelHdu(chans[3], exif, 3) == CellHdu(grid, exif, Extension, cells[3], "B");
  }

  /** When a cell of the split is missing, the split fails on the first one missing. */
  lemma ChannelsFail(grid: Grid, exif: Exif, color: char, index: nat)
    requires PickCell(exif.tile, color, index).Failure?
    requires
      || (color == 'R' && index == 0)
      || (color == 'G' && index == 0 && PickCell(exif.tile, 'R', 0).Success?)
      || (color == 'G' && index == 1 && PickCell(exif.tile, 'R', 0).Success? && PickCell(exif.tile, 'G', 0).Success?)
      || (color == 'B' && index == 0 && PickCell(exif.tile, 'R', 0).Success? && PickCell(exif.tile, 'G', 0).Success? &&
          PickCell(exif.tile, 'G', 1).Success?)
    ensures Assemble(Raw(grid), exif, ChannelOutput) == Failure(SplitFailed(PickCell(exif.tile, color, index).error))
  {
    var t := exif.tile;
    assert ChannelOffsets(t) == Failure(PickCell(t, color, index).error);
    SplitColorsAreBayer(t);
    assert SplitChannels(grid, t) == Failure(PickCell(t, color, index).error);
  }

  /** An HDU with a new header holding the metadata, as the single-HDU outputs make it. */
  method MakeSingle(exif: Exif) returns (h: Header)
    ensures fresh(h)
    ensures h.cards == ExifCards(exif) && h.comments == ExifComments
  {
    h := new Header();
    UpdateHeader(h, exif);
    ExifCardsOnFreshHeader(exif);
    assert [] + ExifComments == ExifComments;
  }

  /**
   * The split_channels branch as the source writes it, block by block: each
   * cell is looked up in turn and the first one missing is the error.
   */
  function CellByCell(grid: Grid, exif: Exif): Result<seq<HduValue>, ConversionError>
  {
    var t := exif.tile;
    match PickCell(t, 'R', 0)
    case Failure(e) => Failure(SplitFailed(e))
    case Success(red) =>
      match PickCell(t, 'G', 0)
      case Failure(e) => Failure(SplitFailed(e))
      case Success(green1) =>
        match PickCell(t, 'G', 1)
        case Failure(e) => Failure(SplitFailed(e))
        case Success(green2) =>
          match PickCell(t, 'B', 0)
          case Failure(e) => Failure(SplitFailed(e))
          case Success(blue) =>
            Success([CellHdu(grid, exif, Primary, red, "R"), CellHdu(grid, exif, Extension, green1, "G1"),
                     CellHdu(grid, exif, Extension, green2, "G2"), CellHdu(grid, exif, Extension, blue, "B")])
  }

  /** The block-by-block split succeeds exactly when all four cells are found, with R primary and the rest extensions. */
  lemma CellByCellShape(grid: Grid, exif: Exif)
    ensures var r := CellByCell(grid, exif);
            r.Success? <==>
              PickCell(exif.tile, 'R', 0).Success? && PickCell(exif.tile, 'G', 0).Success? &&
              PickCell(exif.tile, 'G', 1).Success? && PickCell(exif.tile, 'B', 0).Success?
    ensures var r := CellByCell(grid, exif);
            r.Failure? ==> r.error.SplitFailed?
    ensures var r := CellByCell(grid, exif);
            r.Success? ==>
              |r.value| == 4 && r.value[0].kind == Primary &&
              r.value[1].kind == Extension && r.value[2].kind == Extension && r.value[3].kind == Extension
  {
  }

  /** Block by block or all at once, the split gives the same HDUs or the same error. */
  lemma CellByCellIsSplit(grid: Grid, exif: Exif)
    ensures CellByCell(grid, exif) == Assemble(Raw(grid), exif, ChannelOutput)
  {
    var t := exif.tile;
    if PickCell(t, 'R', 0).Failure? {
      ChannelsFail(grid, exif, 'R', 0);
    } else if PickCell(t, 'G', 0).Failure? {
      ChannelsFail(grid, exif, 'G', 0);
    } else if PickCell(t, 'G', 1).Failure? {
      ChannelsFail(grid, exif, 'G', 1);
    } else if PickCell(t, 'B', 0).Failure? {
      ChannelsFail(grid, exif, 'B', 0);
    } else {
      ChannelsAgree(grid, exif);
    }
  }

  /** The split_channels branch: R, G1, G2 and B, each a new HDU, with the first missing cell as the error. */
  method SplitHdus(grid: Grid, exif: Exif) returns (r: Result<seq<Hdu>, ConversionError>)
    ensures r.Success? <==> CellByCell(grid, exif).Success?
    ensures r.Failure? ==> r.error == CellByCell(grid, exif).error
    ensures r.Success? ==>
              |r.value| == 4 &&
              CellByCell(grid, exif).value ==
                [Snapshot(r.value[0]), Snapshot(r.value[1]), Snapshot(r.value[2]), Snapshot(r.value[3])]
    ensures r.Success? ==>
              fresh(r.value[0].header) && fresh(r.value[1].header) && fresh(r.value[2].header) && fresh(r.value[3].header)
    ensures r.Success? ==>
              r.value[0].header != r.value[1].header && r.value[0].header != r.value[2].header &&
              r.value[0].header != r.value[3].header && r.value[1].header != r.value[2].header &&
              r.value[1].header != r.value[3].header && r.value[2].header != r.value[3].header
  {
    var red := MakeChannel(grid, exif, 'R', 0, "R", Primary);
    if red.Failure? {
      return Failure(SplitFailed(red.error));
    }
    ghost var redValue := Snapshot(red.value);
    var green1 := MakeChannel(grid, exif, 'G', 0, "G1", Extension);
    if green1.Failure? {
      return Failure(SplitFailed(green1.error));
    }
    ghost var green1Value := Snapshot(green1.value);
    var green2 := MakeChannel(grid, exif, 'G', 1, "G2", Extension);
    if green2.Failure? {
      return Failure(SplitFailed(green2.error));
    }
    ghost var green2Value := Snapshot(green2.value);
    var blue := MakeChannel(grid, exif, 'B', 0, "B", Extension);
    if blue.Failure? {
      return Failure(SplitFailed(blue.error));
    }
    r := Success([red.value, green1.value, green2.value, blue.value]);
  }

  /** Four HDUs holding four values, in order, are a list holding them. */
  lemma FourContents(units: seq<Hdu>)
    requires |units| == 4
    ensures Contents(units) == [Snapshot(units[0]), Snapshot(units[1]), Snapshot(units[2]), Snapshot(units[3])]
  {
    var c := Contents(units);
    assert c[0] == Snapshot(units[0]) && c[1] == Snapshot(units[1]) && c[2] == Snapshot(units[2]) && c[3] == Snapshot(units[3]);
  }

  /** Four pairwise different headers are a list of different headers. */
  lemma FourHeaders(units: seq<Hdu>)
    requires |units| == 4
    requires units[0].header != units[1].header && units[0].header != units[2].header &&
             units[0].header != units[3].header && units[1].header != units[2].header &&
             units[1].header != units[3].header && units[2].header != units[3].header
    ensures forall k, l | 0 <= k < l < |units| :: units[k].header != units[l].header
  {
  }

  /** Four headers allocated since the earlier state are a list of such headers. */
  twostate lemma FourFresh(new units: seq<Hdu>)
    requires |units| == 4
    requires fresh(units[0].header) && fresh(units[1].header) && fresh(units[2].header) && fresh(units[3].header)
    ensures forall k | 0 <= k < |units| :: fresh(units[k].header)
  {
  }

  /** The interpolate branch: one primary HDU holding the colour image. */
  method ColorHdu(data: ImageData, exif: Exif) returns (u: Hdu)
    ensures fresh(u.header)
    ensures Assemble(data, exif, ColorOutput) == Success([Snapshot(u)])
  {
    var h := MakeSingle(exif);
    u := Hdu(Primary, data, h);
  }

  /** The default branch: one primary HDU holding the whole mosaic, with a note on BAYERPA. */
  method MosaicHdu(data: ImageData, exif: Exif) returns (u: Hdu)
    ensures fresh(u.header)
    ensures Assemble(data, exif, MosaicOutput) == Success([Snapshot(u)])
  {
    var h := MakeSingle(exif);
    h.AddComment(BayerComment);
    u := Hdu(Primary, data, h);
  }

  /** The split branch, as a list of HDUs of their own. */
  method ChannelHdus(grid: Grid, exif: Exif) returns (r: Result<seq<Hdu>, ConversionError>)
    ensures r.Success? <==> Assemble(Raw(grid), exif, ChannelOutput).Success?
    ensures r.Failure? ==> r.error == Assemble(Raw(grid), exif, ChannelOutput).error
    ensures r.Success? ==> Contents(r.value) == Assemble(Raw(grid), exif, ChannelOutput).value
    ensures r.Success? ==> forall k | 0 <= k < |r.value| :: fresh(r.value[k].header)
    ensures r.Success? ==> forall k, l | 0 <= k < l < |r.value| :: r.value[k].header != r.value[l].header
  {
    r := SplitHdus(grid, exif);
    CellByCellIsSplit(grid, exif);
    if r.Success? {
      FourContents(r.value);
      FourHeaders(r.value);
      FourFresh(r.value);
    }
  }

  /**
   * The output half of raw_to_fits: the HDU list of the mode the two flags
   * select, for the image and the metadata already read.
   */
  method BuildHdus(data: ImageData, exif: Exif, splitChannels: bool, interpolate: bool)
    returns (r: Result<seq<Hdu>, ConversionError>)
    requires !interpolate ==> data.Raw?
    ensures r.Success? <==> Assemble(data, exif, SelectMode(interpolate, splitChannels)).Success?
    ensures r.Failure? ==> r.error == Assemble(data, exif, SelectMode(interpolate, splitChannels)).error
    ensures r.Success? ==> Contents(r.value) == Assemble(data, exif, SelectMode(interpolate, splitChannels)).value
    ensures r.Success? ==> forall k | 0 <= k < |r.value| :: fresh(r.value[k].header)
    ensures r.Success? ==> forall k, l | 0 <= k < l < |r.value| :: r.value[k].header != r.value[l].header
  {
    if interpolate {
      var u := ColorHdu(data, exif);
      r := Success([u]);
      assert Contents(r.value) == [Snapshot(u)];
    } else if splitChannels {
      assert data == Raw(data.grid);
      r := ChannelHdus(data.grid, exif);
    } else {
      var u := MosaicHdu(data, exif);
      r := Success([u]);
      assert Contents(r.value) == [Snapshot(u)];
    }
  }

  /**
   * raw_to_fits: the HDU list it returns (or writes), each HDU with a header
   * of its own, or the error it raises, as Convert states them.
   */
  method RawToFits(ppm: ColorImage, pgm: seq<Byte>, report: string, splitChannels: bool, interpolate: bool)
    returns (r: Result<seq<Hdu>, ConversionError>)
    ensures r.Success? <==> Convert(ppm, pgm, report, splitChannels, interpolate).Success?
    ensures r.Failure? ==> r.error == Convert(ppm, pgm, report, splitChannels, interpolate).error
    ensures r.Success? ==> Contents(r.value) == Convert(ppm, pgm, report, splitChannels, interpolate).value
    ensures r.Success? ==> forall k | 0 <= k < |r.value| :: fresh(r.value[k].header)
    ensures r.Success? ==> forall k, l | 0 <= k < l < |r.value| :: r.value[k].header != r.value[l].header
  {
    var raw := ReadRaw(ppm, pgm, interpolate);
    if raw.Failure? {
      return Failure(PgmFailed(raw.error));
    }
    var extracted := Extract(report);
    if extracted.Failure? {
      return Failure(MetadataFailed(extracted.error));
    }
    r := BuildHdus(raw.value, extracted.value, splitChannels, interpolate);
  }
}
