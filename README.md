# pyraw: raw camera images to FITS, modelled in Dafny

pyraw turns a camera raw file (NEF, CR2) into a FITS HDU list. An external
decoder (dcraw) does the decoding. `pyraw/rawimage.py` then does four things:

- It reads the decoder's binary "P5" PGM output: the header, the sample width
  and the row-major raster.
- It scrapes the decoder's metadata report. There is one labelled
  regular-expression search per field. The timestamp is rewritten through a
  month table and the filter pattern becomes a 2x2 tile.
- It optionally splits the Bayer mosaic into its four colour planes.
- It builds one of three HDU lists and stamps every header with the same
  metadata keywords and comments.

The model keeps the source's structure, module by module:

| module | file | models |
|---|---|---|
| `Results` | results.dfy | `Option` and `Result` |
| `PixelGrid` | pixel_grid.dfy | a 2-D array of samples |
| `Pgm` | pgm.dfy | `read_pgm` |
| `Scrape` | scrape.dfy | `re.search('(?<=Label).*(?=suffix)')` and `str.strip()` |
| `Timestamp` | timestamp.dfy | `str.split`, `int()`, the months table, `datetime` and the `%Y-%m-%d %H:%M:%S` format |
| `Channels` | channels.dfy | the filter tile and the strided slices `raw[a::2, b::2]` |
| `Metadata` | metadata.dfy | the eight searches of `raw_to_fits` |
| `Fits` | fits.dfy | a `Header` class with `update` and `add_comment`, and `_update_header` |
| `Conversion` | conversion.dfy | `read_raw`, the three-way output selection and `raw_to_fits` |

The code that changes state is modelled as methods:

- `header.update` and `header.add_comment` mutate a `Header` object in place.
- `_update_header` is a method on such a header.
- The HDU-building branches of `raw_to_fits` allocate headers.

Each method is proved against a pure function of its inputs: `SetCards`,
`Assemble` and `Convert`. The rest is pure functions, and the main ones have
a partner stated independently of them:

- the PGM matcher has a declarative header grammar;
- `str()` and `int()` are each other's inverse, and so are `split` and `join`;
- the block-by-block split has the all-at-once split;
- `update` has the lookups it answers.

`read_raw` as written cannot take its default branch (see "## Findings").
`ReadRaw` is the intended version, and the rest of the model uses it.

Some points of the model follow the code's exact behaviour:

- **The PGM header.** It is matched by an explicit backtracking matcher that
  tries alternatives in the order Python's regular-expression engine does.
  Soundness and completeness lemmas tie the matcher to a declarative grammar
  (`HeaderShape`).
- **Trailing comment lines.** As written, the trailing group
  `(?:\s*#.*[\r\n]\s)*` after maxval also consumes raster bytes that happen
  to look like a comment line. This departs from the Netpbm format, where
  the raster starts right after the single whitespace byte after maxval.
  The model does the same as the code:
  - `TrailerTakesRaster` shows raster bytes `#`, LF and a blank taken into
    the header;
  - `TrailerStops` shows that the group takes every trailing line it can.
- **The header dcraw writes.** A header is `P5`, the three numbers and one
  whitespace byte after each, with no comment lines. When the trailing group
  finds no comment line after it, such a header reads as exactly its three
  values, and the raster starts right after it (`PlainHeaderRoundTrip`,
  `ReadPlainPgm`). That is so when the raster does not begin with whitespace
  or `#` (`NoTrailer`); when it begins with `#`, LF and a blank, the header
  takes those bytes (`TrailerTakesRaster`).
- **Whitespace and `int()`.** These are Python 2 byte-string semantics:
  `\s`, `strip()` and `split()` use the six ASCII blanks.
- **Years before 1900.** `strftime` refuses them, as Python 2's does.
- **Where `.*` stops.** It ends at LF.
- **`.*(?=sec)`.** It ends at the last `sec` on the line.
- **`re.search`.** It takes the leftmost position at which the whole pattern
  matches. This need not be the first occurrence of the label: for
  `Shutter:` with no `sec` on the same line, the next occurrence is tried.
- **The first missing colour.** When a colour is missing from the tile, the
  split raises at the first cell it looks up in source order: R, then G
  twice, then B. `ChannelsFail` and `CellByCellIsSplit` state this.

## Model

| member | source | states |
|---|---|---|
| Pgm.SpaceRun | pyraw/rawimage.py:27-30 | `\s*` takes the longest run of whitespace: every byte in it is whitespace and the next one is not |
| Pgm.DigitRun | pyraw/rawimage.py:28-30 | `\d+` takes the longest run of digits: every byte in it is a digit and the next one is not |
| Pgm.LineRun | pyraw/rawimage.py:27 | `.` stops at the first LF: no byte in the run is LF, and the run ends at LF or at the end of the buffer |
| Pgm.CommentBody | pyraw/rawimage.py:27 | the `\s*#` part of a comment line, when present, ends just after a `#` |
| Pgm.Candidates | pyraw/rawimage.py:27 | the `.*` of a comment line has only positions inside the buffer to try |
| Pgm.Comments | pyraw/rawimage.py:27-30 | a match from a position holds exactly the tokens still to read and ends after that position, inside the buffer |
| Pgm.TryCommentEnds | pyraw/rawimage.py:27 | trying a comment line's ends gives a tail with the tokens still to read, ending inside the buffer |
| Pgm.Number | pyraw/rawimage.py:28-30 | reading a token and the rest gives the tokens still to read, ending after the token's start and inside the buffer |
| Pgm.LastTrailerEnd | pyraw/rawimage.py:30 | `.*[\r\n]\s` of a trailing line stops inside the range it tries, just after a line end followed by whitespace |
| Pgm.LastTrailerEndIsLast | pyraw/rawimage.py:30 | that stop is the last such line end in range (greedy `.*`), and there is none only when no line end in range is followed by whitespace |
| Pgm.TrailerItem | pyraw/rawimage.py:30 | a trailing comment line, when one matches, ends after its start and inside the buffer |
| Pgm.Trailer | pyraw/rawimage.py:30 | the trailing group ends between its start and the end of the buffer |
| Pgm.TrailerEnds | pyraw/rawimage.py:30 | the trailing group stops only where the matcher finds no further trailing comment line |
| Pgm.MatchHeader | pyraw/rawimage.py:26-30 | a match starts with `P5` and one whitespace byte, holds three tokens, and ends inside the buffer |
| Pgm.CommentLineThenTail | pyraw/rawimage.py:27 | a comment line ended by the line end the matcher tries, before a tail of the grammar, is a tail of the grammar from the earlier position |
| Pgm.TrailerItemLongest | pyraw/rawimage.py:30 | at the start of a trailing line of the grammar, the matcher takes a trailing line at least as long |
| Pgm.TrailerStops | pyraw/rawimage.py:30 | where the trailing group stops, no trailing line of the grammar starts: the group takes every line it can |
| Pgm.CommentLineAt | pyraw/rawimage.py:27 | blanks, `#`, bytes other than LF and a CR or LF form one comment line of the grammar |
| Pgm.PrependCommentLine | pyraw/rawimage.py:27-30 | a comment line in front of a header tail gives a header tail of the grammar from the earlier position |
| Pgm.TrailerSound | pyraw/rawimage.py:30 | what the matcher takes as trailing comment lines is a sequence of the grammar's trailing lines |
| Pgm.TrailerItemLine | pyraw/rawimage.py:30 | each trailing line the matcher accepts is a trailing line of the grammar |
| Pgm.CommentsSound | pyraw/rawimage.py:26-30 | every header tail the matcher finds from a position is a tail of the grammar with the same tokens and end |
| Pgm.TryCommentEndsSound | pyraw/rawimage.py:27 | trying a comment line's ends from the right only produces tails of the grammar |
| Pgm.NumberSound | pyraw/rawimage.py:28-30 | a token the matcher reads, with what follows it, is a tail of the grammar |
| Pgm.TokenFirst | pyraw/rawimage.py:28-30 | a digit run and one whitespace byte, in front of the tail of the remaining tokens, is a tail of the grammar |
| Pgm.MatchHeaderSound | pyraw/rawimage.py:26-30 | a header the matcher finds starts with `P5` and one whitespace byte and has the grammar's shape |
| Pgm.CommentBodyOfLine | pyraw/rawimage.py:27 | at the start of a grammar comment line, the matcher finds the `#` and reaches the line's end among the ends it tries |
| Pgm.TryCommentEndsComplete | pyraw/rawimage.py:27 | when one of the line ends it tries leads to a tail, trying the ends finds a tail |
| Pgm.CommentsComplete | pyraw/rawimage.py:26-30 | whenever a tail of the grammar starts at a position, the matcher finds a tail there |
| Pgm.CommentThenMatch | pyraw/rawimage.py:27 | a comment line followed by a tail the matcher finds is matched too |
| Pgm.NumberComplete | pyraw/rawimage.py:28-30 | when a grammar tail starts with a token, the matcher reads that token and finds a tail |
| Pgm.NextTokenComplete | pyraw/rawimage.py:28-30 | after a token, the matcher finds the remaining tokens whenever the grammar has them |
| Pgm.DigitRunAt | pyraw/rawimage.py:28 | a run of digits that ends at a non-digit is exactly what `\d+` takes |
| Pgm.NumberAt | pyraw/rawimage.py:28-30 | a digit run ended by whitespace is read as a token, when the rest matches |
| Pgm.MatchHeaderComplete | pyraw/rawimage.py:26-32 | whenever the buffer starts with a header of the grammar, the search finds a header, so the "Not a raw PGM file" error is raised only when no header exists |
| Pgm.TokensShape | pyraw/rawimage.py:26-30 | a header of the grammar has exactly three tokens, width, height and maxval, each a run of digits within the buffer |
| Pgm.ParseHeader | pyraw/rawimage.py:26-32 | the header is found exactly when the buffer starts with a header of the grammar, and then its width, height, maxval and length describe such a header |
| Pgm.NumberValue | pyraw/rawimage.py:34-37 | `int()` of n digits is below 10^n |
| Pgm.Digits | pyraw/rawimage.py:28-30 | `%d` writes a non-empty digit run, with a leading 0 only for zero |
| Pgm.NumberValueOfDigits | pyraw/rawimage.py:34-37 | `int()` reads back what `%d` writes |
| Pgm.HeaderOfMatch | pyraw/rawimage.py:26-37 | the header values are `int()` of the three groups the search captures, and its length is where the match ends |
| Pgm.SampleSize | pyraw/rawimage.py:34 | a sample takes one or two bytes |
| Pgm.SampleAt | pyraw/rawimage.py:34 | a `u1` sample is below 256; a `u2` sample is below 65536, with its high byte first for `>` and last for `<` |
| Pgm.Samples | pyraw/rawimage.py:33-36 | `frombuffer` reads exactly `count` samples, the n-th at `offset + n * size`, in the requested byte order |
| Pgm.RowOf | pyraw/rawimage.py:37 | row i of the reshape holds samples `i*width .. i*width+width-1` |
| Pgm.Reshape | pyraw/rawimage.py:37 | the reshape has `height` rows of `width` samples, row by row |
| Pgm.ReshapeAt | pyraw/rawimage.py:37 | sample (i, j) of the reshape is the flat sample `i*width + j` (row-major) |
| Pgm.PixelInRaster | pyraw/rawimage.py:33-37 | every pixel of the raster lies inside the `width*height*size` bytes after the header |
| Pgm.RasterSamples | pyraw/rawimage.py:33-36 | `width*height` samples are read, starting right after the header |
| Pgm.RasterPixel | pyraw/rawimage.py:33-37 | pixel (i, j) is the sample at `len(header) + (i*width + j)*size` |
| Pgm.Raster | pyraw/rawimage.py:33-37 | the grid has `height` rows of `width` samples, and pixel (i, j) is the sample at `len(header) + (i*width + j)*size`: one byte when maxval < 256, otherwise two in the given byte order |
| Pgm.ReadPgm | pyraw/rawimage.py:18-37 | fails with NotRawPgm exactly when no header matches; with too few bytes for `width*height` samples it fails as `frombuffer` does; otherwise it gives the `height` x `width` row-major grid of samples starting at `len(header)` |
| Pgm.TokenThenRest | pyraw/rawimage.py:28-30 | a digit run ended by whitespace, before a matched rest, is read as that token followed by the rest |
| Pgm.PlainToken | pyraw/rawimage.py:27-30 | with no comment line before it, such a token is what the match from its position reads first |
| Pgm.PlainMaxval | pyraw/rawimage.py:30 | in a header without comment lines, the match from maxval reads maxval, then the trailing group |
| Pgm.PlainHeight | pyraw/rawimage.py:29-30 | in a header without comment lines, the match from height reads height and maxval |
| Pgm.PlainTokens | pyraw/rawimage.py:26-30 | in a header without comment lines, the search captures exactly the three digit runs |
| Pgm.NoTrailer | pyraw/rawimage.py:30 | a byte that is neither whitespace nor `#`, or the end of the buffer, starts no trailing comment line and leaves the trailing group empty |
| Pgm.OneTrailerLine | pyraw/rawimage.py:30 | `#`, LF and one whitespace byte form one trailing line, and the group stops after it |
| Pgm.PlainHeaderRoundTrip | pyraw/rawimage.py:26-37 | a header without comment lines, before samples where the trailing group finds no comment line, reads as exactly its three values and ends after maxval's whitespace byte |
| Pgm.TrailerTakesRaster | pyraw/rawimage.py:30 | raster bytes `#`, LF and whitespace after such a header are taken into it, and the samples start three bytes later |
| Pgm.ReadPlainPgm | pyraw/rawimage.py:18-37 | read_pgm of a file with such a header, when the trailing group finds no comment line, gives the `height` x `width` raster right after the header, or BufferTooSmall |
| Scrape.LineEnd | pyraw/rawimage.py:96 | `.*` runs to the first LF or to the end of the text, and takes no LF |
| Scrape.LastSuffix | pyraw/rawimage.py:104 | `.*(?=sec)` ends at the last position on the line where the suffix starts, and there is none only when the suffix starts nowhere on the line |
| Scrape.MatchAt | pyraw/rawimage.py:96 | the pattern matches at p exactly when the label ends at p (and, with a suffix, the suffix starts on the rest of the line); the match is the one Python's engine takes |
| Scrape.SearchFrom | pyraw/rawimage.py:96 | the search finds the leftmost position from p at which the pattern matches, and finds none only when it matches nowhere |
| Scrape.Search | pyraw/rawimage.py:96 | `re.search` finds the leftmost match and returns None only when the pattern matches nowhere |
| Scrape.SearchFindsLabel | pyraw/rawimage.py:96-133 | a label that does not occur makes the search fail; a label that occurs is always found when the field runs to line end |
| Scrape.SkipBlanks | pyraw/rawimage.py:105 | the blanks `strip()` removes from the front, and the next character is not blank |
| Scrape.SkipBlanksBack | pyraw/rawimage.py:105 | the blanks `strip()` removes from the back |
| Scrape.Strip | pyraw/rawimage.py:105 | `strip()` gives a substring with only blanks cut off each end, and its ends are not blank |
| Scrape.StripPadded | pyraw/rawimage.py:105 | `strip()` of a string with blank padding is the string itself when its ends are not blank |
| Scrape.StripBlank | pyraw/rawimage.py:105 | `strip()` of blanks alone is empty |
| Scrape.StripAround | pyraw/rawimage.py:105 | `strip()` removes exactly the blank padding around a string with non-blank ends |
| Scrape.ScrapeField | pyraw/rawimage.py:104-105 | `m.group(0).strip()`: present exactly when the search finds a match, and then the stripped matched text |
| Scrape.LineEndOf | pyraw/rawimage.py:96 | a value without LF followed by LF or the end of the text runs to the end of the line |
| Scrape.SearchStart | pyraw/rawimage.py:96 | the first position at which the label ends and the pattern matches is where the search's match starts |
| Scrape.ScrapeLine | pyraw/rawimage.py:107-108 | a report whose first label is followed by v and then a line end gives `strip(v)` |
| Scrape.ScrapeUpTo | pyraw/rawimage.py:104-105 | a report whose first label is followed by v, the suffix, and a tail with no later suffix on the line gives `strip(v)` |
| Scrape.ScrapeUpToAt | pyraw/rawimage.py:104-105 | when the label first ends at p and q is the last suffix position on that line, the field is `text[p..q]` stripped |
| Scrape.UpToLayout | pyraw/rawimage.py:104 | in such a report the label ends just before v, the line ends after the tail, and the suffix starts right after v |
| Timestamp.WordEnd | pyraw/rawimage.py:97 | a word of `split()` runs to the next blank or to the end |
| Timestamp.Split | pyraw/rawimage.py:97 | `split()` gives non-empty words without blanks |
| Timestamp.SplitBlanks | pyraw/rawimage.py:97 | leading blanks do not change what `split()` gives |
| Timestamp.SplitWord | pyraw/rawimage.py:97 | a word followed by a blank (or the end) is the first word of `split()` |
| Timestamp.SpacedStart | pyraw/rawimage.py:97 | text laid out with a non-empty leading gap starts with that gap |
| Timestamp.SplitSpaced | pyraw/rawimage.py:97 | `split()` of words laid out with any blank gaps gives the words back |
| Timestamp.PieceEnd | pyraw/rawimage.py:99 | a piece of `split(':')` runs to the next separator or to the end |
| Timestamp.SplitOn | pyraw/rawimage.py:99 | `split(':')` gives at least one piece, and no piece contains the separator |
| Timestamp.JoinSplitOn | pyraw/rawimage.py:99 | joining the pieces of `split(sep)` with sep gives the string back |
| Timestamp.SplitOnJoin | pyraw/rawimage.py:99 | splitting pieces joined by a separator they do not contain gives the pieces back |
| Timestamp.Decimal | pyraw/rawimage.py:99 | `str(n)` is a non-empty string of decimal digits |
| Timestamp.DecimalValueOfDecimal | pyraw/rawimage.py:99 | reading the decimal digits of n gives n back |
| Timestamp.TwoDigits | pyraw/rawimage.py:100 | `%m`, `%d`, `%H`, `%M`, `%S` are two digits |
| Timestamp.FourDigits | pyraw/rawimage.py:100 | `%Y` is four digits |
| Timestamp.DecimalValueOfTwoDigits | pyraw/rawimage.py:100 | two zero-padded digits read back as the number |
| Timestamp.DecimalValueOfFourDigits | pyraw/rawimage.py:100 | four zero-padded digits read back as the year |
| Timestamp.ParseShowInt | pyraw/rawimage.py:99 | `int()` reads back what `str()` writes, for every integer, negative ones included |
| Timestamp.ParseNegative | pyraw/rawimage.py:99 | `int()` of a minus sign and digits is the negated value |
| Timestamp.ParseInt | pyraw/rawimage.py:99 | `int()` accepts every digit string, as a non-negative number; a negative result has a minus sign, and a minus sign gives no positive result |
| Timestamp.ParseIntShape | pyraw/rawimage.py:99 | `int()` accepts only an optional sign followed by at least one digit; a sign alone is refused |
| Timestamp.ParseClock | pyraw/rawimage.py:99 | the clock is three `:` pieces that each parse; MissingWord means fewer than three pieces, all of which parse; NotAnInteger names a piece that does not parse |
| Timestamp.MonthsTable | pyraw/rawimage.py:98 | the months table maps the twelve abbreviations one-to-one onto 1..12, in calendar order |
| Timestamp.DaysInMonth | pyraw/rawimage.py:99 | months have 28 to 31 days, with 29 exactly for February of a leap year |
| Timestamp.IsValid | pyraw/rawimage.py:99 | a valid date has at most 31 days in its month, at most 29 in February, and 29 February only in a leap year |
| Timestamp.Format | pyraw/rawimage.py:100 | the formatted date is 19 characters long |
| Timestamp.ReadFormattedOfFormat | pyraw/rawimage.py:100 | the formatted date determines the date: reading its six fields back gives it again |
| Timestamp.ParseTimestamp | pyraw/rawimage.py:96-100 | a converted timestamp is the `yyyy-mm-dd hh:mm:ss` form of a valid date from 1900 on |
| Timestamp.ParseDigits | pyraw/rawimage.py:99 | `int()` of a digit string is its decimal value |
| Timestamp.WordOfDigits | pyraw/rawimage.py:97 | a digit string is one word of `split()` |
| Timestamp.ParseCtimeClock | pyraw/rawimage.py:99 | the `hh:mm:ss` clock word gives back its hour, minute and second |
| Timestamp.ParseCtime | pyraw/rawimage.py:96-100 | every `Www Mmm d hh:mm:ss yyyy` timestamp of a valid date from 1900 on, with any weekday and any blank spacing, becomes that date as `yyyy-mm-dd hh:mm:ss` |
| Timestamp.UnknownMonthFails | pyraw/rawimage.py:98-99 | a month word not in the table makes the conversion fail at the months lookup |
| Metadata.Group | pyraw/rawimage.py:96-97 | the unstripped Timestamp value is present exactly when the search finds it |
| Metadata.PatternPrefix | pyraw/rawimage.py:133 | `[:4]` keeps the first four characters, or all of them when there are fewer |
| Metadata.ExtractRest | pyraw/rawimage.py:117-134 | on success, focal (up to `mm`), filename, camera and pattern are the fields scraped, BAYERPA is the pattern's first four characters and the tile is laid out from them; a bad pattern has fewer than four characters |
| Metadata.Extract | pyraw/rawimage.py:95-134 | a missing Timestamp label and a bad timestamp are errors; on success every field is its scraped, stripped text (the shutter up to `sec`), and the date is the converted timestamp |
| Metadata.ExtractFinds | pyraw/rawimage.py:95-134 | a successful extraction has found all eight labels |
| Metadata.MissingMarkerAborts | pyraw/rawimage.py:95-134 | a report missing any of the eight labels aborts the conversion: there is no default |
| Channels.Flatten | pyraw/rawimage.py:134 | a tile holds four characters |
| Channels.ToTile | pyraw/rawimage.py:133-134 | `reshape((2, 2))` succeeds exactly on four characters, laid out row-major |
| Channels.ToTileOfFlatten | pyraw/rawimage.py:134 | flattening a tile and reshaping gives the tile back |
| Channels.Positions | pyraw/rawimage.py:160 | `split_map[bayer_pattern == c]` lists only cells of colour c |
| Channels.PositionsComplete | pyraw/rawimage.py:160 | every cell of colour c is in the list |
| Channels.PositionsOrdered | pyraw/rawimage.py:160 | the list is in row-major order |
| Channels.OrderedExtend | pyraw/rawimage.py:160 | extending the list by a later cell keeps it row-major |
| Channels.PositionsCount | pyraw/rawimage.py:160 | the list has as many cells as the tile has characters of colour c |
| Channels.EveryOther | pyraw/rawimage.py:161 | `s[a::2]` holds `s[a + 2k]` for each k, and no more |
| Channels.Columns | pyraw/rawimage.py:161 | the column slice applies `[b::2]` to every row |
| Channels.Stride | pyraw/rawimage.py:161 | `raw[a::2, b::2]` has one row per raster row a, a+2, …, and its k-th row is raster row `a + 2k` sliced `[b::2]` |
| Channels.StrideRow | pyraw/rawimage.py:161 | row i of `raw[a::2, b::2]` is row `a + 2i` of the raster, sliced `[b::2]` |
| Channels.StrideShape | pyraw/rawimage.py:161 | `raw[a::2, b::2]` of an h x w raster has the stride-length shape, and each of its samples is raster sample `(a + 2i, b + 2j)` |
| Channels.PickCell | pyraw/rawimage.py:160 | `split_map[bayer_pattern == c][index]` is the index-th cell of colour c in row-major order, and raises exactly when there are not enough such cells |
| Channels.CountsBound | pyraw/rawimage.py:158-184 | the R, G and B counts of a pattern add up to at most its length |
| Channels.SplitColorsAreBayer | pyraw/rawimage.py:158-184 | a tile has the cells the split reads (an R, two G, a B) exactly when it is one R, two G and one B |
| Channels.ChannelOffsets | pyraw/rawimage.py:158-178 | the four cells are the R, the first G, the second G and the B, each of its colour; the first missing one, in that order, is the error |
| Channels.SplitChannels | pyraw/rawimage.py:158-184 | the split succeeds exactly on a Bayer tile, and then gives R, G1, G2, B, each the `[a::2, b::2]` slice at its cell |
| Channels.BayerCellsPartition | pyraw/rawimage.py:158-184 | on a Bayer tile every cell belongs to one of the four channels, and no two channels share a cell |
| Channels.BayerCellIndex | pyraw/rawimage.py:158-184 | on a Bayer tile each cell is the cell of some channel |
| Channels.CellOfCount | pyraw/rawimage.py:160 | a cell of a colour that occurs at most twice is the first or the second in the row-major list |
| Channels.BayerCellsDistinct | pyraw/rawimage.py:158-184 | the four channel cells of a Bayer tile are pairwise different |
| Channels.BayerColor | pyraw/rawimage.py:158-184 | every cell of a Bayer tile is R, G or B |
| Channels.OtherColorBound | pyraw/rawimage.py:158-184 | the counts of R, G, B and any other colour add up to at most the length |
| Channels.EvenStrideLength | pyraw/rawimage.py:161 | an `[a::2]` slice of an even length n has n/2 elements |
| Channels.StrideHalf | pyraw/rawimage.py:161 | every channel slice of an even-sized raster is `(h/2) x (w/2)` |
| Channels.StrideAt | pyraw/rawimage.py:161 | sample (p, q) of the slice at cell (a, b) is raster sample `(a + 2p, b + 2q)` |
| Channels.SplitPartitionsRaster | pyraw/rawimage.py:158-184 | for even dimensions and a Bayer tile, every raster sample appears in exactly one channel, at `(i/2, j/2)`, and that channel's colour is the sample's filter colour |
| Channels.SplitShape | pyraw/rawimage.py:158-184 | for even dimensions, all four channels are `(h/2) x (w/2)` |
| Fits.Lookup | pyraw/rawimage.py:138-145 | a key reads a value exactly when a card has that key, and then the value of the first card with that key |
| Fits.SetCard | pyraw/rawimage.py:138 | `update` keeps the number of cards when the key is present and adds one card otherwise |
| Fits.SetCards | pyraw/rawimage.py:138-145 | a sequence of updates adds at most one card per update and removes none |
| Fits.SetCardKeys | pyraw/rawimage.py:138 | `update` keeps the key list when the key is present and otherwise appends the key |
| Fits.LookupSetCard | pyraw/rawimage.py:138 | after `update(key, value)`, key reads value |
| Fits.LookupSetOther | pyraw/rawimage.py:138 | `update` of one key leaves every other key's value unchanged |
| Fits.SetNewCard | pyraw/rawimage.py:138 | `update` of an absent key appends one card |
| Fits.SetCardIdempotent | pyraw/rawimage.py:138 | repeating the same `update` changes nothing |
| Fits.SetCardsAppend | pyraw/rawimage.py:138-145 | updates of distinct keys that are all absent append their cards in order |
| Fits.Header.constructor | pyraw/rawimage.py:153 | a new header has no cards and no comments of the conversion's own |
| Fits.Header.Update | pyraw/rawimage.py:138 | `header.update` sets the card as SetCard states and leaves the comments alone |
| Fits.Header.AddComment | pyraw/rawimage.py:146 | `add_comment` appends one comment and leaves the cards alone |
| Fits.SetCardsStep | pyraw/rawimage.py:138-145 | one more update applies after the earlier ones |
| Fits.SetExifCards | pyraw/rawimage.py:138-145 | the eight metadata updates are the eight `update` calls, in source order |
| Fits.UpdateExifCards | pyraw/rawimage.py:138-145 | the eight `update` calls leave the cards SetCards states and do not touch the comments |
| Fits.UpdateHeader | pyraw/rawimage.py:137-148 | `_update_header` sets the eight metadata cards and appends the three comments, in order |
| Fits.LookupDistinct | pyraw/rawimage.py:138-145 | with distinct keys, every card's key reads its own value |
| Fits.ExifKeys | pyraw/rawimage.py:138-164 | the eight metadata keys are distinct, and none of them is FILTER |
| Fits.ExifCardsOnFreshHeader | pyraw/rawimage.py:137-148 | on a new header, `_update_header` leaves exactly the eight cards in order, each key reads its value, and FILTER is absent |
| Fits.FilterCardLookups | pyraw/rawimage.py:163-164 | after `_update_header` and the FILTER update, FILTER reads the channel name and each metadata key still reads its value |
| Conversion.SelectMode | pyraw/rawimage.py:152-192 | interpolate selects the colour output whatever split_channels says; otherwise split_channels selects the split, and with neither the whole mosaic is written |
| Conversion.ReadRaw | pyraw/rawimage.py:39-65 | with interpolate, the decoder's colour image is used; without it, the result is the PGM reader's result on the 16-bit output, big-endian by default, including its errors |
| Conversion.ReadRawAsWritten | pyraw/rawimage.py:39-65 | as written, interpolate always fails on the undefined name `Image`; without it, the result is the PGM reader's result |
| Conversion.ReadRawFinding | pyraw/rawimage.py:51-56 | the written and the intended read agree exactly when interpolate is off; with it the written one fails and the intended one gives the colour image |
| Conversion.AssembleShape | pyraw/rawimage.py:150-192 | the contract of `Assemble`, which builds the HDU list of the branch selected: only the split can fail; the single-HDU outputs hold the image as read; the split gives four HDUs; the first HDU is primary |
| Conversion.ConvertOrder | pyraw/rawimage.py:67-192 | the contract of `Convert`, the conversion on values: the image's error comes first, then the metadata's, and a split error only with split_channels and no interpolate; a success is Assemble of the image and metadata read |
| Conversion.Contents | pyraw/rawimage.py:184 | the list's contents are each HDU's current contents, in order |
| Conversion.ChannelHduHeader | pyraw/rawimage.py:160-182 | a channel's HDU carries the eight metadata keys, FILTER set to its name, and the three comments; the first is primary |
| Conversion.ChannelOutputHeaders | pyraw/rawimage.py:157-184 | the split gives four HDUs R, G1, G2, B, the first primary, each with the metadata, its FILTER and the three comments; it fails exactly on a tile that is not one R, two G and one B |
| Conversion.SingleOutputHeaders | pyraw/rawimage.py:152-192 | the other two modes give one primary HDU with the metadata, no FILTER and the three comments; only the whole-mosaic HDU also has the BAYERPA note |
| Conversion.MakeChannel | pyraw/rawimage.py:160-164 | one split block: fails exactly when the cell lookup fails, and otherwise gives a new HDU holding the slice at that cell, the metadata and FILTER |
| Conversion.ChannelsAgree | pyraw/rawimage.py:158-184 | when all four cells exist, the split's HDUs are the four slices at R[0], G[0], G[1], B[0], named R, G1, G2, B |
| Conversion.ChannelsFail | pyraw/rawimage.py:158-184 | when a cell is missing, the split fails with the first missing cell, in source order |
| Conversion.MakeSingle | pyraw/rawimage.py:153-189 | a new header stamped by `_update_header` holds exactly the eight cards and the three comments |
| Conversion.CellByCellShape | pyraw/rawimage.py:157-184 | the contract of `CellByCell`, the split_channels branch block by block on values: the block-by-block split succeeds exactly when all four cells are found, gives R as the primary HDU and the other three as extensions, and fails only with a split error |
| Conversion.CellByCellIsSplit | pyraw/rawimage.py:158-184 | the split done block by block gives the same HDUs, or the same error, as the split done all at once |
| Conversion.SplitHdus | pyraw/rawimage.py:157-184 | the block-by-block split gives four new, distinct headers holding the blocks' contents, or the first block's error |
| Conversion.ColorHdu | pyraw/rawimage.py:152-155 | the interpolate branch gives one primary HDU with a new header, as Assemble states |
| Conversion.MosaicHdu | pyraw/rawimage.py:187-192 | the default branch gives one primary HDU with a new header and the BAYERPA note, as Assemble states |
| Conversion.ChannelHdus | pyraw/rawimage.py:157-184 | the split branch's HDUs hold what Assemble states, each with a header of its own, or the split's error |
| Conversion.BuildHdus | pyraw/rawimage.py:150-192 | the branch the two flags select builds the HDU list Assemble states, with distinct new headers |
| Conversion.RawToFits | pyraw/rawimage.py:67-197 | the conversion returns the HDU list Convert states, with distinct new headers, or Convert's error: the image error first, then the metadata error, then the split error |

## Left out

- **The decoder (dcraw) runs.** These are the subprocesses and the sibling
  `.ppm`/`.pgm` file names (pyraw/rawimage.py:53-62 and 92-93). Their outputs
  are parameters of `Conversion.RawToFits`:
  - the interpolated colour image;
  - the `.pgm` bytes;
  - the metadata report text.
- **File I/O.** This covers the existence check, reading the file and
  `writeto` (pyraw/rawimage.py:23-24, 48-49 and 194-195). `RawToFits`
  returns the HDU list in every case.
- **`Image.open`.** Reading the `.ppm` file is a call into a library whose
  code is not part of this model. Its result is the `ppm` parameter of the
  intended `ReadRaw`. As written, the name is never imported (see
  "## Findings").
- Pgm.ParseHeader: its contract says only that the header describes some
  parse of the grammar. When the grammar allows several parses, as for
  `P5 #\r1 2 3 \n4 5 6 `, the choice among them is not part of that
  contract. The matcher makes the choice in the engine's try order: comment
  line ends from the right and the trailing group as long as possible
  (`TrailerStops`). `PlainHeaderRoundTrip` pins the result down for headers
  without comment lines when the raster does not start a trailing comment
  line, as it does not when it begins with neither whitespace nor `#`.
- **pyfits internals.** A header is modelled as its keyword cards plus its
  comment cards. The structural cards pyfits adds (SIMPLE, BITPIX, NAXIS…)
  are left out, as are card formatting and serialisation. New keyword cards
  go after the existing ones. Comments are kept as a separate list in the
  order added.
- **UI and side effects.** logging, argparse and the `__main__` driver are
  left out, and so is setup.py.
- **Text encoding.** The report is a sequence of characters with no
  encoding. `strip`, `split` and `int()` treat only the six ASCII blanks as
  whitespace.
- Timestamp.ParseInt: `int()` also accepts blanks around the digits. This is
  never reached here, because the words come from `split()`.
- Timestamp.ParseTimestamp: datetime's OverflowError and ValueError are both
  reported as OutOfRange. Its contract states only the successful result.
  Of the error paths, only the unknown month has a lemma of its own
  (`UnknownMonthFails`).
- **Pixel values.** The model holds them as `nat` rather than numpy's `u1`
  or `u2`. `SampleAt` builds each one from one byte, or from two bytes in
  the given byte order.
- **Regular expressions in general.** This model has no general engine. Each
  pattern the source uses is written out as its own matcher. The `(?<=…)`
  lookbehind is the condition that the label ends at the start position.

## Findings

| source | as written | input that shows it | evidently intended | confidence | as-written member | corrected member |
|---|---|---|---|---|---|---|
| pyraw/rawimage.py:1-56 | lines 1-16 never import `Image`, so `Image.open` in the interpolate branch raises NameError once dcraw has run | any raw file with `interpolate=True`, the default of both `read_raw` and `raw_to_fits` | `from PIL import Image`, so that the interpolated `.ppm` is read | not executed | Conversion.ReadRawAsWritten | Conversion.ReadRaw |
