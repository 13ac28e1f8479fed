/**
 * The Bayer channel split of raw_to_fits (pyraw/rawimage.py:131-134 and
 * 157-184): the four-character filter pattern becomes a 2x2 tile, the
 * boolean mask `bayer_pattern == colour` picks tile cells out of
 * `split_map` in row-major order, and each channel is the strided slice
 * raw_data[a::2, b::2] at the picked cell (a, b).
 */
module Channels {
  import opened Results
  import opened PixelGrid

  /** A 2x2 colour filter tile; tile[r][c] is the colour at row r, column c. */
  type Tile = t: seq<seq<char>> | |t| == 2 && |t[0]| == 2 && |t[1]| == 2
    witness [['R', 'G'], ['G', 'B']]

  /** The tile's colours in row-major order. */
  function Flatten(t: Tile): (s: string)
    ensures |s| == 4
  {
    t[0] + t[1]
  }

  /**
   * np.array(list(s)).reshape((2, 2)): defined exactly for four characters,
   * which it lays out in row-major order.
   */
  function ToTile(s: string): (r: Option<Tile>)
    ensures r.Some? <==> |s| == 4
    ensures r.Some? ==> Flatten(r.value) == s
  {
    if |s| != 4 then None else Some([[s[0], s[1]], [s[2], s[3]]])
  }

  /** Reshaping the flattened tile gives the tile back. */
  lemma ToTileOfFlatten(t: Tile)
    ensures ToTile(Flatten(t)) == Some(t)
  {
    var s := Flatten(t);
    assert [s[0], s[1]] == t[0];
    assert [s[2], s[3]] == t[1];
    assert [t[0], t[1]] == t;
  }

  /** A cell (a, b) of the tile: the row and column offsets of its channel. */
  datatype Offset = Offset(row: nat, col: nat)

  predicate InTile(o: Offset) { o.row < 2 && o.col < 2 }

  /** The position of a cell in row-major order, as split_map lists the cells. */
  function CellIndex(o: Offset): nat { 2 * o.row + o.col }

  function ColorAt(t: Tile, o: Offset): char
    requires InTile(o)
  {
    t[o.row][o.col]
  }

  /** Cells listed in strictly increasing row-major order. */
  predicate RowMajorOrdered(cells: seq<Offset>)
  {
    forall k | 0 <= k < |cells| - 1 :: CellIndex(cells[k]) < CellIndex(cells[k + 1])
  }

  function CellIf(t: Tile, c: char, o: Offset): seq<Offset>
    requires InTile(o)
  {
    if ColorAt(t, o) == c then [o] else []
  }

  /** How many times c occurs in s. */
  function Count(s: string, c: char): nat
  {
    if s == [] then 0 else (if s[0] == c then 1 else 0) + Count(s[1..], c)
  }

  /** How many cells of the tile have colour c. */
  function TileCount(t: Tile, c: char): nat
  {
    Count(Flatten(t), c)
  }

  /**
   * split_map[bayer_pattern == c]: the cells of colour c, in row-major order.
   * Each listed cell has colour c; PositionsComplete, PositionsOrdered and
   * PositionsCount state the rest.
   */
  function Positions(t: Tile, c: char): (r: seq<Offset>)
    ensures forall k | 0 <= k < |r| :: InTile(r[k]) && ColorAt(t, r[k]) == c
  {
    CellIf(t, c, Offset(0, 0)) + CellIf(t, c, Offset(0, 1)) +
    CellIf(t, c, Offset(1, 0)) + CellIf(t, c, Offset(1, 1))
  }

  /** Every cell of colour c is listed. */
  lemma PositionsComplete(t: Tile, c: char, o: Offset)
    requires InTile(o) && ColorAt(t, o) == c
    ensures o in Positions(t, c)
  {
    assert o == Offset(0, 0) || o == Offset(0, 1) || o == Offset(1, 0) || o == Offset(1, 1);
  }

  /** The cells are listed in split_map's order, each once. */
  lemma PositionsOrdered(t: Tile, c: char)
    ensures RowMajorOrdered(Positions(t, c))
  {
    var p1 := CellIf(t, c, Offset(0, 0));
    var p2 := p1 + CellIf(t, c, Offset(0, 1));
    var p3 := p2 + CellIf(t, c, Offset(1, 0));
    OrderedExtend(t, c, [], Offset(0, 0));
    assert [] + p1 == p1;
    OrderedExtend(t, c, p1, Offset(0, 1));
    OrderedExtend(t, c, p2, Offset(1, 0));
    OrderedExtend(t, c, p3, Offset(1, 1));
  }

  /** Appending a later cell, or nothing, keeps a list of cells in row-major order. */
  lemma OrderedExtend(t: Tile, c: char, cells: seq<Offset>, o: Offset)
    requires InTile(o) && RowMajorOrdered(cells)
    requires forall k | 0 <= k < |cells| :: CellIndex(cells[k]) < CellIndex(o)
    ensures RowMajorOrdered(cells + CellIf(t, c, o))
    ensures forall k | 0 <= k < |cells + CellIf(t, c, o)| :: CellIndex((cells + CellIf(t, c, o))[k]) <= CellIndex(o)
  {
    var r := cells + CellIf(t, c, o);
    assert forall k | 0 <= k < |cells| :: r[k] == cells[k];
  }

  /** As many cells are listed as the colour has in the tile. */
  lemma PositionsCount(t: Tile, c: char)
    ensures |Positions(t, c)| == TileCount(t, c)
  {
    var s := Flatten(t);
    var s1, s2, s3 := s[1..], s[2..], s[3..];
    assert s1[1..] == s2 && s2[1..] == s3 && s3[1..] == [];
    assert Count(s3, c) == (if s[3] == c then 1 else 0);
    assert Count(s2, c) == (if s[2] == c then 1 else 0) + Count(s3, c);
    assert Count(s1, c) == (if s[1] == c then 1 else 0) + Count(s2, c);
    assert s[0] == ColorAt(t, Offset(0, 0)) && s[1] == ColorAt(t, Offset(0, 1));
    assert s[2] == ColorAt(t, Offset(1, 0)) && s[3] == ColorAt(t, Offset(1, 1));
  }

  /** The number of elements of s[a::2] for a sequence of length n. */
  function StrideLength(n: nat, a: nat): nat
  {
    if a < n then (n - a + 1) / 2 else 0
  }

  /** s[a::2]: every second element, starting at a. */
  function EveryOther<T>(s: seq<T>, a: nat): (r: seq<T>)
    ensures |r| == StrideLength(|s|, a)
    ensures forall k | 0 <= k < |r| :: a + 2 * k < |s| && r[k] == s[a + 2 * k]
    decreases |s| - a
  {
    if a >= |s| then [] else [s[a]] + EveryOther(s, a + 2)
  }

  /** Every row cut to its columns b, b+2, ... */
  function Columns(rows: Grid, b: nat): (r: Grid)
    ensures |r| == |rows|
    ensures forall i | 0 <= i < |rows| :: r[i] == EveryOther(rows[i], b)
  {
    if rows == [] then [] else [EveryOther(rows[0], b)] + Columns(rows[1..], b)
  }

  /** raw_data[a::2, b::2] for the cell o = (a, b). */
  function Stride(g: Grid, o: Offset): (r: Grid)
    ensures |r| == StrideLength(|g|, o.row)
    ensures forall k | 0 <= k < |r| :: o.row + 2 * k < |g| && r[k] == EveryOther(g[o.row + 2 * k], o.col)
  {
    Columns(EveryOther(g, o.row), o.col)
  }

  /** Row i of the slice at cell (a, b) is the raster's row a + 2i cut to columns b, b+2, ... */
  lemma StrideRow(g: Grid, h: nat, o: Offset, i: nat)
    requires |g| == h && o.row + 2 * i < h
    ensures |Stride(g, o)| == StrideLength(h, o.row)
    ensures i < |Stride(g, o)| && Stride(g, o)[i] == EveryOther(g[o.row + 2 * i], o.col)
  {
    var rows := EveryOther(g, o.row);
    assert rows[i] == g[o.row + 2 * i];
  }

  /**
   * The slice at cell o of an h x w raster has ceil((h - a) / 2) rows of
   * ceil((w - b) / 2) samples, and its sample (i, j) is the raster's sample
   * (a + 2i, b + 2j).
   */
  lemma StrideShape(g: Grid, h: nat, w: nat, o: Offset)
    requires HasShape(g, h, w) && InTile(o)
    ensures HasShape(Stride(g, o), StrideLength(h, o.row), StrideLength(w, o.col))
    ensures forall i, j | 0 <= i < StrideLength(h, o.row) && 0 <= j < StrideLength(w, o.col) ::
              o.row + 2 * i < h && o.col + 2 * j < w && Stride(g, o)[i][j] == g[o.row + 2 * i][o.col + 2 * j]
  {
    var r := Stride(g, o);
    assert |r| == StrideLength(h, o.row) by {
      assert |EveryOther(g, o.row)| == StrideLength(h, o.row);
    }
    forall i | 0 <= i < StrideLength(h, o.row)
      ensures |r[i]| == StrideLength(w, o.col)
      ensures forall j | 0 <= j < StrideLength(w, o.col) ::
                o.row + 2 * i < h && o.col + 2 * j < w && r[i][j] == g[o.row + 2 * i][o.col + 2 * j]
    {
      StrideRow(g, h, o, i);
    }
  }

  /** Why the split raises: split_map[mask][index] with fewer than index + 1 cells of the colour. */
  datatype SplitError = MissingColor(color: char, index: nat)

  /** split_map[bayer_pattern == c][index]. */
  function PickCell(t: Tile, c: char, index: nat): (r: Result<Offset, SplitError>)
    ensures r.Success? <==> index < TileCount(t, c)
    ensures r.Success? ==> InTile(r.value) && ColorAt(t, r.value) == c &&
                           index < |Positions(t, c)| && r.value == Positions(t, c)[index]
    ensures r.Failure? ==> r.error == MissingColor(c, index)
  {
    var cells := Positions(t, c);
    PositionsCount(t, c);
    if index < |cells| then Success(cells[index]) else Failure(MissingColor(c, index))
  }

  /** One channel of the split: its FILTER name, its cell and its samples. */
  datatype Channel = Channel(filter: string, offset: Offset, data: Grid)

  /** The channels the split makes, in order: R, G1, G2, B. */
  const FilterNames: seq<string> := ["R", "G1", "G2", "B"]
  const FilterColors: seq<char> := ['R', 'G', 'G', 'B']

  /** The tile has at least the cells the split reads: one R, two G and one B. */
  predicate HasSplitColors(t: Tile)
  {
    TileCount(t, 'R') >= 1 && TileCount(t, 'G') >= 2 && TileCount(t, 'B') >= 1
  }

  /** A Bayer tile: exactly one R, two G and one B. */
  predicate IsBayerTile(t: Tile)
  {
    TileCount(t, 'R') == 1 && TileCount(t, 'G') == 2 && TileCount(t, 'B') == 1
  }

  lemma {:induction false} CountsBound(s: string)
    ensures Count(s, 'R') + Count(s, 'G') + Count(s, 'B') <= |s|
  {
    if s != [] {
      CountsBound(s[1..]);
    }
  }

  /** A tile of four cells has the colours the split reads exactly when it is a Bayer tile. */
  lemma SplitColorsAreBayer(t: Tile)
    ensures HasSplitColors(t) <==> IsBayerTile(t)
  {
    CountsBound(Flatten(t));
  }

  /**
   * The four cells of the split, R[0], G[0], G[1], B[0], with the first
   * missing one as the error, in that order.
   */
  function ChannelOffsets(t: Tile): (r: Result<seq<Offset>, SplitError>)
    ensures r.Success? <==> HasSplitColors(t)
    ensures r.Success? ==>
              |r.value| == 4 &&
              (forall k | 0 <= k < 4 :: InTile(r.value[k]) && ColorAt(t, r.value[k]) == FilterColors[k])
    ensures r.Success? ==>
              |Positions(t, 'R')| >= 1 && |Positions(t, 'G')| >= 2 && |Positions(t, 'B')| >= 1 &&
              r.value[0] == Positions(t, 'R')[0] && r.value[1] == Positions(t, 'G')[0] &&
              r.value[2] == Positions(t, 'G')[1] && r.value[3] == Positions(t, 'B')[0]
    ensures TileCount(t, 'R') == 0 ==> r == Failure(MissingColor('R', 0))
    ensures TileCount(t, 'R') >= 1 && TileCount(t, 'G') < 2 ==> r == Failure(MissingColor('G', TileCount(t, 'G')))
    ensures TileCount(t, 'R') >= 1 && TileCount(t, 'G') >= 2 && TileCount(t, 'B') == 0 ==>
              r == Failure(MissingColor('B', 0))
  {
    match PickCell(t, 'R', 0)
    case Failure(e) => Failure(e)
    case Success(red) =>
      match PickCell(t, 'G', 0)
      case Failure(e) => Failure(e)
      case Success(green1) =>
        match PickCell(t, 'G', 1)
        case Failure(e) => Failure(e)
        case Success(green2) =>
          match PickCell(t, 'B', 0)
          case Failure(e) => Failure(e)
          case Success(blue) => Success([red, green1, green2, blue])
  }

  /** The split_channels branch: the four strided slices of the raster, named R, G1, G2, B. */
  function SplitChannels(raw: Grid, t: Tile): (r: Result<seq<Channel>, SplitError>)
    ensures r.Success? <==> IsBayerTile(t)
    ensures r.Success? ==>
              |r.value| == 4 && ChannelOffsets(t).Success? &&
              forall k | 0 <= k < 4 ::
                r.value[k].filter == FilterNames[k] && r.value[k].offset == ChannelOffsets(t).value[k] &&
                r.value[k].data == Stride(raw, r.value[k].offset)
    ensures r.Failure? ==> ChannelOffsets(t).Failure? && r.error == ChannelOffsets(t).error
  {
    SplitColorsAreBayer(t);
    match ChannelOffsets(t)
    case Failure(e) => Failure(e)
    case Success(cells) =>
      Success(seq(4, k requires 0 <= k < 4 => Channel(FilterNames[k], cells[k], Stride(raw, cells[k]))))
  }

  /** For a Bayer tile the four cells of the split are the four cells of the tile, each once. */
  lemma BayerCellsPartition(t: Tile, o: Offset)
    requires IsBayerTile(t) && InTile(o)
    ensures ChannelOffsets(t).Success?
    ensures exists k | 0 <= k < 4 :: ChannelOffsets(t).value[k] == o
    ensures forall k, l | 0 <= k < l < 4 :: ChannelOffsets(t).value[k] != ChannelOffsets(t).value[l]
  {
    BayerCellsDistinct(t);
    var k := BayerCellIndex(t, o);
    assert ChannelOffsets(t).value[k] == o;
  }

  /** Which of the four cells of a Bayer split is the cell o. */
  lemma BayerCellIndex(t: Tile, o: Offset) returns (k: nat)
    requires IsBayerTile(t) && InTile(o)
    ensures ChannelOffsets(t).Success? && k < 4 && ChannelOffsets(t).value[k] == o
  {
    SplitColorsAreBayer(t);
    var c := ColorAt(t, o);
    BayerColor(t, o);
    if c == 'R' {
      CellOfCount(t, c, o);
      k := 0;
    } else if c == 'B' {
      CellOfCount(t, c, o);
      k := 3;
    } else {
      CellOfCount(t, c, o);
      k := if o == Positions(t, 'G')[0] then 1 else 2;
    }
  }

  /** A cell of a colour the tile has once or twice is the first or the second cell listed for it. */
  lemma CellOfCount(t: Tile, c: char, o: Offset)
    requires InTile(o) && ColorAt(t, o) == c && TileCount(t, c) <= 2
    ensures 1 <= |Positions(t, c)| == TileCount(t, c)
    ensures o == Positions(t, c)[0] || (TileCount(t, c) == 2 && o == Positions(t, c)[1])
  {
    PositionsComplete(t, c, o);
    PositionsCount(t, c);
  }

  /** The four cells of a Bayer split are four different cells. */
  lemma BayerCellsDistinct(t: Tile)
    requires IsBayerTile(t)
    ensures ChannelOffsets(t).Success?
    ensures forall k, l | 0 <= k < l < 4 :: ChannelOffsets(t).value[k] != ChannelOffsets(t).value[l]
  {
    SplitColorsAreBayer(t);
    var cells := ChannelOffsets(t).value;
    assert ColorAt(t, cells[0]) == 'R' && ColorAt(t, cells[1]) == 'G';
    assert ColorAt(t, cells[2]) == 'G' && ColorAt(t, cells[3]) == 'B';
    assert cells[1] != cells[2] by {
      var g := Positions(t, 'G');
      PositionsOrdered(t, 'G');
      assert CellIndex(g[0]) < CellIndex(g[1]);
    }
    assert cells[0] != cells[1] && cells[0] != cells[2] && cells[0] != cells[3];
    assert cells[1] != cells[3] && cells[2] != cells[3];
  }

  /** Every cell of a Bayer tile is red, green or blue. */
  lemma BayerColor(t: Tile, o: Offset)
    requires IsBayerTile(t) && InTile(o)
    ensures ColorAt(t, o) == 'R' || ColorAt(t, o) == 'G' || ColorAt(t, o) == 'B'
  {
    var c := ColorAt(t, o);
    if c != 'R' && c != 'G' && c != 'B' {
      var s := Flatten(t);
      PositionsComplete(t, c, o);
      PositionsCount(t, c);
      OtherColorBound(s, c);
    }
  }

  lemma {:induction false} OtherColorBound(s: string, c: char)
    requires c != 'R' && c != 'G' && c != 'B'
    ensures Count(s, 'R') + Count(s, 'G') + Count(s, 'B') + Count(s, c) <= |s|
  {
    if s != [] {
      OtherColorBound(s[1..], c);
    }
  }

  /** The tile cell that covers raster position (i, j). */
  function CellOf(i: nat, j: nat): Offset
  {
    Offset(i % 2, j % 2)
  }

  lemma EvenStrideLength(n: nat, a: nat)
    requires n % 2 == 0 && a < 2
    ensures StrideLength(n, a) == n / 2
  {
  }

  /** The slice at any cell of an even-sized raster is half as high and half as wide. */
  lemma StrideHalf(g: Grid, h: nat, w: nat, o: Offset)
    requires HasShape(g, h, w) && InTile(o) && h % 2 == 0 && w % 2 == 0
    ensures HasShape(Stride(g, o), h / 2, w / 2)
  {
    StrideShape(g, h, w, o);
    EvenStrideLength(h, o.row);
    EvenStrideLength(w, o.col);
  }

  /** Sample (p, q) of the slice at cell (a, b) is the raster's sample (i, j) = (a + 2p, b + 2q). */
  lemma StrideAt(g: Grid, h: nat, w: nat, o: Offset, p: nat, q: nat, i: nat, j: nat)
    requires HasShape(g, h, w) && i < h && j < w
    requires i == o.row + 2 * p && j == o.col + 2 * q
    ensures p < |Stride(g, o)| && q < |Stride(g, o)[p]|
    ensures Stride(g, o)[p][q] == g[i][j]
  {
    StrideRow(g, h, o, p);
    var row := Stride(g, o)[p];
    assert row == EveryOther(g[i], o.col);
    assert |g[i]| == w;
  }

  /**
   * Every sample of an even-sized raster lands in exactly one channel of a
   * Bayer split: the one whose cell is (i mod 2, j mod 2), at position
   * (i / 2, j / 2), and that channel's colour is the filter colour of the
   * sample's cell.
   */
  lemma SplitPartitionsRaster(raw: Grid, h: nat, w: nat, t: Tile, i: nat, j: nat)
    requires HasShape(raw, h, w) && h % 2 == 0 && w % 2 == 0
    requires IsBayerTile(t)
    requires i < h && j < w
    ensures SplitChannels(raw, t).Success?
    ensures var chans := SplitChannels(raw, t).value;
            exists k | 0 <= k < 4 ::
              chans[k].offset == CellOf(i, j) &&
              HasShape(chans[k].data, h / 2, w / 2) &&
              chans[k].data[i / 2][j / 2] == raw[i][j] &&
              FilterColors[k] == ColorAt(t, CellOf(i, j)) &&
              forall l | 0 <= l < 4 && l != k :: chans[l].offset != chans[k].offset
  {
    var o := CellOf(i, j);
    assert InTile(o);
    BayerCellsPartition(t, o);
    var cells := ChannelOffsets(t).value;
    var chans := SplitChannels(raw, t).value;
    var k :| 0 <= k < 4 && cells[k] == o;
    assert chans[k].offset == o && chans[k].data == Stride(raw, o);
    StrideAt(raw, h, w, o, i / 2, j / 2, i, j);
    StrideHalf(raw, h, w, o);
    assert FilterColors[k] == ColorAt(t, o);
    assert forall l | 0 <= l < 4 && l != k :: chans[l].offset != chans[k].offset by {
      assert forall l | 0 <= l < 4 :: chans[l].offset == cells[l];
    }
    assert chans[k].offset == CellOf(i, j) &&
           HasShape(chans[k].data, h / 2, w / 2) &&
           chans[k].data[i / 2][j / 2] == raw[i][j] &&
           FilterColors[k] == ColorAt(t, CellOf(i, j)) &&
           forall l | 0 <= l < 4 && l != k :: chans[l].offset != chans[k].offset;
  }

  /** Every channel of an even-sized raster is a (h/2) x (w/2) raster. */
  lemma SplitShape(raw: Grid, h: nat, w: nat, t: Tile)
    requires HasShape(raw, h, w) && h % 2 == 0 && w % 2 == 0
    requires IsBayerTile(t)
    ensures SplitChannels(raw, t).Success?
    ensures forall k | 0 <= k < 4 :: HasShape(SplitChannels(raw, t).value[k].data, h / 2, w / 2)
  {
    SplitColorsAreBayer(t);
    var chans := SplitChannels(raw, t).value;
    forall k | 0 <= k < 4 ensures HasShape(chans[k].data, h / 2, w / 2) {
      StrideHalf(raw, h, w, chans[k].offset);
    }
  }
}
