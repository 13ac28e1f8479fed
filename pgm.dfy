/**
 * The raw ("P5") PGM reader of pyraw/rawimage.py (read_pgm).
 *
 * The header is recognised by a regular expression whose match is searched for
 * with Python's backtracking engine; the functions Comments, TryCommentEnds,
 * Number and Trailer below follow that engine's order of trying alternatives,
 * so the header they find is the one the regular expression finds.  Its pieces:
 *
 *   P5 \s  C*  (\d+) \s  C*  (\d+) \s  C*  (\d+) \s  T*
 *
 * where a comment line C is `\s*#.*[\r\n]` and a trailing comment line T is a
 * C followed by one more whitespace byte.  The samples follow the header.
 */
module Pgm {
  import opened Results
  import opened PixelGrid

  type Byte = x: int | 0 <= x < 256

  /** The `byteorder` argument of read_pgm: '>' (the default) or '<'. */
  datatype ByteOrder = BigEndian | LittleEndian

  datatype PgmError =
    | NotRawPgm        // the header pattern does not match ("Not a raw PGM file")
    | BufferTooSmall   // numpy.frombuffer: fewer bytes than width*height samples need

  const HASH: Byte := 35
  const LF: Byte := 10
  const CR: Byte := 13

  /** `\s` of a byte pattern: space, tab, LF, VT, FF, CR. */
  predicate IsSpace(b: Byte) { b == 32 || 9 <= b <= 13 }

  /** `\d` of a byte pattern. */
  predicate IsDigit(b: Byte) { 48 <= b <= 57 }

  /** `[\r\n]`. */
  predicate IsLineEnd(b: Byte) { b == LF || b == CR }

  // ---------------------------------------------------------------------------
  // Maximal runs
  // ---------------------------------------------------------------------------

  /** End of the longest run of whitespace starting at i. */
  function SpaceRun(buf: seq<Byte>, i: nat): (j: nat)
    requires i <= |buf|
    ensures i <= j <= |buf|
    ensures forall k | i <= k < j :: IsSpace(buf[k])
    ensures j == |buf| || !IsSpace(buf[j])
    decreases |buf| - i
  {
    if i == |buf| || !IsSpace(buf[i]) then i else SpaceRun(buf, i + 1)
  }

  /** End of the longest run of decimal digits starting at i. */
  function DigitRun(buf: seq<Byte>, i: nat): (j: nat)
    requires i <= |buf|
    ensures i <= j <= |buf|
    ensures forall k | i <= k < j :: IsDigit(buf[k])
    ensures j == |buf| || !IsDigit(buf[j])
    decreases |buf| - i
  {
    if i == |buf| || !IsDigit(buf[i]) then i else DigitRun(buf, i + 1)
  }

  /** End of the longest run `.` matches from i: every byte but LF. */
  function LineRun(buf: seq<Byte>, i: nat): (j: nat)
    requires i <= |buf|
    ensures i <= j <= |buf|
    ensures forall k | i <= k < j :: buf[k] != LF
    ensures j == |buf| || buf[j] == LF
    decreases |buf| - i
  {
    if i == |buf| || buf[i] == LF then i else LineRun(buf, i + 1)
  }

  /**
   * `\s*#` at i: the position just after the '#'.  Since '#' is not
   * whitespace, only the longest run of blanks can be followed by it.
   */
  function CommentBody(buf: seq<Byte>, i: nat): (r: Option<nat>)
    requires i <= |buf|
    ensures r.Some? ==> i < r.value <= |buf| && buf[r.value - 1] == HASH
  {
    var p := SpaceRun(buf, i);
    if p < |buf| && buf[p] == HASH then Some(p + 1) else None
  }

  /**
   * How many positions j (counted from q) may end `.*[\r\n]` after the '#':
   * j ranges over q .. LineRun(q), and must be inside the buffer.
   */
  function Candidates(buf: seq<Byte>, q: nat): (k: nat)
    requires q <= |buf|
    ensures q + k <= |buf|
  {
    var e := LineRun(buf, q);
    if e < |buf| then e + 1 - q else e - q
  }

  // ---------------------------------------------------------------------------
  // The matcher, alternative by alternative
  // ---------------------------------------------------------------------------

  /** A captured decimal token buf[start..end]. */
  datatype Token = Token(start: nat, end: nat)

  /** What the rest of the pattern matched: the captured tokens and where the match ends. */
  datatype Tail = Tail(tokens: seq<Token>, end: nat)

  /**
   * `C* (\d+) \s ...` for the token number s (0 width, 1 height, 2 maxval):
   * greedy, so one more comment line is tried first (its line ends from the
   * right), and the token itself only when no comment line leads to a match.
   */
  function Comments(buf: seq<Byte>, s: nat, i: nat): (r: Option<Tail>)
    requires s < 3 && i <= |buf|
    ensures r.Some? ==> |r.value.tokens| == 3 - s && i < r.value.end <= |buf|
    decreases |buf| - i, |buf| + 2
  {
    match CommentBody(buf, i)
    case Some(q) =>
      var r := TryCommentEnds(buf, s, q, Candidates(buf, q));
      if r.Some? then r else Number(buf, s, i)
    case None => Number(buf, s, i)
  }

  /** Tries the comment line ending at q + k - 1, then the shorter ones. */
  function TryCommentEnds(buf: seq<Byte>, s: nat, q: nat, k: nat): (r: Option<Tail>)
    requires s < 3 && q + k <= |buf|
    ensures r.Some? ==> |r.value.tokens| == 3 - s && q < r.value.end <= |buf|
    decreases |buf| - q + 1, k
  {
    if k == 0 then None
    else
      var j := q + k - 1;
      var r := if IsLineEnd(buf[j]) then Comments(buf, s, j + 1) else None;
      if r.Some? then r else TryCommentEnds(buf, s, q, k - 1)
  }

  /**
   * `(\d+)\s` then the rest.  A shorter digit run would be followed by a
   * digit, not by whitespace, so only the longest one can match.
   */
  function Number(buf: seq<Byte>, s: nat, i: nat): (r: Option<Tail>)
    requires s < 3 && i <= |buf|
    ensures r.Some? ==> |r.value.tokens| == 3 - s && i < r.value.end <= |buf|
    decreases |buf| - i, |buf| + 1
  {
    var d := DigitRun(buf, i);
    if d == i || d == |buf| || !IsSpace(buf[d]) then None
    else
      var rest := if s < 2 then Comments(buf, s + 1, d + 1) else Some(Tail([], Trailer(buf, d + 1)));
      match rest
      case None => None
      case Some(t) => Some(Tail([Token(i, d)] + t.tokens, t.end))
  }

  /** A line end at j followed by one more whitespace byte: where `.*[\r\n]\s` can stop. */
  predicate ClosesTrailer(buf: seq<Byte>, j: nat)
  {
    j + 1 < |buf| && IsLineEnd(buf[j]) && IsSpace(buf[j + 1])
  }

  /**
   * Of the positions j in q .. q + k - 1 that can close a trailing comment
   * line, the last one (`.*` is greedy): the line then ends at j + 2.
   */
  function LastTrailerEnd(buf: seq<Byte>, q: nat, k: nat): (r: Option<nat>)
    requires q + k <= |buf|
    ensures r.Some? ==> q + 2 <= r.value <= q + k + 1 && r.value <= |buf| && ClosesTrailer(buf, r.value - 2)
    decreases k
  {
    if k == 0 then None
    else
      var j := q + k - 1;
      if ClosesTrailer(buf, j) then Some(j + 2)
      else LastTrailerEnd(buf, q, k - 1)
  }

  /** No position in range that can close a trailing line lies after the one LastTrailerEnd picks. */
  lemma {:induction false} LastTrailerEndIsLast(buf: seq<Byte>, q: nat, k: nat)
    requires q + k <= |buf|
    ensures forall j | q <= j < q + k && ClosesTrailer(buf, j) ::
              LastTrailerEnd(buf, q, k).Some? && j + 2 <= LastTrailerEnd(buf, q, k).value
    decreases k
  {
    if k > 0 && !ClosesTrailer(buf, q + k - 1) {
      LastTrailerEndIsLast(buf, q, k - 1);
    }
  }

  /** One trailing comment line `\s*#.*[\r\n]\s` at i, its first alternative. */
  function TrailerItem(buf: seq<Byte>, i: nat): (r: Option<nat>)
    requires i <= |buf|
    ensures r.Some? ==> i < r.value <= |buf|
  {
    match CommentBody(buf, i)
    case None => None
    case Some(q) => LastTrailerEnd(buf, q, Candidates(buf, q))
  }

  /**
   * `T*` at the end of the pattern.  Nothing follows it, so the first
   * alternative of every item succeeds and the star never backtracks.
   */
  function Trailer(buf: seq<Byte>, i: nat): (e: nat)
    requires i <= |buf|
    ensures i <= e <= |buf|
    decreases |buf| - i
  {
    match TrailerItem(buf, i)
    case None => i
    case Some(k) => Trailer(buf, k)
  }

  /** re.search of the header pattern, anchored by `^` at the start of the buffer. */
  function MatchHeader(buf: seq<Byte>): (r: Option<Tail>)
    ensures r.Some? ==> |buf| >= 3 && buf[0] == 80 && buf[1] == 53 && IsSpace(buf[2])
    ensures r.Some? ==> |r.value.tokens| == 3 && 3 < r.value.end <= |buf|
  {
    if |buf| >= 3 && buf[0] == 80 && buf[1] == 53 && IsSpace(buf[2]) then Comments(buf, 0, 3) else None
  }

  // ---------------------------------------------------------------------------
  // The header grammar, stated without the search order
  // ---------------------------------------------------------------------------

  ghost predicate AllSpace(buf: seq<Byte>, i: nat, j: nat)
    requires i <= j <= |buf|
  {
    forall k | i <= k < j :: IsSpace(buf[k])
  }

  ghost predicate NoLF(buf: seq<Byte>, i: nat, j: nat)
    requires i <= j <= |buf|
  {
    forall k | i <= k < j :: buf[k] != LF
  }

  predicate AllDigits(buf: seq<Byte>, i: nat, j: nat)
    requires i <= j <= |buf|
  {
    forall k | i <= k < j :: IsDigit(buf[k])
  }

  /** buf[i..k] is one comment line: blanks, '#', bytes other than LF, then CR or LF. */
  ghost predicate IsCommentLine(buf: seq<Byte>, i: nat, k: nat)
  {
    i + 2 <= k <= |buf| && IsLineEnd(buf[k - 1]) &&
    exists p | i <= p < k - 1 :: AllSpace(buf, i, p) && buf[p] == HASH && NoLF(buf, p + 1, k - 1)
  }

  /** buf[i..j] is a sequence of comment lines. */
  ghost predicate CommentLines(buf: seq<Byte>, i: nat, j: nat)
    decreases j - i
  {
    i <= j <= |buf| &&
    (i == j || exists k | i < k <= j :: IsCommentLine(buf, i, k) && CommentLines(buf, k, j))
  }

  /** buf[i..k] is one trailing comment line: a comment line and one whitespace byte. */
  ghost predicate IsTrailerLine(buf: seq<Byte>, i: nat, k: nat)
  {
    i + 3 <= k <= |buf| && IsCommentLine(buf, i, k - 1) && IsSpace(buf[k - 1])
  }

  /** buf[i..j] is a sequence of trailing comment lines. */
  ghost predicate TrailerLines(buf: seq<Byte>, i: nat, j: nat)
    decreases j - i
  {
    i <= j <= |buf| &&
    (i == j || exists k | i < k <= j :: IsTrailerLine(buf, i, k) && TrailerLines(buf, k, j))
  }

  /**
   * From i, the tokens s .. 2 are each preceded by comment lines and
   * followed by one whitespace byte, and trailing comment lines end at e.
   */
  ghost predicate TokensFrom(buf: seq<Byte>, s: nat, i: nat, toks: seq<Token>, e: nat)
    requires s <= 3
    decreases 3 - s
  {
    if s == 3 then toks == [] && TrailerLines(buf, i, e)
    else
      |toks| >= 1 &&
      var c, d := toks[0].start, toks[0].end;
      i <= c < d < |buf| && CommentLines(buf, i, c) && AllDigits(buf, c, d) && IsSpace(buf[d]) &&
      TokensFrom(buf, s + 1, d + 1, toks[1..], e)
  }

  /** buf[..t.end] matches the header pattern with the captures t.tokens. */
  ghost predicate HeaderShape(buf: seq<Byte>, t: Tail)
  {
    |buf| >= 3 && buf[0] == 80 && buf[1] == 53 && IsSpace(buf[2]) && TokensFrom(buf, 0, 3, t.tokens, t.end)
  }

  // ---------------------------------------------------------------------------
  // The matcher finds a match of the grammar, and finds one whenever there is one
  // ---------------------------------------------------------------------------

  /** A line end reached after `\s*#` closes a comment line. */
  lemma CommentLineAt(buf: seq<Byte>, i: nat, q: nat, j: nat)
    requires i <= |buf| && CommentBody(buf, i) == Some(q)
    requires q <= j < q + Candidates(buf, q) && IsLineEnd(buf[j])
    ensures IsCommentLine(buf, i, j + 1)
  {
    var p := q - 1;
    assert AllSpace(buf, i, p) && buf[p] == HASH && NoLF(buf, p + 1, j);
  }

  /** A comment line in front of a match of the rest is part of that match. */
  lemma PrependCommentLine(buf: seq<Byte>, s: nat, i: nat, k: nat, toks: seq<Token>, e: nat)
    requires s < 3 && IsCommentLine(buf, i, k) && TokensFrom(buf, s, k, toks, e)
    ensures TokensFrom(buf, s, i, toks, e)
  {
    var c := toks[0].start;
    assert CommentLines(buf, k, c);
    assert CommentLines(buf, i, c);
  }

  /** The comment line the matcher reads from i to a line end j, in front of a tail. */
  lemma CommentLineThenTail(buf: seq<Byte>, s: nat, i: nat, q: nat, j: nat, t: Tail)
    requires s < 3 && i <= |buf| && CommentBody(buf, i) == Some(q)
    requires q <= j < q + Candidates(buf, q) && IsLineEnd(buf[j])
    requires TokensFrom(buf, s, j + 1, t.tokens, t.end)
    ensures TokensFrom(buf, s, i, t.tokens, t.end)
  {
    CommentLineAt(buf, i, q, j);
    PrependCommentLine(buf, s, i, j + 1, t.tokens, t.end);
  }

  lemma {:induction false} TrailerSound(buf: seq<Byte>, i: nat)
    requires i <= |buf|
    ensures TrailerLines(buf, i, Trailer(buf, i))
    decreases |buf| - i
  {
    match TrailerItem(buf, i)
    case None =>
    case Some(k) =>
      TrailerSound(buf, k);
      var q := CommentBody(buf, i).value;
      TrailerItemLine(buf, i, q, Candidates(buf, q));
      assert IsTrailerLine(buf, i, k);
  }

  lemma {:induction false} TrailerItemLine(buf: seq<Byte>, i: nat, q: nat, k: nat)
    requires i <= |buf| && CommentBody(buf, i) == Some(q)
    requires k <= Candidates(buf, q) && LastTrailerEnd(buf, q, k).Some?
    ensures IsTrailerLine(buf, i, LastTrailerEnd(buf, q, k).value)
    decreases k
  {
    var j := q + k - 1;
    if ClosesTrailer(buf, j) {
      assert LastTrailerEnd(buf, q, k) == Some(j + 2);
      CommentLineAt(buf, i, q, j);
      assert IsTrailerLine(buf, i, j + 2);
    } else {
      assert LastTrailerEnd(buf, q, k) == LastTrailerEnd(buf, q, k - 1);
      TrailerItemLine(buf, i, q, k - 1);
    }
  }

  lemma {:induction false} CommentsSound(buf: seq<Byte>, s: nat, i: nat)
    requires s < 3 && i <= |buf| && Comments(buf, s, i).Some?
    ensures TokensFrom(buf, s, i, Comments(buf, s, i).value.tokens, Comments(buf, s, i).value.end)
    decreases |buf| - i, |buf| + 2
  {
    match CommentBody(buf, i)
    case Some(q) =>
      if TryCommentEnds(buf, s, q, Candidates(buf, q)).Some? {
        TryCommentEndsSound(buf, s, i, q, Candidates(buf, q));
      } else {
        NumberSound(buf, s, i);
      }
    case None => NumberSound(buf, s, i);
  }

  lemma {:induction false} TryCommentEndsSound(buf: seq<Byte>, s: nat, i: nat, q: nat, k: nat)
    requires s < 3 && i <= |buf| && CommentBody(buf, i) == Some(q) && k <= Candidates(buf, q)
    requires TryCommentEnds(buf, s, q, k).Some?
    ensures TokensFrom(buf, s, i, TryCommentEnds(buf, s, q, k).value.tokens, TryCommentEnds(buf, s, q, k).value.end)
    decreases |buf| - q + 1, k
  {
    var j := q + k - 1;
    if IsLineEnd(buf[j]) && Comments(buf, s, j + 1).Some? {
      var t := Comments(buf, s, j + 1).value;
      assert TryCommentEnds(buf, s, q, k) == Some(t);
      CommentLineSound(buf, s, i, q, j, t);
    } else {
      assert TryCommentEnds(buf, s, q, k) == TryCommentEnds(buf, s, q, k - 1);
      TryCommentEndsSound(buf, s, i, q, k - 1);
    }
  }

  /** A comment line ended at j, then what the matcher finds after it, is a tail of the grammar. */
  lemma {:induction false} CommentLineSound(buf: seq<Byte>, s: nat, i: nat, q: nat, j: nat, t: Tail)
    requires s < 3 && i <= |buf| && CommentBody(buf, i) == Some(q)
    requires q <= j < q + Candidates(buf, q) && IsLineEnd(buf[j]) && Comments(buf, s, j + 1) == Some(t)
    ensures TokensFrom(buf, s, i, t.tokens, t.end)
    decreases |buf| - q + 1, 0
  {
    CommentsSound(buf, s, j + 1);
    CommentLineThenTail(buf, s, i, q, j, t);
  }

  lemma {:induction false} NumberSound(buf: seq<Byte>, s: nat, i: nat)
    requires s < 3 && i <= |buf| && Number(buf, s, i).Some?
    ensures TokensFrom(buf, s, i, Number(buf, s, i).value.tokens, Number(buf, s, i).value.end)
    decreases |buf| - i, |buf| + 1
  {
    var d := DigitRun(buf, i);
    assert i < d < |buf| && IsSpace(buf[d]);
    if s < 2 {
      var t := Comments(buf, s + 1, d + 1).value;
      InnerTokenSound(buf, s, i, d, t);
      TokenThenRest(buf, s, i, d, t);
    } else {
      var t := Tail([], Trailer(buf, d + 1));
      LastTokenSound(buf, i, d);
      TokenThenRest(buf, s, i, d, t);
      assert [Token(i, d)] + t.tokens == [Token(i, d)];
    }
  }

  /** A width or height token at i, then what the matcher finds after its whitespace byte, is a tail of the grammar. */
  lemma {:induction false} InnerTokenSound(buf: seq<Byte>, s: nat, i: nat, d: nat, t: Tail)
    requires s < 2 && i < d < |buf| && AllDigits(buf, i, d) && IsSpace(buf[d])
    requires Comments(buf, s + 1, d + 1) == Some(t)
    ensures TokensFrom(buf, s, i, [Token(i, d)] + t.tokens, t.end)
    decreases |buf| - i, |buf|
  {
    CommentsSound(buf, s + 1, d + 1);
    TokenFirst(buf, s, i, d, t.tokens, t.end);
  }

  /** The maxval token at i, then the trailing group after its whitespace byte, is a tail of the grammar. */
  lemma LastTokenSound(buf: seq<Byte>, i: nat, d: nat)
    requires i < d < |buf| && AllDigits(buf, i, d) && IsSpace(buf[d])
    ensures TokensFrom(buf, 2, i, [Token(i, d)], Trailer(buf, d + 1))
  {
    TrailerSound(buf, d + 1);
    TokenFirst(buf, 2, i, d, [], Trailer(buf, d + 1));
    assert [Token(i, d)] + [] == [Token(i, d)];
  }

  /** A token right at i, with no comment lines before it, followed by a match of the rest. */
  lemma TokenFirst(buf: seq<Byte>, s: nat, i: nat, d: nat, rest: seq<Token>, e: nat)
    requires s < 3 && i < d < |buf| && AllDigits(buf, i, d) && IsSpace(buf[d])
    requires TokensFrom(buf, s + 1, d + 1, rest, e)
    ensures TokensFrom(buf, s, i, [Token(i, d)] + rest, e)
  {
    assert ([Token(i, d)] + rest)[1..] == rest;
    assert CommentLines(buf, i, i);
  }

  /** Whatever MatchHeader returns matches the header grammar. */
  lemma MatchHeaderSound(buf: seq<Byte>)
    requires MatchHeader(buf).Some?
    ensures HeaderShape(buf, MatchHeader(buf).value)
  {
    CommentsSound(buf, 0, 3);
  }

  /** If `\s*#` is followed by a comment line ending at k, CommentBody finds its '#'. */
  lemma CommentBodyOfLine(buf: seq<Byte>, i: nat, k: nat)
    requires i <= |buf| && IsCommentLine(buf, i, k)
    ensures CommentBody(buf, i).Some?
    ensures var q := CommentBody(buf, i).value; q <= k - 1 < q + Candidates(buf, q)
  {
    var p :| i <= p < k - 1 && AllSpace(buf, i, p) && buf[p] == HASH && NoLF(buf, p + 1, k - 1);
    var r := SpaceRun(buf, i);
    assert r == p;
    var e := LineRun(buf, p + 1);
    assert k - 1 <= e;
  }

  lemma {:induction false} TryCommentEndsComplete(buf: seq<Byte>, s: nat, q: nat, k: nat, j: nat)
    requires s < 3 && q + k <= |buf| && q <= j < q + k
    requires IsLineEnd(buf[j]) && Comments(buf, s, j + 1).Some?
    ensures TryCommentEnds(buf, s, q, k).Some?
    decreases k
  {
    if j < q + k - 1 {
      var jj := q + k - 1;
      var r := if IsLineEnd(buf[jj]) then Comments(buf, s, jj + 1) else None;
      if r.None? {
        TryCommentEndsComplete(buf, s, q, k - 1, j);
      }
    }
  }

  lemma {:induction false} CommentsComplete(buf: seq<Byte>, s: nat, i: nat, toks: seq<Token>, e: nat)
    requires s < 3 && i <= |buf| && TokensFrom(buf, s, i, toks, e)
    ensures Comments(buf, s, i).Some?
    decreases |buf| - i, 2
  {
    var c := toks[0].start;
    if i == c {
      NumberComplete(buf, s, i, toks, e);
    } else {
      var k :| i < k <= c && IsCommentLine(buf, i, k) && CommentLines(buf, k, c);
      assert TokensFrom(buf, s, k, toks, e);
      CommentsComplete(buf, s, k, toks, e);
      CommentThenMatch(buf, s, i, k);
    }
  }

  /** A comment line at i followed by a match from its end gives a match from i. */
  lemma CommentThenMatch(buf: seq<Byte>, s: nat, i: nat, k: nat)
    requires s < 3 && i <= |buf| && IsCommentLine(buf, i, k) && Comments(buf, s, k).Some?
    ensures Comments(buf, s, i).Some?
  {
    CommentBodyOfLine(buf, i, k);
    var q := CommentBody(buf, i).value;
    TryCommentEndsComplete(buf, s, q, Candidates(buf, q), k - 1);
  }

  lemma {:induction false} NumberComplete(buf: seq<Byte>, s: nat, i: nat, toks: seq<Token>, e: nat)
    requires s < 3 && i <= |buf| && TokensFrom(buf, s, i, toks, e) && toks[0].start == i
    ensures Number(buf, s, i).Some?
    ensures Comments(buf, s, i).Some?
    decreases |buf| - i, 1
  {
    var d := toks[0].end;
    if s < 2 {
      NextTokenComplete(buf, s, d, toks[1..], e);
    }
    NumberAt(buf, s, i, d);
  }

  /** After the token that ends at d, the match of the next token is found. */
  lemma {:induction false} NextTokenComplete(buf: seq<Byte>, s: nat, d: nat, rest: seq<Token>, e: nat)
    requires s < 2 && d < |buf| && TokensFrom(buf, s + 1, d + 1, rest, e)
    ensures Comments(buf, s + 1, d + 1).Some?
    decreases |buf| - d, 0
  {
    CommentsComplete(buf, s + 1, d + 1, rest, e);
  }

  /** Digits up to d and a byte that is not a digit at d: the longest digit run at i ends at d. */
  lemma DigitRunAt(buf: seq<Byte>, i: nat, d: nat)
    requires i <= d < |buf| && AllDigits(buf, i, d) && !IsDigit(buf[d])
    ensures DigitRun(buf, i) == d
    decreases d - i
  {
    if i < d {
      DigitRunAt(buf, i + 1, d);
    }
  }

  /** Digits from i to d, a whitespace byte and a match of the rest make Number match. */
  lemma NumberAt(buf: seq<Byte>, s: nat, i: nat, d: nat)
    requires s < 3 && i < d < |buf| && AllDigits(buf, i, d) && IsSpace(buf[d])
    requires s < 2 ==> Comments(buf, s + 1, d + 1).Some?
    ensures Number(buf, s, i).Some?
    ensures Comments(buf, s, i).Some?
  {
    DigitRunAt(buf, i, d);
  }

  /** MatchHeader succeeds exactly when the buffer starts with a header of the grammar. */
  lemma MatchHeaderComplete(buf: seq<Byte>, t: Tail)
    requires HeaderShape(buf, t)
    ensures MatchHeader(buf).Some?
  {
    CommentsComplete(buf, 0, 3, t.tokens, t.end);
  }

  /** A trailing comment line at i: the matcher takes one, at least as long as it. */
  lemma TrailerItemLongest(buf: seq<Byte>, i: nat, k: nat)
    requires i <= |buf| && IsTrailerLine(buf, i, k)
    ensures TrailerItem(buf, i).Some? && k <= TrailerItem(buf, i).value
  {
    CommentBodyOfLine(buf, i, k - 1);
    var q := CommentBody(buf, i).value;
    LastTrailerEndIsLast(buf, q, Candidates(buf, q));
    assert ClosesTrailer(buf, k - 2);
  }

  /** The trailing group stops only where no further trailing comment line starts. */
  lemma TrailerStops(buf: seq<Byte>, i: nat)
    requires i <= |buf|
    ensures forall k :: !IsTrailerLine(buf, Trailer(buf, i), k)
  {
    var e := Trailer(buf, i);
    TrailerEnds(buf, i);
    forall k | IsTrailerLine(buf, e, k)
      ensures false
    {
      TrailerItemLongest(buf, e, k);
    }
  }

  /** The trailing group stops only where no further trailing comment line matches. */
  lemma {:induction false} TrailerEnds(buf: seq<Byte>, i: nat)
    requires i <= |buf|
    ensures TrailerItem(buf, Trailer(buf, i)).None?
    decreases |buf| - i
  {
    match TrailerItem(buf, i)
    case None =>
    case Some(k) => TrailerEnds(buf, k);
  }

  // ---------------------------------------------------------------------------
  // Header values and samples
  // ---------------------------------------------------------------------------

  function Pow10(n: nat): (p: nat)
    ensures p >= 1
  {
    if n == 0 then 1 else 10 * Pow10(n - 1)
  }

  /** int() of a run of ASCII digits: a number below 10^(number of digits). */
  function NumberValue(s: seq<Byte>): (v: nat)
    requires forall k | 0 <= k < |s| :: IsDigit(s[k])
    ensures v < Pow10(|s|)
  {
    if s == [] then 0
    else
      assert IsDigit(s[|s| - 1]);
      NumberValue(s[..|s| - 1]) * 10 + (s[|s| - 1] as int - 48)
  }

  /** `%d` of n as ASCII bytes: at least one digit, and no leading zero. */
  function Digits(n: nat): (s: seq<Byte>)
    ensures |s| >= 1 && forall k | 0 <= k < |s| :: IsDigit(s[k])
    ensures s[0] == 48 ==> n == 0
  {
    if n < 10 then [48 + n] else Digits(n / 10) + [48 + n % 10]
  }

  /** int() reads back what `%d` writes. */
  lemma {:induction false} NumberValueOfDigits(n: nat)
    ensures NumberValue(Digits(n)) == n
  {
    if n >= 10 {
      NumberValueOfDigits(n / 10);
      var s := Digits(n);
      assert s[..|s| - 1] == Digits(n / 10);
    }
  }

  /** The parsed header: the three decimal values and the length of the matched text. */
  datatype PgmHeader = PgmHeader(width: nat, height: nat, maxval: nat, length: nat)

  function TokenValue(buf: seq<Byte>, t: Token): nat
    requires t.start <= t.end <= |buf| && AllDigits(buf, t.start, t.end)
  {
    NumberValue(buf[t.start..t.end])
  }

  ghost predicate Describes(buf: seq<Byte>, t: Tail, h: PgmHeader)
  {
    HeaderShape(buf, t) && |t.tokens| == 3 &&
    h.width == TokenValue(buf, t.tokens[0]) &&
    h.height == TokenValue(buf, t.tokens[1]) &&
    h.maxval == TokenValue(buf, t.tokens[2]) &&
    h.length == t.end
  }

  lemma TokensShape(buf: seq<Byte>, s: nat, i: nat, toks: seq<Token>, e: nat)
    requires s <= 3 && TokensFrom(buf, s, i, toks, e)
    ensures |toks| == 3 - s && i <= e <= |buf|
    ensures forall n | 0 <= n < |toks| :: toks[n].start <= toks[n].end <= |buf| && AllDigits(buf, toks[n].start, toks[n].end)
    decreases 3 - s
  {
    if s < 3 {
      TokensShape(buf, s + 1, toks[0].end + 1, toks[1..], e);
      forall n | 0 < n < |toks|
        ensures toks[n].start <= toks[n].end <= |buf| && AllDigits(buf, toks[n].start, toks[n].end)
      {
        assert toks[n] == toks[1..][n - 1];
      }
    }
  }

  /**
   * The header groups of read_pgm: width, height, maxval and len(header).
   * It is present exactly when the buffer starts with a header of the
   * grammar, and then describes one such header.
   */
  function ParseHeader(buf: seq<Byte>): (r: Option<PgmHeader>)
    ensures r.Some? <==> exists t :: HeaderShape(buf, t)
    ensures r.Some? ==> exists t :: Describes(buf, t, r.value)
  {
    match MatchHeader(buf)
    case None =>
      assert forall t :: !HeaderShape(buf, t) by {
        forall t | HeaderShape(buf, t) ensures false { MatchHeaderComplete(buf, t); }
      }
      None
    case Some(t) =>
      MatchHeaderSound(buf);
      TokensShape(buf, 0, 3, t.tokens, t.end);
      var h := PgmHeader(TokenValue(buf, t.tokens[0]), TokenValue(buf, t.tokens[1]),
                         TokenValue(buf, t.tokens[2]), t.end);
      assert Describes(buf, t, h);
      Some(h)
  }

  /** The header ParseHeader builds from the match the search finds. */
  lemma HeaderOfMatch(buf: seq<Byte>, t: Tail)
    requires MatchHeader(buf) == Some(t)
    ensures |t.tokens| == 3
    ensures forall n | 0 <= n < 3 :: t.tokens[n].start <= t.tokens[n].end <= |buf| && AllDigits(buf, t.tokens[n].start, t.tokens[n].end)
    ensures ParseHeader(buf) ==
            Some(PgmHeader(TokenValue(buf, t.tokens[0]), TokenValue(buf, t.tokens[1]), TokenValue(buf, t.tokens[2]), t.end))
  {
    MatchHeaderSound(buf);
    TokensShape(buf, 0, 3, t.tokens, t.end);
  }

  /** Bytes per sample: 'u1' when maxval < 256, a 2-byte type otherwise. */
  function SampleSize(maxval: nat): (n: nat)
    ensures 1 <= n <= 2
  {
    if maxval < 256 then 1 else 2
  }

  /** The sample numpy reads at byte k: one byte, or two in the given order. */
  function SampleAt(buf: seq<Byte>, k: nat, size: nat, order: ByteOrder): (v: nat)
    requires 1 <= size <= 2 && k + size <= |buf|
    ensures size == 1 ==> v < 256
    ensures size == 2 ==> v < 65536 && v / 256 == buf[if order == BigEndian then k else k + 1]
    ensures size == 2 ==> v % 256 == buf[if order == BigEndian then k + 1 else k]
  {
    if size == 1 then buf[k]
    else if order == BigEndian then buf[k] as int * 256 + buf[k + 1]
    else buf[k + 1] as int * 256 + buf[k]
  }

  /** numpy.frombuffer(buf, dtype, count, offset): `count` samples, back to back, from `offset`. */
  function Samples(buf: seq<Byte>, offset: nat, count: nat, size: nat, order: ByteOrder): (r: seq<nat>)
    requires 1 <= size <= 2 && offset + count * size <= |buf|
    ensures |r| == count
    ensures forall n | 0 <= n < count :: r[n] == SampleAt(buf, offset + n * size, size, order)
  {
    if count == 0 then []
    else
      assert offset + (count - 1) * size + size == offset + count * size;
      Samples(buf, offset, count - 1, size, order) + [SampleAt(buf, offset + (count - 1) * size, size, order)]
  }

  lemma MulLe(a: nat, b: nat, c: nat)
    requires a <= b
    ensures a * c <= b * c
  {
    var d := b - a;
    assert b * c == a * c + d * c;
  }

  lemma RowEnd(i: nat, height: nat, width: nat)
    requires i < height
    ensures i * width + width <= height * width
  {
    MulLe(i + 1, height, width);
    assert (i + 1) * width == i * width + width;
  }

  lemma RowMajorIndex(i: nat, j: nat, height: nat, width: nat)
    requires i < height && j < width
    ensures i * width + j < i * width + width <= height * width
  {
    RowEnd(i, height, width);
  }

  /** Row i of a row-major array of `height` rows of `width` samples. */
  function RowOf(flat: seq<nat>, height: nat, width: nat, i: nat): (row: seq<nat>)
    requires |flat| == height * width && i < height
    ensures |row| == width
    ensures forall j | 0 <= j < width :: i * width + j < |flat| && row[j] == flat[i * width + j]
  {
    RowEnd(i, height, width);
    flat[i * width .. i * width + width]
  }

  /** ndarray.reshape((height, width)) of a flat array, row-major. */
  function Reshape(flat: seq<nat>, height: nat, width: nat): (g: Grid)
    requires |flat| == height * width
    ensures HasShape(g, height, width)
    ensures forall i | 0 <= i < height :: g[i] == RowOf(flat, height, width, i)
  {
    var g := seq(height, i requires 0 <= i < height => RowOf(flat, height, width, i));
    assert forall i | 0 <= i < height :: g[i] == RowOf(flat, height, width, i);
    g
  }

  /** Sample (i, j) of the reshaped array is flat element i*width + j. */
  lemma ReshapeAt(flat: seq<nat>, height: nat, width: nat)
    requires |flat| == height * width
    ensures forall i, j | 0 <= i < height && 0 <= j < width ::
              i * width + j < |flat| && Reshape(flat, height, width)[i][j] == flat[i * width + j]
  {
    var g := Reshape(flat, height, width);
    forall i, j | 0 <= i < height && 0 <= j < width
      ensures i * width + j < |flat| && g[i][j] == flat[i * width + j]
    {
      RowMajorIndex(i, j, height, width);
      var row := RowOf(flat, height, width, i);
      assert g[i] == row;
      assert row[j] == flat[i * width + j];
    }
  }

  /** The bytes of sample (i, j) lie inside the raster of width*height samples. */
  lemma SampleInRaster(i: nat, j: nat, height: nat, width: nat, size: nat)
    requires i < height && j < width
    ensures i * width + j < width * height
    ensures (i * width + j) * size + size <= width * height * size
  {
    RowEnd(i, height, width);
    var n := i * width + j;
    MulLe(n + 1, width * height, size);
    assert (n + 1) * size == n * size + size;
  }

  /** Byte offset of sample (i, j): len(header) + (i*width + j)*size. */
  function PixelOffset(h: PgmHeader, i: nat, j: nat): nat
  {
    h.length + (i * h.width + j) * SampleSize(h.maxval)
  }

  /** Where the raster of width*height samples ends. */
  function RasterEnd(h: PgmHeader): nat
  {
    h.length + h.width * h.height * SampleSize(h.maxval)
  }

  lemma PixelInRaster(h: PgmHeader, i: nat, j: nat)
    requires i < h.height && j < h.width
    ensures i * h.width + j < h.width * h.height
    ensures PixelOffset(h, i, j) + SampleSize(h.maxval) <= RasterEnd(h)
  {
    SampleInRaster(i, j, h.height, h.width, SampleSize(h.maxval));
  }

  /** The samples of the raster, `count` = width*height of them, from byte len(header). */
  function RasterSamples(buf: seq<Byte>, h: PgmHeader, order: ByteOrder): (flat: seq<nat>)
    requires RasterEnd(h) <= |buf|
    ensures |flat| == h.height * h.width
  {
    Samples(buf, h.length, h.width * h.height, SampleSize(h.maxval), order)
  }

  lemma RasterPixel(buf: seq<Byte>, h: PgmHeader, order: ByteOrder, i: nat, j: nat)
    requires RasterEnd(h) <= |buf| && i < h.height && j < h.width
    ensures PixelOffset(h, i, j) + SampleSize(h.maxval) <= |buf|
    ensures Reshape(RasterSamples(buf, h, order), h.height, h.width)[i][j]
            == SampleAt(buf, PixelOffset(h, i, j), SampleSize(h.maxval), order)
  {
    var size := SampleSize(h.maxval);
    var flat := RasterSamples(buf, h, order);
    PixelInRaster(h, i, j);
    ReshapeAt(flat, h.height, h.width);
    var n := i * h.width + j;
    assert flat[n] == SampleAt(buf, h.length + n * size, size, order);
  }

  /** The raster of a header whose samples fit in the buffer, read and reshaped. */
  function Raster(buf: seq<Byte>, h: PgmHeader, order: ByteOrder): (g: Grid)
    requires RasterEnd(h) <= |buf|
    ensures HasShape(g, h.height, h.width)
    ensures forall i, j | 0 <= i < h.height && 0 <= j < h.width ::
              PixelOffset(h, i, j) + SampleSize(h.maxval) <= |buf| &&
              g[i][j] == SampleAt(buf, PixelOffset(h, i, j), SampleSize(h.maxval), order)
  {
    var g := Reshape(RasterSamples(buf, h, order), h.height, h.width);
    assert forall i, j | 0 <= i < h.height && 0 <= j < h.width ::
             PixelOffset(h, i, j) + SampleSize(h.maxval) <= |buf| &&
             g[i][j] == SampleAt(buf, PixelOffset(h, i, j), SampleSize(h.maxval), order) by {
      forall i, j | 0 <= i < h.height && 0 <= j < h.width
        ensures PixelOffset(h, i, j) + SampleSize(h.maxval) <= |buf|
        ensures g[i][j] == SampleAt(buf, PixelOffset(h, i, j), SampleSize(h.maxval), order)
      {
        RasterPixel(buf, h, order, i, j);
      }
    }
    g
  }

  function ReadPgm(buf: seq<Byte>, order: ByteOrder): (r: Result<Grid, PgmError>)
    ensures ParseHeader(buf).None? <==> r == Failure(NotRawPgm)
    ensures ParseHeader(buf).Some? ==>
              var h := ParseHeader(buf).value;
              if RasterEnd(h) <= |buf| then
                r.Success? && HasShape(r.value, h.height, h.width) &&
                forall i, j | 0 <= i < h.height && 0 <= j < h.width ::
                  PixelOffset(h, i, j) + SampleSize(h.maxval) <= |buf| &&
                  r.value[i][j] == SampleAt(buf, PixelOffset(h, i, j), SampleSize(h.maxval), order)
              else
                r == Failure(BufferTooSmall)
  {
    match ParseHeader(buf)
    case None => Failure(NotRawPgm)
    case Some(h) =>
      if RasterEnd(h) > |buf| then Failure(BufferTooSmall) else Success(Raster(buf, h, order))
  }

  // ---------------------------------------------------------------------------
  // The header dcraw writes
  // ---------------------------------------------------------------------------

  /** A token at i with no comment line before it: the matcher reads it, then the tail t after its whitespace byte. */
  lemma PlainToken(buf: seq<Byte>, s: nat, i: nat, d: nat, t: Tail)
    requires s < 3 && i < d < |buf| && AllDigits(buf, i, d) && IsSpace(buf[d])
    requires if s < 2 then Comments(buf, s + 1, d + 1) == Some(t) else t == Tail([], Trailer(buf, d + 1))
    ensures Comments(buf, s, i) == Some(Tail([Token(i, d)] + t.tokens, t.end))
  {
    TokenThenRest(buf, s, i, d, t);
    assert SpaceRun(buf, i) == i;
    assert CommentBody(buf, i).None?;
  }

  /** The `(\d+)\s` alternative on such a token reads it, then the tail t. */
  lemma TokenThenRest(buf: seq<Byte>, s: nat, i: nat, d: nat, t: Tail)
    requires s < 3 && i < d < |buf| && AllDigits(buf, i, d) && IsSpace(buf[d])
    requires if s < 2 then Comments(buf, s + 1, d + 1) == Some(t) else t == Tail([], Trailer(buf, d + 1))
    ensures Number(buf, s, i) == Some(Tail([Token(i, d)] + t.tokens, t.end))
  {
    DigitRunAt(buf, i, d);
  }

  /**
   * buf starts with a header without comment lines: `P5`, then three digit
   * runs ending at b, d and f, each field followed by one whitespace byte.
   */
  predicate PlainFields(buf: seq<Byte>, b: nat, d: nat, f: nat)
  {
    3 < b < d < f < |buf| && buf[0] == 80 && buf[1] == 53 && IsSpace(buf[2]) &&
    AllDigits(buf, 3, b) && IsSpace(buf[b]) &&
    AllDigits(buf, b + 1, d) && b + 1 < d && IsSpace(buf[d]) &&
    AllDigits(buf, d + 1, f) && d + 1 < f && IsSpace(buf[f])
  }

  /** The matcher reads maxval of such a header, then the trailing group. */
  lemma PlainMaxval(buf: seq<Byte>, b: nat, d: nat, f: nat)
    requires PlainFields(buf, b, d, f)
    ensures Comments(buf, 2, d + 1) == Some(Tail([Token(d + 1, f)], Trailer(buf, f + 1)))
  {
    PlainToken(buf, 2, d + 1, f, Tail([], Trailer(buf, f + 1)));
    assert [Token(d + 1, f)] + [] == [Token(d + 1, f)];
  }

  /** The matcher reads height and maxval of such a header. */
  lemma PlainHeight(buf: seq<Byte>, b: nat, d: nat, f: nat)
    requires PlainFields(buf, b, d, f)
    ensures Comments(buf, 1, b + 1) == Some(Tail([Token(b + 1, d), Token(d + 1, f)], Trailer(buf, f + 1)))
  {
    PlainMaxval(buf, b, d, f);
    PlainToken(buf, 1, b + 1, d, Tail([Token(d + 1, f)], Trailer(buf, f + 1)));
    assert [Token(b + 1, d)] + [Token(d + 1, f)] == [Token(b + 1, d), Token(d + 1, f)];
  }

  /** The matcher reads the three fields of such a header and nothing before them. */
  lemma PlainTokens(buf: seq<Byte>, b: nat, d: nat, f: nat)
    requires PlainFields(buf, b, d, f)
    ensures MatchHeader(buf) == Some(Tail([Token(3, b), Token(b + 1, d), Token(d + 1, f)], Trailer(buf, f + 1)))
  {
    PlainHeight(buf, b, d, f);
    PlainToken(buf, 0, 3, b, Tail([Token(b + 1, d), Token(d + 1, f)], Trailer(buf, f + 1)));
    assert [Token(3, b)] + [Token(b + 1, d), Token(d + 1, f)] == [Token(3, b), Token(b + 1, d), Token(d + 1, f)];
  }

  /** No trailing comment line starts at a byte that is neither whitespace nor `#`. */
  lemma NoTrailer(buf: seq<Byte>, n: nat)
    requires n == |buf| || (n < |buf| && !IsSpace(buf[n]) && buf[n] != HASH)
    ensures TrailerItem(buf, n).None? && Trailer(buf, n) == n
  {
    assert SpaceRun(buf, n) == n;
    assert TrailerItem(buf, n).None?;
  }

  /** `#`, a line end and a whitespace byte are one trailing comment line, and nothing more follows. */
  lemma OneTrailerLine(buf: seq<Byte>, n: nat)
    requires n + 2 < |buf| && buf[n] == HASH && buf[n + 1] == LF && IsSpace(buf[n + 2])
    requires n + 3 == |buf| || (!IsSpace(buf[n + 3]) && buf[n + 3] != HASH)
    ensures Trailer(buf, n) == n + 3
  {
    assert SpaceRun(buf, n) == n;
    assert LineRun(buf, n + 1) == n + 1;
    assert ClosesTrailer(buf, n + 1);
    assert TrailerItem(buf, n) == Some(n + 3);
    NoTrailer(buf, n + 3);
  }

  /**
   * Such a header, followed by samples where the trailing group finds no
   * comment line (exactly the condition required here; by NoTrailer it holds
   * when the samples do not start with whitespace or `#`, or are absent), is
   * read as exactly its three values and its length.
   */
  lemma PlainHeaderRoundTrip(buf: seq<Byte>, b: nat, d: nat, f: nat)
    requires PlainFields(buf, b, d, f)
    requires TrailerItem(buf, f + 1).None?
    ensures ParseHeader(buf) ==
            Some(PgmHeader(TokenValue(buf, Token(3, b)), TokenValue(buf, Token(b + 1, d)), TokenValue(buf, Token(d + 1, f)), f + 1))
  {
    PlainTokens(buf, b, d, f);
    assert Trailer(buf, f + 1) == f + 1;
    HeaderOfMatch(buf, Tail([Token(3, b), Token(b + 1, d), Token(d + 1, f)], f + 1));
  }

  /**
   * As written, raster bytes that read `#`, a line end and one whitespace
   * byte form a trailing comment line: they are taken into the header, and
   * the samples are read from after them.
   */
  lemma TrailerTakesRaster(buf: seq<Byte>, b: nat, d: nat, f: nat)
    requires PlainFields(buf, b, d, f)
    requires f + 3 < |buf| && buf[f + 1] == HASH && buf[f + 2] == LF && IsSpace(buf[f + 3])
    requires f + 4 == |buf| || (!IsSpace(buf[f + 4]) && buf[f + 4] != HASH)
    ensures ParseHeader(buf) ==
            Some(PgmHeader(TokenValue(buf, Token(3, b)), TokenValue(buf, Token(b + 1, d)), TokenValue(buf, Token(d + 1, f)), f + 4))
  {
    PlainTokens(buf, b, d, f);
    OneTrailerLine(buf, f + 1);
    HeaderOfMatch(buf, Tail([Token(3, b), Token(b + 1, d), Token(d + 1, f)], f + 4));
  }

  /**
   * read_pgm of a file with such a header, when the trailing group finds no
   * comment line after it: the raster of width*height samples that starts
   * right after the header's last whitespace byte, or BufferTooSmall when the
   * file is shorter than that.
   */
  lemma ReadPlainPgm(buf: seq<Byte>, b: nat, d: nat, f: nat, order: ByteOrder)
    requires PlainFields(buf, b, d, f)
    requires TrailerItem(buf, f + 1).None?
    ensures var h := PgmHeader(TokenValue(buf, Token(3, b)), TokenValue(buf, Token(b + 1, d)), TokenValue(buf, Token(d + 1, f)), f + 1);
            ReadPgm(buf, order) == if RasterEnd(h) <= |buf| then Success(Raster(buf, h, order)) else Failure(BufferTooSmall)
  {
    PlainHeaderRoundTrip(buf, b, d, f);
  }
}
