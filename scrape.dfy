/**
 * The marker-based scraping of the decoder's metadata report in
 * pyraw/rawimage.py (raw_to_fits): `re.search('(?<=Label).*', text)` and
 * `re.search('(?<=Label).*(?=suffix)', text)`, then `.strip()`.
 *
 * The search tries start positions from the left; at a position preceded by
 * the marker, `.*` takes the rest of the line (it does not cross LF) and, when
 * a suffix lookahead follows, gives back characters until the suffix starts.
 */
module Scrape {
  import opened Results

  /** The whitespace of str.strip() and str.split(): space, tab, LF, VT, FF, CR. */
  predicate IsBlank(c: char) { c == ' ' || '\t' <= c <= '\r' }

  /** The lookbehind (?<=marker) holds at p. */
  predicate LabelEndsAt(text: string, marker: string, p: nat)
  {
    |marker| <= p <= |text| && text[p - |marker| .. p] == marker
  }

  /** The lookahead (?=suffix) holds at j. */
  predicate SuffixAt(text: string, suffix: string, j: nat)
  {
    j + |suffix| <= |text| && text[j .. j + |suffix|] == suffix
  }

  /** The first LF at or after p, or the end of the text: where `.*` stops. */
  function LineEnd(text: string, p: nat): (e: nat)
    requires p <= |text|
    ensures p <= e <= |text|
    ensures e == |text| || text[e] == '\n'
    ensures forall k | p <= k < e :: text[k] != '\n'
    decreases |text| - p
  {
    if p == |text| || text[p] == '\n' then p else LineEnd(text, p + 1)
  }

  /** What follows the marker: the rest of the line, or the line up to a suffix. */
  datatype Field = ToLineEnd | UpTo(suffix: string)

  /** A matched span text[start..end]: m.group(0). */
  datatype Span = Span(start: nat, end: nat)

  /**
   * `.*(?=suffix)` from p: `.*` first takes the whole line, then gives back
   * one character at a time, so the end is the LAST position j in p .. p+k-1
   * at which the suffix starts.
   */
  function LastSuffix(text: string, suffix: string, p: nat, k: nat): (r: Option<nat>)
    requires p + k <= |text| + 1
    ensures r.Some? ==> p <= r.value < p + k && SuffixAt(text, suffix, r.value) &&
                        forall j | r.value < j < p + k :: !SuffixAt(text, suffix, j)
    ensures r.None? ==> forall j | p <= j < p + k :: !SuffixAt(text, suffix, j)
    decreases k
  {
    if k == 0 then None
    else if SuffixAt(text, suffix, p + k - 1) then Some(p + k - 1)
    else LastSuffix(text, suffix, p, k - 1)
  }

  /** The pattern can match at start position p. */
  predicate CanMatchAt(text: string, marker: string, field: Field, p: nat)
  {
    LabelEndsAt(text, marker, p) &&
    match field
    case ToLineEnd => true
    case UpTo(suffix) => exists j | p <= j <= LineEnd(text, p) :: SuffixAt(text, suffix, j)
  }

  /** The match that the pattern's first alternative at p gives. */
  predicate MatchesAt(text: string, marker: string, field: Field, m: Span)
  {
    LabelEndsAt(text, marker, m.start) && m.start <= m.end <= LineEnd(text, m.start) &&
    match field
    case ToLineEnd => m.end == LineEnd(text, m.start)
    case UpTo(suffix) =>
      SuffixAt(text, suffix, m.end) &&
      forall j | m.end < j <= LineEnd(text, m.start) :: !SuffixAt(text, suffix, j)
  }

  /** The match at p, if the pattern matches there. */
  function MatchAt(text: string, marker: string, field: Field, p: nat): (r: Option<Span>)
    requires p <= |text|
    ensures r.Some? <==> CanMatchAt(text, marker, field, p)
    ensures r.Some? ==> r.value.start == p && MatchesAt(text, marker, field, r.value)
  {
    if !LabelEndsAt(text, marker, p) then None
    else
      var e := LineEnd(text, p);
      match field
      case ToLineEnd => Some(Span(p, e))
      case UpTo(suffix) =>
        match LastSuffix(text, suffix, p, e - p + 1)
        case None => None
        case Some(j) => Some(Span(p, j))
  }

  /** re.search from position p: the leftmost start at which the pattern matches. */
  function SearchFrom(text: string, marker: string, field: Field, p: nat): (r: Option<Span>)
    requires p <= |text| + 1
    ensures r.None? ==> forall q | p <= q <= |text| :: !CanMatchAt(text, marker, field, q)
    ensures r.Some? ==> p <= r.value.start <= |text| && MatchesAt(text, marker, field, r.value) &&
                        CanMatchAt(text, marker, field, r.value.start) &&
                        forall q | p <= q < r.value.start :: !CanMatchAt(text, marker, field, q)
    decreases |text| + 1 - p
  {
    if p > |text| then None
    else
      match MatchAt(text, marker, field, p)
      case Some(m) => Some(m)
      case None => SearchFrom(text, marker, field, p + 1)
  }

  /** re.search(pattern, text) for the pattern of `marker` and `field`. */
  function Search(text: string, marker: string, field: Field): (r: Option<Span>)
    ensures r.None? <==> forall q | 0 <= q <= |text| :: !CanMatchAt(text, marker, field, q)
    ensures r.Some? ==> r.value.start <= |text| && MatchesAt(text, marker, field, r.value) &&
                        forall q | 0 <= q < r.value.start :: !CanMatchAt(text, marker, field, q)
  {
    SearchFrom(text, marker, field, 0)
  }

  /** The marker occurs in the text at position i. */
  predicate OccursAt(text: string, marker: string, i: nat)
  {
    i + |marker| <= |text| && text[i .. i + |marker|] == marker
  }

  /** The marker occurs somewhere in the text. */
  predicate Occurs(text: string, marker: string)
  {
    exists i | 0 <= i <= |text| :: OccursAt(text, marker, i)
  }

  /**
   * A marker that does not occur makes the search come back empty (and the
   * conversion fail); one that occurs is always found when the field runs to
   * the end of the line.
   */
  lemma SearchFindsLabel(text: string, marker: string, field: Field)
    ensures !Occurs(text, marker) ==> Search(text, marker, field).None?
    ensures Occurs(text, marker) && field == ToLineEnd ==> Search(text, marker, field).Some?
  {
    if !Occurs(text, marker) {
      forall q | 0 <= q <= |text| ensures !LabelEndsAt(text, marker, q) {
        if |marker| <= q {
          assert !OccursAt(text, marker, q - |marker|);
        }
      }
    } else if field == ToLineEnd {
      var i :| 0 <= i <= |text| && OccursAt(text, marker, i);
      assert CanMatchAt(text, marker, field, i + |marker|);
    }
  }

  /** How far the leading blanks of s reach, from i on. */
  function SkipBlanks(s: string, i: nat): (j: nat)
    requires i <= |s|
    ensures i <= j <= |s|
    ensures forall k | i <= k < j :: IsBlank(s[k])
    ensures j == |s| || !IsBlank(s[j])
    decreases |s| - i
  {
    if i == |s| || !IsBlank(s[i]) then i else SkipBlanks(s, i + 1)
  }

  /** Where the trailing blanks of s[..j] start, looking down from j to lo. */
  function SkipBlanksBack(s: string, lo: nat, j: nat): (k: nat)
    requires lo <= j <= |s|
    ensures lo <= k <= j
    ensures forall t | k <= t < j :: IsBlank(s[t])
    ensures k == lo || !IsBlank(s[k - 1])
    decreases j - lo
  {
    if j == lo || !IsBlank(s[j - 1]) then j else SkipBlanksBack(s, lo, j - 1)
  }

  /**
   * str.strip(): s with the blanks at both ends removed.  What is removed is
   * blank, and what is left starts and ends with a non-blank.
   */
  function Strip(s: string): (r: string)
    ensures exists i, j | 0 <= i <= j <= |s| :: r == s[i .. j] &&
              (forall k | 0 <= k < i :: IsBlank(s[k])) && (forall k | j <= k < |s| :: IsBlank(s[k]))
    ensures r != [] ==> !IsBlank(r[0]) && !IsBlank(r[|r| - 1])
  {
    var i := SkipBlanks(s, 0);
    var j := SkipBlanksBack(s, i, |s|);
    assert forall k | j <= k < |s| :: IsBlank(s[k]);
    s[i .. j]
  }

  ghost predicate AllBlank(s: string)
  {
    forall k | 0 <= k < |s| :: IsBlank(s[k])
  }

  /**
   * Strip undoes any blank padding of a string that starts and ends with a
   * non-blank character, so the result of strip() is determined.
   */
  lemma StripPadded(pre: string, t: string, post: string)
    requires AllBlank(pre) && AllBlank(post)
    requires t != [] ==> !IsBlank(t[0]) && !IsBlank(t[|t| - 1])
    ensures Strip(pre + t + post) == t
  {
    if t == [] {
      assert pre + t + post == pre + post;
      StripBlank(pre, post);
    } else {
      StripAround(pre, t, post);
    }
  }

  /** Blank padding alone strips to nothing. */
  lemma StripBlank(pre: string, post: string)
    requires AllBlank(pre) && AllBlank(post)
    ensures Strip(pre + post) == []
  {
    var s := pre + post;
    forall k | 0 <= k < |s| ensures IsBlank(s[k]) {
      if k < |pre| { assert s[k] == pre[k]; } else { assert s[k] == post[k - |pre|]; }
    }
    assert SkipBlanks(s, 0) == |s|;
  }

  /** Blank padding around a string with non-blank ends strips to that string. */
  lemma StripAround(pre: string, t: string, post: string)
    requires AllBlank(pre) && AllBlank(post)
    requires t != [] && !IsBlank(t[0]) && !IsBlank(t[|t| - 1])
    ensures Strip(pre + t + post) == t
  {
    var s := pre + t + post;
    var e := |pre| + |t|;
    assert SkipBlanks(s, 0) == |pre| by {
      assert forall k | 0 <= k < |pre| :: s[k] == pre[k];
      assert s[|pre|] == t[0];
    }
    assert SkipBlanksBack(s, |pre|, |s|) == e by {
      assert forall k | e <= k < |s| :: s[k] == post[k - e];
      assert s[e - 1] == t[|t| - 1];
    }
    assert s[|pre| .. e] == t;
  }

  /** m.group(0).strip() for the first match, or None when re.search finds nothing. */
  function ScrapeField(text: string, marker: string, field: Field): (r: Option<string>)
    ensures r.Some? <==> Search(text, marker, field).Some?
    ensures r.Some? ==> var m := Search(text, marker, field).value;
                        m.start <= m.end <= |text| && r.value == Strip(text[m.start .. m.end])
  {
    match Search(text, marker, field)
    case None => None
    case Some(m) => Some(Strip(text[m.start .. m.end]))
  }

  /** The line end after p: where the value of a marker line stops. */
  lemma LineEndOf(text: string, p: nat, v: string)
    requires p + |v| <= |text| && text[p .. p + |v|] == v && '\n' !in v
    requires p + |v| == |text| || text[p + |v|] == '\n'
    ensures LineEnd(text, p) == p + |v|
  {
    assert forall k | p <= k < p + |v| :: text[k] == v[k - p] && text[k] in v;
  }

  /** The first start at which the pattern can match is the search result's start. */
  lemma SearchStart(text: string, marker: string, field: Field, p: nat)
    requires p <= |text| && CanMatchAt(text, marker, field, p)
    requires forall q | 0 <= q < p :: !LabelEndsAt(text, marker, q)
    ensures Search(text, marker, field).Some? && Search(text, marker, field).value.start == p
  {
  }

  /**
   * When the first place the marker ends is followed by the value v and
   * then the end of the line, the scraped field is v stripped.
   */
  lemma ScrapeLine(pre: string, marker: string, v: string, post: string)
    requires '\n' !in v
    requires post == [] || post[0] == '\n'
    requires forall q | 0 <= q < |pre| + |marker| :: !LabelEndsAt(pre + marker + v + post, marker, q)
    ensures ScrapeField(pre + marker + v + post, marker, ToLineEnd) == Some(Strip(v))
  {
    var text := pre + marker + v + post;
    var p := |pre| + |marker|;
    assert text[p - |marker| .. p] == marker;
    assert text[p .. p + |v|] == v;
    assert p + |v| < |text| ==> text[p + |v|] == post[0];
    LineEndOf(text, p, v);
    assert CanMatchAt(text, marker, ToLineEnd, p);
    SearchStart(text, marker, ToLineEnd, p);
  }

  /**
   * When the first place the marker ends is followed by v, the suffix and
   * a tail in which the suffix does not start again before the end of the
   * line, the scraped field is v stripped: `.*` gives back characters only
   * up to the last suffix on the line.
   */
  lemma ScrapeUpTo(pre: string, marker: string, v: string, suffix: string, tail: string, post: string)
    requires '\n' !in v + suffix + tail
    requires post == [] || post[0] == '\n'
    requires forall q | 0 <= q < |pre| + |marker| ::
               !LabelEndsAt(pre + marker + (v + suffix + tail) + post, marker, q)
    requires forall j | |pre| + |marker| + |v| < j <= |pre| + |marker| + |v + suffix + tail| ::
               !SuffixAt(pre + marker + (v + suffix + tail) + post, suffix, j)
    ensures ScrapeField(pre + marker + (v + suffix + tail) + post, marker, UpTo(suffix)) == Some(Strip(v))
  {
    var line := v + suffix + tail;
    var text := pre + marker + line + post;
    var p := |pre| + |marker|;
    UpToLayout(pre, marker, v, suffix, tail, post);
    ScrapeUpToAt(text, marker, suffix, v, p, p + |v|);
  }

  /**
   * When the marker first ends at p and q is the last position of the line
   * at which the suffix starts, the scraped field is v = text[p..q] stripped.
   */
  lemma ScrapeUpToAt(text: string, marker: string, suffix: string, v: string, p: nat, q: nat)
    requires p <= q <= |text| && LabelEndsAt(text, marker, p) && q <= LineEnd(text, p) && text[p .. q] == v
    requires forall r | 0 <= r < p :: !LabelEndsAt(text, marker, r)
    requires SuffixAt(text, suffix, q)
    requires forall j | q < j <= LineEnd(text, p) :: !SuffixAt(text, suffix, j)
    ensures ScrapeField(text, marker, UpTo(suffix)) == Some(Strip(v))
  {
    assert CanMatchAt(text, marker, UpTo(suffix), p);
    SearchStart(text, marker, UpTo(suffix), p);
    var m := Search(text, marker, UpTo(suffix)).value;
    assert m.start == p && SuffixAt(text, suffix, m.end);
    assert m.end == q;
  }

  /** Where the marker, the value, the suffix and the line end sit in the text ScrapeUpTo reads. */
  lemma UpToLayout(pre: string, marker: string, v: string, suffix: string, tail: string, post: string)
    requires '\n' !in v + suffix + tail
    requires post == [] || post[0] == '\n'
    ensures var text := pre + marker + (v + suffix + tail) + post;
            var p := |pre| + |marker|;
            LabelEndsAt(text, marker, p) && LineEnd(text, p) == p + |v + suffix + tail| &&
            SuffixAt(text, suffix, p + |v|) && text[p .. p + |v|] == v
  {
    var line := v + suffix + tail;
    var text := pre + marker + line + post;
    var p := |pre| + |marker|;
    var e := p + |line|;
    assert LabelEndsAt(text, marker, p) by {
      assert text[p - |marker| .. p] == marker;
    }
    assert LineEnd(text, p) == e by {
      assert text[p .. e] == line;
      assert e < |text| ==> text[e] == post[0];
      LineEndOf(text, p, line);
    }
    assert SuffixAt(text, suffix, p + |v|) by {
      assert text[p + |v| .. p + |v| + |suffix|] == line[|v| .. |v| + |suffix|] == suffix;
    }
    assert text[p .. p + |v|] == line[..|v|] == v;
  }
}
