/**
 * The FITS header the conversion fills in (pyraw/rawimage.py:137-148):
 * header.update(key, value) sets the first keyword card with that key or
 * adds a new one after the last keyword card, and header.add_comment(text)
 * adds a COMMENT card at the end.  Keyword cards and commentary are kept
 * apart, so a card the split adds after the comments ("FILTER") still sits
 * with the other keywords.
 */
module Fits {
  import opened Results
  import opened Metadata

  /** A keyword card: KEY = 'value'. */
  datatype Card = Card(key: string, value: string)

  /** The keys of the cards, in order. */
  function Keys(cards: seq<Card>): (r: seq<string>)
    ensures |r| == |cards|
    ensures forall k | 0 <= k < |cards| :: r[k] == cards[k].key
  {
    if cards == [] then [] else [cards[0].key] + Keys(cards[1..])
  }

  /** header[key]: the value of the first card with the key. */
  function Lookup(cards: seq<Card>, key: string): (r: Option<string>)
    ensures r.None? <==> key !in Keys(cards)
    ensures r.Some? ==> Card(key, r.value) in cards
    ensures forall n | 0 <= n < |cards| && cards[n].key == key && key !in Keys(cards[..n]) :: r == Some(cards[n].value)
  {
    if cards == [] then None
    else if cards[0].key == key then
      assert forall n | 0 < n < |cards| :: Keys(cards[..n])[0] == key;
      Some(cards[0].value)
    else
      assert Keys(cards) == [cards[0].key] + Keys(cards[1..]);
      assert forall n | 0 < n < |cards| :: cards[1..][..n - 1] == cards[1..n] && Keys(cards[1..n]) == Keys(cards[..n])[1..];
      Lookup(cards[1..], key)
  }

  /**
   * header.update(key, value): the first card with the key gets the value,
   * or a card is added after the others.  SetCardKeys, LookupSetCard and
   * LookupSetOther state what that does to the keys and their values.
   */
  function SetCard(cards: seq<Card>, key: string, value: string): (r: seq<Card>)
    ensures |r| == if key in Keys(cards) then |cards| else |cards| + 1
    decreases |cards|
  {
    assert cards != [] ==> Keys(cards) == [cards[0].key] + Keys(cards[1..]);
    if cards == [] then [Card(key, value)]
    else if cards[0].key == key then [Card(key, value)] + cards[1..]
    else [cards[0]] + SetCard(cards[1..], key, value)
  }

  /** The keys keep their order, and a new key goes last. */
  lemma {:induction false} SetCardKeys(cards: seq<Card>, key: string, value: string)
    ensures Keys(SetCard(cards, key, value)) == if key in Keys(cards) then Keys(cards) else Keys(cards) + [key]
    decreases |cards|
  {
    if cards != [] {
      assert Keys(cards) == [cards[0].key] + Keys(cards[1..]);
      if cards[0].key == key {
        assert Keys([Card(key, value)] + cards[1..]) == [key] + Keys(cards[1..]);
      } else {
        var rest := SetCard(cards[1..], key, value);
        SetCardKeys(cards[1..], key, value);
        assert Keys([cards[0]] + rest) == [cards[0].key] + Keys(rest);
      }
    }
  }

  /** After header.update(key, value) the key reads the value. */
  lemma {:induction false} LookupSetCard(cards: seq<Card>, key: string, value: string)
    ensures Lookup(SetCard(cards, key, value), key) == Some(value)
    decreases |cards|
  {
    if cards != [] && cards[0].key != key {
      LookupSetCard(cards[1..], key, value);
      assert SetCard(cards, key, value)[1..] == SetCard(cards[1..], key, value);
    }
  }

  /** header.update(key, value) leaves what every other key reads unchanged. */
  lemma {:induction false} LookupSetOther(cards: seq<Card>, key: string, value: string, other: string)
    requires other != key
    ensures Lookup(SetCard(cards, key, value), other) == Lookup(cards, other)
    decreases |cards|
  {
    if cards != [] {
      if cards[0].key == key {
        assert SetCard(cards, key, value)[1..] == cards[1..];
      } else if cards[0].key != other {
        LookupSetOther(cards[1..], key, value, other);
        assert SetCard(cards, key, value)[1..] == SetCard(cards[1..], key, value);
      }
    }
  }

  /** A new key is appended as a card of its own. */
  lemma {:induction false} SetNewCard(cards: seq<Card>, key: string, value: string)
    requires key !in Keys(cards)
    ensures SetCard(cards, key, value) == cards + [Card(key, value)]
    decreases |cards|
  {
    if cards != [] {
      assert Keys(cards) == [cards[0].key] + Keys(cards[1..]);
      SetNewCard(cards[1..], key, value);
      assert [cards[0]] + (cards[1..] + [Card(key, value)]) == cards + [Card(key, value)];
    }
  }

  /** Updating a key twice with the same value is the same as once. */
  lemma {:induction false} SetCardIdempotent(cards: seq<Card>, key: string, value: string)
    ensures SetCard(SetCard(cards, key, value), key, value) == SetCard(cards, key, value)
    decreases |cards|
  {
    if cards != [] && cards[0].key != key {
      SetCardIdempotent(cards[1..], key, value);
      assert SetCard(cards, key, value)[1..] == SetCard(cards[1..], key, value);
    }
  }

  /** The updates applied in order. */
  function SetCards(cards: seq<Card>, updates: seq<Card>): (r: seq<Card>)
    ensures |cards| <= |r| <= |cards| + |updates|
    decreases |updates|
  {
    if updates == [] then cards
    else
      var last := updates[|updates| - 1];
      SetCard(SetCards(cards, updates[..|updates| - 1]), last.key, last.value)
  }

  predicate DistinctKeys(cards: seq<Card>)
  {
    forall k, l | 0 <= k < l < |cards| :: cards[k].key != cards[l].key
  }

  /** Updates with keys of their own, on cards without them, append cards in update order. */
  lemma {:induction false} SetCardsAppend(cards: seq<Card>, updates: seq<Card>)
    requires DistinctKeys(updates)
    requires forall k | 0 <= k < |updates| :: updates[k].key !in Keys(cards)
    ensures SetCards(cards, updates) == cards + updates
    decreases |updates|
  {
    if updates != [] {
      var n := |updates| - 1;
      var front := updates[..n];
      SetCardsAppend(cards, front);
      assert updates[n].key !in Keys(cards + front) by {
        var ks := Keys(cards + front);
        forall k | 0 <= k < |ks| ensures ks[k] != updates[n].key {
          if k >= |cards| {
            assert ks[k] == front[k - |cards|].key == updates[k - |cards|].key;
          } else {
            assert ks[k] == cards[k].key == Keys(cards)[k];
          }
        }
      }
      SetNewCard(cards + front, updates[n].key, updates[n].value);
      assert cards + front + [updates[n]] == cards + updates;
    }
  }

  /** The keyword cards _update_header writes, in order. */
  function ExifCards(e: Exif): seq<Card>
  {
    [Card("OBSTIME", e.date), Card("EXPTIME", e.shutter), Card("APERTUR", e.aperture),
     Card("ISO", e.iso), Card("FOCAL", e.focal), Card("ORIGIN", e.originalFile),
     Card("CAMERA", e.camera), Card("BAYERPA", e.bayer)]
  }

  /** The comments _update_header adds, in order. */
  const ExifComments: seq<string> :=
    ["EXPTIME is in seconds.", "APERTUR is the ratio as in f/APERTUR", "FOCAL is in mm"]

  /** The comment only the whole-raster output adds. */
  const BayerComment := "BAYERPA is the Bayer filter pattern"

  /** The header of one HDU: its keyword cards and its commentary, each in order. */
  class Header {
    var cards: seq<Card>
    var comments: seq<string>

    /** A header without keyword cards of the conversion's own. */
    constructor ()
      ensures cards == [] && comments == []
    {
      cards := [];
      comments := [];
    }

    /** header.update(key, value). */
    method Update(key: string, value: string)
      modifies this
      ensures cards == SetCard(old(cards), key, value)
      ensures comments == old(comments)
    {
      cards := SetCard(cards, key, value);
    }

    /** header.add_comment(text). */
    method AddComment(text: string)
      modifies this
      ensures comments == old(comments) + [text]
      ensures cards == old(cards)
    {
      comments := comments + [text];
    }
  }

  lemma SetCardsStep(cards: seq<Card>, updates: seq<Card>, k: nat)
    requires k < |updates|
    ensures SetCards(cards, updates[..k + 1]) ==
            SetCard(SetCards(cards, updates[..k]), updates[k].key, updates[k].value)
  {
    assert updates[..k + 1][..k] == updates[..k];
  }

  /** The eight metadata updates, one header.update call after the other. */
  lemma SetExifCards(cards: seq<Card>, e: Exif)
    ensures SetCards(cards, ExifCards(e)) ==
            SetCard(SetCard(SetCard(SetCard(SetCard(SetCard(SetCard(SetCard(cards,
              "OBSTIME", e.date), "EXPTIME", e.shutter), "APERTUR", e.aperture), "ISO", e.iso),
              "FOCAL", e.focal), "ORIGIN", e.originalFile), "CAMERA", e.camera), "BAYERPA", e.bayer)
  {
    var u := ExifCards(e);
    assert u[..0] == [];
    SetCardsStep(cards, u, 0);
    SetCardsStep(cards, u, 1);
    SetCardsStep(cards, u, 2);
    SetCardsStep(cards, u, 3);
    SetCardsStep(cards, u, 4);
    SetCardsStep(cards, u, 5);
    SetCardsStep(cards, u, 6);
    SetCardsStep(cards, u, 7);
    assert u[..8] == u;
  }

  /** The eight metadata keyword updates of _update_header, in order. */
  method UpdateExifCards(h: Header, e: Exif)
    modifies h
    ensures h.cards == SetCards(old(h.cards), ExifCards(e))
    ensures h.comments == old(h.comments)
  {
    SetExifCards(h.cards, e);
    h.Update("OBSTIME", e.date);
    h.Update("EXPTIME", e.shutter);
    h.Update("APERTUR", e.aperture);
    h.Update("ISO", e.iso);
    h.Update("FOCAL", e.focal);
    h.Update("ORIGIN", e.originalFile);
    h.Update("CAMERA", e.camera);
    h.Update("BAYERPA", e.bayer);
  }

  /** _update_header(hdu): the eight metadata keywords, then the three comments. */
  method UpdateHeader(h: Header, e: Exif)
    modifies h
    ensures h.cards == SetCards(old(h.cards), ExifCards(e))
    ensures h.comments == old(h.comments) + ExifComments
  {
    UpdateExifCards(h, e);
    h.AddComment("EXPTIME is in seconds.");
    h.AddComment("APERTUR is the ratio as in f/APERTUR");
    h.AddComment("FOCAL is in mm");
  }

  /** With distinct keys, every card's key reads its own value. */
  lemma {:induction false} LookupDistinct(cards: seq<Card>, k: nat)
    requires DistinctKeys(cards) && k < |cards|
    ensures Lookup(cards, cards[k].key) == Some(cards[k].value)
    decreases k
  {
    if k > 0 {
      assert cards[0].key != cards[k].key;
      assert DistinctKeys(cards[1..]);
      LookupDistinct(cards[1..], k - 1);
    }
  }

  /** The keys of the eight metadata cards, in the order _update_header writes them. */
  const ExifKeyNames: seq<string> :=
    ["OBSTIME", "EXPTIME", "APERTUR", "ISO", "FOCAL", "ORIGIN", "CAMERA", "BAYERPA"]

  /** The eight metadata keys, and the FILTER key the split adds, are all different. */
  lemma ExifKeys(e: Exif)
    ensures DistinctKeys(ExifCards(e))
    ensures "FILTER" !in Keys(ExifCards(e))
  {
    var cards := ExifCards(e);
    KeyNamesDistinct();
    assert forall k | 0 <= k < 8 :: cards[k].key == ExifKeyNames[k];
    assert Keys(cards) == ExifKeyNames;
  }

  /** The key names are pairwise different, and none of them is FILTER. */
  lemma KeyNamesDistinct()
    ensures forall k, l | 0 <= k < l < |ExifKeyNames| :: ExifKeyNames[k] != ExifKeyNames[l]
    ensures "FILTER" !in ExifKeyNames
  {
  }

  /**
   * On a header without them, _update_header leaves exactly the eight
   * metadata cards, in order, and each key reads back its metadata value.
   */
  lemma ExifCardsOnFreshHeader(e: Exif)
    ensures SetCards([], ExifCards(e)) == ExifCards(e)
    ensures forall k | 0 <= k < 8 :: Lookup(ExifCards(e), ExifCards(e)[k].key) == Some(ExifCards(e)[k].value)
    ensures Lookup(ExifCards(e), "FILTER") == None
  {
    ExifKeys(e);
    SetCardsAppend([], ExifCards(e));
    assert [] + ExifCards(e) == ExifCards(e);
    forall k | 0 <= k < 8
      ensures Lookup(ExifCards(e), ExifCards(e)[k].key) == Some(ExifCards(e)[k].value)
    {
      LookupDistinct(ExifCards(e), k);
    }
  }

  /**
   * After _update_header on a header without them and the split's
   * update('FILTER', name), FILTER reads name and each metadata key its value.
   */
  lemma FilterCardLookups(e: Exif, name: string)
    ensures Lookup(ExifCards(e) + [Card("FILTER", name)], "FILTER") == Some(name)
    ensures forall k | 0 <= k < 8 ::
              Lookup(ExifCards(e) + [Card("FILTER", name)], ExifCards(e)[k].key) == Some(ExifCards(e)[k].value)
  {
    var cards := ExifCards(e);
    ExifKeys(e);
    ExifCardsOnFreshHeader(e);
    SetNewCard(cards, "FILTER", name);
    LookupSetCard(cards, "FILTER", name);
    forall k | 0 <= k < 8
      ensures Lookup(cards + [Card("FILTER", name)], cards[k].key) == Some(cards[k].value)
    {
      assert Keys(cards)[k] == cards[k].key;
      LookupSetOther(cards, "FILTER", name, cards[k].key);
    }
  }
}
