/**
 * The media list of the product editor: moving an item up or down (and the id order sent to
 * `PUT /products/:id/media/reorder`), marking the cover, and dropping a deleted item.
 */
module MediaUploaderView {
  import opened Wrappers
  import opened Schema
  import Sorting
  import QueueScreen
  import MediaGallery

  /** A media row as the editor holds it (the JSON the server returned for it). */
  datatype Item = Item(id: int, url: string, tipo: string, ordem: int, isCapa: int)

  /** The ids of the list, in order. */
  function Ids(media: seq<Item>): (r: seq<int>)
    ensures |r| == |media| && forall i :: 0 <= i < |r| ==> r[i] == media[i].id
  {
    seq(|media|, i requires 0 <= i < |media| => media[i].id)
  }

  /** `media.findIndex(m => m.id === mediaId)`: the first position with that id, or -1. */
  function FindIndex(media: seq<Item>, mediaId: int): (r: int)
    ensures r == -1 <==> forall i :: 0 <= i < |media| ==> media[i].id != mediaId
    ensures r != -1 ==> 0 <= r < |media| && media[r].id == mediaId && forall i :: 0 <= i < r ==> media[i].id != mediaId
  {
    if media == [] then -1
    else if media[0].id == mediaId then 0
    else
      var r := FindIndex(media[1..], mediaId);
      if r == -1 then -1 else r + 1
  }

  /** Exchanging two items exchanges their ids. */
  lemma IdsOfSwapped(media: seq<Item>, i: int, j: int)
    requires 0 <= i < |media| && 0 <= j < |media|
    ensures Ids(QueueScreen.Swapped(media, i, j)) == QueueScreen.Swapped(Ids(media), i, j)
  {
  }

  /** Exchanging two entries keeps a sequence free of repeats. */
  lemma SwapKeepsDistinct(s: seq<int>, i: int, j: int)
    requires 0 <= i < |s| && 0 <= j < |s| && Sorting.Distinct(s)
    ensures Sorting.Distinct(QueueScreen.Swapped(s, i, j))
  {
    var t := QueueScreen.Swapped(s, i, j);
    forall a, b | 0 <= a < b < |t|
      ensures t[a] != t[b]
    {
      var a' := if a == i then j else if a == j then i else a;
      var b' := if b == i then j else if b == j then i else b;
      assert t[a] == s[a'] && t[b] == s[b'] && a' != b';
    }
  }

  /** `[...media]` followed by the destructuring swap of two entries. */
  method Exchange(media: seq<Item>, i: int, j: int) returns (moved: seq<Item>)
    requires 0 <= i < |media| && 0 <= j < |media|
    ensures moved == QueueScreen.Swapped(media, i, j)
  {
    var copy := new Item[|media|](k requires 0 <= k < |media| => media[k]);
    copy[i], copy[j] := copy[j], copy[i];
    moved := copy[..];
  }

  /**
   * `handleReorder`: an unknown id, or a move past either end, changes nothing and sends
   * nothing. Otherwise the item and its neighbour are exchanged, their ids (a permutation of
   * the current ones) are sent, and the list shows the exchange only if the server accepts.
   * Any direction other than `up` moves down.
   */
  method HandleReorder(media: seq<Item>, mediaId: int, up: bool, accepted: bool)
    returns (next: seq<Item>, sent: Option<seq<int>>)
    ensures var index := FindIndex(media, mediaId);
      var newIndex := if up then index - 1 else index + 1;
      if index == -1 || newIndex < 0 || newIndex >= |media| then next == media && sent.None?
      else
        && sent == Some(Ids(QueueScreen.Swapped(media, index, newIndex)))
        && sent.value == QueueScreen.Swapped(Ids(media), index, newIndex)
        && multiset(sent.value) == multiset(Ids(media))
        && next == (if accepted then QueueScreen.Swapped(media, index, newIndex) else media)
  {
    var index := FindIndex(media, mediaId);
    if index == -1 {
      return media, None;
    }
    var newIndex := if up then index - 1 else index + 1;
    if newIndex < 0 || newIndex >= |media| {
      return media, None;
    }
    var moved := Exchange(media, index, newIndex);
    IdsOfSwapped(media, index, newIndex);
    QueueScreen.SwapPermutes(Ids(media), index, newIndex);
    sent := Some(Ids(moved));
    next := if accepted then moved else media;
  }

  /**
   * When the editor's ids are distinct, the server, applying the ids a move sends, gives each
   * of the product's rows its new position in the list as `ordem`.
   */
  lemma ReorderSentMatchesServer(rows: map<int, Media>, produtoId: int, media: seq<Item>, i: int, j: int, p: int)
    requires Sorting.Distinct(Ids(media))
    requires 0 <= i < |media| && 0 <= j < |media| && 0 <= p < |media|
    requires var sent := Ids(QueueScreen.Swapped(media, i, j));
      sent[p] in rows && rows[sent[p]].produtoId == produtoId
    ensures var sent := Ids(QueueScreen.Swapped(media, i, j));
      MediaGallery.Reordered(rows, produtoId, sent)[sent[p]].ordem == p
  {
    IdsOfSwapped(media, i, j);
    SwapKeepsDistinct(Ids(media), i, j);
    MediaGallery.ReorderPlacesEach(rows, produtoId, Ids(QueueScreen.Swapped(media, i, j)), p);
  }

  /** `handleSetCapa`'s new list: every item kept in place, `isCapa` 1 on the chosen id and 0 elsewhere. */
  function WithCover(media: seq<Item>, mediaId: int): (r: seq<Item>)
    ensures |r| == |media|
    ensures forall i :: 0 <= i < |r| ==> r[i] == media[i].(isCapa := if media[i].id == mediaId then 1 else 0)
  {
    seq(|media|, i requires 0 <= i < |media| => media[i].(isCapa := if media[i].id == mediaId then 1 else 0))
  }

  /**
   * With distinct ids, after `handleSetCapa` exactly one item is the cover when the id is in
   * the list, and none otherwise; the ids keep their order.
   */
  lemma CoverIsUniqueInList(media: seq<Item>, mediaId: int)
    requires Sorting.Distinct(Ids(media))
    ensures Ids(WithCover(media, mediaId)) == Ids(media)
    ensures FindIndex(media, mediaId) != -1 ==>
      var c := FindIndex(media, mediaId);
      WithCover(media, mediaId)[c].isCapa == 1 &&
      forall i :: 0 <= i < |media| && i != c ==> WithCover(media, mediaId)[i].isCapa == 0
    ensures FindIndex(media, mediaId) == -1 ==> forall i :: 0 <= i < |media| ==> WithCover(media, mediaId)[i].isCapa == 0
  {
    var c := FindIndex(media, mediaId);
    if c != -1 {
      forall i | 0 <= i < |media| && i != c
        ensures media[i].id != mediaId
      {
        assert Ids(media)[i] != Ids(media)[c];
      }
    }
  }

  /** `handleDelete`'s new list: `media.filter(m => m.id !== mediaId)`. */
  function Without(media: seq<Item>, mediaId: int): (r: seq<Item>)
    ensures |r| <= |media|
  {
    if media == [] then []
    else (if media[0].id == mediaId then [] else [media[0]]) + Without(media[1..], mediaId)
  }

  /** Exactly the items with another id remain. */
  lemma {:induction false} WithoutMembers(media: seq<Item>, mediaId: int)
    ensures forall x :: x in Without(media, mediaId) <==> x in media && x.id != mediaId
  {
    if media != [] {
      WithoutMembers(media[1..], mediaId);
      assert media == [media[0]] + media[1..];
    }
  }

  /** Deleting an id absent from the list leaves it as it is. */
  lemma {:induction false} WithoutAbsent(media: seq<Item>, mediaId: int)
    requires FindIndex(media, mediaId) == -1
    ensures Without(media, mediaId) == media
  {
    if media != [] {
      WithoutAbsent(media[1..], mediaId);
    }
  }

  /** With distinct ids, deleting a listed id shortens the list by exactly one. */
  lemma {:induction false} WithoutPresent(media: seq<Item>, mediaId: int)
    requires Sorting.Distinct(Ids(media))
    requires FindIndex(media, mediaId) != -1
    ensures |Without(media, mediaId)| == |media| - 1
  {
    if media[0].id == mediaId {
      assert forall i :: 0 <= i < |media[1..]| ==> media[1..][i].id == Ids(media)[i + 1];
      WithoutAbsent(media[1..], mediaId);
    } else {
      assert Ids(media[1..]) == Ids(media)[1..];
      WithoutPresent(media[1..], mediaId);
    }
  }

  /** `filter` keeps the order: filtering a concatenation filters each part in place. */
  lemma {:induction false} WithoutAppend(a: seq<Item>, b: seq<Item>, mediaId: int)
    ensures Without(a + b, mediaId) == Without(a, mediaId) + Without(b, mediaId)
  {
    if a == [] {
      assert a + b == b;
    } else {
      assert (a + b)[0] == a[0] && (a + b)[1..] == a[1..] + b;
      WithoutAppend(a[1..], b, mediaId);
    }
  }

  /**
   * With distinct ids, deleting a listed id removes exactly its item and keeps the others in
   * their order.
   */
  lemma {:induction false} WithoutSplices(media: seq<Item>, mediaId: int)
    requires Sorting.Distinct(Ids(media))
    requires FindIndex(media, mediaId) != -1
    ensures var c := FindIndex(media, mediaId);
      Without(media, mediaId) == media[..c] + media[c + 1..]
  {
    var tail := media[1..];
    assert Ids(tail) == Ids(media)[1..];
    if media[0].id == mediaId {
      forall i | 0 <= i < |tail|
        ensures tail[i].id != mediaId
      {
        assert Ids(media)[i + 1] != Ids(media)[0];
      }
      WithoutAbsent(tail, mediaId);
      assert media[..0] + media[1..] == tail;
    } else {
      var c := FindIndex(tail, mediaId);
      WithoutSplices(tail, mediaId);
      assert FindIndex(media, mediaId) == c + 1;
      assert Without(media, mediaId) == [media[0]] + (tail[..c] + tail[c + 1..]);
      assert [media[0]] + tail[..c] == media[..c + 1];
      assert tail[c + 1..] == media[c + 2..];
    }
  }
}
