/**
 * The public product gallery: the selected item with its fallback, next/previous around the
 * list, the lightbox and its keyboard handling. The component's state hooks become the
 * fields of `Viewer`; the `media` prop is a field the parent may replace.
 */
module Gallery {
  import opened Wrappers

  /** A media item as the gallery shows it. */
  datatype ViewerItem = ViewerItem(id: int, url: string, tipo: string)

  /** The index after `i` in a list of `n` items, wrapping to the first. */
  function Next(i: nat, n: nat): (r: nat)
    requires n > 0
    ensures r < n
    ensures i + 1 < n ==> r == i + 1
    ensures i == n - 1 ==> r == 0
  {
    (i + 1) % n
  }

  /** The index before `i` in a list of `n` items, wrapping to the last. */
  function Prev(i: nat, n: nat): (r: nat)
    requires n > 0
    ensures r < n
    ensures 0 < i < n ==> r == i - 1
    ensures i == 0 ==> r == n - 1
  {
    (i - 1 + n) % n
  }

  /** Going back after going forward, or forward after going back, restores an index in range. */
  lemma PrevUndoesNext(i: nat, n: nat)
    requires i < n
    ensures Prev(Next(i, n), n) == i
    ensures Next(Prev(i, n), n) == i
  {
  }

  class Viewer {
    /** The `media` prop. */
    var media: seq<ViewerItem>
    /** `selectedIndex`: the item in the main frame. */
    var selectedIndex: nat
    /** `lightboxOpen`. */
    var lightboxOpen: bool
    /** `lightboxIndex`: the item in the lightbox. */
    var lightboxIndex: nat

    /** The first render: the first item selected, the lightbox closed on the first item. */
    constructor(media: seq<ViewerItem>)
      ensures this.media == media && selectedIndex == 0 && !lightboxOpen && lightboxIndex == 0
    {
      this.media := media;
      selectedIndex := 0;
      lightboxOpen := false;
      lightboxIndex := 0;
    }

    /**
     * `selectedMedia`: `None` for an empty list (the "Sem imagens" placeholder); otherwise
     * the selected item, or the first when the index is past the end.
     */
    function SelectedMedia(): (r: Option<ViewerItem>)
      reads this
      ensures r.None? <==> media == []
      ensures r.Some? ==> r.value in media
      ensures r.Some? && selectedIndex < |media| ==> r.value == media[selectedIndex]
      ensures r.Some? && selectedIndex >= |media| ==> r.value == media[0]
    {
      if media == [] then None
      else if selectedIndex < |media| then Some(media[selectedIndex])
      else Some(media[0])
    }

    /** The item the open lightbox shows; `None` where the index is past the end (the render throws). */
    function LightboxMedia(): (r: Option<ViewerItem>)
      reads this
      ensures r.Some? <==> lightboxOpen && lightboxIndex < |media|
      ensures r.Some? ==> r.value == media[lightboxIndex]
    {
      if lightboxOpen && lightboxIndex < |media| then Some(media[lightboxIndex]) else None
    }

    /** The parent passes a new `media` list; the indices are kept as they are. */
    method SetMedia(media: seq<ViewerItem>)
      modifies this`media
      ensures this.media == media
    {
      this.media := media;
    }

    /** `nextMedia`. */
    method NextMedia()
      requires media != []
      modifies this`selectedIndex
      ensures selectedIndex == Next(old(selectedIndex), |media|) && selectedIndex < |media|
    {
      selectedIndex := (selectedIndex + 1) % |media|;
    }

    /** `prevMedia`. */
    method PrevMedia()
      requires media != []
      modifies this`selectedIndex
      ensures selectedIndex == Prev(old(selectedIndex), |media|) && selectedIndex < |media|
    {
      selectedIndex := (selectedIndex - 1 + |media|) % |media|;
    }

    /** A thumbnail click. */
    method SelectMedia(index: nat)
      requires index < |media|
      modifies this`selectedIndex
      ensures selectedIndex == index
    {
      selectedIndex := index;
    }

    /** `openLightbox`. */
    method OpenLightbox(index: nat)
      modifies this`lightboxIndex, this`lightboxOpen
      ensures lightboxIndex == index && lightboxOpen
    {
      lightboxIndex := index;
      lightboxOpen := true;
    }

    /** `closeLightbox`. */
    method CloseLightbox()
      modifies this`lightboxOpen
      ensures !lightboxOpen
    {
      lightboxOpen := false;
    }

    /**
     * The `keydown` listener: while the lightbox is open, the arrows move its index around the
     * list and Escape closes it; any other key, or any key while it is closed, does nothing.
     */
    method KeyPress(key: string)
      requires media != []
      modifies this`lightboxIndex, this`lightboxOpen
      ensures !old(lightboxOpen) ==> lightboxIndex == old(lightboxIndex) && !lightboxOpen
      ensures old(lightboxOpen) ==>
        if key == "ArrowLeft" then lightboxIndex == Prev(old(lightboxIndex), |media|) && lightboxOpen
        else if key == "ArrowRight" then lightboxIndex == Next(old(lightboxIndex), |media|) && lightboxOpen
        else if key == "Escape" then lightboxIndex == old(lightboxIndex) && !lightboxOpen
        else lightboxIndex == old(lightboxIndex) && lightboxOpen
    {
      if lightboxOpen {
        if key == "ArrowLeft" {
          lightboxIndex := (lightboxIndex - 1 + |media|) % |media|;
        } else if key == "ArrowRight" {
          lightboxIndex := (lightboxIndex + 1) % |media|;
        } else if key == "Escape" {
          CloseLightbox();
        }
      }
    }
  }
}
