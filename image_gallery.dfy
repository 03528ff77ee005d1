/**
  The case study's image gallery and its lightbox: which image is selected,
  whether the lightbox is open, the page's scroll lock, and the mouse and
  keyboard handlers that change them.
 */
module ImageGallery {
  import opened Wrappers
  import opened JsString

  /** The value written to `document.body.style.overflow`; `Untouched` before the first write. */
  datatype Overflow = Untouched | Hidden | Unset

  /** The index after `i` among `n` images, wrapping from the last to the first. */
  function Next(i: int, n: int): (r: int)
    ensures 0 <= i < n ==> 0 <= r < n
  {
    if i == n - 1 then 0 else i + 1
  }

  /** The index before `i` among `n` images, wrapping from the first to the last. */
  function Previous(i: int, n: int): (r: int)
    ensures 0 <= i < n ==> 0 <= r < n
  {
    if i == 0 then n - 1 else i - 1
  }

  /** Moving forward then back, or back then forward, returns to the same image. */
  lemma NextPreviousInverse(i: int, n: int)
    requires 0 <= i < n
    ensures Previous(Next(i, n), n) == i
    ensures Next(Previous(i, n), n) == i
  {
  }

  /** Moving forward `n` times from `i`, one step at a time, visits every image and comes back. */
  function Forward(i: int, n: int, steps: nat): (r: int)
    ensures 0 <= i < n ==> 0 <= r < n
  {
    if steps == 0 then i else Next(Forward(i, n, steps - 1), n)
  }

  /**
    After `k <= n` steps forward from `i` the lightbox shows image `i + k`,
    wrapped past the last image; after `n` steps it is back at `i`.
   */
  lemma {:induction false} ForwardWraps(i: int, n: int, k: nat)
    requires 0 <= i < n && k <= n
    ensures Forward(i, n, k) == if i + k < n then i + k else i + k - n
    ensures k == n ==> Forward(i, n, k) == i
  {
    if k > 0 {
      ForwardWraps(i, n, k - 1);
    }
  }

  /** The lightbox's counter: `<selected + 1> / <n>`. */
  function Counter(selected: nat, n: nat): string {
    Decimal(selected + 1) + " / " + Decimal(n)
  }

  /** The counter starts with the one-based position of the image, as `parseInt` reads it. */
  lemma CounterReadsBack(selected: nat, n: nat)
    ensures ParseInt(Counter(selected, n)) == Int(selected + 1)
  {
    assert Counter(selected, n) == Decimal(selected + 1) + (" / " + Decimal(n));
    ParseIntDecimal(selected + 1, " / " + Decimal(n));
  }

  /** The previous and next buttons are rendered only when there is more than one image. */
  predicate ShowsNavButtons(n: nat) {
    n > 1
  }

  /** The gallery's state. */
  class Gallery {
    const images: seq<string>
    var selected: Option<int>
    var isLightboxOpen: bool
    var overflow: Overflow

    /** The lightbox is open exactly when an image is selected, and the selection is one of the images. */
    predicate Valid()
      reads this
    {
      (isLightboxOpen <==> selected.Some?)
      && (selected.Some? ==> 0 <= selected.value < |images|)
      && (isLightboxOpen ==> overflow == Hidden)
    }

    constructor(images: seq<string>)
      ensures this.images == images && selected.None? && !isLightboxOpen && overflow == Untouched
      ensures Valid()
    {
      this.images := images;
      selected := None;
      isLightboxOpen := false;
      overflow := Untouched;
    }

    /** `openLightbox(index)`, from a click on (or Enter / Space on) the thumbnail at `index`. */
    method OpenLightbox(index: int)
      modifies this
      ensures selected == Some(index) && isLightboxOpen && overflow == Hidden
      ensures 0 <= index < |images| ==> Valid()
    {
      selected := Some(index);
      isLightboxOpen := true;
      overflow := Hidden;
    }

    /** `closeLightbox`, from the close button, a click on the backdrop, or Escape. */
    method CloseLightbox()
      modifies this
      ensures !isLightboxOpen && selected.None? && overflow == Unset
      ensures Valid()
    {
      isLightboxOpen := false;
      selected := None;
      overflow := Unset;
    }

    /** `goToPrevious`: nothing without a selection. */
    method GoToPrevious()
      modifies this
      ensures selected == (if old(selected).Some? then Some(Previous(old(selected).value, |images|)) else None)
      ensures isLightboxOpen == old(isLightboxOpen) && overflow == old(overflow)
      ensures old(Valid()) ==> Valid()
    {
      if selected.Some? {
        selected := Some(Previous(selected.value, |images|));
      }
    }

    /** `goToNext`: nothing without a selection. */
    method GoToNext()
      modifies this
      ensures selected == (if old(selected).Some? then Some(Next(old(selected).value, |images|)) else None)
      ensures isLightboxOpen == old(isLightboxOpen) && overflow == old(overflow)
      ensures old(Valid()) ==> Valid()
    {
      if selected.Some? {
        selected := Some(Next(selected.value, |images|));
      }
    }

    /** A key pressed on the thumbnail at `index`: Enter or Space opens it, other keys do nothing. */
    method HandleThumbnailKey(index: int, key: string)
      modifies this
      ensures key == "Enter" || key == " " ==> selected == Some(index) && isLightboxOpen && overflow == Hidden
      ensures key != "Enter" && key != " " ==>
        selected == old(selected) && isLightboxOpen == old(isLightboxOpen) && overflow == old(overflow)
      ensures old(Valid()) && 0 <= index < |images| ==> Valid()
    {
      if key == "Enter" || key == " " {
        OpenLightbox(index);
      }
    }

    /** `handleKeyDown`: ignored while closed; Escape closes, the arrow keys move. */
    method HandleKeyDown(key: string)
      modifies this
      ensures !old(isLightboxOpen) ==> selected == old(selected) && isLightboxOpen == old(isLightboxOpen) && overflow == old(overflow)
      ensures old(isLightboxOpen) && key == "Escape" ==> !isLightboxOpen && selected.None? && overflow == Unset
      ensures old(isLightboxOpen) && key == "ArrowLeft" && old(selected).Some? ==>
        selected == Some(Previous(old(selected).value, |images|)) && isLightboxOpen
      ensures old(isLightboxOpen) && key == "ArrowRight" && old(selected).Some? ==>
        selected == Some(Next(old(selected).value, |images|)) && isLightboxOpen
      ensures old(isLightboxOpen) && key != "Escape" && key != "ArrowLeft" && key != "ArrowRight" ==>
        selected == old(selected) && isLightboxOpen == old(isLightboxOpen) && overflow == old(overflow)
      ensures old(Valid()) ==> Valid()
    {
      if !isLightboxOpen {
        return;
      }
      if key == "Escape" {
        CloseLightbox();
      } else if key == "ArrowLeft" {
        GoToPrevious();
      } else if key == "ArrowRight" {
        GoToNext();
      }
    }

    /** The lightbox is rendered: open, with an image selected. */
    predicate ShowsLightbox()
      reads this
    {
      isLightboxOpen && selected.Some?
    }
  }

  /** Opening image `i`, pressing ArrowRight then ArrowLeft returns to image `i`, with the lightbox still open. */
  method NextThenPrevious(images: seq<string>, i: int) returns (g: Gallery)
    requires 0 <= i < |images|
    ensures g.selected == Some(i) && g.isLightboxOpen && g.Valid()
  {
    g := new Gallery(images);
    g.OpenLightbox(i);
    g.HandleKeyDown("ArrowRight");
    g.HandleKeyDown("ArrowLeft");
    NextPreviousInverse(i, |images|);
  }
}
