/**
 The car details page: an image carousel whose index wraps around in both
 directions, and the contact dialog that the Contact button opens and the
 close button dismisses. The fetched listing is an input (`Loaded`); until
 it arrives the page shows a loading notice and the image list is absent.
 */
module CarDetails {

  import opened Replies

  /**
   The length the carousel cycles through: the number of images, or 1 when
   the listing is not loaded yet or has no images (`length || 1`, where a
   length of 0 and an absent listing are both falsy).
   */
  function CycleLength(images: Option<seq<string>>): (n: nat)
    ensures n >= 1
    ensures images.Some? && images.value != [] ==> n == |images.value|
    ensures images.None? || images.value == [] ==> n == 1
  {
    if images.Some? && images.value != [] then |images.value| else 1
  }

  /** `nextImage`: the last position goes back to the first, every other one moves up by one. */
  function NextIndex(i: int, n: int): int {
    if i == n - 1 then 0 else i + 1
  }

  /** `prevImage`: the first position goes to the last, every other one moves down by one. */
  function PrevIndex(i: int, n: int): int {
    if i == 0 then n - 1 else i - 1
  }

  /** Within the carousel, `nextImage` is a step forward modulo the number of images. */
  lemma NextIsModularStep(i: int, n: int)
    requires 0 <= i < n
    ensures 0 <= NextIndex(i, n) < n
    ensures NextIndex(i, n) == (i + 1) % n
  {
    if i == n - 1 {
      assert i + 1 == 1 * n;
    } else {
      assert i + 1 == 0 * n + (i + 1);
    }
  }

  /** Within the carousel, `prevImage` is a step backward modulo the number of images. */
  lemma PrevIsModularStep(i: int, n: int)
    requires 0 <= i < n
    ensures 0 <= PrevIndex(i, n) < n
    ensures PrevIndex(i, n) == (i - 1) % n
  {
    if i == 0 {
      assert i - 1 == -1 * n + (n - 1);
    } else {
      assert i - 1 == 0 * n + (i - 1);
    }
  }

  /** Going back after going forward returns to the same image, and so does the converse. */
  lemma PrevUndoesNext(i: int, n: int)
    requires 0 <= i < n
    ensures PrevIndex(NextIndex(i, n), n) == i
    ensures NextIndex(PrevIndex(i, n), n) == i
  {
  }

  /** With no images (or before the listing arrives) both buttons leave the index at 0. */
  lemma NoImagesKeepsFirst(images: Option<seq<string>>)
    requires images.None? || images.value == []
    ensures NextIndex(0, CycleLength(images)) == 0
    ensures PrevIndex(0, CycleLength(images)) == 0
  {
  }

  /** The index after pressing the next button `k` times. */
  function NextTimes(i: int, n: int, k: nat): int {
    if k == 0 then i else NextIndex(NextTimes(i, n, k - 1), n)
  }

  /** Pressing next `k <= n` times moves `k` places, wrapping past the last image once. */
  lemma {:induction false} NextTimesWraps(i: int, n: int, k: nat)
    requires 0 <= i < n && k <= n
    ensures NextTimes(i, n, k) == if i + k < n then i + k else i + k - n
  {
    if k > 0 {
      NextTimesWraps(i, n, k - 1);
    }
  }

  /** Pressing next once per image brings the carousel back to where it started. */
  lemma FullCycleReturns(i: int, n: int)
    requires 0 <= i < n
    ensures NextTimes(i, n, n) == i
  {
    NextTimesWraps(i, n, n);
  }

  /**
   The index is kept when another listing is loaded, so it can be past the
   end of the new image list; from there `nextImage` never wraps, while
   `prevImage` walks back down.
   */
  lemma {:induction false} PastTheEndNeverWraps(i: int, n: int, k: nat)
    requires n >= 1 && i >= n
    ensures NextTimes(i, n, k) == i + k
  {
    if k > 0 {
      PastTheEndNeverWraps(i, n, k - 1);
    }
  }

  /** The page's state: the loaded images, the carousel position and whether the contact dialog is open. */
  class CarDetailsPage {
    var images: Option<seq<string>>
    var currentImageIndex: int
    var showModal: bool

    /** The index is always a position of the cycle the buttons walk through. */
    ghost predicate Valid()
      reads this
    {
      0 <= currentImageIndex < CycleLength(images)
    }

    /** The picture on screen, absent when the index is past the end of the list. */
    function ShownImage(): (r: Option<string>)
      reads this
      requires images.Some?
      ensures r.Some? <==> 0 <= currentImageIndex < |images.value|
      ensures r.Some? ==> r.value == images.value[currentImageIndex]
    {
      if 0 <= currentImageIndex < |images.value| then Some(images.value[currentImageIndex]) else None
    }

    /** Nothing loaded, the first image selected and the dialog closed. */
    constructor()
      ensures images == None && currentImageIndex == 0 && !showModal
      ensures Valid()
    {
      images := None;
      currentImageIndex := 0;
      showModal := false;
    }

    /** The fetch resolved: the listing's images are stored and the index is left alone. */
    method Loaded(fetched: seq<string>)
      modifies this`images
      ensures images == Some(fetched) && currentImageIndex == old(currentImageIndex)
      ensures old(currentImageIndex) == 0 ==> Valid()
    {
      images := Some(fetched);
    }

    method NextImage()
      modifies this`currentImageIndex
      ensures currentImageIndex == NextIndex(old(currentImageIndex), CycleLength(images))
      ensures old(Valid()) ==> Valid()
    {
      var n := CycleLength(images);
      if currentImageIndex == n - 1 {
        currentImageIndex := 0;
      } else {
        currentImageIndex := currentImageIndex + 1;
      }
    }

    method PrevImage()
      modifies this`currentImageIndex
      ensures currentImageIndex == PrevIndex(old(currentImageIndex), CycleLength(images))
      ensures old(Valid()) ==> Valid()
    {
      var n := CycleLength(images);
      if currentImageIndex == 0 {
        currentImageIndex := n - 1;
      } else {
        currentImageIndex := currentImageIndex - 1;
      }
    }

    /** The Contact button opens the dialog. */
    method OpenContact()
      modifies this`showModal
      ensures showModal
    {
      showModal := true;
    }

    /** The dialog's close button dismisses it. */
    method CloseContact()
      modifies this`showModal
      ensures !showModal
    {
      showModal := false;
    }
  }

  /** Opening the page on a listing of three images and pressing back shows the third image. */
  method BackFromFirstShowsLast() returns (shown: Option<string>)
    ensures shown == Some("c.jpg")
  {
    var page := new CarDetailsPage();
    page.Loaded(["a.jpg", "b.jpg", "c.jpg"]);
    page.PrevImage();
    shown := page.ShownImage();
  }
}
