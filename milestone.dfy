/**
 * The image carousel and the expand toggle of the milestone cards
 * (components `Milestone1` and `Milestone2`, whose logic is the same): an
 * image index moved forwards and backwards modulo the number of images, by
 * the arrow buttons, by a periodic auto-slide tick, or set directly by an
 * indicator dot; and one boolean that shows or hides the long description.
 */
module Milestone {
  /** Both cards show two images. */
  const ImageCount: nat := 2

  /**
   * JavaScript's `%`: the remainder of division truncated towards zero, so
   * it takes the sign of the dividend.
   */
  function JsRemainder(a: int, n: int): (r: int)
    requires n > 0
    ensures a >= 0 ==> 0 <= r < n && r == a % n
    ensures a < 0 ==> -n < r <= 0
  {
    if a >= 0 then a % n else -((-a) % n)
  }

  /** The index after a step forwards: one more, wrapping the last image to the first. */
  function NextIndex(i: int, count: nat): (r: int)
    requires 0 <= i < count
    ensures 0 <= r < count
    ensures r == if i + 1 == count then 0 else i + 1
  {
    JsRemainder(i + 1, count)
  }

  /** The index after a step backwards: one less, wrapping the first image to the last. */
  function PrevIndex(i: int, count: nat): (r: int)
    requires 0 <= i < count
    ensures 0 <= r < count
    ensures r == if i == 0 then count - 1 else i - 1
  {
    JsRemainder(i - 1 + count, count)
  }

  /** A step back undoes a step forwards. */
  lemma PrevAfterNext(i: int, count: nat)
    requires 0 <= i < count
    ensures PrevIndex(NextIndex(i, count), count) == i
  {
  }

  /** A step forwards undoes a step back. */
  lemma NextAfterPrev(i: int, count: nat)
    requires 0 <= i < count
    ensures NextIndex(PrevIndex(i, count), count) == i
  {
  }

  /** The index after `steps` forward steps (or auto-slide ticks). */
  function Advanced(i: int, count: nat, steps: nat): (r: int)
    requires 0 <= i < count
    ensures 0 <= r < count
    decreases steps
  {
    if steps == 0 then i else NextIndex(Advanced(i, count, steps - 1), count)
  }

  /** Forward steps compose: `a` steps and then `b` steps are `a + b` steps. */
  lemma {:induction false} AdvancedCompose(i: int, count: nat, a: nat, b: nat)
    requires 0 <= i < count
    ensures Advanced(i, count, a + b) == Advanced(Advanced(i, count, a), count, b)
    decreases b
  {
    if b > 0 {
      AdvancedCompose(i, count, a, b - 1);
    }
  }

  /** Before the wrap-around, forward steps simply add to the index. */
  lemma {:induction false} AdvancedWithin(i: int, count: nat, steps: nat)
    requires 0 <= i && i + steps < count
    ensures Advanced(i, count, steps) == i + steps
    decreases steps
  {
    if steps > 0 {
      AdvancedWithin(i, count, steps - 1);
    }
  }

  /** As many forward steps as there are images come back to the start. */
  lemma FullCycle(i: int, count: nat)
    requires 0 <= i < count
    ensures Advanced(i, count, count) == i
  {
    AdvancedWithin(i, count, count - i - 1);
    assert Advanced(i, count, count - i) == 0;
    AdvancedCompose(i, count, count - i, i);
    AdvancedWithin(0, count, i);
  }

  class ImageCarousel {
    const imageCount: nat
    var currentImageIndex: int
    var expandedItem: bool

    ghost predicate Valid()
      reads this
    {
      0 <= currentImageIndex < imageCount
    }

    /** Mounting: the first image, description collapsed. */
    constructor (imageCount: nat)
      requires imageCount > 0
      ensures Valid()
      ensures this.imageCount == imageCount && currentImageIndex == 0 && !expandedItem
    {
      this.imageCount := imageCount;
      currentImageIndex := 0;
      expandedItem := false;
    }

    /** The right arrow. */
    method NextImage()
      requires Valid()
      modifies this
      ensures Valid()
      ensures currentImageIndex == NextIndex(old(currentImageIndex), imageCount)
      ensures expandedItem == old(expandedItem)
    {
      currentImageIndex := JsRemainder(currentImageIndex + 1, imageCount);
    }

    /** The left arrow. */
    method PrevImage()
      requires Valid()
      modifies this
      ensures Valid()
      ensures currentImageIndex == PrevIndex(old(currentImageIndex), imageCount)
      ensures expandedItem == old(expandedItem)
    {
      currentImageIndex := JsRemainder(currentImageIndex - 1 + imageCount, imageCount);
    }

    /** One tick of the auto-slide timer: the same move as the right arrow. */
    method AutoSlideTick()
      requires Valid()
      modifies this
      ensures Valid()
      ensures currentImageIndex == NextIndex(old(currentImageIndex), imageCount)
      ensures expandedItem == old(expandedItem)
    {
      currentImageIndex := JsRemainder(currentImageIndex + 1, imageCount);
    }

    /** An indicator dot: there is one per image, and it jumps straight to its image. */
    method SelectImage(index: int)
      requires Valid() && 0 <= index < imageCount
      modifies this
      ensures Valid()
      ensures currentImageIndex == index && expandedItem == old(expandedItem)
    {
      currentImageIndex := index;
    }

    /** The show-more button. */
    method ToggleExpanded()
      requires Valid()
      modifies this
      ensures Valid()
      ensures expandedItem == !old(expandedItem)
      ensures currentImageIndex == old(currentImageIndex)
    {
      expandedItem := !expandedItem;
    }
  }

  /** Two presses of the show-more button leave the card as it was. */
  method ToggleTwice(card: ImageCarousel)
    requires card.Valid()
    modifies card
    ensures card.expandedItem == old(card.expandedItem)
    ensures card.currentImageIndex == old(card.currentImageIndex)
  {
    card.ToggleExpanded();
    card.ToggleExpanded();
  }

  /** As many auto-slide ticks as there are images bring the carousel back to its image. */
  method TickFullCycle(card: ImageCarousel)
    requires card.Valid()
    modifies card
    ensures card.Valid()
    ensures card.currentImageIndex == old(card.currentImageIndex)
    ensures card.expandedItem == old(card.expandedItem)
  {
    var ticks := 0;
    while ticks < card.imageCount
      invariant 0 <= ticks <= card.imageCount
      invariant card.Valid()
      invariant card.currentImageIndex == Advanced(old(card.currentImageIndex), card.imageCount, ticks)
      invariant card.expandedItem == old(card.expandedItem)
    {
      card.AutoSlideTick();
      ticks := ticks + 1;
    }
    FullCycle(old(card.currentImageIndex), card.imageCount);
  }

  /**
   * A card as mounted, with its two images: the right arrow shows the second
   * image, the next tick wraps to the first, and the left arrow wraps back
   * to the second.
   */
  method TwoImageCard() returns (afterNext: int, afterTick: int, afterPrev: int)
    ensures afterNext == 1 && afterTick == 0 && afterPrev == 1
  {
    var card := new ImageCarousel(ImageCount);
    card.NextImage();
    afterNext := card.currentImageIndex;
    card.AutoSlideTick();
    afterTick := card.currentImageIndex;
    card.PrevImage();
    afterPrev := card.currentImageIndex;
  }
}
