/**
 * The "What Our Clients Say" carousel of the home page: the index of the
 * testimonial on display and whether the autoplay timer is running. The
 * timer is modelled as a `Tick` event delivered every period while autoplay
 * is on.
 */
module TestimonialsSection {
  import opened Seqs
  import CarouselIndex

  /** The fields of a testimonial that the carousel reads. */
  datatype Testimonial = Testimonial(id: nat, name: string, company: string, rating: nat)

  /** The `testimonials` records, restricted to the fields above. */
  const Testimonials: seq<Testimonial> := [
    Testimonial(1, "Sarah Johnson", "TechStartup Inc", 5),
    Testimonial(2, "Michael Chen", "EcommerceHub", 5),
    Testimonial(3, "Emily Rodriguez", "DataCorp", 5),
    Testimonial(4, "David Park", "FinanceApp", 5)
  ]

  const AutoPlayingLabel := "Auto-playing testimonials"
  const PausedLabel := "Paused"

  /** The text under the dot row. */
  function StatusLabel(isAutoPlaying: bool): (r: string)
    ensures r == AutoPlayingLabel <==> isAutoPlaying
    ensures r == PausedLabel <==> !isAutoPlaying
  {
    if isAutoPlaying then AutoPlayingLabel else PausedLabel
  }

  /** The keys of the star icons rendered by `[...Array(rating)].map(...)`. */
  function StarKeys(rating: nat): (r: seq<nat>)
    ensures |r| == rating
    ensures forall i :: 0 <= i < |r| ==> r[i] == i
  {
    if rating == 0 then [] else StarKeys(rating - 1) + [rating - 1]
  }

  class TestimonialCarousel {
    const testimonials: seq<Testimonial>
    var currentTestimonial: nat
    var isAutoPlaying: bool

    ghost predicate Valid()
      reads this
    {
      |testimonials| > 0 && currentTestimonial < |testimonials|
    }

    /** Mounts on the first testimonial with autoplay on. */
    constructor (testimonials: seq<Testimonial>)
      requires |testimonials| > 0
      ensures Valid()
      ensures this.testimonials == testimonials
      ensures currentTestimonial == 0 && isAutoPlaying
    {
      this.testimonials := testimonials;
      currentTestimonial := 0;
      isAutoPlaying := true;
    }

    /** One period of the autoplay interval; no interval runs while paused. */
    method Tick()
      requires Valid()
      modifies this
      ensures Valid() && isAutoPlaying == old(isAutoPlaying)
      ensures currentTestimonial ==
        if old(isAutoPlaying) then CarouselIndex.Next(old(currentTestimonial), |testimonials|)
        else old(currentTestimonial)
    {
      if isAutoPlaying {
        currentTestimonial := (currentTestimonial + 1) % |testimonials|;
      }
    }

    /** `nextTestimonial`: stops autoplay and advances. */
    method NextTestimonial()
      requires Valid()
      modifies this
      ensures Valid() && !isAutoPlaying
      ensures currentTestimonial == CarouselIndex.Next(old(currentTestimonial), |testimonials|)
    {
      isAutoPlaying := false;
      currentTestimonial := (currentTestimonial + 1) % |testimonials|;
    }

    /** `prevTestimonial`: stops autoplay and steps back. */
    method PrevTestimonial()
      requires Valid()
      modifies this
      ensures Valid() && !isAutoPlaying
      ensures currentTestimonial == CarouselIndex.Prev(old(currentTestimonial), |testimonials|)
    {
      isAutoPlaying := false;
      currentTestimonial := (currentTestimonial - 1 + |testimonials|) % |testimonials|;
    }

    /** A click on dot `index`: jumps there and stops autoplay. */
    method SelectDot(index: nat)
      requires Valid() && index < |testimonials|
      modifies this
      ensures Valid() && !isAutoPlaying
      ensures currentTestimonial == index
    {
      currentTestimonial := index;
      isAutoPlaying := false;
    }

    /** The pointer enters a navigation control (either arrow or a dot). */
    method MouseEnter()
      requires Valid()
      modifies this
      ensures Valid() && !isAutoPlaying
      ensures currentTestimonial == old(currentTestimonial)
    {
      isAutoPlaying := false;
    }

    /** The pointer leaves a navigation control: autoplay resumes, whatever paused it. */
    method MouseLeave()
      requires Valid()
      modifies this
      ensures Valid() && isAutoPlaying
      ensures currentTestimonial == old(currentTestimonial)
    {
      isAutoPlaying := true;
    }

    /** `testimonials[currentTestimonial]`: always a read inside the list. */
    function Displayed(): (t: Testimonial)
      reads this
      requires Valid()
      ensures t in testimonials
    {
      testimonials[currentTestimonial]
    }

    /** The highlighted state of each dot in the row. */
    function Dots(): (r: seq<bool>)
      reads this
      requires Valid()
      ensures |r| == |testimonials|
      ensures CountTrue(r) == 1 && r[currentTestimonial]
    {
      CarouselIndex.ExactlyOneDotActive(|testimonials|, currentTestimonial);
      CarouselIndex.DotStates(|testimonials|, currentTestimonial)
    }

    /** The number of stars shown for the current testimonial. */
    function StarsShown(): (k: nat)
      reads this
      requires Valid()
      ensures k == Displayed().rating
    {
      |StarKeys(testimonials[currentTestimonial].rating)|
    }
  }

  /**
   * A mouse user pressing "next": the pointer enters the arrow, clicks it and
   * leaves it. The carousel has advanced once and autoplay runs again.
   */
  method HoverClickLeave(c: TestimonialCarousel)
    requires c.Valid()
    modifies c
    ensures c.Valid() && c.isAutoPlaying
    ensures c.currentTestimonial == CarouselIndex.Next(old(c.currentTestimonial), |c.testimonials|)
  {
    c.MouseEnter();
    c.NextTestimonial();
    c.MouseLeave();
  }
}
