/**
 * `src/components/home/TestimonialCarousel.tsx`: the index arithmetic of the
 * carousel and the placement of each card around the current one.
 *
 * The five-second interval is not modelled as a clock: each tick is a call
 * of `NextTestimonial`, which is what the interval's callback does.
 */
module Carousel {

  datatype Testimonial = Testimonial(
    name: string, role: string, company: string, content: string, rating: nat, image: string)

  const Testimonials: seq<Testimonial> := [
    Testimonial("Sarah Johnson", "Marketing Director", "TechCorp Inc.",
      "Avinash transformed our digital presence completely. Our social media engagement increased by 300% and our conversion rates doubled. His strategic approach to digital marketing is exceptional.",
      5, "https://images.unsplash.com/photo-1494790108755-2616b612b786?w=150&h=150&fit=crop&crop=face"),
    Testimonial("Mike Rodriguez", "CEO", "StartupVision",
      "Working with Avinash was a game-changer for our startup. His SEO strategies helped us rank #1 for our target keywords within 6 months. Highly recommend his services!",
      5, "https://images.unsplash.com/photo-1472099645785-5658abf4ff4e?w=150&h=150&fit=crop&crop=face"),
    Testimonial("Emily Chen", "Brand Manager", "Creative Studios",
      "Avinash's creative campaigns and graphic design work exceeded our expectations. The brand identity he created perfectly captured our vision and resonated with our target audience.",
      5, "https://images.unsplash.com/photo-1438761681033-6461ffad8d80?w=150&h=150&fit=crop&crop=face"),
    Testimonial("David Thompson", "E-commerce Manager", "RetailPro",
      "Our PPC campaigns managed by Avinash generated 450% ROI. His attention to detail and data-driven approach made all the difference in our advertising success.",
      5, "https://images.unsplash.com/photo-1507003211169-0a1dd7228f2d?w=150&h=150&fit=crop&crop=face")
  ]

  /** `(prev + 1) % testimonials.length`. */
  function Next(i: nat, n: nat): (r: nat)
    requires i < n
    ensures r < n
    ensures r == if i == n - 1 then 0 else i + 1
  {
    (i + 1) % n
  }

  /** `(prev - 1 + testimonials.length) % testimonials.length`; the left
      operand is never negative, so JavaScript's `%` agrees with Dafny's. */
  function Prev(i: nat, n: nat): (r: nat)
    requires i < n
    ensures r < n
    ensures r == if i == 0 then n - 1 else i - 1
  {
    (i - 1 + n) % n
  }

  lemma PrevUndoesNext(i: nat, n: nat)
    requires i < n
    ensures Prev(Next(i, n), n) == i
  {
  }

  lemma NextUndoesPrev(i: nat, n: nat)
    requires i < n
    ensures Next(Prev(i, n), n) == i
  {
  }

  // ---------------------------------------------------------------------------
  // Card placement

  datatype Placement = Active | PrevCard | NextCard | Hidden

  /** The `if`/`else if` chain: active first, then previous, then next. */
  function Classify(index: nat, current: nat, n: nat): (p: Placement)
    requires current < n
    ensures p == Active <==> index == current
    ensures p == PrevCard <==> index != current && index == Prev(current, n)
    ensures p == NextCard <==> index != current && index != Prev(current, n) && index == Next(current, n)
  {
    if index == current then Active
    else if index == Prev(current, n) then PrevCard
    else if index == Next(current, n) then NextCard
    else Hidden
  }

  datatype CardStyle = CardStyle(transform: string, opacity: real, zIndex: nat)

  function StyleOf(p: Placement): CardStyle {
    match p
    case Active => CardStyle("translateX(0%) rotateY(0deg) scale(1)", 1.0, 3)
    case PrevCard => CardStyle("translateX(-100%) rotateY(-45deg) scale(0.8)", 0.6, 2)
    case NextCard => CardStyle("translateX(100%) rotateY(45deg) scale(0.8)", 0.6, 2)
    case Hidden => CardStyle("translateX(100%) rotateY(45deg) scale(0.8)", 0.0, 1)
  }

  /** The active card alone is on top and fully opaque; only hidden cards are
      invisible. */
  lemma ActiveCardOnTop(p: Placement)
    ensures StyleOf(p).zIndex == 3 <==> p == Active
    ensures StyleOf(p).opacity == 1.0 <==> p == Active
    ensures StyleOf(p).opacity == 0.0 <==> p == Hidden
  {
  }

  /** The placement of every card, in order. */
  function Placements(current: nat, n: nat): (r: seq<Placement>)
    requires current < n
    ensures |r| == n
  {
    seq(n, i requires 0 <= i < n => Classify(i, current, n))
  }

  function Count(s: seq<Placement>, p: Placement): (c: nat)
    ensures c <= |s|
  {
    if s == [] then 0 else Count(s[..|s| - 1], p) + (if s[|s| - 1] == p then 1 else 0)
  }

  /** A placement found at exactly one index is counted once. */
  lemma {:induction false} CountSingle(s: seq<Placement>, p: Placement, k: nat)
    requires k < |s| && s[k] == p
    requires forall i :: 0 <= i < |s| && i != k ==> s[i] != p
    ensures Count(s, p) == 1
  {
    var init := s[..|s| - 1];
    if k == |s| - 1 {
      CountAbsent(init, p);
    } else {
      CountSingle(init, p, k);
    }
  }

  lemma {:induction false} CountAbsent(s: seq<Placement>, p: Placement)
    requires forall i :: 0 <= i < |s| ==> s[i] != p
    ensures Count(s, p) == 0
  {
    if s != [] {
      CountAbsent(s[..|s| - 1], p);
    }
  }

  /** Every card has exactly one placement. */
  lemma {:induction false} CountsAddUp(s: seq<Placement>)
    ensures Count(s, Active) + Count(s, PrevCard) + Count(s, NextCard) + Count(s, Hidden) == |s|
  {
    if s != [] {
      CountsAddUp(s[..|s| - 1]);
    }
  }

  /** With three cards or more there is one active, one previous and one next
      card, and the rest are hidden. */
  lemma PlacementCounts(current: nat, n: nat)
    requires current < n && n >= 3
    ensures var ps := Placements(current, n);
      && Count(ps, Active) == 1 && Count(ps, PrevCard) == 1 && Count(ps, NextCard) == 1
      && Count(ps, Hidden) == n - 3
  {
    var ps := Placements(current, n);
    CountSingle(ps, Active, current);
    CountSingle(ps, PrevCard, Prev(current, n));
    CountSingle(ps, NextCard, Next(current, n));
    CountsAddUp(ps);
  }

  /** The four testimonials: one hidden card at any time. */
  lemma FourTestimonials(current: nat)
    requires current < |Testimonials|
    ensures Count(Placements(current, |Testimonials|), Hidden) == 1
    ensures Count(Placements(current, |Testimonials|), PrevCard) == 1
    ensures Count(Placements(current, |Testimonials|), NextCard) == 1
  {
    PlacementCounts(current, |Testimonials|);
  }

  /** With two cards the other one is both previous and next; the chain calls
      it previous. */
  lemma TwoCards(current: nat)
    requires current < 2
    ensures Count(Placements(current, 2), PrevCard) == 1
    ensures Count(Placements(current, 2), NextCard) == 0
  {
    var ps := Placements(current, 2);
    CountSingle(ps, PrevCard, 1 - current);
    CountAbsent(ps, NextCard);
  }

  // ---------------------------------------------------------------------------
  // The component

  class TestimonialCarousel {
    var currentIndex: nat

    ghost predicate Valid()
      reads this
    {
      currentIndex < |Testimonials|
    }

    constructor ()
      ensures Valid() && currentIndex == 0
    {
      currentIndex := 0;
    }

    /** `nextTestimonial`: the right button and every interval tick. */
    method NextTestimonial()
      requires Valid()
      modifies this
      ensures Valid() && currentIndex == Next(old(currentIndex), |Testimonials|)
    {
      currentIndex := (currentIndex + 1) % |Testimonials|;
    }

    /** `prevTestimonial`: the left button. */
    method PrevTestimonial()
      requires Valid()
      modifies this
      ensures Valid() && currentIndex == Prev(old(currentIndex), |Testimonials|)
    {
      currentIndex := (currentIndex - 1 + |Testimonials|) % |Testimonials|;
    }

    /** An indicator dot: it jumps straight to its card. */
    method SelectIndicator(index: nat)
      requires index < |Testimonials|
      modifies this
      ensures Valid() && currentIndex == index
    {
      currentIndex := index;
    }

    /** The widened indicator is the current card's. */
    predicate IndicatorWide(index: nat)
      reads this
    {
      index == currentIndex
    }
  }

  /** Left then right returns to the same card, and a dot selects its card. */
  method NavigationScenario() {
    var c := new TestimonialCarousel();
    c.PrevTestimonial();
    assert c.currentIndex == 3;
    c.NextTestimonial();
    assert c.currentIndex == 0;
    c.SelectIndicator(2);
    assert c.IndicatorWide(2) && !c.IndicatorWide(0);
    assert Classify(1, c.currentIndex, |Testimonials|) == PrevCard;
    assert Classify(3, c.currentIndex, |Testimonials|) == NextCard;
    assert Classify(0, c.currentIndex, |Testimonials|) == Hidden;
  }
}
