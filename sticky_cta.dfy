/**
 * The sticky call-to-action bar: it appears once the visitor has scrolled
 * past 500 pixels while the offer section is out of view, and once closed
 * it stays closed.
 */
module StickyCta {
  import opened Wrappers

  /** The offer section's bounding box, in viewport pixels. */
  datatype Rect = Rect(top: int, bottom: int)

  const ScrollThreshold := 500

  /** The offer section overlaps the viewport. */
  predicate SectionInView(rect: Rect, innerHeight: int) {
    rect.top < innerHeight && rect.bottom > 0
  }

  /**
   * What a scroll sets `visible` to; `offer` is `None` when the page has no
   * element with id `choose-option`. The bar is wanted exactly past 500
   * pixels of scroll while no offer section is in view.
   */
  predicate ShouldShow(scrollY: int, offer: Option<Rect>, innerHeight: int): (show: bool)
    ensures show <==> scrollY > ScrollThreshold && !(offer.Some? && SectionInView(offer.value, innerHeight))
  {
    match offer
    case Some(rect) => scrollY > ScrollThreshold && !SectionInView(rect, innerHeight)
    case None => scrollY > ScrollThreshold
  }

  datatype Event = Scroll(scrollY: int, offer: Option<Rect>, innerHeight: int) | Dismiss

  datatype BarState = BarState(visible: bool, dismissed: bool)

  const Initial := BarState(false, false)

  /**
   * One event: a scroll recomputes `visible` unless dismissed, and is
   * ignored once dismissed; the close button latches `dismissed` and takes
   * the bar off screen without touching `visible`.
   */
  function Step(s: BarState, e: Event): (r: BarState)
    ensures r.dismissed <==> s.dismissed || e.Dismiss?
    ensures e.Scroll? && s.dismissed ==> r == s
    ensures e.Scroll? && !s.dismissed ==> (r.visible <==> ShouldShow(e.scrollY, e.offer, e.innerHeight))
    ensures e.Dismiss? ==> r.visible == s.visible && !Rendered(r)
  {
    match e
    case Scroll(y, offer, h) => if s.dismissed then s else s.(visible := ShouldShow(y, offer, h))
    case Dismiss => s.(dismissed := true)
  }

  function Run(s: BarState, events: seq<Event>): BarState
    decreases |events|
  {
    if events == [] then s else Run(Step(s, events[0]), events[1..])
  }

  /** The bar is on screen. */
  predicate Rendered(s: BarState) {
    s.visible && !s.dismissed
  }

  /**
   * Once dismissed the bar stays dismissed and off screen, and no later
   * scroll changes `visible`, whatever the events.
   */
  lemma {:induction false} DismissedStaysHidden(s: BarState, events: seq<Event>)
    requires s.dismissed
    ensures Run(s, events) == s
    ensures !Rendered(Run(s, events))
    decreases |events|
  {
    if events != [] {
      DismissedStaysHidden(Step(s, events[0]), events[1..]);
    }
  }

  /** Until it is dismissed, the bar shows exactly what the last scroll decided. */
  lemma {:induction false} LastScrollDecides(s: BarState, events: seq<Event>)
    requires !s.dismissed
    requires forall k :: 0 <= k < |events| ==> events[k].Scroll?
    ensures !Run(s, events).dismissed
    ensures events != [] ==>
      var e := events[|events| - 1];
      Rendered(Run(s, events)) == ShouldShow(e.scrollY, e.offer, e.innerHeight)
    decreases |events|
  {
    if events != [] {
      LastScrollDecides(Step(s, events[0]), events[1..]);
    }
  }

  class Bar {
    var visible: bool
    var dismissed: bool

    constructor ()
      ensures !visible && !dismissed
    {
      visible, dismissed := false, false;
    }

    /** `handleScroll`. */
    method OnScroll(scrollY: int, offer: Option<Rect>, innerHeight: int)
      modifies this
      ensures dismissed == old(dismissed)
      ensures old(dismissed) ==> visible == old(visible)
      ensures !old(dismissed) ==> (visible <==> ShouldShow(scrollY, offer, innerHeight))
      ensures BarState(visible, dismissed) == Step(old(BarState(visible, dismissed)), Scroll(scrollY, offer, innerHeight))
    {
      if dismissed {
        return;
      }
      match offer {
        case Some(rect) =>
          var sectionVisible := rect.top < innerHeight && rect.bottom > 0;
          visible := scrollY > ScrollThreshold && !sectionVisible;
        case None =>
          visible := scrollY > ScrollThreshold;
      }
    }

    /** The close button. */
    method OnDismiss()
      modifies this
      ensures dismissed && visible == old(visible)
      ensures !Rendered(BarState(visible, dismissed))
    {
      dismissed := true;
    }
  }
}
