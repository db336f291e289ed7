/**
 * The FAQ accordion: clicking a question opens its answer and closes any
 * other; clicking the open question closes it.
 */
module FaqSection {
  import opened Wrappers

  /**
   * The click rule: `activeIndex === i ? null : i`. Clicking the open
   * question closes everything; any other click opens the clicked question
   * and only it.
   */
  function NextActive(active: Option<nat>, i: nat): (next: Option<nat>)
    ensures next.None? <==> active == Some(i)
    ensures next.Some? ==> next.value == i
  {
    if active == Some(i) then None else Some(i)
  }

  /** The open item after a series of clicks. */
  function AfterClicks(active: Option<nat>, clicks: seq<nat>): Option<nat>
    decreases |clicks|
  {
    if clicks == [] then active else AfterClicks(NextActive(active, clicks[0]), clicks[1..])
  }

  /** From all-closed, two clicks on the same question close it again. */
  lemma ClickTwiceCloses(i: nat)
    ensures NextActive(NextActive(None, i), i) == None
  {
  }

  /**
   * After any non-empty series of clicks either everything is closed or
   * exactly the last question clicked is open.
   */
  lemma {:induction false} OpenIsLastClicked(active: Option<nat>, clicks: seq<nat>)
    requires clicks != []
    ensures var r := AfterClicks(active, clicks);
      r.None? || r == Some(clicks[|clicks| - 1])
    decreases |clicks|
  {
    if |clicks| > 1 {
      OpenIsLastClicked(NextActive(active, clicks[0]), clicks[1..]);
    }
  }

  class Accordion {
    /** The number of questions. */
    const count: nat
    var activeIndex: Option<nat>

    constructor (count: nat)
      ensures this.count == count && activeIndex.None?
    {
      this.count := count;
      activeIndex := None;
    }

    /** Item `i`'s answer is shown. */
    predicate Shows(i: nat)
      reads this
    {
      activeIndex == Some(i)
    }

    /**
     * A click on question `i` closes it when it is open and otherwise opens
     * exactly it; at most one answer is ever shown.
     */
    method Click(i: nat)
      requires i < count
      modifies this
      ensures old(activeIndex) == Some(i) ==> activeIndex.None?
      ensures old(activeIndex) != Some(i) ==> forall j :: Shows(j) <==> j == i
      ensures forall j, k :: Shows(j) && Shows(k) ==> j == k
    {
      activeIndex := if activeIndex == Some(i) then None else Some(i);
    }
  }
}
