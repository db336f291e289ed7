/**
 * The problem checklist: the visitor ticks the problems they recognise, a
 * counter adds up what those problems cost, and once every problem is
 * ticked a summary naming that total appears.
 */
module ProblemSection {
  import opened Wrappers
  import opened JsText

  // ---------------------------------------------------------------------------
  // The checked set and its total
  // ---------------------------------------------------------------------------

  /**
   * `toggle` on the set: add an absent index, delete a present one. The
   * clicked index flips and no other index changes membership.
   */
  function ToggleSet(s: set<nat>, i: nat): (r: set<nat>)
    ensures i in r <==> i !in s
    ensures forall j :: j != i ==> (j in r <==> j in s)
  {
    if i in s then s - {i} else s + {i}
  }

  /** Toggling is its own inverse. */
  lemma ToggleSetInvolution(s: set<nat>, i: nat)
    ensures ToggleSet(ToggleSet(s, i), i) == s
  {
  }

  /** The cost of the checked problems among the first `k`. */
  function CostBelow(costs: seq<int>, checked: set<nat>, k: nat): int
    requires k <= |costs|
  {
    if k == 0 then 0
    else CostBelow(costs, checked, k - 1) + (if k - 1 in checked then costs[k - 1] else 0)
  }

  /**
   * `totalCost`: the sum of the costs of the checked problems. With nothing
   * checked the counter shows 0, and it never goes negative while no
   * problem has a negative cost.
   */
  function TotalCost(costs: seq<int>, checked: set<nat>): (total: int)
    ensures checked == {} ==> total == 0
    ensures (forall i :: 0 <= i < |costs| ==> costs[i] >= 0) ==> total >= 0
  {
    CostBelowNoneChecked(costs, |costs|);
    CostBelowNonNegative(costs, checked, |costs|);
    CostBelow(costs, checked, |costs|)
  }

  lemma {:induction false} CostBelowNoneChecked(costs: seq<int>, k: nat)
    requires k <= |costs|
    ensures CostBelow(costs, {}, k) == 0
  {
    if k > 0 {
      CostBelowNoneChecked(costs, k - 1);
    }
  }

  lemma {:induction false} CostBelowNonNegative(costs: seq<int>, checked: set<nat>, k: nat)
    requires k <= |costs|
    ensures (forall i :: 0 <= i < |costs| ==> costs[i] >= 0) ==> CostBelow(costs, checked, k) >= 0
  {
    if k > 0 {
      CostBelowNonNegative(costs, checked, k - 1);
    }
  }

  lemma {:induction false} CostBelowToggle(costs: seq<int>, checked: set<nat>, i: nat, k: nat)
    requires i < |costs| && k <= |costs|
    ensures CostBelow(costs, ToggleSet(checked, i), k)
            == CostBelow(costs, checked, k)
               + (if i < k then (if i in checked then -costs[i] else costs[i]) else 0)
  {
    if k > 0 {
      CostBelowToggle(costs, checked, i, k - 1);
    }
  }

  /**
   * Ticking a problem adds its cost to the total, unticking it subtracts
   * the cost again.
   */
  lemma TotalCostToggle(costs: seq<int>, checked: set<nat>, i: nat)
    requires i < |costs|
    ensures i !in checked ==> TotalCost(costs, ToggleSet(checked, i)) == TotalCost(costs, checked) + costs[i]
    ensures i in checked ==> TotalCost(costs, ToggleSet(checked, i)) == TotalCost(costs, checked) - costs[i]
  {
    CostBelowToggle(costs, checked, i, |costs|);
  }

  /** The indices of `n` problems. */
  function Indices(n: nat): (r: set<nat>)
    ensures forall i: nat :: i in r <==> i < n
  {
    if n == 0 then {} else Indices(n - 1) + {n - 1}
  }

  lemma {:induction false} IndicesSize(n: nat)
    ensures |Indices(n)| == n
  {
    if n > 0 {
      var below := Indices(n - 1);
      IndicesSize(n - 1);
      assert Indices(n) == below + {n - 1};
      assert n - 1 !in below;
    }
  }

  /** A subset as large as its superset is the whole superset. */
  lemma {:induction false} FullSubset(a: set<nat>, b: set<nat>)
    requires a <= b && |a| == |b|
    ensures a == b
  {
    if a != b {
      var j :| j in b && j !in a;
      assert a <= b - {j};
      SubsetSize(a, b - {j});
      assert false;
    }
  }

  lemma {:induction false} SubsetSize(a: set<nat>, b: set<nat>)
    requires a <= b
    ensures |a| <= |b|
    decreases |b|
  {
    if a != {} {
      var x :| x in a;
      SubsetSize(a - {x}, b - {x});
    }
  }

  /**
   * `allChecked` compares the size of the checked set with the number of
   * problems; since only real indices are ever checked, that is the same as
   * every problem being checked.
   */
  lemma AllCheckedIff(n: nat, checked: set<nat>)
    requires forall i :: i in checked ==> i < n
    ensures |checked| == n <==> forall i :: 0 <= i < n ==> i in checked
  {
    IndicesSize(n);
    if |checked| == n {
      FullSubset(checked, Indices(n));
    }
    if forall i :: 0 <= i < n ==> i in checked {
      assert checked == Indices(n);
    }
  }

  // ---------------------------------------------------------------------------
  // The summary text
  // ---------------------------------------------------------------------------

  const TotalCostPlaceholder := "$totalCost"

  /**
   * `allCheckedDescription.replace('$totalCost', '$' + totalCost)`. The
   * replacement is a `$` followed by a number, which holds none of the
   * special `$$`, `$&`, `` $` `` or `$'` sequences, so it is inserted as is.
   * A description without the placeholder is shown as written; one with it
   * shows the dollar total in place of its first occurrence only.
   */
  function AllCheckedDescription(description: string, total: int): (text: string)
    ensures !Contains(description, TotalCostPlaceholder) ==> text == description
    ensures Contains(description, TotalCostPlaceholder) ==>
      exists i :: (MatchAt(description, TotalCostPlaceholder, i)
                   && (forall j :: 0 <= j < i ==> !MatchAt(description, TotalCostPlaceholder, j))
                   && text == description[..i] + ("$" + IntToString(total)) + description[i + |TotalCostPlaceholder|..])
  {
    ReplaceFirst(description, TotalCostPlaceholder, "$" + IntToString(total))
  }

  // ---------------------------------------------------------------------------
  // The checklist
  // ---------------------------------------------------------------------------

  class Checklist {
    /** `problems[i].cost`, whole dollars. */
    const costs: seq<int>
    var checked: set<nat>
    var lastToggled: Option<nat>

    /** Only the indices of listed problems are ever checked. */
    ghost predicate Valid()
      reads this
    {
      forall i :: i in checked ==> i < |costs|
    }

    constructor (costs: seq<int>)
      ensures Valid() && this.costs == costs && checked == {} && lastToggled.None?
    {
      this.costs := costs;
      checked := {};
      lastToggled := None;
    }

    /** A problem's reaction line shows while it is checked and was the last one clicked. */
    predicate ShowsReaction(i: nat)
      reads this
    {
      i in checked && lastToggled == Some(i)
    }

    /** A problem's cost badge shows while it is checked and costs something. */
    predicate ShowsBadge(i: nat)
      reads this
    {
      i < |costs| && i in checked && costs[i] > 0
    }

    /**
     * `toggle(i)`: flips problem `i`, remembers it as the last one clicked,
     * and moves the total by its cost.
     */
    method Toggle(i: nat)
      requires Valid() && i < |costs|
      modifies this
      ensures Valid()
      ensures checked == ToggleSet(old(checked), i)
      ensures lastToggled == Some(i)
      ensures TotalCost(costs, checked)
              == TotalCost(costs, old(checked)) + (if i in old(checked) then -costs[i] else costs[i])
      ensures forall j :: ShowsReaction(j) <==> j == i && i !in old(checked)
      ensures ShowsBadge(i) <==> i !in old(checked) && costs[i] > 0
      ensures forall j: nat :: j != i ==> (ShowsBadge(j) <==> old(ShowsBadge(j)))
    {
      TotalCostToggle(costs, checked, i);
      checked := ToggleSet(checked, i);
      lastToggled := Some(i);
    }

    /** `allChecked`. */
    method AllChecked() returns (all: bool)
      requires Valid()
      ensures all <==> forall i :: 0 <= i < |costs| ==> i in checked
    {
      AllCheckedIff(|costs|, checked);
      all := |checked| == |costs|;
    }

    /** What the summary says once every problem is checked. */
    method Summary(description: string) returns (text: Option<string>)
      requires Valid()
      ensures text.Some? <==> forall i :: 0 <= i < |costs| ==> i in checked
      ensures text.Some? ==> text.value == AllCheckedDescription(description, TotalCost(costs, checked))
    {
      var all := AllChecked();
      text := if all then Some(AllCheckedDescription(description, TotalCost(costs, checked))) else None;
    }
  }
}
