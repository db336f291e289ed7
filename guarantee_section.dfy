/**
 * The guarantee block: the confidence statement with its `{percentage}`
 * placeholder filled in, and the signal list whose last entry is emphasised.
 */
module GuaranteeSection {
  import opened JsText

  const PercentagePlaceholder := "{percentage}"

  /** The markup wrapped around the percentage. */
  function PercentageSpan(percentage: string): string {
    "<span class=\"text-2xl font-black\">" + percentage + "</span>"
  }

  /**
   * `confidenceStatement.replace('{percentage}', span)`: the first
   * placeholder only, the percentage inserted as given. Without a
   * placeholder the statement is shown as written. With one, the text before
   * the first placeholder is kept, the span takes its place, and everything
   * after it (later placeholders included) follows verbatim.
   */
  function ConfidenceText(statement: string, percentage: string): (text: string)
    ensures !Contains(statement, PercentagePlaceholder) ==> text == statement
    ensures Contains(statement, PercentagePlaceholder) ==>
      exists i :: (MatchAt(statement, PercentagePlaceholder, i)
                   && (forall j :: 0 <= j < i ==> !MatchAt(statement, PercentagePlaceholder, j))
                   && text == statement[..i] + PercentageSpan(percentage) + statement[i + |PercentagePlaceholder|..])
  {
    ReplaceFirst(statement, PercentagePlaceholder, PercentageSpan(percentage))
  }

  /** A second placeholder survives: only the first one is filled. */
  lemma SecondPlaceholderKept(before: string, middle: string, after: string, percentage: string)
    requires !Contains(before, PercentagePlaceholder)
    ensures var statement := before + PercentagePlaceholder + middle + PercentagePlaceholder + after;
      ConfidenceText(statement, percentage)
        == before + PercentageSpan(percentage) + middle + PercentagePlaceholder + after
  {
    var p := PercentagePlaceholder;
    var statement := before + p + middle + p + after;
    var rest := middle + p + after;
    assert statement == before + p + rest;
    IndexOfAfterFree(before, p, rest);
    assert statement[..|before|] == before;
    assert statement[|before| + |p|..] == rest;
  }

  /** Signal `i` of `n` gets the full-row, bold styling: only the last of a non-empty list. */
  predicate Emphasised(i: nat, n: nat): (e: bool)
    ensures e <==> n > 0 && i + 1 == n
  {
    i == n - 1
  }

  /** The number of emphasised signals among the first `k` of `n`. */
  function EmphasisedBelow(k: nat, n: nat): nat {
    if k == 0 then 0 else EmphasisedBelow(k - 1, n) + (if Emphasised(k - 1, n) then 1 else 0)
  }

  /** A non-empty list has exactly one emphasised signal, the last; an empty one has none. */
  lemma {:induction false} ExactlyLastEmphasised(n: nat, k: nat)
    requires k <= n
    ensures EmphasisedBelow(k, n) == if k == n && n > 0 then 1 else 0
  {
    if k > 0 {
      ExactlyLastEmphasised(n, k - 1);
    }
  }
}
