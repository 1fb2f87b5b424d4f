/** The shape both feed validators (internal/feed/rss.go and internal/feed/parser.go)
    share: a loop over the items that runs the same checks on each, in order, and
    returns the error of the first check that fails. */
module Validation {

  import opened Wrappers

  /** Every item passes `check`. */
  ghost predicate AllPass<T>(items: seq<T>, check: T -> Option<string>)
  {
    forall i :: 0 <= i < |items| ==> check(items[i]).None?
  }

  /** Item `i` fails `check` and every item before it passes. */
  ghost predicate FirstFailing<T>(items: seq<T>, check: T -> Option<string>, i: int)
  {
    && 0 <= i < |items| && check(items[i]).Some?
    && forall j :: 0 <= j < i ==> check(items[j]).None?
  }

  /** The loop: the error of the first item that fails, or None when all pass. */
  function FirstFailure<T>(items: seq<T>, check: T -> Option<string>): (r: Option<string>)
    ensures r.None? <==> AllPass(items, check)
    ensures r.Some? ==> exists i :: FirstFailing(items, check, i) && r == check(items[i])
    decreases |items|
  {
    if items == [] then None
    else match check(items[0])
      case Some(m) =>
        assert FirstFailing(items, check, 0);
        Some(m)
      case None =>
        assert forall i :: 0 < i < |items| ==> items[i] == items[1..][i - 1];
        FirstFailure(items[1..], check)
  }

  /** Whatever fails later, the first failing item decides the error. */
  lemma {:induction false} FirstFailureIsFirst<T>(items: seq<T>, check: T -> Option<string>, i: int)
    requires FirstFailing(items, check, i)
    ensures FirstFailure(items, check) == check(items[i])
    decreases |items|
  {
    if i > 0 {
      assert FirstFailing(items[1..], check, i - 1);
      FirstFailureIsFirst(items[1..], check, i - 1);
    }
  }

}
