/** First matches in a list: what `query.filter(...).first()` finds in a table kept in a fixed order. */
module Lists {
  import opened Options
  import opened Sums

  function Find<T>(p: T -> bool, xs: seq<T>): (r: Option<nat>)
    ensures match r
            case None => forall i :: 0 <= i < |xs| ==> !p(xs[i])
            case Some(i) => i < |xs| && p(xs[i]) && forall j :: 0 <= j < i ==> !p(xs[j])
  {
    if xs == [] then None else
    var init := xs[..|xs| - 1];
    var before := Find(p, init);
    assert forall i :: 0 <= i < |init| ==> init[i] == xs[i];
    if before.Some? then before else if p(xs[|xs| - 1]) then Some(|xs| - 1) else None
  }

  lemma {:induction false} SumUpdate<T>(f: T -> int, xs: seq<T>, i: nat, x: T)
    requires i < |xs|
    ensures Sum(f, xs[i := x]) == Sum(f, xs) - f(xs[i]) + f(x)
  {
    SumWithout(f, xs, i);
    SumWithout(f, xs[i := x], i);
    assert xs[i := x][..i] + xs[i := x][i + 1..] == xs[..i] + xs[i + 1..];
  }

  /** Elements that are all zero, or none at all, add up to zero. */
  lemma {:induction false} SumOfZeros<T>(f: T -> int, xs: seq<T>)
    requires forall x :: x in xs ==> f(x) == 0
    ensures Sum(f, xs) == 0
  {
    if xs != [] {
      SumOfZeros(f, xs[..|xs| - 1]);
      assert xs[|xs| - 1] in xs;
    }
  }
}
