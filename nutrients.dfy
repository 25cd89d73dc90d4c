/** The nutrient value type of nutrition.py: carbohydrate, protein and fat in grams
    and calories, with fieldwise addition, scaling and averaging. */
module NutrientValues {
  import opened Wrappers

  datatype Nutrients = Nutrients(c: real, p: real, f: real, cal: real)
  {
    /** `self + other`. */
    function Plus(other: Nutrients): Nutrients {
      Nutrients(c + other.c, p + other.p, f + other.f, cal + other.cal)
    }

    /** `self * n`. */
    function Times(n: real): Nutrients {
      Nutrients(c * n, p * n, f * n, cal * n)
    }

    /** `self / n`; Python raises ZeroDivisionError for `n == 0`. */
    function Over(n: real): Nutrients
      requires n != 0.0
    {
      Nutrients(c / n, p / n, f / n, cal / n)
    }
  }

  /** `KCAL_PER_G`: calories per gram of carbohydrate, protein and fat. */
  const KcalPerGramCarbs: real := 4.0
  const KcalPerGramProtein: real := 4.0
  const KcalPerGramFat: real := 9.0

  /** `Nutrients()`: every field defaults to 0. */
  const Zero := Nutrients(0.0, 0.0, 0.0, 0.0)

  /** The running total `avg` accumulates: `Zero + items[0] + items[1] + ...`. */
  function Sum(items: seq<Nutrients>): Nutrients {
    if items == [] then Zero else Sum(items[..|items| - 1]).Plus(items[|items| - 1])
  }

  /** What `Nutrients.avg(items)` returns: the sum divided by the length. */
  function Average(items: seq<Nutrients>): Nutrients
    requires |items| > 0
  {
    Sum(items).Over(|items| as real)
  }

  /** `Nutrients.avg`: adds the items up in a loop, then divides by their number,
      which raises ZeroDivisionError for an empty list. The average times the number
      of items gives back their sum. */
  method Avg(items: seq<Nutrients>) returns (r: Result<Nutrients, Error>)
    ensures r.Err? <==> items == []
    ensures r.Err? ==> r.error == ZeroDivision
    ensures r.Ok? ==> r.value == Average(items) && r.value.Times(|items| as real) == Sum(items)
  {
    var total := Zero;
    for i := 0 to |items|
      invariant total == Sum(items[..i])
    {
      assert items[..i + 1][..i] == items[..i];
      total := total.Plus(items[i]);
    }
    assert items[..|items|] == items;
    if |items| == 0 {
      return Err(ZeroDivision);
    }
    r := Ok(total.Over(|items| as real));
    OverTimes(total, |items| as real);
  }

  /** Addition is fieldwise, so it is commutative and associative with `Zero` as
      identity. */
  lemma PlusLaws(a: Nutrients, b: Nutrients, d: Nutrients)
    ensures a.Plus(b) == b.Plus(a)
    ensures a.Plus(b).Plus(d) == a.Plus(b.Plus(d))
    ensures a.Plus(Zero) == a
  {
  }

  /** Scaling and then dividing by the same number gives the value back. */
  lemma TimesOver(a: Nutrients, n: real)
    requires n != 0.0
    ensures a.Times(n).Over(n) == a
  {
  }

  /** Dividing and then scaling by the same number gives the value back. */
  lemma OverTimes(a: Nutrients, n: real)
    requires n != 0.0
    ensures a.Over(n).Times(n) == a
  {
  }

  /** Summing a concatenation sums the parts. */
  lemma {:induction false} SumConcat(xs: seq<Nutrients>, ys: seq<Nutrients>)
    ensures Sum(xs + ys) == Sum(xs).Plus(Sum(ys))
    decreases |ys|
  {
    if ys != [] {
      var init := ys[..|ys| - 1];
      assert (xs + ys)[..|xs + ys| - 1] == xs + init;
      assert (xs + ys)[|xs + ys| - 1] == ys[|ys| - 1];
      SumConcat(xs, init);
      assert Sum(xs + ys) == Sum(xs + init).Plus(ys[|ys| - 1]);
      assert Sum(ys) == Sum(init).Plus(ys[|ys| - 1]);
      PlusLaws(Sum(xs), Sum(init), ys[|ys| - 1]);
    } else {
      assert xs + ys == xs;
    }
  }

  /** Taking one item out of a list takes it out of the sum. */
  lemma SumWithout(ys: seq<Nutrients>, k: nat)
    requires k < |ys|
    ensures Sum(ys) == Sum(ys[..k] + ys[k + 1..]).Plus(ys[k])
  {
    var a, x, b := ys[..k], ys[k], ys[k + 1..];
    SumSplit(ys, k);
    SumConcat(a, b);
  }

  /** The sum of a list is the sum before an item, the item and the sum after it. */
  lemma SumSplit(ys: seq<Nutrients>, k: nat)
    requires k < |ys|
    ensures Sum(ys) == Sum(ys[..k]).Plus(ys[k]).Plus(Sum(ys[k + 1..]))
  {
    var a, x, b := ys[..k], ys[k], ys[k + 1..];
    assert ys == (a + [x]) + b;
    SumConcat(a + [x], b);
    assert (a + [x])[..|a|] == a;
  }

  /** The sum, hence the average, does not depend on the order of the items. */
  lemma {:induction false} SumOrderIndependent(xs: seq<Nutrients>, ys: seq<Nutrients>)
    requires multiset(xs) == multiset(ys)
    ensures Sum(xs) == Sum(ys)
    decreases |xs|
  {
    if xs == [] {
      assert |ys| == |multiset(ys)| == 0;
    } else {
      var x := xs[|xs| - 1];
      var init := xs[..|xs| - 1];
      assert xs == init + [x];
      assert x in multiset(ys);
      var k :| 0 <= k < |ys| && ys[k] == x;
      var rest := ys[..k] + ys[k + 1..];
      assert ys == ys[..k] + [x] + ys[k + 1..];
      assert multiset(init) == multiset(xs) - multiset{x};
      assert multiset(rest) == multiset(ys) - multiset{x};
      SumOrderIndependent(init, rest);
      SumWithout(ys, k);
    }
  }

  /** A list of `n` copies of one value sums to that value times `n` ... */
  lemma {:induction false} SumOfCopies(x: Nutrients, n: nat)
    ensures Sum(seq(n, _ => x)) == x.Times(n as real)
  {
    if n > 0 {
      assert seq(n, _ => x)[..n - 1] == seq(n - 1, _ => x);
      SumOfCopies(x, n - 1);
    }
  }

  /** ... so it averages to that value; a one-item group averages to its item. */
  lemma AverageOfCopies(x: Nutrients, n: nat)
    requires n > 0
    ensures Average(seq(n, _ => x)) == x
    ensures Average([x]) == x
  {
    SumOfCopies(x, n);
    SumOfCopies(x, 1);
    assert seq(1, _ => x) == [x];
    TimesOver(x, n as real);
    TimesOver(x, 1.0);
  }

  /** Two items sum to their `+`. */
  lemma SumOfTwo(a: Nutrients, b: Nutrients)
    ensures Sum([a, b]) == a.Plus(b)
  {
    assert [a, b][..1] == [a];
    assert [a][..0] == [];
    assert Sum([a]) == Sum([]).Plus(a);
    assert Sum([a, b]) == Sum([a]).Plus(b);
    assert Zero.Plus(a) == a;
  }

  /** A worked example: the average of (10,0,0,40) and (0,10,0,40). */
  lemma AverageExample()
    ensures Average([Nutrients(10.0, 0.0, 0.0, 40.0), Nutrients(0.0, 10.0, 0.0, 40.0)])
         == Nutrients(5.0, 5.0, 0.0, 40.0)
  {
    SumOfTwo(Nutrients(10.0, 0.0, 0.0, 40.0), Nutrients(0.0, 10.0, 0.0, 40.0));
  }
}
