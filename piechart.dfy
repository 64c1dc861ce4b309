/** The aggregates `refreshPieChart` publishes: how many rows there are, and
    which share of them succeeded or failed, as rounded percentages. */
module PieChart {
  import opened MigrationTypes

  datatype PieStats = PieStats(totalMigrations: nat, successPercentage: nat, failurePercentage: nat)

  /** `activities.filter((record) => record.hasErrors).length` */
  function CountWithErrors(rows: seq<DisplayRow>): (n: nat)
    ensures n <= |rows|
    ensures n == 0 <==> forall i :: 0 <= i < |rows| ==> !rows[i].hasErrors
    ensures n == |rows| <==> forall i :: 0 <= i < |rows| ==> rows[i].hasErrors
  {
    if rows == [] then 0
    else
      var init := rows[..|rows| - 1];
      var n := CountWithErrors(init) + (if rows[|rows| - 1].hasErrors then 1 else 0);
      assert forall i :: 0 <= i < |init| ==> init[i] == rows[i];
      n
  }

  /** The indices of the rows that have errors. */
  ghost function RowsWithErrors(rows: seq<DisplayRow>): set<nat> {
    set i: nat | i < |rows| && rows[i].hasErrors
  }

  /** The count is the number of rows that have errors. */
  lemma {:induction false} CountWithErrorsIsCardinality(rows: seq<DisplayRow>)
    ensures CountWithErrors(rows) == |RowsWithErrors(rows)|
  {
    if rows != [] {
      var n := |rows| - 1;
      var init := rows[..n];
      CountWithErrorsIsCardinality(init);
      assert RowsWithErrors(init) == set i: nat | i < n && rows[i].hasErrors;
      if rows[n].hasErrors {
        assert RowsWithErrors(rows) == RowsWithErrors(init) + {n};
        assert n !in RowsWithErrors(init);
      } else {
        assert RowsWithErrors(rows) == RowsWithErrors(init);
      }
    }
  }

  /** The denominator `totalMigrations || 1`. */
  function Denominator(total: nat): (d: nat)
    ensures d >= 1
    ensures total == 0 ==> d == 1
    ensures total >= 1 ==> d == total
  {
    if total == 0 then 1 else total
  }

  /** How many whole `b`s fit in `a`: integer division by repeated subtraction. */
  function Quotient(a: nat, b: nat): nat
    requires b > 0
    decreases a
  {
    if a < b then 0 else 1 + Quotient(a - b, b)
  }

  /** `Quotient(a, b)` is the floor of `a / b`. */
  lemma {:induction false} QuotientBounds(a: nat, b: nat)
    requires b > 0
    ensures b * Quotient(a, b) <= a < b * Quotient(a, b) + b
    decreases a
  {
    if a >= b {
      QuotientBounds(a - b, b);
      assert b * Quotient(a, b) == b + b * Quotient(a - b, b);
    }
  }

  /** `Math.round((count * 100) / (total || 1))` in exact arithmetic:
      `Math.round(x)` is the floor of `x + 1/2`, here `(200 * count + d) / (2 * d)`. */
  function RoundedPercent(count: nat, total: nat): nat {
    var d := Denominator(total);
    Quotient(200 * count + d, 2 * d)
  }

  /** The rounded percentage is the integer nearest to `100 * count / d`,
      a value exactly halfway between two integers going to the larger. */
  lemma RoundsToNearest(count: nat, total: nat)
    ensures NearestPercent(RoundedPercent(count, total), count, total)
  {
    var d := Denominator(total);
    var p := Quotient(200 * count + d, 2 * d);
    QuotientBounds(200 * count + d, 2 * d);
    assert (2 * d) * p == d * (2 * p);
  }

  lemma {:induction false} MulAtLeastFactor(d: int, k: int)
    requires d > 0 && k >= 1
    ensures d * k >= d
  {
    if k > 1 {
      MulAtLeastFactor(d, k - 1);
      assert d * k == d * (k - 1) + d;
    }
  }

  /** Multiplying by a positive factor keeps the order. */
  lemma MulMonotone(d: int, x: int, y: int)
    requires d > 0 && x <= y
    ensures d * x <= d * y
  {
    if x < y {
      MulAtLeastFactor(d, y - x);
      assert d * y == d * x + d * (y - x);
    }
  }

  /** A percentage of a part of the rows lies between 0 and 100. */
  lemma PercentBounds(count: nat, total: nat)
    requires count <= total
    ensures RoundedPercent(count, total) <= 100
    ensures total == 0 ==> RoundedPercent(count, total) == 0
  {
    var d := Denominator(total);
    var b := 2 * d;
    var a := 200 * count + d;
    var p := Quotient(a, b);
    QuotientBounds(a, b);
    if p > 100 {
      MulMonotone(b, 101, p);
      assert false;
    }
    if total == 0 {
      assert count == 0;
    }
  }

  /** Rounding the two complementary shares: they add up to 100, or to 101
      exactly when both sit at a half, that is when the failure share
      `100 * errors / total` is exactly halfway between two integers. */
  lemma {:induction false} ComplementaryPercents(errors: nat, total: nat)
    requires 1 <= total && errors <= total
    ensures var sum := RoundedPercent(total - errors, total) + RoundedPercent(errors, total);
      sum == 100 || sum == 101
    ensures RoundedPercent(total - errors, total) + RoundedPercent(errors, total) == 101 <==>
              total * (2 * RoundedPercent(errors, total) - 1) == 200 * errors
  {
    var b := 2 * total;
    var a1 := 200 * errors + total;
    var a2 := 200 * (total - errors) + total;
    var f := Quotient(a1, b);
    var s := Quotient(a2, b);
    QuotientBounds(a1, b);
    QuotientBounds(a2, b);
    QuotientsOfComplements(b, f, a1 - b * f, s, a2 - b * s);
    assert b * f == total * (2 * f - 1) + total;
  }

  /** Two remainders below `b` whose dividends add up to `101 * b`. */
  lemma QuotientsOfComplements(b: int, f: int, r1: int, s: int, r2: int)
    requires b > 0 && 0 <= r1 < b && 0 <= r2 < b
    requires b * f + r1 + b * s + r2 == b * 101
    ensures f + s == 100 || f + s == 101
    ensures f + s == 101 <==> r1 == 0
  {
    assert b * f + b * s == b * (f + s);
    if f + s > 101 {
      MulMonotone(b, 102, f + s);
      assert false;
    }
    if f + s < 100 {
      MulMonotone(b, f + s, 99);
      assert false;
    }
    if f + s == 101 {
      assert r1 + r2 == 0;
    } else {
      assert r1 + r2 == b;
    }
  }

  /** The aggregates `refreshPieChart` computes from a snapshot of rows. */
  function Aggregate(rows: seq<DisplayRow>): PieStats {
    var totalErrors := CountWithErrors(rows);
    var totalMigrations := |rows|;
    var totalSuccess: nat := totalMigrations - totalErrors;
    PieStats(totalMigrations, RoundedPercent(totalSuccess, totalMigrations), RoundedPercent(totalErrors, totalMigrations))
  }

  /** What the pie chart can rely on: the total is the row count, both
      percentages lie in [0, 100], an empty snapshot gives 0 and 0 without
      dividing by zero, and otherwise the two add up to 100 or 101. */
  lemma AggregateBounds(rows: seq<DisplayRow>)
    ensures Aggregate(rows).totalMigrations == |rows|
    ensures Aggregate(rows).successPercentage <= 100 && Aggregate(rows).failurePercentage <= 100
    ensures rows == [] ==> Aggregate(rows).successPercentage == 0 && Aggregate(rows).failurePercentage == 0
    ensures rows != [] ==> Aggregate(rows).successPercentage + Aggregate(rows).failurePercentage == 100 ||
                           Aggregate(rows).successPercentage + Aggregate(rows).failurePercentage == 101
  {
    var e := CountWithErrors(rows);
    var n := |rows|;
    var ok: nat := n - e;
    assert Aggregate(rows) == PieStats(n, RoundedPercent(ok, n), RoundedPercent(e, n));
    PercentBounds(e, n);
    PercentBounds(ok, n);
    if rows != [] {
      ComplementaryPercents(e, n);
    }
  }

  /** A snapshot without errors is 100% successful; one where every row has
      errors is 100% failed. */
  lemma AggregateUniform(rows: seq<DisplayRow>)
    requires rows != []
    ensures (forall i :: 0 <= i < |rows| ==> !rows[i].hasErrors) ==>
              Aggregate(rows).successPercentage == 100 && Aggregate(rows).failurePercentage == 0
    ensures (forall i :: 0 <= i < |rows| ==> rows[i].hasErrors) ==>
              Aggregate(rows).successPercentage == 0 && Aggregate(rows).failurePercentage == 100
  {
    var n := |rows|;
    FullShare(n);
    ZeroShare(n);
  }

  /** All `n` of `n` rows is 100%. */
  lemma FullShare(n: nat)
    requires n >= 1
    ensures RoundedPercent(n, n) == 100
  {
    QuotientBounds(201 * n, 2 * n);
    var q := Quotient(201 * n, 2 * n);
    if q < 100 {
      MulMonotone(2 * n, q + 1, 100);
    } else if q > 100 {
      MulMonotone(2 * n, 101, q);
    }
  }

  /** None of the rows is 0%. */
  lemma ZeroShare(n: nat)
    ensures RoundedPercent(0, n) == 0
  {
  }

  /** Each published percentage is the share of its rows rounded to the
      nearest integer, the denominator `totalMigrations || 1`. */
  lemma AggregateRoundsShares(rows: seq<DisplayRow>)
    ensures NearestPercent(Aggregate(rows).failurePercentage, CountWithErrors(rows), |rows|)
    ensures NearestPercent(Aggregate(rows).successPercentage, |rows| - CountWithErrors(rows), |rows|)
  {
    var e := CountWithErrors(rows);
    var n := |rows|;
    var ok: nat := n - e;
    var s := Aggregate(rows);
    assert s == PieStats(n, RoundedPercent(ok, n), RoundedPercent(e, n));
    RoundsToNearest(e, n);
    RoundsToNearest(ok, n);
  }

  /** `p` is the integer nearest to `100 * count / d`, halves going up. */
  ghost predicate NearestPercent(p: int, count: int, total: nat) {
    var d := Denominator(total);
    d * (2 * p - 1) <= 200 * count < d * (2 * p + 1)
  }
}
