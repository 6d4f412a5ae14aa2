/**
 * What both game services share: the SteamSpy record they read and the
 * rounding of the positive-review share to a whole percentage.
 */
module SteamSpy {
  import opened Wrappers

  /** The fields of a SteamSpy record the services read. */
  datatype SteamSpyRecord = SteamSpyRecord(
    appid: int,
    name: string,
    developer: string,
    publisher: string,
    positive: int,
    negative: int,
    owners: string,
    average2Weeks: int,
    genre: Option<seq<string>>)

  /**
   * `Math.round(positive / total * 100)` for a positive total, as integer
   * rounding half up: the nearest integer to the percentage, ties upwards.
   */
  function RoundedPercent(positive: int, total: int): (r: int)
    requires total > 0
    ensures (2 * total) * r - total <= 200 * positive < (2 * total) * r + total
    ensures 0 <= positive <= total ==> 0 <= r <= 100
  {
    var r := (200 * positive + total) / (2 * total);
    HalfUpBounds(positive, total, r);
    r
  }

  /** The quotient of the half-up division lies within half a unit of the percentage, and in 0..100 for a share. */
  lemma HalfUpBounds(positive: int, total: int, r: int)
    requires total > 0 && r == (200 * positive + total) / (2 * total)
    ensures (2 * total) * r - total <= 200 * positive < (2 * total) * r + total
    ensures 0 <= positive <= total ==> 0 <= r <= 100
  {
    var d := 2 * total;
    var n := 200 * positive + total;
    assert d * r <= n < d * r + d;
    if 0 <= positive <= total {
      assert n < d * 101;
      FactorLess(d, r, 101);
      assert 0 < d * (r + 1);
      FactorLess(d, -1, r + 1);
    }
  }

  /** Cancelling a positive factor keeps a strict inequality. */
  lemma FactorLess(c: int, a: int, b: int)
    requires c > 0 && c * a < c * b
    ensures a < b
  {
  }

  /**
   * The rounded share is positive exactly when the positive reviews are at
   * least half a percent of the total.
   */
  lemma RoundedPercentPositive(positive: int, total: int)
    requires total > 0
    ensures RoundedPercent(positive, total) > 0 <==> 200 * positive >= total
  {
    var r := RoundedPercent(positive, total);
    var d := 2 * total;
    if 200 * positive >= total {
      assert d * 0 < d * r;
      FactorLess(d, 0, r);
    } else {
      assert d * r < d * 1;
      FactorLess(d, r, 1);
    }
  }
}
