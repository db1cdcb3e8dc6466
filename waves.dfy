/**
  Enemy waves: how many enemies a wave has, how they are split into rows of
  at most eight, and where each enemy of a row is placed.

  Every coordinate is an integer number of tenths of a pixel, so that the
  scene's fractional per-frame speeds need no floating point. The random
  horizontal jitter of the layout (an integer in 0..40 pixels per column)
  is passed in as a sequence of draws.
*/
module Waves {

  /** Tenths of a pixel per pixel. */
  const Scale := 10

  /** Wave 1 has this many enemies. */
  const BaseEnemyCount := 5

  /** At most this many enemies are laid out in one row. */
  const RowCapacity := 8

  /** The x every row starts from (50 px); the first enemy lands beyond it. */
  const LeftMargin := 50 * Scale

  /** Horizontal gap added to every candidate before its jitter (60 px). */
  const MinSpacing := 60 * Scale

  /** Largest jitter draw, in whole pixels. */
  const MaxJitter := 40

  /** A candidate is placed only when its x is below this (750 px). */
  const RightBound := 750 * Scale

  /** Vertical distance between consecutive rows (60 px). */
  const RowSpacing := 60 * Scale

  datatype Pos = Pos(x: int, y: int)

  function Min(a: int, b: int): int {
    if a <= b then a else b
  }

  function Pow(b: nat, k: nat): (r: nat)
    ensures b > 0 ==> r > 0
  {
    if k == 0 then 1 else b * Pow(b, k - 1)
  }

  ghost function RealPow(b: real, k: nat): real {
    if k == 0 then 1.0 else b * RealPow(b, k - 1)
  }

  /**
    Number of enemies in wave `n` (waves count from 1): floor(5 * 1.2^(n-1)),
    computed exactly as 5 * 6^(n-1) / 5^(n-1) with integer division.
  */
  function EnemyCount(n: nat): (r: nat)
    requires n >= 1
    ensures r >= BaseEnemyCount
  {
    PowGrows(n - 1);
    DivAtLeast(BaseEnemyCount * Pow(6, n - 1), Pow(5, n - 1), BaseEnemyCount);
    (BaseEnemyCount * Pow(6, n - 1)) / Pow(5, n - 1)
  }

  lemma {:induction false} PowGrows(k: nat)
    ensures Pow(6, k) >= Pow(5, k)
  {
    if k > 0 {
      PowGrows(k - 1);
    }
  }

  lemma MulMono(x: int, y: int, b: int)
    requires x <= y && b >= 0
    ensures x * b <= y * b
  {
  }

  lemma MulLtCancel(c: int, p: int, b: int)
    requires b > 0 && c * b < p * b
    ensures c < p
  {
  }

  /** If a >= c * b then a / b >= c. */
  lemma DivAtLeast(a: nat, b: nat, c: nat)
    requires b > 0 && a >= c * b
    ensures a / b >= c
  {
    var q, m := a / b, a % b;
    assert a == q * b + m && m < b;
    assert (q + 1) * b == q * b + b;
    MulLtCancel(c, q + 1, b);
  }

  /** The quotient is determined by any decomposition a == q * b + m with 0 <= m < b. */
  lemma DivUnique(a: int, b: int, q: int, m: int)
    requires b > 0 && a == q * b + m && 0 <= m < b
    ensures a / b == q && a % b == m
  {
    var q', m' := a / b, a % b;
    assert a == q' * b + m' && 0 <= m' < b;
    assert (q + 1) * b == q * b + b;
    assert (q' + 1) * b == q' * b + b;
    MulLtCancel(q', q + 1, b);
    MulLtCancel(q, q' + 1, b);
  }

  lemma ScaleRatio(a: real, b: real)
    requires b > 0.0
    ensures 1.2 * (a / b) == (6.0 * a) / (5.0 * b)
  {
  }

  /** The real power 1.2^k is the ratio 6^k / 5^k. */
  lemma {:induction false} RealPowRatio(k: nat)
    ensures RealPow(1.2, k) == Pow(6, k) as real / Pow(5, k) as real
  {
    if k > 0 {
      RealPowRatio(k - 1);
      var a, b := Pow(6, k - 1) as real, Pow(5, k - 1) as real;
      assert b > 0.0;
      assert Pow(6, k) as real == 6.0 * a;
      assert Pow(5, k) as real == 5.0 * b;
      ScaleRatio(a, b);
    }
  }

  /** Integer division rounds the real quotient down. */
  lemma FloorOfRatio(a: nat, b: nat)
    requires b > 0
    ensures (a / b) as real <= a as real / b as real < (a / b) as real + 1.0
  {
    var q, m := a / b, a % b;
    assert a == q * b + m && 0 <= m < b;
    var br := b as real;
    assert a as real == q as real * br + m as real;
    assert a as real / br == q as real + m as real / br;
    assert 0.0 <= m as real / br < 1.0;
  }

  lemma ScaleByFive(x: real, y: real)
    requires y > 0.0
    ensures 5.0 * (x / y) == (5.0 * x) / y
  {
  }

  /**
    EnemyCount(n) is the floor of the real number 5 * 1.2^(n-1): it is not
    above it, and the next integer is.
  */
  lemma EnemyCountIsFloor(n: nat)
    requires n >= 1
    ensures EnemyCount(n) as real <= 5.0 * RealPow(1.2, n - 1) < EnemyCount(n) as real + 1.0
  {
    var a, b := Pow(6, n - 1), Pow(5, n - 1);
    RealPowRatio(n - 1);
    ScaleByFive(a as real, b as real);
    assert (5 * a) as real == 5.0 * a as real;
    FloorOfRatio(5 * a, b);
  }

  /** With a >= b > 0: floor(6a / b), written as 30a / 5b, exceeds floor(5a / b). */
  lemma SixFifthsStep(a: nat, b: nat)
    requires 0 < b <= a
    ensures (5 * (6 * a)) / (5 * b) >= (5 * a) / b + 1
  {
  }

  lemma EnemyCountGrows(n: nat)
    requires n >= 1
    ensures EnemyCount(n + 1) >= EnemyCount(n) + 1
  {
    var a, b := Pow(6, n - 1), Pow(5, n - 1);
    PowGrows(n - 1);
    assert Pow(6, n) == 6 * a && Pow(5, n) == 5 * b;
    SixFifthsStep(a, b);
  }

  /** The first three waves have 5, 6 and 7 enemies. */
  lemma FirstWaves()
    ensures EnemyCount(1) == 5 && EnemyCount(2) == 6 && EnemyCount(3) == 7
  {
  }

  /** Number of rows of a wave of `count` enemies: the ceiling of count / 8. */
  function RowCount(count: nat): (rows: nat)
    ensures rows * RowCapacity >= count
    ensures rows > 0 ==> (rows - 1) * RowCapacity < count
  {
    (count + RowCapacity - 1) / RowCapacity
  }

  /** How many enemies row `row` is meant to hold: min(8, count - row * 8). */
  function RowQuota(count: nat, row: nat): (quota: int)
    requires row < RowCount(count)
    ensures 1 <= quota <= RowCapacity
  {
    Min(RowCapacity, count - row * RowCapacity)
  }

  /** Sum of the quotas of rows 0 .. k-1, i.e. how many draws they consume. */
  function QuotasBefore(count: nat, k: nat): int
    requires k <= RowCount(count)
  {
    if k == 0 then 0 else QuotasBefore(count, k - 1) + RowQuota(count, k - 1)
  }

  /** The first k rows take min(count, 8k) enemies; all rows take exactly `count`. */
  lemma {:induction false} QuotasCoverCount(count: nat, k: nat)
    requires k <= RowCount(count)
    ensures QuotasBefore(count, k) == Min(count, k * RowCapacity)
    ensures k == RowCount(count) ==> QuotasBefore(count, k) == count
  {
    if k > 0 {
      QuotasCoverCount(count, k - 1);
    }
  }

  /** Every jitter draw lies in 0..40. */
  predicate JitterDraws(draws: seq<int>) {
    forall i :: 0 <= i < |draws| ==> 0 <= draws[i] <= MaxJitter
  }

  /**
    The enemies one row places, scanning candidates left to right. Each
    candidate lies MinSpacing plus its jitter beyond `lastX`; it is placed
    only when it lies below RightBound, and then becomes the new `lastX`.
    A rejected candidate leaves `lastX` as it was.
  */
  function PlaceFrom(lastX: int, y: int, draws: seq<int>): seq<Pos>
    decreases |draws|
  {
    if draws == [] then []
    else
      var x := lastX + MinSpacing + Scale * draws[0];
      if x < RightBound then [Pos(x, y)] + PlaceFrom(x, y, draws[1..])
      else PlaceFrom(lastX, y, draws[1..])
  }

  /** The enemies of row `row`, given that row's jitter draws. */
  function RowPlacement(row: nat, draws: seq<int>): seq<Pos> {
    PlaceFrom(LeftMargin, row * RowSpacing, draws)
  }

  /**
    A row laid out from `lastX`: every enemy at height y and left of
    RightBound, the first 60..100 px beyond `lastX`, each next one 60..100 px
    beyond the one before.
  */
  ghost predicate SpacedRow(lastX: int, y: int, placed: seq<Pos>) {
    (forall i :: 0 <= i < |placed| ==> placed[i].y == y && placed[i].x < RightBound) &&
    (|placed| > 0 ==> MinSpacing <= placed[0].x - lastX <= MinSpacing + Scale * MaxJitter) &&
    (forall i :: 0 < i < |placed| ==>
      MinSpacing <= placed[i].x - placed[i - 1].x <= MinSpacing + Scale * MaxJitter)
  }

  lemma {:induction false} PlaceFromSpaced(lastX: int, y: int, draws: seq<int>)
    requires JitterDraws(draws)
    ensures SpacedRow(lastX, y, PlaceFrom(lastX, y, draws))
    ensures |PlaceFrom(lastX, y, draws)| <= |draws|
    decreases |draws|
  {
    if draws != [] {
      var x := lastX + MinSpacing + Scale * draws[0];
      var rest := draws[1..];
      assert JitterDraws(rest) by {
        forall i | 0 <= i < |rest| ensures 0 <= rest[i] <= MaxJitter {
          assert rest[i] == draws[i + 1];
        }
      }
      if x < RightBound {
        PlaceFromSpaced(x, y, rest);
        var tail := PlaceFrom(x, y, rest);
        var placed := [Pos(x, y)] + tail;
        assert PlaceFrom(lastX, y, draws) == placed;
        forall i | 0 < i < |placed|
          ensures MinSpacing <= placed[i].x - placed[i - 1].x <= MinSpacing + Scale * MaxJitter
        {
          assert placed[i] == tail[i - 1];
          if i > 1 {
            assert placed[i - 1] == tail[i - 2];
          }
        }
      } else {
        PlaceFromSpaced(lastX, y, rest);
      }
    }
  }

  /**
    While m more candidates at the widest spacing would still fall below the
    right bound, none of the next m candidates is rejected: at least
    min(|draws|, m) enemies are placed.
  */
  lemma {:induction false} PlaceFromAtLeast(lastX: int, y: int, draws: seq<int>, m: nat)
    requires JitterDraws(draws)
    requires lastX + m * (MinSpacing + Scale * MaxJitter) < RightBound
    ensures |PlaceFrom(lastX, y, draws)| >= Min(|draws|, m)
    decreases m
  {
    if draws != [] && m > 0 {
      var x := lastX + MinSpacing + Scale * draws[0];
      var rest := draws[1..];
      assert JitterDraws(rest) by {
        forall i | 0 <= i < |rest| ensures 0 <= rest[i] <= MaxJitter {
          assert rest[i] == draws[i + 1];
        }
      }
      assert x < RightBound;
      PlaceFromAtLeast(x, y, rest, m - 1);
    }
  }

  lemma {:induction false} SpacedPair(lastX: int, y: int, placed: seq<Pos>, i: nat, j: nat)
    requires SpacedRow(lastX, y, placed) && i < j < |placed|
    ensures lastX < placed[i].x < placed[j].x
    decreases j
  {
    if j > i + 1 {
      SpacedPair(lastX, y, placed, i, j - 1);
    } else if i > 0 {
      SpacedPair(lastX, y, placed, 0, i);
    }
  }

  /** In a spaced row the x coordinates increase strictly from `lastX` on. */
  lemma SpacedIncreasing(lastX: int, y: int, placed: seq<Pos>)
    requires SpacedRow(lastX, y, placed)
    ensures forall i, j :: 0 <= i < j < |placed| ==> lastX < placed[i].x < placed[j].x
  {
    forall i, j | 0 <= i < j < |placed| ensures lastX < placed[i].x < placed[j].x {
      SpacedPair(lastX, y, placed, i, j);
    }
  }

  /**
    A row holds at most its draws' worth of enemies, at height row * 60 px,
    strictly left to right, all between the left margin and the right bound,
    each 60..100 px beyond the previous one (or beyond the margin). The first
    six candidates always fit (50 + 6 * 100 = 650 < 750 px), so a row places
    at least min(|draws|, 6) enemies.
  */
  lemma RowPlacementShape(row: nat, draws: seq<int>)
    requires JitterDraws(draws)
    ensures SpacedRow(LeftMargin, row * RowSpacing, RowPlacement(row, draws))
    ensures Min(|draws|, 6) <= |RowPlacement(row, draws)| <= |draws|
    ensures forall i, j :: 0 <= i < j < |RowPlacement(row, draws)| ==>
      LeftMargin < RowPlacement(row, draws)[i].x < RowPlacement(row, draws)[j].x
  {
    PlaceFromSpaced(LeftMargin, row * RowSpacing, draws);
    PlaceFromAtLeast(LeftMargin, row * RowSpacing, draws, 6);
    SpacedIncreasing(LeftMargin, row * RowSpacing, RowPlacement(row, draws));
  }

  /**
    A rejected candidate does not end the row: with seven draws of 40 the
    seventh candidate lands at 750 px and is rejected, and the eighth, from
    the unchanged lastX of 650 px, is placed at 710 px.
  */
  lemma RowResumesAfterRejection()
    ensures |RowPlacement(0, [40, 40, 40, 40, 40, 40, 40, 0])| == 7
    ensures RowPlacement(0, [40, 40, 40, 40, 40, 40, 40, 0])[6] == Pos(710 * Scale, 0)
  {
  }

  /**
    Lays out one row. `draws` are the row's jitter draws, one per column
    (as many as the row's quota).
  */
  method LayoutRow(row: nat, draws: seq<int>) returns (placed: seq<Pos>)
    ensures placed == RowPlacement(row, draws)
  {
    var y := row * RowSpacing;
    var lastX := LeftMargin;
    placed := [];
    var col := 0;
    while col < |draws|
      invariant 0 <= col <= |draws|
      invariant placed + PlaceFrom(lastX, y, draws[col..]) == RowPlacement(row, draws)
      invariant lastX == if placed == [] then LeftMargin else placed[|placed| - 1].x
    {
      assert draws[col..][1..] == draws[col + 1..];
      var x := lastX + MinSpacing + Scale * draws[col];
      if x < RightBound {
        placed := placed + [Pos(x, y)];
        lastX := x;
      }
      col := col + 1;
    }
  }

  /** The rows 0 .. k-1 of a wave, each laid out from its own slice of the draws. */
  function RowsUpTo(count: nat, draws: seq<int>, k: nat): seq<Pos>
    requires |draws| == count && k <= RowCount(count)
  {
    if k == 0 then []
    else
      QuotasCoverCount(count, k - 1);
      QuotasCoverCount(count, k);
      RowsUpTo(count, draws, k - 1)
        + RowPlacement(k - 1, draws[QuotasBefore(count, k - 1)..QuotasBefore(count, k)])
  }

  /** All enemies of a wave of `count`, given one jitter draw per column. */
  function WaveLayout(count: nat, draws: seq<int>): seq<Pos>
    requires |draws| == count
  {
    RowsUpTo(count, draws, RowCount(count))
  }

  /** Every enemy of row `row` is strictly inside the bounds, at height row * 60 px. */
  lemma RowInBounds(row: nat, draws: seq<int>)
    requires JitterDraws(draws)
    ensures forall e :: e in RowPlacement(row, draws) ==>
      LeftMargin < e.x < RightBound && e.y == row * RowSpacing
  {
    RowPlacementShape(row, draws);
    var placed := RowPlacement(row, draws);
    forall e | e in placed ensures LeftMargin < e.x < RightBound && e.y == row * RowSpacing {
      var i :| 0 <= i < |placed| && placed[i] == e;
      if i > 0 {
        assert LeftMargin < placed[0].x < placed[i].x;
      }
    }
  }

  lemma RowHeight(r: nat, k: nat)
    requires r < k
    ensures (r * RowSpacing) % RowSpacing == 0 && 0 <= r * RowSpacing < k * RowSpacing
  {
  }

  /** The first k rows hold at most their quotas' total, and at most 2 fewer per row. */
  lemma {:induction false} RowsUpToCount(count: nat, draws: seq<int>, k: nat)
    requires |draws| == count && k <= RowCount(count) && JitterDraws(draws)
    ensures QuotasBefore(count, k) - 2 * k <= |RowsUpTo(count, draws, k)| <= QuotasBefore(count, k)
  {
    if k > 0 {
      RowsUpToCount(count, draws, k - 1);
      QuotasCoverCount(count, k - 1);
      QuotasCoverCount(count, k);
      var lo, hi := QuotasBefore(count, k - 1), QuotasBefore(count, k);
      var slice := draws[lo..hi];
      assert JitterDraws(slice) by {
        forall i | 0 <= i < |slice| ensures 0 <= slice[i] <= MaxJitter {
          assert slice[i] == draws[lo + i];
        }
      }
      RowPlacementShape(k - 1, slice);
      assert |slice| == RowQuota(count, k - 1) <= RowCapacity;
      assert RowsUpTo(count, draws, k) == RowsUpTo(count, draws, k - 1) + RowPlacement(k - 1, slice);
    }
  }

  /** Every enemy of the first k rows is inside the x bounds, on one of the heights 0, 60, ..., (k-1) * 60 px. */
  lemma {:induction false} RowsUpToShape(count: nat, draws: seq<int>, k: nat)
    requires |draws| == count && k <= RowCount(count) && JitterDraws(draws)
    ensures forall e :: e in RowsUpTo(count, draws, k) ==>
      LeftMargin < e.x < RightBound && e.y % RowSpacing == 0 && 0 <= e.y < k * RowSpacing
  {
    if k > 0 {
      RowsUpToShape(count, draws, k - 1);
      QuotasCoverCount(count, k - 1);
      QuotasCoverCount(count, k);
      var lo, hi := QuotasBefore(count, k - 1), QuotasBefore(count, k);
      var slice := draws[lo..hi];
      assert JitterDraws(slice) by {
        forall i | 0 <= i < |slice| ensures 0 <= slice[i] <= MaxJitter {
          assert slice[i] == draws[lo + i];
        }
      }
      RowInBounds(k - 1, slice);
      RowHeight(k - 1, k);
      var prev, row := RowsUpTo(count, draws, k - 1), RowPlacement(k - 1, slice);
      assert RowsUpTo(count, draws, k) == prev + row;
      MulMono(k - 1, k, RowSpacing);
    }
  }

  /**
    A wave places at most `count` enemies and loses at most two per row to
    the right bound, so a wave of up to six (waves 1 and 2) is placed in
    full. All enemies lie strictly between the left margin and the right
    bound, on rows 0 .. RowCount(count)-1, 60 px apart.
  */
  lemma WaveShape(count: nat, draws: seq<int>)
    requires |draws| == count && JitterDraws(draws)
    ensures count - 2 * RowCount(count) <= |WaveLayout(count, draws)| <= count
    ensures count <= 6 ==> |WaveLayout(count, draws)| == count
    ensures forall e :: e in WaveLayout(count, draws) ==>
      LeftMargin < e.x < RightBound && e.y % RowSpacing == 0 && 0 <= e.y < RowCount(count) * RowSpacing
  {
    RowsUpToCount(count, draws, RowCount(count));
    RowsUpToShape(count, draws, RowCount(count));
    QuotasCoverCount(count, RowCount(count));
    if 0 < count <= 6 {
      assert RowCount(count) == 1;
      QuotasCoverCount(count, 0);
      RowPlacementShape(0, draws[0..count]);
      assert WaveLayout(count, draws) == RowPlacement(0, draws[0..count]);
    }
  }

  /**
    Lays out a whole wave of `count` enemies: RowCount(count) rows, row `row`
    taking RowQuota(count, row) draws in turn.
  */
  method LayoutWave(count: nat, draws: seq<int>) returns (wave: seq<Pos>)
    requires |draws| == count
    ensures wave == WaveLayout(count, draws)
  {
    var rows := RowCount(count);
    wave := [];
    var used := 0;
    var row := 0;
    while row < rows
      invariant 0 <= row <= rows
      invariant used == QuotasBefore(count, row) == Min(count, row * RowCapacity)
      invariant wave == RowsUpTo(count, draws, row)
    {
      var quota := RowQuota(count, row);
      QuotasCoverCount(count, row + 1);
      var placed := LayoutRow(row, draws[used..used + quota]);
      wave := wave + placed;
      used := used + quota;
      row := row + 1;
    }
  }
}
