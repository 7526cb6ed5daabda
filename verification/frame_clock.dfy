/**
  The frame clock of App/badapple/asset.go: which frame is shown at a time,
  computed in 64-bit steps without losing precision.
 */
module FrameClock {
  import opened Division

  const SECOND := 1_000_000_000
  const LIMIT_64 := 0x1_0000_0000_0000_0000

  datatype Asset = Asset(fpsNum: nat, fpsDen: nat, count: nat)

  // The timing parseAsset accepts.
  predicate Accepted(a: Asset) {
    && 0 < a.fpsNum <= 30000 && 0 < a.fpsDen <= 1000
    && a.fpsDen <= a.fpsNum <= 30 * a.fpsDen && 0 < a.count <= 108000
  }

  function Duration(a: Asset): int
    requires Accepted(a)
  {
    (a.count * a.fpsDen * SECOND + a.fpsNum - 1) / a.fpsNum
  }

  // The frame that started last at time at: at * fps, rounded down.
  function FrameAt(a: Asset, at: nat): int
    requires Accepted(a)
  {
    (at * a.fpsNum) / (a.fpsDen * SECOND)
  }

  // index: whole seconds first, so that no product leaves 64 bits.
  method Index(a: Asset, at: int) returns (n: int)
    requires Accepted(a) && at < 0x8000_0000_0000_0000
    ensures n == if at <= 0 then 0 else if at >= Duration(a) then a.count - 1 else FrameAt(a, at)
    ensures 0 <= n < a.count
  {
    if at <= 0 {
      return 0;
    }
    if at >= Duration(a) {
      return a.count - 1;
    }
    ClampNotNeeded(a, at);
    ShownFrom(a, at, 0);
    SplitIsExact(at, a.fpsNum, a.fpsDen);
    SmallProducts(a, at);
    n := FrameBySeconds(a.fpsNum, a.fpsDen, at);
    if n >= a.count {
      return a.count - 1;
    }
  }

  method FrameBySeconds(num: nat, den: nat, at: nat) returns (n: int)
    requires den > 0
    ensures n == (at / SECOND * num) / den + ((at / SECOND * num) % den * SECOND + at % SECOND * num) / (den * SECOND)
  {
    n := (at / SECOND * num) / den;
    var rem := (at / SECOND * num) % den;
    n := n + (rem * SECOND + (at % SECOND) * num) / (den * SECOND);
  }

  // Splitting off whole seconds does not change the quotient.
  lemma {:induction false} SplitIsExact(at: nat, num: nat, den: nat)
    requires den > 0
    ensures var product := (at / SECOND) * num;
            product / den + ((product % den) * SECOND + (at % SECOND) * num) / (den * SECOND) ==
            (at * num) / (den * SECOND)
  {
    var seconds, rest := at / SECOND, at % SECOND;
    var product := seconds * num;
    var q, rem := product / den, product % den;
    var tail := rem * SECOND + rest * num;
    var unit := den * SECOND;
    assert product == q * den + rem;
    assert at * num == seconds * SECOND * num + rest * num;
    assert seconds * SECOND * num == product * SECOND;
    assert product * SECOND == q * unit + rem * SECOND;
    var q2 := Quotient(tail, unit);
    assert at * num - (q + q2) * unit == tail - q2 * unit;
    QuotientIs(at * num, unit, q + q2);
  }

  // Before the end of the animation the frame number is in range by itself.
  lemma {:induction false} ClampNotNeeded(a: Asset, at: nat)
    requires Accepted(a) && at < Duration(a)
    ensures FrameAt(a, at) < a.count
  {
    var total := a.count * a.fpsDen * SECOND;
    AtLeast(total + a.fpsNum - 1, a.fpsNum, at + 1);
    assert (at + 1) * a.fpsNum == at * a.fpsNum + a.fpsNum;
    ShownFrom(a, at, a.count);
  }

  // The clock shows frame k or a later one from k / fps on, and not before.
  lemma {:induction false} ShownFrom(a: Asset, at: nat, k: nat)
    requires Accepted(a)
    ensures FrameAt(a, at) >= k <==> at * a.fpsNum >= k * a.fpsDen * SECOND
  {
    AtLeast(at * a.fpsNum, a.fpsDen * SECOND, k);
    assert k * (a.fpsDen * SECOND) == k * a.fpsDen * SECOND;
  }

  lemma {:induction false} SmallProducts(a: Asset, at: nat)
    requires Accepted(a) && at < 0x8000_0000_0000_0000
    ensures a.count * a.fpsDen * SECOND + a.fpsNum < LIMIT_64
    ensures (at / SECOND) * a.fpsNum < LIMIT_64
    ensures var rem := ((at / SECOND) * a.fpsNum) % a.fpsDen;
            rem * SECOND + (at % SECOND) * a.fpsNum < LIMIT_64 && a.fpsDen * SECOND < LIMIT_64
  {
    Product(a.count, 108000, a.fpsDen, 1000);
    Product(at / SECOND, 9223372037, a.fpsNum, 30000);
    Product(at % SECOND, SECOND, a.fpsNum, 30000);
  }

  lemma {:induction false} Product(x: nat, a: nat, y: nat, b: nat)
    requires x <= a && y <= b
    ensures x * y <= a * b
  {
    assert x * y <= a * y;
    assert a * y <= a * b;
  }
}
