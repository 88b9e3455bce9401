/** Bit accounting of the recursive band split (`quant_partition` in native/opus/celt/bands.c; section
    4.3.4 of RFC 6716). Bits are counted in eighths. */
module BitBudget {
  import opened Common
  import opened Indexing

  /** One call of `compute_theta`: the bits it used and what it decided. */
  datatype Theta = Theta(qalloc: nat, itheta: int, delta: int)

  /** The pulse cache of one band, one row per LM from -1 up: entry 0 is the largest pulse count, entry
      q the bits, less one, that q pulses cost. `bisections` is LOG_MAX_PSEUDO, the number of steps of
      the search in a row: 6, enough for MAX_PSEUDO = 40 entries. */
  datatype Tables = Tables(rows: seq<seq<nat>>, bisections: nat)

  predicate GoodRow(c: seq<nat>) { |c| > 0 && c[0] < |c| }

  predicate GoodTables(m: Tables) { |m.rows| == 5 && forall k :: 0 <= k < 5 ==> GoodRow(m.rows[k]) }

  const SLACK := 24

  /** Arithmetic right shift. */
  function Asr(a: int, k: nat): int
    decreases k
  {
    if k == 0 then a else Asr(a / 2, k - 1)
  }

  /** The pre-echo and forward-masking corrections of the mid/side allocation. */
  function Adjust(th: Theta, n: nat, blocks: nat, lm: int): int
    requires -1 <= lm <= 3
  {
    if blocks > 1 && th.itheta % 16384 != 0 then
      if th.itheta > 8192 then th.delta - Asr(th.delta, 4 - lm)
      else Min(0, th.delta + Asr(n * 8, 5 - lm))
    else th.delta
  }

  function MidBits(b: int, delta: int): int { Max(0, Min(b, TruncDiv(b - delta, 2))) }

  /** What the second half gets on top of its share when the first half spent `spent` of `share`. */
  function Grant(share: int, spent: int, blocked: bool): int {
    if share - spent > SLACK && !blocked then share - spent - SLACK else 0
  }

  /** `pulses2bits`: coding nothing costs nothing. */
  function Cost(c: seq<nat>, q: nat): nat
    requires q < |c|
  {
    if q == 0 then 0 else c[q] + 1
  }

  function Bisect(c: seq<nat>, target: int, lo: nat, hi: nat, steps: nat): (r: (nat, nat))
    requires GoodRow(c) && lo <= hi <= c[0]
    ensures lo <= r.0 <= r.1 <= hi
    decreases steps
  {
    if steps == 0 then (lo, hi)
    else
      var mid := (lo + hi + 1) / 2;
      if c[mid] >= target then Bisect(c, target, lo, mid, steps - 1)
      else Bisect(c, target, mid, hi, steps - 1)
  }

  /** `bits2pulses`. */
  function Pick(c: seq<nat>, steps: nat, bits: int): (q: nat)
    requires GoodRow(c)
    ensures q <= c[0]
  {
    var (lo, hi) := Bisect(c, bits - 1, 0, c[0], steps);
    if bits - 1 - (if lo == 0 then -1 else c[lo]) <= c[hi] - (bits - 1) then lo else hi
  }

  /** Give up pulses while the budget is overdrawn. */
  function Shed(c: seq<nat>, q: nat, remaining: int): (r: (nat, int))
    requires q < |c|
    ensures r.0 <= q
    decreases q
  {
    if remaining < 0 && q > 0
    then Shed(c, q - 1, remaining + Cost(c, q) - Cost(c, q - 1))
    else (q, remaining)
  }

  /** What a call that does not split spends on pulses. */
  function LeafCost(c: seq<nat>, steps: nat, remaining: int, b: int): nat
    requires GoodRow(c)
  {
    var q := Pick(c, steps, b);
    Cost(c, Shed(c, q, remaining - Cost(c, q)).0)
  }

  ghost predicate IsLeafCost(spent: nat, c: seq<nat>, steps: nat, remaining: int, b: int)
    requires GoodRow(c)
  {
    forall w :: Look(w) ==> spent == LeafCost(c, steps, remaining, b)
  }

  predicate Splits(m: Tables, n: nat, b: int, lm: int)
    requires GoodTables(m) && -1 <= lm <= 3
  {
    lm != -1 && b > m.rows[lm + 1][m.rows[lm + 1][0]] + 12 && n > 2
  }

  /** Which half is coded first, mid or side, and with how many bits, what the other one starts from, and
      whether the angle rules out any rebalancing. */
  datatype Plan = Plan(midFirst: bool, first: int, second: int, blocked: bool)

  function PlanOf(th: Theta, n: nat, b: int, blocks: nat, lm: int): Plan
    requires 0 <= lm <= 3
  {
    var share := b - th.qalloc;
    var mid := MidBits(share, Adjust(th, n / 2, blocks, lm - 1));
    if mid >= share - mid then Plan(true, mid, share - mid, th.itheta == 0)
    else Plan(false, share - mid, mid, th.itheta == 16384)
  }

  ghost predicate IsPlan(p: Plan, th: Theta, n: nat, b: int, blocks: nat, lm: int)
    requires 0 <= lm <= 3
  {
    forall w :: Look(w) ==> p == PlanOf(th, n, b, blocks, lm)
  }

  /** How one call of `quant_partition` unfolded: the half coded first comes first. */
  datatype Call = Leaf(pulseBits: nat) | Split(th: Theta, plan: Plan, first: Call, second: Call)

  function ThetaBits(c: Call): nat {
    match c
    case Leaf(_) => 0
    case Split(th, _, first, second) => th.qalloc + ThetaBits(first) + ThetaBits(second)
  }

  function PulseBits(c: Call): nat {
    match c
    case Leaf(spent) => spent
    case Split(_, _, first, second) => PulseBits(first) + PulseBits(second)
  }

  function Spent(c: Call): nat { ThetaBits(c) + PulseBits(c) }

  function Angles(c: Call): nat {
    match c
    case Leaf(_) => 0
    case Split(_, _, first, second) => 1 + Angles(first) + Angles(second)
  }

  /** `c` is how a call with these arguments unfolds on a budget of `remaining`, for whatever angles the
      range coder carries. */
  ghost predicate Unfolds(m: Tables, remaining: int, n: nat, b: int, blocks: nat, lm: int, c: Call)
    requires GoodTables(m) && -1 <= lm <= 3
    decreases c
  {
    match c
    case Leaf(spent) =>
      !Splits(m, n, b, lm) && IsLeafCost(spent, m.rows[lm + 1], m.bisections, remaining, b)
    case Split(th, p, first, second) =>
      && Splits(m, n, b, lm) && IsPlan(p, th, n, b, blocks, lm)
      && var rem := remaining - th.qalloc;
         && Unfolds(m, rem, n / 2, p.first, (blocks + 1) / 2, lm - 1, first)
         && Unfolds(m, rem - Spent(first), n / 2, p.second + Grant(p.first, Spent(first), p.blocked),
                    (blocks + 1) / 2, lm - 1, second)
  }

  lemma {:induction false} ShedNeverBusts(c: seq<nat>, q: nat, remaining: int)
    requires q < |c|
    ensures var (q', r) := Shed(c, q, remaining);
            && r + Cost(c, q') == remaining + Cost(c, q)
            && r >= Min(remaining + Cost(c, q), 0)
            && (r < 0 ==> q' == 0)
            // one pulse more would be too many
            && (q' < q ==> remaining + Cost(c, q) - Cost(c, q' + 1) < 0)
    decreases q
  {
    if remaining < 0 && q > 0 {
      ShedNeverBusts(c, q - 1, remaining + Cost(c, q) - Cost(c, q - 1));
    }
  }

  /** No call overdraws the budget by more than the angles coded inside it: pulses alone never push it
      below zero. */
  lemma {:induction false} WithinBudget(m: Tables, remaining: int, n: nat, b: int, blocks: nat, lm: int, c: Call)
    requires GoodTables(m) && -1 <= lm <= 3 && Unfolds(m, remaining, n, b, blocks, lm, c)
    ensures remaining - Spent(c) >= Min(remaining, 0) - ThetaBits(c)
    decreases c
  {
    match c
    case Leaf(_) =>
      assert Look(0);
      var row := m.rows[lm + 1];
      var q := Pick(row, m.bisections, b);
      ShedNeverBusts(row, q, remaining - Cost(row, q));
    case Split(th, p, first, second) =>
      var rem := remaining - th.qalloc;
      WithinBudget(m, rem, n / 2, p.first, (blocks + 1) / 2, lm - 1, first);
      WithinBudget(m, rem - Spent(first), n / 2, p.second + Grant(p.first, Spent(first), p.blocked),
                   (blocks + 1) / 2, lm - 1, second);
  }

  /** A split hands out exactly its share. The half that goes first never gets less than the other, and
      rebalancing gives the other one at most what the first left unspent: together they are never
      granted more than the share, unless the first half overspent its own part. */
  lemma SplitIsFair(th: Theta, n: nat, b: int, blocks: nat, lm: int, spent: int)
    requires 0 <= lm <= 3
    ensures var p := PlanOf(th, n, b, blocks, lm);
            var share, grant := b - th.qalloc, Grant(p.first, spent, p.blocked);
            && p.first + p.second == share
            && p.second <= p.first
            && (share >= 0 ==> 0 <= p.second)
            && 0 <= grant <= Max(p.first - spent, 0)
            && spent + p.second + grant <= Max(share, spent + p.second)
            && (spent <= p.first ==> spent + p.second + grant <= share)
            // all but the slack of what the first half left goes to the second, unless the angle forbids it
            && (!p.blocked && p.first - spent >= SLACK ==> spent + p.second + grant == share - SLACK)
  {
  }

  /** The bits follow the angle: the side gets as many more than the mid as the corrected delta asks for, up to one for
      rounding and as far as the share goes. The larger half goes first, and an angle at its own end keeps the other
      half from getting what it leaves. */
  lemma SplitFollowsAngle(th: Theta, n: nat, b: int, blocks: nat, lm: int)
    requires 0 <= lm <= 3
    ensures var p, share, d := PlanOf(th, n, b, blocks, lm), b - th.qalloc, Adjust(th, n / 2, blocks, lm - 1);
            var mid, side := if p.midFirst then p.first else p.second, if p.midFirst then p.second else p.first;
            && mid + side == share
            && (-share <= d <= share ==> 0 <= (side - mid) - d <= 1)
            && (share >= 0 && d <= -share ==> mid == share)
            && (share >= 0 && d >= share ==> mid == 0)
            && (share < 0 ==> mid == 0)
            && (p.midFirst <==> mid >= side)
            && (p.blocked <==> th.itheta == if p.midFirst then 0 else 16384)
  {
  }

  lemma {:induction false} AsrIsFloor(a: int, k: nat)
    ensures Asr(a, k) == a / Pow2(k)
    decreases k
  {
    if k == 0 {
      assert Pow2(0) == 1;
    } else {
      AsrIsFloor(a / 2, k - 1);
      var p := Pow2(k - 1);
      var q, r := (a / 2) / p, (a / 2) % p;
      assert a / 2 == q * p + r;
      assert a == q * (2 * p) + (2 * r + a % 2);
      DivUnique(a, 2 * p, q, 2 * r + a % 2);
    }
  }

  /** The correction applies to short blocks and to angles strictly inside. Past the middle it takes a 2^(4-lm)-th off
      a positive delta, and so at most half of it. Up to the middle it moves a negative delta towards 0, by a
      2^(5-lm)-th of a bit per sample, and never past it. */
  lemma AdjustIsGentle(th: Theta, n: nat, blocks: nat, lm: int)
    requires -1 <= lm <= 3
    ensures var d := Adjust(th, n, blocks, lm);
            if blocks <= 1 || th.itheta % 16384 == 0 then d == th.delta
            else if th.itheta > 8192 then
              && d == th.delta - th.delta / Pow2(4 - lm)
              && (th.delta >= 0 ==> th.delta <= 2 * d && d <= th.delta)
            else
              && Min(th.delta, 0) <= d <= 0
              && (d < 0 ==> d == th.delta + n * 8 / Pow2(5 - lm))
              && (th.delta + n * 8 / Pow2(5 - lm) < 0 ==> d < 0)
  {
    AsrIsFloor(th.delta, 4 - lm);
    AsrIsFloor(n * 8, 5 - lm);
    AsrNonNegative(n * 8, 5 - lm);
    if th.delta >= 0 { HalfAtMost(th.delta, Pow2(4 - lm), Pow2(3 - lm)); }
  }

  lemma HalfAtMost(a: nat, p: nat, h: nat)
    requires p == 2 * h && h > 0
    ensures 0 <= 2 * (a / p) <= a
  {
    var q := a / p;
    DivBelow(a, p, 0);
    assert a == q * p + a % p;
    MulMono(2, p, q);
  }

  /** LM bounds the depth of the recursion, so at most 2^(LM+1) - 1 angles are coded. */
  lemma {:induction false} SplitsAreBounded(m: Tables, remaining: int, n: nat, b: int, blocks: nat, lm: int, c: Call)
    requires GoodTables(m) && -1 <= lm <= 3 && Unfolds(m, remaining, n, b, blocks, lm, c)
    ensures Angles(c) <= Pow2(lm + 1) - 1
    decreases c
  {
    match c
    case Leaf(_) =>
    case Split(th, p, first, second) =>
      var rem := remaining - th.qalloc;
      SplitsAreBounded(m, rem, n / 2, p.first, (blocks + 1) / 2, lm - 1, first);
      SplitsAreBounded(m, rem - Spent(first), n / 2, p.second + Grant(p.first, Spent(first), p.blocked),
                       (blocks + 1) / 2, lm - 1, second);
      assert Pow2(lm + 1) == 2 * Pow2(lm);
  }

  /** `top` bits are enough to split at any level. */
  predicate Affords(m: Tables, top: nat)
    requires GoodTables(m)
  {
    forall k :: 0 <= k < 5 ==> m.rows[k][m.rows[k][0]] + 12 < top
  }

  /** `top` bits for each call at the bottom, and `cost` bits for each angle above. */
  function Enough(top: nat, cost: nat, lm: int): (bits: nat)
    requires lm >= -1
    ensures bits >= top
  {
    if lm == -1 then top else 2 * Enough(top, cost, lm - 1) + cost
  }

  predicate Ample(top: nat, cost: nat, n: nat, b: int, lm: int)
    requires lm >= -1
  {
    b >= Enough(top, cost, lm) && (lm >= 0 ==> n >= 3 * Pow2(lm))
  }

  /** The bound is reached by a band that is long and rich enough, on any tables and whatever an angle costs. */
  lemma {:induction false} BoundIsReached(m: Tables, top: nat, cost: nat, remaining: int, n: nat, b: int, blocks: nat,
                                          lm: int)
    returns (c: Call)
    requires GoodTables(m) && Affords(m, top) && -1 <= lm <= 3 && Ample(top, cost, n, b, lm)
    ensures Unfolds(m, remaining, n, b, blocks, lm, c) && Angles(c) == Pow2(lm + 1) - 1
    decreases lm + 1
  {
    if lm == -1 {
      c := Deepest(m, remaining, n, b, blocks);
    } else {
      var p := HalvesAmple(m, top, cost, n, b, blocks, lm);
      var rem := remaining - Even(cost).qalloc;
      var first := BoundIsReached(m, top, cost, rem, n / 2, p.first, (blocks + 1) / 2, lm - 1);
      var rest := p.second + Grant(p.first, Spent(first), p.blocked);
      var second := BoundIsReached(m, top, cost, rem - Spent(first), n / 2, rest, (blocks + 1) / 2, lm - 1);
      c := Split(Even(cost), p, first, second);
    }
  }

  lemma {:induction false} Deepest(m: Tables, remaining: int, n: nat, b: int, blocks: nat) returns (c: Call)
    requires GoodTables(m)
    ensures c.Leaf? && Unfolds(m, remaining, n, b, blocks, -1, c)
  {
    c := Leaf(LeafCost(m.rows[0], m.bisections, remaining, b));
  }

  /** The middle angle: an eighth of a turn, which tilts nothing. */
  function Even(cost: nat): Theta { Theta(cost, 8192, 0) }

  lemma {:induction false} AsrNonNegative(a: int, k: nat)
    requires a >= 0
    ensures Asr(a, k) >= 0
    decreases k
  {
    if k > 0 { AsrNonNegative(a / 2, k - 1); }
  }

  lemma HalvesAmple(m: Tables, top: nat, cost: nat, n: nat, b: int, blocks: nat, lm: nat) returns (p: Plan)
    requires GoodTables(m) && Affords(m, top) && lm <= 3 && Ample(top, cost, n, b, lm)
    ensures Splits(m, n, b, lm) && IsPlan(p, Even(cost), n, b, blocks, lm)
    ensures Ample(top, cost, n / 2, p.first, lm - 1) && Ample(top, cost, n / 2, p.second, lm - 1)
  {
    AsrNonNegative(n / 2 * 8, 6 - lm);
    p := PlanOf(Even(cost), n, b, blocks, lm);
    assert MidBits(b - cost, 0) == (b - cost) / 2;
  }

  // ---------------------------------------------------------------- the pulse search

  function Abs(a: int): nat { if a < 0 then -a else a }

  predicate SortedRow(c: seq<nat>)
    requires GoodRow(c)
  {
    forall i, j :: 1 <= i <= j <= c[0] ==> c[i] <= c[j]
  }

  lemma {:induction false} BisectBrackets(c: seq<nat>, target: int, lo: nat, hi: nat, steps: nat)
    requires GoodRow(c) && lo <= hi <= c[0] && hi - lo <= Pow2(steps)
    requires lo == 0 || c[lo] < target
    requires hi == c[0] || c[hi] >= target
    ensures var (l, h) := Bisect(c, target, lo, hi, steps);
            h - l <= 1 && (hi > 0 ==> h > 0) && (l == 0 || c[l] < target) && (h == c[0] || c[h] >= target)
    decreases steps
  {
    if steps > 0 {
      var mid := (lo + hi + 1) / 2;
      if c[mid] >= target { BisectBrackets(c, target, lo, mid, steps - 1); }
      else { BisectBrackets(c, target, mid, hi, steps - 1); }
    }
  }

  /** A band is split exactly if it is long enough, may be, and every pulse count leaves more than 11 eighths of a bit
      unused. */
  lemma SplitsWhenPulsesRunOut(m: Tables, n: nat, b: int, lm: int)
    requires GoodTables(m) && -1 <= lm <= 3 && SortedRow(m.rows[lm + 1]) && m.rows[lm + 1][0] > 0
    ensures var row := m.rows[lm + 1];
            Splits(m, n, b, lm) <==>
            lm >= 0 && n >= 3 && forall q :: 1 <= q <= row[0] ==> b - Cost(row, q) > 11
  {
    var row := m.rows[lm + 1];
    if b - Cost(row, row[0]) > 11 {
      forall q | 1 <= q <= row[0] ensures b - Cost(row, q) > 11 {
        assert row[q] <= row[row[0]];
      }
    }
  }

  /** On a sorted row of at most 2^steps entries, the search finds the pulse count whose cost is nearest
      to the budget. */
  lemma PickIsNearest(c: seq<nat>, steps: nat, bits: int, q: nat)
    requires GoodRow(c) && SortedRow(c) && c[0] <= Pow2(steps) && q <= c[0]
    ensures Abs(Cost(c, Pick(c, steps, bits)) - bits) <= Abs(Cost(c, q) - bits)
    // of two that are equally near the cheaper one
    ensures Abs(Cost(c, Pick(c, steps, bits)) - bits) == Abs(Cost(c, q) - bits) ==>
              Cost(c, Pick(c, steps, bits)) <= Cost(c, q)
  {
    BisectBrackets(c, bits - 1, 0, c[0], steps);
    var (lo, hi) := Bisect(c, bits - 1, 0, c[0], steps);
    assert 0 < q <= lo ==> c[q] <= c[lo];
    assert 0 < hi <= q ==> c[hi] <= c[q];
  }

  /** `struct band_ctx`: the running budget shared by all recursive calls of a band, and the angles the
      range coder is going to carry. */
  class BandCtx {
    var remainingBits: int
    var angles: seq<Theta>

    constructor (remainingBits: int, angles: seq<Theta>)
      ensures this.remainingBits == remainingBits && this.angles == angles
    {
      this.remainingBits := remainingBits;
      this.angles := angles;
    }

    /** `compute_theta`, as far as the budget can tell. */
    method ComputeTheta() returns (th: Theta)
      modifies this
      ensures remainingBits == old(remainingBits)
      ensures if old(angles) == [] then angles == [] else th == old(angles[0]) && angles == old(angles[1..])
    {
      if angles == [] {
        return Theta(0, 0, -16384);
      }
      th := angles[0];
      angles := angles[1..];
    }

    method QuantPartition(m: Tables, n: nat, b: int, blocks: nat, lm: int) returns (ghost c: Call)
      requires GoodTables(m) && -1 <= lm <= 3
      modifies this
      ensures Unfolds(m, old(remainingBits), n, b, blocks, lm, c)
      ensures remainingBits == old(remainingBits) - Spent(c)
      decreases lm + 1, 1
    {
      var cache := m.rows[lm + 1];
      if lm != -1 && b > cache[cache[0]] + 12 && n > 2 {
        c := QuantSplit(m, n, b, blocks, lm);
      } else {
        c := QuantLeaf(cache, m.bisections, b);
      }
    }

    method QuantSplit(m: Tables, n: nat, b: int, blocks: nat, lm: nat) returns (ghost c: Call)
      requires GoodTables(m) && lm <= 3 && b > m.rows[lm + 1][m.rows[lm + 1][0]] + 12 && n > 2
      modifies this
      ensures Unfolds(m, old(remainingBits), n, b, blocks, lm, c)
      ensures remainingBits == old(remainingBits) - Spent(c)
      decreases lm + 1, 0
    {
      var th := ComputeTheta();
      remainingBits := remainingBits - th.qalloc;
      var plan := PlanOf(th, n, b, blocks, lm);
      ghost var first, second := QuantHalves(m, n / 2, plan, (blocks + 1) / 2, lm - 1);
      c := Split(th, plan, first, second);
    }

    /** Code one half, hand what it left beyond the slack to the other one, and code that. */
    method QuantHalves(m: Tables, n: nat, p: Plan, blocks: nat, lm: int)
      returns (ghost first: Call, ghost second: Call)
      requires GoodTables(m) && -1 <= lm <= 2
      modifies this
      ensures Unfolds(m, old(remainingBits), n, p.first, blocks, lm, first)
      ensures Unfolds(m, old(remainingBits) - Spent(first), n,
                      p.second + Grant(p.first, Spent(first), p.blocked), blocks, lm, second)
      ensures remainingBits == old(remainingBits) - Spent(first) - Spent(second)
      decreases lm + 1, 2
    {
      var rebalance := remainingBits;
      first := QuantPartition(m, n, p.first, blocks, lm);
      assert remainingBits == old(remainingBits) - Spent(first);
      var rest := Rebalance(p, rebalance - remainingBits);
      assert rest == p.second + Grant(p.first, Spent(first), p.blocked);
      second := QuantPartition(m, n, rest, blocks, lm);
    }

    /** What the second half may spend once the first has spent `spent`. */
    method Rebalance(p: Plan, spent: int) returns (rest: int)
      ensures rest == p.second + Grant(p.first, spent, p.blocked)
    {
      var rebalance := p.first - spent;
      rest := p.second;
      if rebalance > SLACK && !p.blocked {
        rest := rest + rebalance - SLACK;
      }
    }

    /** The no-split case: pulses are given up until the budget is no longer overdrawn. */
    method QuantLeaf(cache: seq<nat>, steps: nat, b: int) returns (ghost c: Call)
      requires GoodRow(cache)
      modifies this
      ensures c == Leaf(LeafCost(cache, steps, old(remainingBits), b))
      ensures remainingBits == old(remainingBits) - Spent(c)
    {
      var q := Pick(cache, steps, b);
      remainingBits := remainingBits - Cost(cache, q);
      ghost var q0 := q;
      while remainingBits < 0 && q > 0
        invariant q <= q0 && remainingBits == old(remainingBits) - Cost(cache, q)
        invariant Shed(cache, q, remainingBits) == Shed(cache, q0, old(remainingBits) - Cost(cache, q0))
        decreases q
      {
        remainingBits := remainingBits + Cost(cache, q);
        q := q - 1;
        remainingBits := remainingBits - Cost(cache, q);
      }
      c := Leaf(Cost(cache, q));
    }
  }
}
