/**
 The adaptive transfer profile: how large and how many chunks to send, kept within the chunk, parallel
 and memory limits while it reacts to what was observed. Rates are real numbers.
 */
module Adaptive {
  import opened Numbers

  const MIB: int := 1024 * 1024
  const DEFAULT_MIN: int := 1 * MIB
  const DEFAULT_MAX: int := 32 * MIB
  const MILLISECOND: int := 1000000

  datatype Limits = Limits(minChunk: int, maxChunk: int, maxParallel: int, memoryBudget: int)

  datatype Profile = Profile(chunkSize: int, parallel: int)

  datatype Observation = Observation(
    rtt: int, throughput: real, retryRate: real, checksumFailureRate: real,
    backpressure: bool, storagePressure: bool, thermalPressure: bool, lowBattery: bool, background: bool)

  function Normalized(l: Limits): Limits {
    var min := if l.minChunk <= 0 then DEFAULT_MIN else l.minChunk;
    Limits(
      min,
      if l.maxChunk < min then DEFAULT_MAX else l.maxChunk,
      if l.maxParallel < 1 then 1 else l.maxParallel,
      if l.memoryBudget < min * 2 then min * 2 else l.memoryBudget)
  }

  predicate Proper(l: Limits) {
    l.minChunk > 0 && l.maxParallel >= 1 && l.memoryBudget >= l.minChunk * 2 && l.maxChunk > 0
  }

  lemma NormalizedIsProper(given: Limits)
    ensures Proper(Normalized(given)) && Normalized(Normalized(given)) == Normalized(given)
  {
  }

  // ---- fitting the memory budget ----

  predicate Exceeds(chunk: int, p: int, budget: int) {
    chunk * p > budget
  }

  // The largest number of chunks of this size, at most p, that fit; one if none does.
  function FitParallel(chunk: int, p: int, budget: int): (r: int)
    requires p >= 1
    ensures 1 <= r <= p
    decreases p
  {
    if Exceeds(chunk, p, budget) && p > 1 then FitParallel(chunk, p - 1, budget) else p
  }

  // Halved until it fits or reaches the minimum.
  function FitChunk(chunk: int, p: int, l: Limits): (r: int)
    requires l.minChunk > 0
    ensures r <= Max(chunk, l.minChunk) && (chunk >= l.minChunk ==> r >= l.minChunk)
    decreases chunk
  {
    if Exceeds(chunk, p, l.memoryBudget) && chunk > l.minChunk then FitChunk(Max(l.minChunk, chunk / 2), p,
        l) else chunk
  }

  function Clamped(p: Profile, l: Limits): Profile {
    Profile(Max(l.minChunk, Min(l.maxChunk, p.chunkSize)), Max(1, Min(l.maxParallel, p.parallel)))
  }

  function BoundedProfile(p: Profile, l: Limits): Profile
    requires Proper(l)
  {
    var clamped := Clamped(p, l);
    var parallel := FitParallel(clamped.chunkSize, clamped.parallel, l.memoryBudget);
    Profile(FitChunk(clamped.chunkSize, parallel, l), parallel)
  }

  lemma FitParallelStep(chunk: int, p: int, budget: int)
    requires p >= 1
    ensures FitParallel(chunk, p, budget) == if Exceeds(chunk, p, budget) && p > 1 then FitParallel(chunk, p - 1,
        budget) else p
  {
  }

  lemma FitChunkStep(chunk: int, p: int, l: Limits)
    requires l.minChunk > 0
    ensures FitChunk(chunk, p, l)
         == if Exceeds(chunk, p, l.memoryBudget) && chunk > l.minChunk then FitChunk(Max(l.minChunk, chunk / 2), p, l)
            else chunk
  {
  }

  method Bounded(p: Profile, l: Limits) returns (r: Profile)
    requires Proper(l)
    ensures r == BoundedProfile(p, l)
  {
    hide FitParallel, FitChunk, Exceeds;
    var chunk := Max(l.minChunk, Min(l.maxChunk, p.chunkSize));
    var parallel := Max(1, Min(l.maxParallel, p.parallel));
    var clamped := Clamped(p, l);
    while Exceeds(chunk, parallel, l.memoryBudget) && parallel > 1
      invariant 1 <= parallel
      invariant FitParallel(chunk, parallel, l.memoryBudget)
             == FitParallel(clamped.chunkSize, clamped.parallel, l.memoryBudget)
    {
      FitParallelStep(chunk, parallel, l.memoryBudget);
      parallel := parallel - 1;
    }
    FitParallelStep(chunk, parallel, l.memoryBudget);
    while Exceeds(chunk, parallel, l.memoryBudget) && chunk > l.minChunk
      invariant FitChunk(chunk, parallel, l) == FitChunk(clamped.chunkSize, parallel, l)
      decreases chunk
    {
      FitChunkStep(chunk, parallel, l);
      chunk := Max(l.minChunk, chunk / 2);
    }
    FitChunkStep(chunk, parallel, l);
    return Profile(chunk, parallel);
  }

  // Chunk, parallel and memory limits. The chunk bound is the larger limit, because a minimum above
  // the default maximum survives normalising.
  predicate InBounds(p: Profile, l: Limits) {
    && l.minChunk <= p.chunkSize <= Max(l.minChunk, l.maxChunk)
    && 1 <= p.parallel <= l.maxParallel
    && p.chunkSize * p.parallel <= l.memoryBudget
  }

  lemma {:induction false} FitParallelIsLargest(chunk: int, p: int, budget: int)
    requires p >= 1 && chunk > 0
    ensures var r := FitParallel(chunk, p, budget);
      && (chunk * r <= budget || r == 1)
      && forall q :: r < q <= p ==> chunk * q > budget
    decreases p
  {
    if chunk * p > budget && p > 1 {
      FitParallelIsLargest(chunk, p - 1, budget);
    }
  }

  lemma {:induction false} FitChunkFits(chunk: int, p: int, l: Limits)
    requires Proper(l) && chunk >= l.minChunk && p >= 1
    requires p == 1 || chunk * p <= l.memoryBudget
    ensures FitChunk(chunk, p, l) * p <= l.memoryBudget
    decreases chunk
  {
    if chunk * p > l.memoryBudget && chunk > l.minChunk {
      FitChunkFits(Max(l.minChunk, chunk / 2), p, l);
    }
  }

  lemma BoundedIsInBounds(p: Profile, l: Limits)
    requires Proper(l)
    ensures InBounds(BoundedProfile(p, l), l)
  {
    var clamped := Clamped(p, l);
    FitParallelIsLargest(clamped.chunkSize, clamped.parallel, l.memoryBudget);
    FitChunkFits(clamped.chunkSize, FitParallel(clamped.chunkSize, clamped.parallel, l.memoryBudget), l);
  }

  // A profile already in bounds is left alone.
  lemma InBoundsIsKept(p: Profile, l: Limits)
    requires Proper(l) && InBounds(p, l)
    ensures BoundedProfile(p, l) == p
  {
  }

  // ---- the recommendation ----

  function InitialProfile(given: Limits): Profile {
    var l := Normalized(given);
    NormalizedIsProper(given);
    BoundedProfile(Profile(Max(l.minChunk, 4 * MIB), Min(2, l.maxParallel)), l)
  }

  predicate Unstable(o: Observation) {
    o.rtt >= 250 * MILLISECOND || o.retryRate >= 0.05 || o.checksumFailureRate > 0.0
  }

  predicate Constrained(o: Observation) {
    o.backpressure || o.storagePressure || o.thermalPressure || o.lowBattery || o.background
  }

  function Adjusted(p: Profile, l: Limits, o: Observation): Profile {
    if Unstable(o) then Profile(Max(l.minChunk, p.chunkSize / 2), Max(1, p.parallel - 1))
    else if Constrained(o) then Profile(Max(l.minChunk, Min(p.chunkSize, 4 * MIB)), 1)
    else if o.rtt <= 30 * MILLISECOND && o.throughput >= (50 * MIB) as real && o.retryRate < 0.01
    then Profile(Min(l.maxChunk, p.chunkSize * 2), Min(l.maxParallel, p.parallel + 1))
    else if o.rtt <= 120 * MILLISECOND && o.throughput >= (8 * MIB) as real && o.retryRate < 0.02
    then p.(chunkSize := Min(l.maxChunk, Max(p.chunkSize, 8 * MIB)))
    else p
  }

  predicate SmallFile(fileSize: int, l: Limits) {
    0 < fileSize <= 4 * l.minChunk
  }

  // The profile as the switch and the small-file rule leave it, before it is bounded.
  function Sized(fileSize: int, current: Profile, l: Limits, o: Observation): Profile {
    var start := if current.chunkSize <= 0 || current.parallel <= 0 then InitialProfile(l) else current;
    var adjusted := Adjusted(start, l, o);
    if SmallFile(fileSize, l)
    then Profile(Min(adjusted.chunkSize, Max(l.minChunk, fileSize)), 1) else adjusted
  }

  function Recommended(fileSize: int, current: Profile, given: Limits, o: Observation): Profile {
    var l := Normalized(given);
    NormalizedIsProper(given);
    BoundedProfile(Sized(fileSize, current, l, o), l)
  }

  method Recommend(fileSize: int, given: Profile, raw: Limits, o: Observation) returns (r: Profile)
    ensures r == Recommended(fileSize, given, raw, o)
  {
    NormalizedIsProper(raw);
    var limits, current := Normalized(raw), given;
    if current.chunkSize <= 0 || current.parallel <= 0 {
      current := Bounded(Profile(Max(limits.minChunk, 4 * MIB), Min(2, limits.maxParallel)), limits);
    }
    var chunk, parallel := current.chunkSize, current.parallel;
    if Unstable(o) {
      chunk := Max(limits.minChunk, chunk / 2);
      parallel := Max(1, parallel - 1);
    } else if Constrained(o) {
      chunk := Max(limits.minChunk, Min(chunk, 4 * MIB));
      parallel := 1;
    } else if o.rtt <= 30 * MILLISECOND && o.throughput >= (50 * MIB) as real && o.retryRate < 0.01 {
      chunk := Min(limits.maxChunk, chunk * 2);
      parallel := Min(limits.maxParallel, parallel + 1);
    } else if o.rtt <= 120 * MILLISECOND && o.throughput >= (8 * MIB) as real && o.retryRate < 0.02 {
      chunk := Min(limits.maxChunk, Max(chunk, 8 * MIB));
    }
    if fileSize > 0 && fileSize <= 4 * limits.minChunk {
      parallel := 1;
      chunk := Min(chunk, Max(limits.minChunk, fileSize));
    }
    r := Bounded(Profile(chunk, parallel), limits);
  }

  // Whatever the limits, the profile and the observation, the answer is in bounds.
  lemma RecommendationIsInBounds(fileSize: int, current: Profile, given: Limits, o: Observation)
    ensures var r, l := Recommended(fileSize, current, given, o), Normalized(given);
      && InBounds(r, l)
      && (SmallFile(fileSize, l) ==> r.parallel == 1 && r.chunkSize <= Max(l.minChunk, fileSize))
  {
    NormalizedIsProper(given);
    var l := Normalized(given);
    var start := if current.chunkSize <= 0 || current.parallel <= 0 then InitialProfile(l) else current;
    var adjusted := Adjusted(start, l, o);
    BoundedIsInBounds(adjusted, l);
    BoundedIsInBounds(Profile(Min(adjusted.chunkSize, Max(l.minChunk, fileSize)), 1), l);
  }

  // The chunk is within the maximum for every input exactly when normalising left the limits in order,
  // which fails only for a minimum above the default maximum with a maximum below it.
  lemma ChunkWithinMaximumIff(given: Limits)
    ensures (forall f, p, o :: Recommended(f, p, given, o).chunkSize <= Normalized(given).maxChunk)
      <==> Normalized(given).minChunk <= Normalized(given).maxChunk
    ensures Normalized(given).minChunk > Normalized(given).maxChunk <==>
      given.minChunk > DEFAULT_MAX && given.maxChunk < given.minChunk
  {
    hide BoundedProfile, Adjusted, InitialProfile, Recommended;
    forall f, p, o
      ensures InBounds(Recommended(f, p, given, o), Normalized(given))
    {
      RecommendationIsInBounds(f, p, given, o);
    }
    if Normalized(given).minChunk > Normalized(given).maxChunk {
      var o := Observation(0, 0.0, 0.0, 0.0, false, false, false, false, false);
      assert InBounds(Recommended(0, Profile(1, 1), given, o), Normalized(given));
    }
  }

  // ---- repeated observations ----

  function AfterAll(fileSize: int, p: Profile, given: Limits, observations: seq<Observation>): Profile {
    if observations == [] then p
    else
      var before := AfterAll(fileSize, p, given, observations[..|observations| - 1]);
      Recommended(fileSize, before, given, observations[|observations| - 1])
  }

  lemma QuotientInterval(a: int, b: int)
    requires b > 0
    ensures (a / b) * b <= a < (a / b) * b + b
  {
    assert a == (a / b) * b + a % b;
  }

  lemma Twice(t: int, half: int, power: int)
    requires half == 0 || half == 1
    ensures (2 * t + half) * power == t * (2 * power) + (if half == 1 then power else 0)
    ensures (t + 1) * (2 * power) == t * (2 * power) + 2 * power
  {
  }

  lemma QuotientOfQuotient(a: int, power: int)
    requires power >= 1
    ensures a / power / 2 == a / (2 * power)
  {
    var q := a / power;
    QuotientInterval(a, power);
    Twice(q / 2, q % 2, power);
    QuotientInterval(a, 2 * power);
    Twice(a / (2 * power), 0, power);
    SameQuotient(a, 2 * power, q / 2, a / (2 * power));
  }

  lemma HalvingCommutes(chunk: int, k: nat, min: int)
    requires min > 0
    ensures Max(min, Max(min, chunk / Power2(k)) / 2) == Max(min, chunk / Power2(k + 1))
  {
    QuotientOfQuotient(chunk, Power2(k));
  }

  lemma SameQuotient(a: int, b: int, q: int, r: int)
    requires b > 0 && q * b <= a < (q + 1) * b && r * b <= a < (r + 1) * b
    ensures q == r
  {
    MulMonotone(q + 1, r, b);
    MulMonotone(r + 1, q, b);
  }

  lemma UnstableStep(fileSize: int, p: Profile, given: Limits, o: Observation)
    requires InBounds(p, Normalized(given)) && !SmallFile(fileSize, Normalized(given)) && Unstable(o)
    ensures var l := Normalized(given);
      var r := Profile(Max(l.minChunk, p.chunkSize / 2), Max(1, p.parallel - 1));
      Recommended(fileSize, p, given, o) == r && InBounds(r, l)
  {
    NormalizedIsProper(given);
    var l := Normalized(given);
    var r := Profile(Max(l.minChunk, p.chunkSize / 2), Max(1, p.parallel - 1));
    assert r.chunkSize * r.parallel <= p.chunkSize * p.parallel by {
      ProductMonotone(r.chunkSize, p.chunkSize, r.parallel, p.parallel);
    }
    InBoundsIsKept(r, l);
  }

  lemma ProductMonotone(a: int, b: int, c: int, d: int)
    requires 0 <= a <= b && 0 <= c <= d
    ensures a * c <= b * d
  {
    assert a * c <= b * c;
    assert b * c <= b * d;
  }

  lemma InBoundsFacts(p: Profile, l: Limits)
    requires InBounds(p, l)
    ensures l.minChunk <= p.chunkSize && 1 <= p.parallel <= l.maxParallel
  {
  }

  // k unstable observations halve the chunk k times and take k from the parallel count, no lower than
  // the minimum and one.
  lemma {:induction false} UnstableHalvesExactly(fileSize: int, p: Profile, given: Limits,
      observations: seq<Observation>)
    requires InBounds(p, Normalized(given)) && !SmallFile(fileSize, Normalized(given))
    requires forall i :: 0 <= i < |observations| ==> Unstable(observations[i])
    ensures var k, l := |observations|, Normalized(given);
      && AfterAll(fileSize, p, given, observations)
        == Profile(Max(l.minChunk, p.chunkSize / Power2(k)), Max(1, p.parallel - k))
      && InBounds(AfterAll(fileSize, p, given, observations), l)
  {
    hide Recommended, BoundedProfile, Adjusted, InBounds;
    var k, l := |observations|, Normalized(given);
    if k == 0 {
      assert p.chunkSize / Power2(0) == p.chunkSize;
      NormalizedIsProper(given);
      InBoundsFacts(p, l);
    } else {
      hide Power2;
      UnstableHalvesExactly(fileSize, p, given, observations[..k - 1]);
      var before := AfterAll(fileSize, p, given, observations[..k - 1]);
      UnstableStep(fileSize, before, given, observations[k - 1]);
      NormalizedIsProper(given);
      HalvingCommutes(p.chunkSize, k - 1, l.minChunk);
    }
  }

  // So the floor is reached once the chunk has been halved below the minimum and the parallel count
  // used up, from any recommended profile.
  lemma UnstableReachesTheFloor(fileSize: int, current: Profile, given: Limits, o: Observation,
      observations: seq<Observation>)
    requires var l, p := Normalized(given), Recommended(fileSize, current, given, o);
      && !SmallFile(fileSize, l)
      && p.chunkSize < (l.minChunk + 1) * Power2(|observations|) && p.parallel <= |observations| + 1
    requires forall i :: 0 <= i < |observations| ==> Unstable(observations[i])
    ensures AfterAll(fileSize, Recommended(fileSize, current, given, o), given, observations)
         == Profile(Normalized(given).minChunk, 1)
  {
    hide Recommended, AfterAll;
    var l, p := Normalized(given), Recommended(fileSize, current, given, o);
    RecommendationIsInBounds(fileSize, current, given, o);
    UnstableHalvesExactly(fileSize, p, given, observations);
    QuotientBelow(p.chunkSize, Power2(|observations|), l.minChunk);
  }

  lemma QuotientBelow(a: int, b: int, c: int)
    requires b >= 1 && a < (c + 1) * b
    ensures a / b <= c
  {
    MulMonotone(c + 1, a / b, b);
  }

  // ---- 64-bit range ----

  // Limits and profiles of this size keep every product of the code within 64 bits: the doubled chunk,
  // the four-fold minimum, and the memory product of the profile as Recommend has adjusted it.
  lemma ProductsFit(fileSize: int, p: Profile, given: Limits, o: Observation)
    requires 0 <= p.chunkSize < INT64_MAX / 2 && 0 <= p.parallel < 0x7fff_ffff
    requires given.minChunk <= 0x100_0000_0000 && given.maxChunk <= 0x100_0000_0000
    requires given.maxParallel <= 0x10_0000 && given.memoryBudget <= INT64_MAX
    ensures var l := Normalized(given);
      var clamped := Clamped(Sized(fileSize, p, l, o), l);
      && l.minChunk * 2 <= INT64_MAX && 4 * l.minChunk <= INT64_MAX && l.memoryBudget <= INT64_MAX
      && p.chunkSize * 2 <= INT64_MAX && p.parallel + 1 <= 0x7fff_ffff
      && forall chunk, parallel :: 0 <= chunk <= clamped.chunkSize && 0 <= parallel <= clamped.parallel ==>
        0 <= chunk * parallel <= INT64_MAX
  {
    var l := Normalized(given);
    var clamped := Clamped(Sized(fileSize, p, l, o), l);
    ClampedIsSmall(Sized(fileSize, p, l, o), l);
    forall chunk, parallel | 0 <= chunk <= clamped.chunkSize && 0 <= parallel <= clamped.parallel
      ensures 0 <= chunk * parallel <= INT64_MAX
    {
      ProductMonotone(chunk, 0x100_0000_0000, parallel, 0x10_0000);
      ProductMonotone(0, chunk, 0, parallel);
    }
  }

  lemma ClampedIsSmall(p: Profile, l: Limits)
    requires 0 < l.minChunk <= 0x100_0000_0000 && l.maxChunk <= 0x100_0000_0000 && 1 <= l.maxParallel <= 0x10_0000
    ensures 0 < Clamped(p, l).chunkSize <= 0x100_0000_0000 && 1 <= Clamped(p, l).parallel <= 0x10_0000
  {
  }

  // ---- how each observation moves the profile ----

  predicate Troubled(o: Observation) {
    o.rtt >= 250_000_000 || o.retryRate >= 0.05 || o.checksumFailureRate > 0.0
  }

  predicate Pressed(o: Observation) {
    o.backpressure || o.storagePressure || o.thermalPressure || o.lowBattery || o.background
  }

  predicate Fast(o: Observation) {
    o.rtt <= 30_000_000 && o.throughput >= 52_428_800.0 && o.retryRate < 0.01
  }

  predicate Fair(o: Observation) {
    o.rtt <= 120_000_000 && o.throughput >= 8_388_608.0 && o.retryRate < 0.02
  }

  // What an observation asks for, before the limits: trouble halves the chunk and takes one from the
  // parallel count, pressure leaves one chunk of at most 4 MiB, a fast link doubles the chunk and adds
  // one, a fair one raises the chunk to 8 MiB, and anything else changes nothing.
  function Wanted(p: Profile, l: Limits, o: Observation): Profile {
    if Troubled(o) then Profile(p.chunkSize / 2, p.parallel - 1)
    else if Pressed(o) then Profile(Min(p.chunkSize, 4_194_304), 1)
    else if Fast(o) then Profile(p.chunkSize * 2, p.parallel + 1)
    else if Fair(o) then Profile(Max(p.chunkSize, 8_388_608), p.parallel)
    else p
  }

  predicate HalvedBy(chunk: int, r: Profile, l: Limits, k: nat) {
    && r.chunkSize == Max(l.minChunk, chunk / Power2(k))
    && (r.chunkSize * r.parallel <= l.memoryBudget || r.chunkSize == l.minChunk)
    && (k > 0 ==> Max(l.minChunk, chunk / Power2(k - 1)) * r.parallel > l.memoryBudget)
  }

  // Cut down to the chunk and parallel limits, then to as many chunks as memory holds, and only when
  // one is too large for it, to a chunk halved as often as it takes and not once more.
  ghost predicate CutDown(p: Profile, r: Profile, l: Limits) {
    var chunk, parallel := Max(l.minChunk, Min(l.maxChunk, p.chunkSize)), Max(1, Min(l.maxParallel, p.parallel));
    && 1 <= r.parallel <= parallel && (chunk * r.parallel <= l.memoryBudget || r.parallel == 1)
    && (forall q :: r.parallel < q <= parallel ==> chunk * q > l.memoryBudget)
    && exists k: nat :: HalvedBy(chunk, r, l, k)
  }

  lemma BoundedIsCutDown(p: Profile, l: Limits)
    requires Proper(l)
    ensures CutDown(p, BoundedProfile(p, l), l)
  {
    var clamped := Clamped(p, l);
    var parallel := FitParallel(clamped.chunkSize, clamped.parallel, l.memoryBudget);
    FitParallelIsLargest(clamped.chunkSize, clamped.parallel, l.memoryBudget);
    var k := HalvedAsNeeded(clamped.chunkSize, parallel, l);
    assert HalvedBy(clamped.chunkSize, BoundedProfile(p, l), l, k);
  }

  // For every profile to go on, every file and all limits: what the observation asks for, sent one
  // chunk at a time and no larger than the file if that is small, and cut down to the limits.
  lemma ReactsAs(fileSize: int, p: Profile, given: Limits, o: Observation)
    requires p.chunkSize > 0 && p.parallel > 0
    ensures var l, r := Normalized(given), Recommended(fileSize, p, given, o);
      var wanted := Wanted(p, l, o);
      if 0 < fileSize <= 4 * l.minChunk
      then r.parallel == 1 && CutDown(Profile(Min(wanted.chunkSize, Max(l.minChunk, fileSize)), 1), r, l)
      else CutDown(wanted, r, l)
  {
    hide BoundedProfile, CutDown, Sized, Wanted, Clamped;
    NormalizedIsProper(given);
    var l, wanted := Normalized(given), Wanted(p, Normalized(given), o);
    var sized := if 0 < fileSize <= 4 * l.minChunk
      then Profile(Min(wanted.chunkSize, Max(l.minChunk, fileSize)), 1) else wanted;
    BoundedIsCutDown(Sized(fileSize, p, l, o), l);
    LimitedAlike(fileSize, p, l, o);
    CutDownAlike(Sized(fileSize, p, l, o), sized, Recommended(fileSize, p, given, o), l);
    RecommendationIsInBounds(fileSize, p, given, o);
  }

  lemma LimitedAlike(fileSize: int, p: Profile, l: Limits, o: Observation)
    requires Proper(l) && p.chunkSize > 0 && p.parallel > 0
    ensures var wanted := Wanted(p, l, o);
      Clamped(Sized(fileSize, p, l, o), l) ==
        Clamped(if 0 < fileSize <= 4 * l.minChunk
                then Profile(Min(wanted.chunkSize, Max(l.minChunk, fileSize)), 1) else wanted, l)
  {
  }

  lemma CutDownAlike(a: Profile, b: Profile, r: Profile, l: Limits)
    requires Clamped(a, l) == Clamped(b, l) && CutDown(a, r, l)
    ensures CutDown(b, r, l)
  {
  }

  // Memory for the largest profile the other limits allow.
  predicate Roomy(l: Limits) {
    l.minChunk <= l.maxChunk && l.maxChunk * l.maxParallel <= l.memoryBudget
  }

  // k fast observations on a file that is not small give exactly (min(Max, chunk*2^k), min(Parallel, parallel+k)).
  lemma {:induction false} FastDoublesExactly(
      fileSize: int, p: Profile, given: Limits, observations: seq<Observation>)
    requires InBounds(p, Normalized(given)) && Roomy(Normalized(given))
    requires fileSize <= 0 || fileSize > 4 * Normalized(given).minChunk
    requires forall i :: 0 <= i < |observations| ==>
      Fast(observations[i]) && !Troubled(observations[i]) && !Pressed(observations[i])
    ensures var k, l := |observations|, Normalized(given);
      && AfterAll(fileSize, p, given, observations)
        == Profile(Min(l.maxChunk, p.chunkSize * Power2(k)), Min(l.maxParallel, p.parallel + k))
      && InBounds(AfterAll(fileSize, p, given, observations), l)
  {
    hide Recommended, BoundedProfile, Adjusted;
    var k, l := |observations|, Normalized(given);
    if k == 0 {
      assert p.chunkSize * Power2(0) == p.chunkSize;
    } else {
      FastDoublesExactly(fileSize, p, given, observations[..k - 1]);
      var before, o := AfterAll(fileSize, p, given, observations[..k - 1]), observations[k - 1];
      FastStep(fileSize, before, given, o);
      DoublingCommutes(p.chunkSize, k - 1, l.maxChunk);
    }
  }

  lemma FastStep(fileSize: int, p: Profile, given: Limits, o: Observation)
    requires InBounds(p, Normalized(given)) && Roomy(Normalized(given))
    requires fileSize <= 0 || fileSize > 4 * Normalized(given).minChunk
    requires Fast(o) && !Troubled(o) && !Pressed(o)
    ensures var l := Normalized(given);
      var doubled := Profile(Min(l.maxChunk, p.chunkSize * 2), Min(l.maxParallel, p.parallel + 1));
      Recommended(fileSize, p, given, o) == doubled && InBounds(doubled, l)
  {
    NormalizedIsProper(given);
    var l := Normalized(given);
    var doubled := Profile(Min(l.maxChunk, p.chunkSize * 2), Min(l.maxParallel, p.parallel + 1));
    ProductMonotone(doubled.chunkSize, l.maxChunk, doubled.parallel, l.maxParallel);
    InBoundsIsKept(doubled, l);
  }

  lemma DoublingCommutes(chunk: int, k: nat, max: int)
    requires 0 < chunk <= max
    ensures Min(max, Min(max, chunk * Power2(k)) * 2) == Min(max, chunk * Power2(k + 1))
  {
    assert chunk * Power2(k + 1) == 2 * (chunk * Power2(k));
  }

  // Without a profile to go on it starts from two chunks of 4 MiB, cut down to the limits.
  lemma StartsModestly(fileSize: int, none: Profile, given: Limits, o: Observation) returns (start: Profile)
    requires none.chunkSize <= 0 || none.parallel <= 0
    ensures start.chunkSize > 0 && start.parallel > 0 && CutDown(Profile(4_194_304, 2), start, Normalized(given))
    ensures Recommended(fileSize, none, given, o) == Recommended(fileSize, start, given, o)
  {
    hide BoundedProfile, CutDown, Adjusted;
    NormalizedIsProper(given);
    var l := Normalized(given);
    var first := Profile(Max(l.minChunk, 4 * MIB), Min(2, l.maxParallel));
    start := BoundedProfile(first, l);
    BoundedIsCutDown(first, l);
    BoundedIsInBounds(first, l);
    CutDownAlike(first, Profile(4_194_304, 2), start, l);
  }

  // Where a limit makes no sense: 1 MiB, 32 MiB, one chunk at a time, and memory for two.
  lemma DefaultsApply(given: Limits)
    ensures var l := Normalized(given);
      && l.minChunk == (if given.minChunk > 0 then given.minChunk else 1_048_576)
      && l.maxChunk == (if given.maxChunk >= l.minChunk then given.maxChunk else 33_554_432)
      && l.maxParallel == (if given.maxParallel >= 1 then given.maxParallel else 1)
      && l.memoryBudget == (if given.memoryBudget >= 2 * l.minChunk then given.memoryBudget else 2 * l.minChunk)
  {
  }

  // A chunk too large for memory is halved as often as it takes, and not once more.
  lemma {:induction false} HalvedAsNeeded(chunk: int, p: int, l: Limits) returns (k: nat)
    requires Proper(l) && chunk >= l.minChunk && p >= 1
    ensures FitChunk(chunk, p, l) == Max(l.minChunk, chunk / Power2(k))
    ensures FitChunk(chunk, p, l) * p <= l.memoryBudget || FitChunk(chunk, p, l) == l.minChunk
    ensures k > 0 ==> Max(l.minChunk, chunk / Power2(k - 1)) * p > l.memoryBudget
    decreases chunk
  {
    if chunk * p > l.memoryBudget && chunk > l.minChunk {
      var half := Max(l.minChunk, chunk / 2);
      var rest := HalvedAsNeeded(half, p, l);
      k := rest + 1;
      HalvedFirst(chunk, rest, l.minChunk);
      if rest > 0 {
        HalvedFirst(chunk, rest - 1, l.minChunk);
      } else {
        assert chunk / Power2(0) == chunk;
      }
    } else {
      k := 0;
      assert chunk / Power2(0) == chunk;
    }
  }

  lemma HalvedFirst(chunk: int, k: nat, min: int)
    requires min > 0 && chunk >= min
    ensures Max(min, Max(min, chunk / 2) / Power2(k)) == Max(min, chunk / Power2(k + 1))
  {
    HalfOfQuotient(chunk, Power2(k));
    if chunk / 2 < min {
      QuotientAtMost(min, Power2(k));
      QuotientShrinks(chunk / 2, min, Power2(k));
    }
  }

  lemma HalfOfQuotient(a: int, power: int)
    requires power >= 1
    ensures a / 2 / power == a / (2 * power)
  {
    var q := a / 2;
    QuotientInterval(a, 2);
    QuotientInterval(q, power);
    QuotientInterval(a, 2 * power);
    Twice(q / power, 0, power);
    assert (q / power) * (2 * power) <= a < (q / power + 1) * (2 * power);
    Twice(a / (2 * power), 0, power);
    SameQuotient(a, 2 * power, q / power, a / (2 * power));
  }

  lemma QuotientAtMost(a: int, b: int)
    requires a >= 0 && b >= 1
    ensures a / b <= a
  {
    QuotientInterval(a, b);
    MulMonotone(1, b, a / b + 1);
  }

  lemma QuotientShrinks(a: int, c: int, b: int)
    requires a <= c && b >= 1
    ensures a / b <= c / b
  {
    QuotientInterval(a, b);
    QuotientInterval(c, b);
    MulMonotone(c / b + 1, a / b, b);
  }
}
