/**
 Ad selection: filter by flight and placement, keep the top priority tier, then
 sample by weight without replacement. Random rolls come from a stream `rng` of
 arbitrary naturals, each reduced to the range it is drawn for.
 */
module Selection {
  import opened Prelude

  type i32 = x: int | -0x8000_0000 <= x < 0x8000_0000

  datatype Flight = Flight(id: int, campaignId: int, advertiserId: int, tier: i32,
                           startMs: Option<int>, endMs: Option<int>,
                           siteIds: seq<int>, zoneIds: seq<int>, adTypes: seq<int>, isActive: bool)

  datatype Ad = Ad(id: i64, flightId: int, creativeId: Option<i64>, weight: i32, isActive: bool)

  datatype Placement = Placement(siteId: int, zoneIds: seq<int>, adTypes: seq<int>, count: nat)

  datatype BlockSet = BlockSet(creativeIds: seq<int>, advertiserIds: seq<int>, campaignIds: seq<int>)

  datatype Candidate = Candidate(ad: Ad, flight: Flight)

  // ----- filter -------------------------------------------------------------

  predicate ActiveAt(f: Flight, nowMs: int) {
    if f.startMs.Some? && nowMs < f.startMs.value then false
    else if f.endMs.Some? && nowMs > f.endMs.value then false
    else true
  }

  predicate AnyIn(xs: seq<int>, ys: seq<int>) {
    exists x :: x in xs && x in ys
  }

  predicate TargetsPlacement(f: Flight, p: Placement) {
    if f.siteIds != [] && p.siteId !in f.siteIds then false
    else if f.zoneIds != [] && !AnyIn(p.zoneIds, f.zoneIds) then false
    else if f.adTypes != [] && !AnyIn(p.adTypes, f.adTypes) then false
    else true
  }

  predicate FlightPasses(f: Flight, p: Placement, block: BlockSet, nowMs: int) {
    && f.isActive && ActiveAt(f, nowMs) && TargetsPlacement(f, p)
    && f.advertiserId !in block.advertiserIds && f.campaignId !in block.campaignIds
  }

  /** Active ads of flight `f`, in snapshot order. */
  function AdsOf(f: Flight, ads: seq<Ad>): seq<Candidate> {
    if ads == [] then []
    else
      var a := ads[|ads| - 1];
      AdsOf(f, ads[..|ads| - 1]) + if a.isActive && a.flightId == f.id then [Candidate(a, f)] else []
  }

  function Filtered(flights: seq<Flight>, ads: seq<Ad>, p: Placement, block: BlockSet, nowMs: int): seq<Candidate> {
    if flights == [] then []
    else
      var f := flights[|flights| - 1];
      Filtered(flights[..|flights| - 1], ads, p, block, nowMs) +
      if FlightPasses(f, p, block, nowMs) then AdsOf(f, ads) else []
  }

  method Filter(flights: seq<Flight>, ads: seq<Ad>, p: Placement, block: BlockSet, nowMs: int)
    returns (out: seq<Candidate>)
    ensures out == Filtered(flights, ads, p, block, nowMs)
  {
    out := [];
    for i := 0 to |flights|
      invariant out == Filtered(flights[..i], ads, p, block, nowMs)
    {
      var f := flights[i];
      assert flights[..i + 1][..i] == flights[..i];
      if !f.isActive {
        continue;
      }
      if !ActiveAt(f, nowMs) {
        continue;
      }
      if !TargetsPlacement(f, p) {
        continue;
      }
      if f.advertiserId in block.advertiserIds {
        continue;
      }
      if f.campaignId in block.campaignIds {
        continue;
      }
      ghost var before := out;
      for j := 0 to |ads|
        invariant out == before + AdsOf(f, ads[..j])
      {
        assert ads[..j + 1][..j] == ads[..j];
        if ads[j].isActive && ads[j].flightId == f.id {
          out := out + [Candidate(ads[j], f)];
        }
      }
      assert ads[..|ads|] == ads;
    }
    assert flights[..|flights|] == flights;
  }

  /** What serving an ad of a flight on a placement requires, all rules at once. */
  ghost predicate Eligible(c: Candidate, p: Placement, block: BlockSet, nowMs: int) {
    && c.ad.isActive && c.flight.isActive && c.ad.flightId == c.flight.id
    && (c.flight.startMs.Some? ==> c.flight.startMs.value <= nowMs)
    && (c.flight.endMs.Some? ==> nowMs <= c.flight.endMs.value)
    && (c.flight.siteIds == [] || p.siteId in c.flight.siteIds)
    && (c.flight.zoneIds == [] || exists z :: z in p.zoneIds && z in c.flight.zoneIds)
    && (c.flight.adTypes == [] || exists t :: t in p.adTypes && t in c.flight.adTypes)
    && c.flight.advertiserId !in block.advertiserIds
    && c.flight.campaignId !in block.campaignIds
  }

  lemma {:induction false} AdsOfMembers(f: Flight, ads: seq<Ad>, c: Candidate)
    ensures c in AdsOf(f, ads) <==> c.flight == f && c.ad in ads && c.ad.isActive && c.ad.flightId == f.id
  {
    if ads != [] {
      AdsOfMembers(f, ads[..|ads| - 1], c);
      assert ads == ads[..|ads| - 1] + [ads[|ads| - 1]];
    }
  }

  /** The filter keeps exactly the eligible pairs of the snapshot. */
  lemma {:induction false} FilteredAreEligible(flights: seq<Flight>, ads: seq<Ad>, p: Placement, block: BlockSet,
                                               nowMs: int, c: Candidate)
    ensures c in Filtered(flights, ads, p, block, nowMs)
       <==> c.flight in flights && c.ad in ads && Eligible(c, p, block, nowMs)
  {
    if flights != [] {
      var f := flights[|flights| - 1];
      FilteredAreEligible(flights[..|flights| - 1], ads, p, block, nowMs, c);
      AdsOfMembers(f, ads, c);
      assert flights == flights[..|flights| - 1] + [f];
    }
  }

  // ----- priority -----------------------------------------------------------

  function TopTier(cands: seq<Candidate>): Option<int> {
    if cands == [] then None
    else
      var t := cands[|cands| - 1].flight.tier;
      match TopTier(cands[..|cands| - 1])
      case None => Some(t)
      case Some(u) => Some(Min(u, t))
  }

  function OfTier(cands: seq<Candidate>, tier: int): seq<Candidate> {
    if cands == [] then []
    else
      var c := cands[|cands| - 1];
      OfTier(cands[..|cands| - 1], tier) + if c.flight.tier == tier then [c] else []
  }

  function Priority(cands: seq<Candidate>): seq<Candidate> {
    match TopTier(cands)
    case None => []
    case Some(top) => OfTier(cands, top)
  }

  lemma {:induction false} TopTierIsLeast(cands: seq<Candidate>)
    ensures TopTier(cands).None? <==> cands == []
    ensures forall c :: c in cands ==> TopTier(cands).Some? && TopTier(cands).value <= c.flight.tier
    ensures cands != [] ==> exists c :: c in cands && TopTier(cands) == Some(c.flight.tier)
  {
    if cands != [] {
      var init, last := cands[..|cands| - 1], cands[|cands| - 1];
      TopTierIsLeast(init);
      assert cands == init + [last];
    }
  }

  lemma {:induction false} OfTierMembers(cands: seq<Candidate>, tier: int, c: Candidate)
    ensures multiset(OfTier(cands, tier))[c] == if c.flight.tier == tier then multiset(cands)[c] else 0
  {
    if cands != [] {
      OfTierMembers(cands[..|cands| - 1], tier, c);
      assert cands == cands[..|cands| - 1] + [cands[|cands| - 1]];
    }
  }

  /** Kept, each as often as it was there: the candidates no other one outranks. */
  lemma PriorityKeepsTop(cands: seq<Candidate>, c: Candidate)
    ensures multiset(Priority(cands))[c]
         == if forall d :: d in cands ==> c.flight.tier <= d.flight.tier then multiset(cands)[c] else 0
    ensures c in Priority(cands) <==> c in cands && forall d :: d in cands ==> c.flight.tier <= d.flight.tier
  {
    TopTierIsLeast(cands);
    if cands != [] {
      OfTierMembers(cands, TopTier(cands).value, c);
    }
    assert c in Priority(cands) <==> multiset(Priority(cands))[c] > 0;
    assert c in cands <==> multiset(cands)[c] > 0;
  }

  // ----- weights ------------------------------------------------------------

  function Sum(w: seq<int>): int {
    if w == [] then 0 else w[0] + Sum(w[1..])
  }

  predicate NonNegative(w: seq<int>) {
    forall i :: 0 <= i < |w| ==> 0 <= w[i]
  }

  /** How many slots can still be drawn. */
  function Positives(w: seq<int>): nat {
    if w == [] then 0 else (if w[0] > 0 then 1 else 0) + Positives(w[1..])
  }

  /** The slot a roll falls in, walking the slots and spending the roll. */
  function Pick(w: seq<int>, roll: int): Option<nat> {
    if w == [] then None
    else if w[0] != 0 && roll < w[0] then Some(0)
    else match Pick(w[1..], roll - w[0])
      case None => None
      case Some(i) => Some(i + 1)
  }

  lemma {:induction false} SumUpTo(w: seq<int>, i: nat)
    requires i < |w| && NonNegative(w)
    ensures 0 <= Sum(w[..i]) && Sum(w[..i]) + w[i] <= Sum(w)
    ensures i > 0 ==> Sum(w[..i]) == w[0] + Sum(w[1..][..i - 1])
  {
    SumNonNegative(w[1..]);
    if i > 0 {
      SumUpTo(w[1..], i - 1);
      assert w[..i][1..] == w[1..][..i - 1];
    }
  }

  lemma {:induction false} SumNonNegative(w: seq<int>)
    requires NonNegative(w)
    ensures 0 <= Sum(w)
    ensures Sum(w) > 0 <==> Positives(w) > 0
  {
    if w != [] {
      SumNonNegative(w[1..]);
    }
  }

  /** Every roll below the total lands in one slot: the one whose share contains it. */
  lemma {:induction false} PickIsShare(w: seq<int>, roll: int, i: nat)
    requires NonNegative(w) && 0 <= roll < Sum(w) && i < |w|
    ensures Pick(w, roll).Some? && Pick(w, roll).value < |w|
    ensures Pick(w, roll) == Some(i) <==> Sum(w[..i]) <= roll < Sum(w[..i]) + w[i]
  {
    SumUpTo(w, i);
    assert w[..0] == [];
    if w[0] != 0 && roll < w[0] {
      if i > 0 {
        SumUpTo(w[1..], i - 1);
      }
    } else {
      PickIsShare(w[1..], roll - w[0], if i > 0 then i - 1 else 0);
    }
  }

  lemma {:induction false} IntervalSize(lo: int, n: nat, s: set<int>)
    requires forall r :: r in s <==> lo <= r < lo + n
    ensures |s| == n
  {
    if n == 0 {
      assert forall r :: r in s ==> r in {};
    } else {
      IntervalSize(lo, n - 1, s - {lo + n - 1});
      assert lo + n - 1 in s;
    }
  }

  /** The equally likely rolls that pick slot `i`. */
  function RollsFor(w: seq<int>, i: nat): set<int> {
    set r | 0 <= r < Sum(w) && Pick(w, r) == Some(i)
  }

  /** Exactly `w[i]` of the `Sum(w)` equally likely rolls pick slot `i`. */
  lemma PickIsProportional(w: seq<int>, i: nat)
    requires NonNegative(w) && i < |w|
    ensures |RollsFor(w, i)| == w[i]
  {
    SumUpTo(w, i);
    forall r
      ensures r in RollsFor(w, i) <==> Sum(w[..i]) <= r < Sum(w[..i]) + w[i]
    {
      if 0 <= r < Sum(w) {
        PickIsShare(w, r, i);
      }
    }
    IntervalSize(Sum(w[..i]), w[i], RollsFor(w, i));
  }

  // ----- sampling without replacement ---------------------------------------

  function Weights(cands: seq<Candidate>): (w: seq<int>)
    ensures |w| == |cands|
    ensures forall i :: 0 <= i < |w| ==> w[i] == Max(cands[i].ad.weight, 0)
  {
    seq(|cands|, i requires 0 <= i < |cands| => Max(cands[i].ad.weight, 0))
  }

  /** Slots drawn: `n` rounds from round `k` on, each drawn slot losing its weight. */
  function Draw(w: seq<int>, n: nat, k: nat, rng: nat -> nat): seq<nat>
    requires NonNegative(w)
    ensures forall j :: 0 <= j < |Draw(w, n, k, rng)| ==> Draw(w, n, k, rng)[j] < |w|
    decreases n
  {
    if n == 0 || Sum(w) <= 0 then []
    else
      PickIsShare(w, rng(k) % Sum(w), 0);
      var i := Pick(w, rng(k) % Sum(w)).value;
      [i] + Draw(w[i := 0], n - 1, k + 1, rng)
  }

  function At(cands: seq<Candidate>, slots: seq<nat>): seq<Candidate>
    requires forall j :: 0 <= j < |slots| ==> slots[j] < |cands|
  {
    seq(|slots|, j requires 0 <= j < |slots| => cands[slots[j]])
  }

  /** `count.min(len as u32)`: the length is cut to 32 bits first. */
  function Rounds(len: nat, count: nat): nat {
    Min(count, len % TWO_32)
  }

  function Sample(cands: seq<Candidate>, count: nat, rng: nat -> nat): seq<Candidate> {
    At(cands, Draw(Weights(cands), Rounds(|cands|, count), 0, rng))
  }

  // ----- what a sample is ---------------------------------------------------

  predicate Distinct(slots: seq<nat>) {
    forall i, j :: 0 <= i < j < |slots| ==> slots[i] != slots[j]
  }

  lemma {:induction false} ClearSlot(w: seq<int>, i: nat)
    requires NonNegative(w) && i < |w| && w[i] > 0
    ensures NonNegative(w[i := 0])
    ensures Sum(w[i := 0]) == Sum(w) - w[i]
    ensures Positives(w[i := 0]) == Positives(w) - 1
  {
    if i > 0 {
      ClearSlot(w[1..], i - 1);
      assert w[i := 0][1..] == w[1..][i - 1 := 0];
    }
  }

  /**
   For every stream of rolls: as many slots as were asked for and still have
   weight, all different, each with positive weight.
   */
  lemma {:induction false} DrawnSlots(w: seq<int>, n: nat, k: nat, rng: nat -> nat)
    requires NonNegative(w)
    ensures var d := Draw(w, n, k, rng);
            && |d| == Min(n, Positives(w))
            && Distinct(d)
            && forall j :: 0 <= j < |d| ==> d[j] < |w| && w[d[j]] > 0
    decreases n
  {
    SumNonNegative(w);
    if n > 0 && Sum(w) > 0 {
      var roll := rng(k) % Sum(w);
      PickIsShare(w, roll, 0);
      var i := Pick(w, roll).value;
      PickIsShare(w, roll, i);
      ClearSlot(w, i);
      DrawnSlots(w[i := 0], n - 1, k + 1, rng);
    }
  }

  /** Candidates that can be drawn at all. */
  function Drawable(cands: seq<Candidate>): nat {
    Positives(Weights(cands))
  }

  lemma {:induction false} PositivesAtMostLength(w: seq<int>)
    ensures Positives(w) <= |w|
  {
    if w != [] {
      PositivesAtMostLength(w[1..]);
    }
  }

  /**
   A sample is a list of candidates at pairwise distinct positions, each of
   positive weight. It has the promised size `min(count, drawable)` exactly when
   cutting the list length to 32 bits does not get in the way, in particular for
   every list shorter than 2^32.
   */
  lemma SampleIsExact(cands: seq<Candidate>, count: nat, rng: nat -> nat)
    ensures var slots := Draw(Weights(cands), Rounds(|cands|, count), 0, rng);
            var picks := Sample(cands, count, rng);
            && Distinct(slots) && |picks| == |slots|
            && forall j :: 0 <= j < |picks| ==>
                 slots[j] < |cands| && picks[j] == cands[slots[j]] && picks[j].ad.weight > 0
    ensures |Sample(cands, count, rng)| == Min(count, Drawable(cands))
       <==> Min(count, Drawable(cands)) <= |cands| % TWO_32
    ensures |cands| < TWO_32 ==> |Sample(cands, count, rng)| == Min(count, Drawable(cands))
  {
    DrawnSlots(Weights(cands), Rounds(|cands|, count), 0, rng);
    PositivesAtMostLength(Weights(cands));
  }

  /** A list of exactly 2^32 candidates yields nothing, whatever their weights. */
  lemma SampleOf2To32IsEmpty(cands: seq<Candidate>, count: nat, rng: nat -> nat)
    requires |cands| == TWO_32
    ensures Sample(cands, count, rng) == []
  {
    assert Rounds(|cands|, count) == 0;
  }

  lemma {:induction false} SumBound(w: seq<int>, b: nat)
    requires forall i :: 0 <= i < |w| ==> w[i] <= b
    ensures Sum(w) <= |w| * b
  {
    if w != [] {
      SumBound(w[1..], b);
      assert |w| * b == b + (|w| - 1) * b;
    }
  }

  /** The 64-bit total cannot overflow on lists of up to 2^32 candidates. */
  lemma TotalFitsI64(cands: seq<Candidate>)
    requires |cands| <= TWO_32
    ensures 0 <= Sum(Weights(cands)) <= I64_MAX
  {
    SumNonNegative(Weights(cands));
    SumBound(Weights(cands), 0x7fff_ffff);
    assert |cands| * 0x7fff_ffff <= TWO_32 * 0x7fff_ffff;
  }

  // ----- the sampling loop --------------------------------------------------

  function Shift(r: Option<nat>, d: nat): Option<nat> {
    match r
    case None => None
    case Some(i) => Some(i + d)
  }

  /** One draw: the slot found by the inner loop, which never runs off the end. */
  method Roll(weights: seq<int>, roll: int) returns (chosen: Option<nat>)
    requires NonNegative(weights) && 0 <= roll < Sum(weights)
    ensures chosen == Pick(weights, roll) && chosen.Some?
  {
    chosen := None;
    PickIsShare(weights, roll, 0);
    var left := roll;
    for i := 0 to |weights|
      invariant chosen.None?
      invariant Pick(weights, roll) == Shift(Pick(weights[i..], left), i)
    {
      assert weights[i..][1..] == weights[i + 1..];
      if weights[i] == 0 {
        continue;
      }
      if left < weights[i] {
        chosen := Some(i);
        break;
      }
      left := left - weights[i];
    }
  }

  lemma {:induction false} NoPositives(w: seq<int>)
    ensures Positives(w) == 0 <==> forall i :: 0 <= i < |w| ==> w[i] <= 0
  {
    if w != [] {
      NoPositives(w[1..]);
      assert forall i :: 0 < i < |w| ==> w[i] == w[1..][i - 1];
    }
  }

  /**
   What the three steps serve together is empty exactly when nothing was asked
   for, every ad of the best tier has weight 0 or less, or the number of its ads is
   a multiple of 2^32: a lower tier that could serve does not step in.
   */
  lemma ServesNothingIff(cands: seq<Candidate>, count: nat, rng: nat -> nat)
    ensures Sample(Priority(cands), count, rng) == []
       <==> || count == 0 || |Priority(cands)| % TWO_32 == 0
            || forall c :: c in Priority(cands) ==> c.ad.weight <= 0
  {
    hide Draw, Priority;
    var top := Priority(cands);
    DrawnSlots(Weights(top), Rounds(|top|, count), 0, rng);
    NoPositives(Weights(top));
    assert (forall c :: c in top ==> c.ad.weight <= 0) <==> forall i :: 0 <= i < |top| ==> Weights(top)[i] <= 0;
  }

  /** One round of drawing, unfolded. */
  lemma DrawStep(w: seq<int>, n: nat, k: nat, rng: nat -> nat, i: nat)
    requires NonNegative(w) && n > 0 && Sum(w) > 0 && Pick(w, rng(k) % Sum(w)) == Some(i)
    ensures i < |w| && NonNegative(w[i := 0]) && Sum(w[i := 0]) <= Sum(w)
    ensures Draw(w, n, k, rng) == [i] + Draw(w[i := 0], n - 1, k + 1, rng)
  {
    PickIsShare(w, rng(k) % Sum(w), 0);
    PickIsShare(w, rng(k) % Sum(w), i);
    ClearSlot(w, i);
  }

  lemma DrawEnds(w: seq<int>, n: nat, k: nat, rng: nat -> nat)
    requires NonNegative(w) && (n == 0 || Sum(w) <= 0)
    ensures Draw(w, n, k, rng) == []
  {
  }

  lemma AtEmpty(cands: seq<Candidate>)
    ensures At(cands, []) == []
  {
  }

  lemma AtAppend(cands: seq<Candidate>, slots: seq<nat>, i: nat)
    requires (forall j :: 0 <= j < |slots| ==> slots[j] < |cands|) && i < |cands|
    ensures At(cands, slots + [i]) == At(cands, slots) + [cands[i]]
  {
  }

  /** The 64-bit total is exact on lists of up to 2^32 candidates. */
  method WeightedRandom(cands: seq<Candidate>, count: nat, rng: nat -> nat) returns (picks: seq<Candidate>)
    ensures picks == Sample(cands, count, rng)
  {
    hide Draw, Sum, Pick, At, NonNegative;
    WeightsNonNegative(cands);
    AtEmpty(cands);
    if cands == [] || count == 0 {
      DrawEnds(Weights(cands), 0, 0, rng);
      return [];
    }
    var weights := Weights(cands);
    var target := Rounds(|cands|, count);
    if |cands| <= TWO_32 {
      TotalFitsI64(cands);
    }
    picks := [];
    ghost var slots: seq<nat> := [];
    for round := 0 to target
      invariant |weights| == |cands| && NonNegative(weights)
      invariant |cands| <= TWO_32 ==> Sum(weights) <= I64_MAX
      invariant forall j :: 0 <= j < |slots| ==> slots[j] < |cands|
      invariant picks == At(cands, slots)
      invariant Draw(Weights(cands), target, 0, rng) == slots + Draw(weights, target - round, round, rng)
    {
      var total := Sum(weights);
      if total <= 0 {
        DrawEnds(weights, target - round, round, rng);
        assert slots + [] == slots;
        return;
      }
      var chosen := Roll(weights, rng(round) % total);
      if chosen.None? {
        break;
      }
      var i := chosen.value;
      DrawStep(weights, target - round, round, rng, i);
      AtAppend(cands, slots, i);
      picks := picks + [cands[i]];
      slots := slots + [i];
      weights := weights[i := 0];
    }
    DrawEnds(weights, 0, target, rng);
    assert slots + [] == slots;
  }

  lemma WeightsNonNegative(cands: seq<Candidate>)
    ensures NonNegative(Weights(cands))
  {
  }
}
