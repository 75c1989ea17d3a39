/** What of a sample depends on the random rolls, and what does not. */
module SampleRolls {
  import opened Prelude
  import opened Selection

  function Elements(slots: seq<nat>): set<nat> {
    set i | i in slots
  }

  function PositiveSlots(w: seq<int>): set<nat> {
    set i | 0 <= i < |w| && w[i] > 0
  }

  lemma {:induction false} PositiveSlotsCount(w: seq<int>)
    requires NonNegative(w)
    ensures |PositiveSlots(w)| == Positives(w)
  {
    if w != [] {
      var i := |w| - 1;
      var init := w[..i];
      PositiveSlotsCount(init);
      PositivesAppend(init, w[i]);
      assert w == init + [w[i]];
      if w[i] > 0 {
        assert PositiveSlots(w) == PositiveSlots(init) + {i};
      } else {
        assert PositiveSlots(w) == PositiveSlots(init);
      }
    }
  }

  lemma {:induction false} PositivesAppend(w: seq<int>, x: int)
    ensures Positives(w + [x]) == Positives(w) + if x > 0 then 1 else 0
  {
    if w != [] {
      PositivesAppend(w[1..], x);
      assert (w + [x])[1..] == w[1..] + [x];
    }
  }

  lemma {:induction false} DistinctElements(slots: seq<nat>)
    requires Distinct(slots)
    ensures |Elements(slots)| == |slots|
  {
    if slots != [] {
      var init, last := slots[..|slots| - 1], slots[|slots| - 1];
      DistinctElements(init);
      assert Elements(slots) == Elements(init) + {last};
    }
  }

  lemma {:induction false} SubsetSize<T>(a: set<T>, b: set<T>)
    requires a <= b
    ensures |a| <= |b| && (|a| == |b| ==> a == b)
  {
    if x :| x in a {
      SubsetSize(a - {x}, b - {x});
      assert a == (a - {x}) + {x};
    }
  }

  lemma DrawnElements(w: seq<int>, n: nat, rng: nat -> nat)
    requires NonNegative(w)
    ensures Elements(Draw(w, n, 0, rng)) <= PositiveSlots(w)
    ensures |Elements(Draw(w, n, 0, rng))| == Min(n, |PositiveSlots(w)|)
  {
    hide Draw, Positives;
    DrawnSlots(w, n, 0, rng);
    DistinctElements(Draw(w, n, 0, rng));
    PositiveSlotsCount(w);
  }

  /** Rolling the start of slot `i`'s share every time draws slot `i` first. */
  function Always(w: seq<int>, i: nat): nat -> nat
    requires i < |w|
  {
    var roll := Max(Sum(w[..i]), 0);
    _ => roll
  }

  lemma AlwaysDrawsFirst(w: seq<int>, n: nat, i: nat)
    requires NonNegative(w) && i < |w| && w[i] > 0 && n > 0
    ensures var d := Draw(w, n, 0, Always(w, i));
            d != [] && d[0] == i
  {
    SumUpTo(w, i);
    var rng := Always(w, i);
    assert rng(0) == Sum(w[..i]) && rng(0) % Sum(w) == Sum(w[..i]);
    PickIsShare(w, Sum(w[..i]), i);
    DrawStep(w, n, 0, rng, i);
  }

  /** Everything that can be drawn is drawn, or nothing is. */
  lemma SameDrawnSet(w: seq<int>, n: nat, r: nat -> nat, s: nat -> nat)
    requires NonNegative(w) && (n == 0 || Positives(w) <= n)
    ensures Elements(Draw(w, n, 0, r)) == Elements(Draw(w, n, 0, s))
  {
    hide Draw, Positives;
    PositiveSlotsCount(w);
    DrawnElements(w, n, r);
    DrawnElements(w, n, s);
    SubsetSize(Elements(Draw(w, n, 0, r)), PositiveSlots(w));
    SubsetSize(Elements(Draw(w, n, 0, s)), PositiveSlots(w));
  }

  /** Where something has to be left out, other rolls draw it. */
  lemma OtherDrawnSet(w: seq<int>, n: nat) returns (r: nat -> nat, s: nat -> nat)
    requires NonNegative(w) && 0 < n < Positives(w)
    ensures Elements(Draw(w, n, 0, r)) != Elements(Draw(w, n, 0, s))
  {
    hide Draw, Positives;
    PositiveSlotsCount(w);
    r := _ => 0;
    DrawnElements(w, n, r);
    var drawn := Elements(Draw(w, n, 0, r));
    assert drawn != PositiveSlots(w);
    var i :| i in PositiveSlots(w) && i !in drawn;
    AlwaysDrawsFirst(w, n, i);
    s := Always(w, i);
    var other := Draw(w, n, 0, s);
    assert other[0] in other && i in Elements(other);
  }

  /** The set of slots drawn is the same for all rolls iff nothing or everything that can be drawn is. */
  lemma DrawnSetIsFixedIff(w: seq<int>, n: nat)
    requires NonNegative(w)
    ensures (forall r, s: nat -> nat :: Elements(Draw(w, n, 0, r)) == Elements(Draw(w, n, 0, s)))
       <==> n == 0 || Positives(w) <= n
  {
    hide Draw, Positives, Elements;
    if 0 < n < Positives(w) {
      var r, s := OtherDrawnSet(w, n);
      assert Elements(Draw(w, n, 0, r)) != Elements(Draw(w, n, 0, s));
    } else {
      forall r, s: nat -> nat
        ensures Elements(Draw(w, n, 0, r)) == Elements(Draw(w, n, 0, s))
      {
        SameDrawnSet(w, n, r, s);
      }
    }
  }

  /** There is no choice to make: at most one slot can be drawn, or none is. */
  lemma SameDrawnList(w: seq<int>, n: nat, r: nat -> nat, s: nat -> nat)
    requires NonNegative(w) && (n == 0 || Positives(w) <= 1)
    ensures Draw(w, n, 0, r) == Draw(w, n, 0, s)
  {
    hide Draw, Positives;
    DrawnSlots(w, n, 0, r);
    DrawnSlots(w, n, 0, s);
    SameDrawnSet(w, n, r, s);
    ShortLists(Draw(w, n, 0, r), Draw(w, n, 0, s));
  }

  /** Otherwise other rolls draw another slot first. */
  lemma OtherDrawnList(w: seq<int>, n: nat) returns (r: nat -> nat, s: nat -> nat)
    requires NonNegative(w) && n > 0 && Positives(w) > 1
    ensures var d, e := Draw(w, n, 0, r), Draw(w, n, 0, s);
            d != [] && e != [] && d[0] != e[0]
  {
    hide Draw, Positives, Always;
    PositiveSlotsCount(w);
    var i :| i in PositiveSlots(w);
    assert PositiveSlots(w) != {i};
    var j :| j in PositiveSlots(w) && j != i;
    AlwaysDrawsFirst(w, n, i);
    AlwaysDrawsFirst(w, n, j);
    r, s := Always(w, i), Always(w, j);
  }

  lemma ShortLists(a: seq<nat>, b: seq<nat>)
    ensures |a| == |b| <= 1 && Elements(a) == Elements(b) ==> a == b
  {
    if |a| == |b| == 1 && Elements(a) == Elements(b) {
      assert a[0] in Elements(a);
      assert b == [b[0]];
    }
  }

  ghost predicate NoRepeats<T>(xs: seq<T>) {
    forall i, j :: 0 <= i < j < |xs| ==> xs[i] != xs[j]
  }

  lemma {:induction false} OnceEach<T>(xs: seq<T>)
    ensures NoRepeats(xs) <==> forall x :: multiset(xs)[x] <= 1
  {
    if xs != [] {
      var init, last := xs[..|xs| - 1], xs[|xs| - 1];
      OnceEach(init);
      assert xs == init + [last];
      if NoRepeats(init) && last !in init {
        forall x
          ensures multiset(xs)[x] <= 1
        {
        }
      } else if last in init {
        var i :| 0 <= i < |init| && init[i] == last;
        assert multiset(xs)[last] >= 2;
        assert xs[i] == xs[|xs| - 1];
      } else {
        var i, j :| 0 <= i < j < |init| && init[i] == init[j];
        assert xs[i] == xs[j];
        var x :| multiset(init)[x] > 1;
        assert multiset(xs)[x] > 1;
      }
    }
  }

  lemma CountAdded<T>(xs: seq<T>, more: seq<T>, x: T)
    ensures multiset(xs + more)[x] == multiset(xs)[x] + multiset(more)[x]
  {
  }

  lemma CountOfOne<T>(x: T, y: T)
    ensures multiset([x])[y] == if x == y then 1 else 0
  {
  }

  function AdOf(f: Flight, ad: Ad): seq<Candidate> {
    if ad.isActive && ad.flightId == f.id then [Candidate(ad, f)] else []
  }

  lemma AdsOfLast(f: Flight, init: seq<Ad>, last: Ad)
    ensures AdsOf(f, init + [last]) == AdsOf(f, init) + AdOf(f, last)
  {
    assert (init + [last])[..|init|] == init;
  }

  lemma {:induction false} AdsOfOnce(f: Flight, ads: seq<Ad>, c: Candidate)
    ensures multiset(AdsOf(f, ads))[c] <= multiset(ads)[c.ad]
    ensures c.flight != f ==> multiset(AdsOf(f, ads))[c] == 0
  {
    if ads != [] {
      var init, last := ads[..|ads| - 1], ads[|ads| - 1];
      AdsOfOnce(f, init, c);
      assert ads == init + [last];
      AdsOfLast(f, init, last);
      hide AdsOf;
      CountAdded(AdsOf(f, init), AdOf(f, last), c);
      CountAdded(init, [last], c.ad);
      CountOfOne(Candidate(last, f), c);
      CountOfOne(last, c.ad);
    }
  }

  lemma {:induction false} FilteredOnce(flights: seq<Flight>, ads: seq<Ad>, p: Placement, block: BlockSet, nowMs: int,
                                        c: Candidate)
    requires NoRepeats(flights) && NoRepeats(ads)
    ensures multiset(Filtered(flights, ads, p, block, nowMs))[c] <= 1
  {
    if flights != [] {
      var init, f := flights[..|flights| - 1], flights[|flights| - 1];
      FilteredOnce(init, ads, p, block, nowMs, c);
      FilteredAreEligible(init, ads, p, block, nowMs, c);
      AdsOfOnce(f, ads, c);
      OnceEach(ads);
      assert c in Filtered(init, ads, p, block, nowMs) <==> multiset(Filtered(init, ads, p, block, nowMs))[c] > 0;
    }
  }

  /** A snapshot that lists no flight and no ad twice offers no candidate twice. */
  lemma TopHasNoRepeats(flights: seq<Flight>, ads: seq<Ad>, p: Placement, block: BlockSet, nowMs: int)
    requires NoRepeats(flights) && NoRepeats(ads)
    ensures NoRepeats(Priority(Filtered(flights, ads, p, block, nowMs)))
  {
    hide Priority, Filtered, NoRepeats;
    var cands := Filtered(flights, ads, p, block, nowMs);
    forall c
      ensures multiset(Priority(cands))[c] <= 1
    {
      FilteredOnce(flights, ads, p, block, nowMs, c);
      PriorityKeepsTop(cands, c);
    }
    OnceEach(Priority(cands));
  }

  /** The candidates a sample chooses, whatever their order. */
  function Chosen(cands: seq<Candidate>, count: nat, rng: nat -> nat): set<Candidate> {
    set c | c in Sample(cands, count, rng)
  }

  lemma ChosenAreDrawn(cands: seq<Candidate>, count: nat, rng: nat -> nat, i: nat)
    requires NoRepeats(cands) && i < |cands|
    ensures cands[i] in Chosen(cands, count, rng)
       <==> i in Elements(Draw(Weights(cands), Rounds(|cands|, count), 0, rng))
  {
    hide Draw, Weights;
    var slots := Draw(Weights(cands), Rounds(|cands|, count), 0, rng);
    if i in Elements(slots) {
      var j :| 0 <= j < |slots| && slots[j] == i;
      assert Sample(cands, count, rng)[j] == cands[i];
    }
    if cands[i] in Chosen(cands, count, rng) {
      var j :| 0 <= j < |slots| && Sample(cands, count, rng)[j] == cands[i];
      assert slots[j] == i;
    }
  }

  lemma ChosenAreCandidates(cands: seq<Candidate>, count: nat, rng: nat -> nat)
    ensures forall c :: c in Chosen(cands, count, rng) ==> c in cands
  {
    hide Draw;
  }

  lemma SameChoiceIff(cands: seq<Candidate>, count: nat, r: nat -> nat, s: nat -> nat)
    requires NoRepeats(cands)
    ensures var w, n := Weights(cands), Rounds(|cands|, count);
            (Chosen(cands, count, r) == Chosen(cands, count, s)
             <==> Elements(Draw(w, n, 0, r)) == Elements(Draw(w, n, 0, s)))
  {
    hide Draw, Chosen, Elements, NoRepeats, Rounds;
    var w, n := Weights(cands), Rounds(|cands|, count);
    var a, b := Elements(Draw(w, n, 0, r)), Elements(Draw(w, n, 0, s));
    ChosenAreCandidates(cands, count, r);
    ChosenAreCandidates(cands, count, s);
    DrawnElements(w, n, r);
    DrawnElements(w, n, s);
    forall i | 0 <= i < |cands|
      ensures cands[i] in Chosen(cands, count, r) <==> i in a
      ensures cands[i] in Chosen(cands, count, s) <==> i in b
    {
      ChosenAreDrawn(cands, count, r, i);
      ChosenAreDrawn(cands, count, s, i);
    }
    if Chosen(cands, count, r) == Chosen(cands, count, s) {
      assert forall i :: i in a <==> i in b;
    }
  }

  /** The same candidates are chosen whatever the rolls if the rounds are none, or enough for all. */
  lemma SameChoice(cands: seq<Candidate>, count: nat, r: nat -> nat, s: nat -> nat)
    requires NoRepeats(cands) && (Rounds(|cands|, count) == 0 || Drawable(cands) <= Rounds(|cands|, count))
    ensures Chosen(cands, count, r) == Chosen(cands, count, s)
  {
    hide Draw, Chosen, Elements, NoRepeats, Rounds, Positives, Weights;
    WeightsNonNegative(cands);
    SameDrawnSet(Weights(cands), Rounds(|cands|, count), r, s);
    SameChoiceIff(cands, count, r, s);
  }

  /** Otherwise there are rolls that choose differently. */
  lemma OtherChoice(cands: seq<Candidate>, count: nat) returns (r: nat -> nat, s: nat -> nat)
    requires NoRepeats(cands) && 0 < Rounds(|cands|, count) < Drawable(cands)
    ensures Chosen(cands, count, r) != Chosen(cands, count, s)
  {
    hide Draw, Chosen, Elements, NoRepeats, Rounds, Positives, Weights;
    WeightsNonNegative(cands);
    r, s := OtherDrawnSet(Weights(cands), Rounds(|cands|, count));
    SameChoiceIff(cands, count, r, s);
  }

  lemma SameSample(cands: seq<Candidate>, count: nat, r: nat -> nat, s: nat -> nat)
    requires Rounds(|cands|, count) == 0 || Drawable(cands) <= 1
    ensures Sample(cands, count, r) == Sample(cands, count, s)
  {
    hide Draw, Rounds, Positives, Weights;
    WeightsNonNegative(cands);
    SameDrawnList(Weights(cands), Rounds(|cands|, count), r, s);
  }

  lemma OtherSample(cands: seq<Candidate>, count: nat) returns (r: nat -> nat, s: nat -> nat)
    requires NoRepeats(cands) && Rounds(|cands|, count) > 0 && Drawable(cands) > 1
    ensures Sample(cands, count, r) != Sample(cands, count, s)
  {
    hide Draw, Rounds, Positives, Weights;
    WeightsNonNegative(cands);
    var w, n := Weights(cands), Rounds(|cands|, count);
    r, s := OtherDrawnList(w, n);
    assert Sample(cands, count, r) != [] && Sample(cands, count, r)[0] == cands[Draw(w, n, 0, r)[0]];
    assert Sample(cands, count, s) != [] && Sample(cands, count, s)[0] == cands[Draw(w, n, 0, s)[0]];
  }
}
