/** The decision explainer: which rules each ad of the snapshot passes, and how that relates to selection. */
module Explain {
  import opened Prelude
  import opened Selection
  import opened SampleRolls
  import opened Snapshots
  import opened Decisions
  import DecisionProperties

  datatype Rule = FlightActive | AdActive | SiteMatch | AdTypeMatch | BlockAdvertiserOrCampaign | WeightedRandomPick

  datatype Verdict = Pass | Fail | Selected

  datatype Evaluation = Evaluation(rule: Rule, verdict: Verdict)

  datatype Explained = Explained(adId: int, creativeId: int, flightId: int, campaignId: int, advertiserId: int,
                                 weight: int, evaluation: seq<Evaluation>)

  function Judge(rule: Rule, pass: bool): Evaluation {
    Evaluation(rule, if pass then Pass else Fail)
  }

  /** The rules the explainer lists, in order. It has none for dates or zones. */
  function Evaluate(ad: Ad, flight: Flight, slot: Slot, site: Option<int>, block: BlockSet): seq<Evaluation> {
    [Judge(FlightActive, flight.isActive),
     Judge(AdActive, ad.isActive),
     Judge(SiteMatch, site.Some? && (flight.siteIds == [] || site.value in flight.siteIds)),
     Judge(AdTypeMatch, flight.adTypes == [] || AnyIn(slot.adTypes, flight.adTypes)),
     Judge(BlockAdvertiserOrCampaign,
           !(flight.advertiserId in block.advertiserIds || flight.campaignId in block.campaignIds))]
  }

  function ExplainOne(ad: Ad, flight: Flight, slot: Slot, site: Option<int>, block: BlockSet): Explained {
    Explained(ad.id, OrDefault(ad.creativeId, 0), flight.id, flight.campaignId, flight.advertiserId, ad.weight,
              Evaluate(ad, flight, slot, site, block))
  }

  /** One entry per ad whose flight is in the snapshot, in snapshot order. */
  function ExplainAds(project: Project, ads: seq<Ad>, slot: Slot, site: Option<int>, block: BlockSet): seq<Explained> {
    if ads == [] then []
    else
      var ad := ads[|ads| - 1];
      ExplainAds(project, ads[..|ads| - 1], slot, site, block) +
      match FindFlight(project.flights, ad.flightId)
      case None => []
      case Some(flight) => [ExplainOne(ad, flight, slot, site, block)]
  }

  /** The chosen ad's entries get one more line. */
  function Marked(entries: seq<Explained>, selected: Option<int>): seq<Explained> {
    seq(|entries|, i requires 0 <= i < |entries| =>
      if Some(entries[i].adId) == selected
      then entries[i].(evaluation := entries[i].evaluation + [Evaluation(WeightedRandomPick, Selected)])
      else entries[i])
  }

  method ClassifyRules(ad: Ad, flight: Flight, slot: Slot, site: Option<int>, block: BlockSet)
    returns (eval: seq<Evaluation>)
    ensures eval == Evaluate(ad, flight, slot, site, block)
  {
    hide AnyIn;
    eval := [];
    eval := eval + [if !flight.isActive then Evaluation(FlightActive, Fail) else Evaluation(FlightActive, Pass)];
    eval := eval + [if !ad.isActive then Evaluation(AdActive, Fail) else Evaluation(AdActive, Pass)];
    if site.Some? {
      var pass := flight.siteIds == [] || site.value in flight.siteIds;
      eval := eval + [Judge(SiteMatch, pass)];
    } else {
      eval := eval + [Evaluation(SiteMatch, Fail)];
    }
    var adTypeMatch := flight.adTypes == [] || AnyIn(slot.adTypes, flight.adTypes);
    eval := eval + [Judge(AdTypeMatch, adTypeMatch)];
    var blockDrop := flight.advertiserId in block.advertiserIds || flight.campaignId in block.campaignIds;
    eval := eval + [Judge(BlockAdvertiserOrCampaign, !blockDrop)];
  }

  // ----- one placement, and the whole request -------------------------------

  const DUMMY_CLICK := "/e/c/__explain_dummy__"
  const DUMMY_IMPRESSION := "/e/i/__explain_dummy__"

  datatype Explanation = Explanation(tier: Option<int>, selectedAdId: Option<int>, candidates: seq<Explained>)

  /** A pick as the explainer returns it: no signed URLs, nothing rendered. */
  function DummyAd(site: int, c: Candidate): DecisionAd {
    DecisionAd(c.ad.id, OrDefault(c.ad.creativeId, 0), c.flight.id, c.flight.campaignId, c.flight.advertiserId,
               c.flight.tier, site, DUMMY_CLICK, DUMMY_IMPRESSION, None)
  }

  function DummyAds(site: int, picks: seq<Candidate>): seq<DecisionAd> {
    seq(|picks|, i requires 0 <= i < |picks| => DummyAd(site, picks[i]))
  }

  function FirstAdId(picks: seq<Candidate>): Option<int> {
    if picks == [] then None else Some(picks[0].ad.id)
  }

  function FirstTier(top: seq<Candidate>): Option<int> {
    if top == [] then None else Some(top[0].flight.tier)
  }

  /** Selection runs only for a resolved site and at least one ad type. */
  predicate Selects(call: Call, slot: Slot) {
    ResolveSite(call.project, slot).Some? && slot.adTypes != []
  }

  function ExplanationAt(call: Call, slots: seq<Slot>, i: nat): Explanation
    requires i < |slots|
  {
    var slot, site := slots[i], ResolveSite(call.project, slots[i]);
    var all := ExplainAds(call.project, call.project.ads, slot, site, call.block);
    if !Selects(call, slot) then Explanation(None, None, all)
    else
      var selected := FirstAdId(Picks(call, slot, site.value, i));
      Explanation(FirstTier(TopCandidates(call, slot, site.value)), selected, Marked(all, selected))
  }

  function ExplainedAdsAt(call: Call, slots: seq<Slot>, i: nat): seq<DecisionAd>
    requires i < |slots|
  {
    var site := ResolveSite(call.project, slots[i]);
    if !Selects(call, slots[i]) then [] else DummyAds(site.value, Picks(call, slots[i], site.value, i))
  }

  function ExplanationsUpTo(call: Call, slots: seq<Slot>, n: nat): map<seq<byte>, Explanation>
    requires n <= |slots|
  {
    if n == 0 then map[]
    else ExplanationsUpTo(call, slots, n - 1)[slots[n - 1].id := ExplanationAt(call, slots, n - 1)]
  }

  function ExplainedAdsUpTo(call: Call, slots: seq<Slot>, n: nat): map<seq<byte>, seq<DecisionAd>>
    requires n <= |slots|
  {
    if n == 0 then map[]
    else ExplainedAdsUpTo(call, slots, n - 1)[slots[n - 1].id := ExplainedAdsAt(call, slots, n - 1)]
  }

  datatype ExplainError = NoPlacements | TooMany | ForceDisabled

  datatype ExplainOutcome = ExplainOutcome(version: int, decisions: map<seq<byte>, seq<DecisionAd>>,
                                           explanation: map<seq<byte>, Explanation>)

  predicate ForceRequested(slots: seq<Slot>) {
    exists slot :: slot in slots && slot.force.Some?
  }

  method ExplainPlacement(call: Call, slots: seq<Slot>, i: nat) returns (e: Explanation, ads: seq<DecisionAd>)
    requires i < |slots|
    ensures e == ExplanationAt(call, slots, i) && ads == ExplainedAdsAt(call, slots, i)
  {
    hide ExplainAds, Sample, Priority, Filtered, ForcedCandidate, ResolveSite, DummyAd;
    var slot := slots[i];
    var resolved := ResolveSite(call.project, slot);
    var candidates := ExplainCandidates(call.project, slot, resolved, call.block);
    if resolved.Some? {
      if slot.adTypes != [] {
        var p := PlacementOf(slot, resolved.value);
        var cands := Filter(call.project.flights, call.project.ads, p, call.block, call.nowMs);
        var top := Priority(cands);
        var picks := WeightedRandom(top, p.count, call.env.rolls(i));
        if call.forceActive {
          if slot.force.Some? && slot.force.value.adId.Some? {
            var forced := ForcedCandidate(call.project, slot.force.value.adId.value);
            if forced.Some? {
              picks := [forced.value];
            } else {
              picks := [];
            }
          }
        }
        assert picks == Picks(call, slot, resolved.value, i);
        var selected := FirstAdId(picks);
        candidates := Mark(candidates, selected);
        return Explanation(FirstTier(top), selected, candidates), DummyAds(resolved.value, picks);
      }
    }
    return Explanation(None, None, candidates), [];
  }

  method ExplainRequest(project: Project, version: int, orgId: string, projectId: seq<byte>, req: Request, nowMs: int,
                        forceAllowed: bool, env: Env)
    returns (r: Result<ExplainOutcome, ExplainError>)
    ensures var slots := req.placements;
            var call := CallOf(project, version, orgId, projectId, req, nowMs, ForceRequested(slots), env);
            r == if |slots| == 0 then Err(NoPlacements)
                 else if |slots| > MAX_PLACEMENTS then Err(TooMany)
                 else if ForceRequested(slots) && !forceAllowed then Err(ForceDisabled)
                 else Ok(ExplainOutcome(version, ExplainedAdsUpTo(call, slots, |slots|),
                                        ExplanationsUpTo(call, slots, |slots|)))
  {
    hide ExplanationAt, ExplainedAdsAt;
    var slots := req.placements;
    if |slots| == 0 {
      return Err(NoPlacements);
    }
    if |slots| > 32 {
      return Err(TooMany);
    }
    var forceActive := false;
    if ForceRequested(slots) {
      if !forceAllowed {
        return Err(ForceDisabled);
      }
      forceActive := true;
    }
    var call := CallOf(project, version, orgId, projectId, req, nowMs, forceActive, env);
    var decisions: map<seq<byte>, seq<DecisionAd>> := map[];
    var explanation: map<seq<byte>, Explanation> := map[];
    for i := 0 to |slots|
      invariant decisions == ExplainedAdsUpTo(call, slots, i)
      invariant explanation == ExplanationsUpTo(call, slots, i)
    {
      var e, ads := ExplainPlacement(call, slots, i);
      decisions := decisions[slots[i].id := ads];
      explanation := explanation[slots[i].id := e];
    }
    return Ok(ExplainOutcome(version, decisions, explanation));
  }

  method ExplainCandidates(project: Project, slot: Slot, site: Option<int>, block: BlockSet)
    returns (out: seq<Explained>)
    ensures out == ExplainAds(project, project.ads, slot, site, block)
  {
    hide Evaluate;
    out := [];
    for i := 0 to |project.ads|
      invariant out == ExplainAds(project, project.ads[..i], slot, site, block)
    {
      var ad := project.ads[i];
      assert project.ads[..i + 1][..i] == project.ads[..i];
      var found := FindFlight(project.flights, ad.flightId);
      if found.None? {
        assert out + [] == out;
        continue;
      }
      var flight := found.value;
      var eval := ClassifyRules(ad, flight, slot, site, block);
      out := out + [Explained(ad.id, OrDefault(ad.creativeId, 0), flight.id, flight.campaignId, flight.advertiserId,
                              ad.weight, eval)];
    }
    assert project.ads[..|project.ads|] == project.ads;
  }

  method Mark(entries: seq<Explained>, selected: Option<int>) returns (out: seq<Explained>)
    ensures out == Marked(entries, selected)
  {
    out := entries;
    for i := 0 to |out|
      invariant |out| == |entries|
      invariant forall j :: 0 <= j < i ==> out[j] == Marked(entries, selected)[j]
      invariant forall j :: i <= j < |out| ==> out[j] == entries[j]
    {
      if selected.Some? && out[i].adId == selected.value {
        out := out[i := out[i].(evaluation := out[i].evaluation + [Evaluation(WeightedRandomPick, Selected)])];
      }
    }
  }

  // ----- explainer and selection --------------------------------------------

  /** No listed rule failed. */
  predicate NoFailure(e: Explained) {
    forall v :: v in e.evaluation ==> v.verdict != Fail
  }

  predicate UniqueFlightIds(flights: seq<Flight>) {
    forall f, g :: f in flights && g in flights && f.id == g.id ==> f == g
  }

  /**
   All listed rules pass exactly for pairs that would be eligible if dates and zones
   were ignored: passing is necessary for being served, and what is missing is the
   flight's window and its zones, nothing else.
   */
  lemma ListedRulesIff(c: Candidate, slot: Slot, site: int, block: BlockSet, nowMs: int)
    requires c.ad.flightId == c.flight.id
    ensures Eligible(c, PlacementOf(slot, site), block, nowMs)
       <==> && NoFailure(ExplainOne(c.ad, c.flight, slot, Some(site), block))
            && ActiveAt(c.flight, nowMs)
            && (c.flight.zoneIds == [] || AnyIn(OrDefault(slot.zoneIds, []), c.flight.zoneIds))
  {
    var e := Evaluate(c.ad, c.flight, slot, Some(site), block);
    assert NoFailure(ExplainOne(c.ad, c.flight, slot, Some(site), block))
      <==> forall k :: 0 <= k < 5 ==> e[k].verdict == Pass;
    assert e[0].rule == FlightActive && e[1].rule == AdActive && e[2].rule == SiteMatch
           && e[3].rule == AdTypeMatch && e[4].rule == BlockAdvertiserOrCampaign;
  }

  lemma {:induction false} ExplainedWhenFound(project: Project, ads: seq<Ad>, slot: Slot, site: Option<int>,
                                              block: BlockSet, ad: Ad, flight: Flight)
    requires ad in ads && FindFlight(project.flights, ad.flightId) == Some(flight)
    ensures ExplainOne(ad, flight, slot, site, block) in ExplainAds(project, ads, slot, site, block)
  {
    hide ExplainOne;
    var init, last := ads[..|ads| - 1], ads[|ads| - 1];
    assert ads == init + [last];
    if ad in init {
      ExplainedWhenFound(project, init, slot, site, block, ad, flight);
    } else {
      assert ad == last;
    }
  }

  lemma {:induction false} FindsTheFlight(flights: seq<Flight>, f: Flight)
    requires f in flights && UniqueFlightIds(flights)
    ensures FindFlight(flights, f.id) == Some(f)
  {
    if flights[0].id != f.id {
      FindsTheFlight(flights[1..], f);
    }
  }

  /** With unique flight ids, every ad served without override has an entry without a failed rule. */
  lemma ServedAdsPassTheExplainer(call: Call, slots: seq<Slot>, i: nat, c: Candidate)
    requires i < |slots| && ForcedId(call, slots[i]).None?
    requires UniqueFlightIds(call.project.flights) && c in ServedFor(call, slots, i)
    ensures exists e ::
              && e in ExplainAds(call.project, call.project.ads, slots[i], ResolveSite(call.project, slots[i]),
                                 call.block)
              && e.adId == c.ad.id && e.flightId == c.flight.id && NoFailure(e)
  {
    hide Eligible, Rendered, Picks, ExplainAds, ExplainOne;
    var slot, site := slots[i], ResolveSite(call.project, slots[i]);
    assert site.Some?;
    DecisionProperties.ServedAreEligible(call, slots, i, c);
    EligibleLinks(c, PlacementOf(slot, site.value), call.block, call.nowMs);
    FindsTheFlight(call.project.flights, c.flight);
    ExplainedWhenFound(call.project, call.project.ads, slot, site, call.block, c.ad, c.flight);
    ListedRulesIff(c, slot, site.value, call.block, call.nowMs);
    ExplainedIds(c, slot, site, call.block);
    var e := ExplainOne(c.ad, c.flight, slot, site, call.block);
    assert NoFailure(e);
  }

  lemma EligibleLinks(c: Candidate, p: Placement, block: BlockSet, nowMs: int)
    requires Eligible(c, p, block, nowMs)
    ensures c.ad.flightId == c.flight.id
  {
  }

  lemma ExplainedIds(c: Candidate, slot: Slot, site: Option<int>, block: BlockSet)
    ensures ExplainOne(c.ad, c.flight, slot, site, block).adId == c.ad.id
    ensures ExplainOne(c.ad, c.flight, slot, site, block).flightId == c.flight.id
  {
  }

  /** What is left of a returned ad when its URLs and creative are taken away. */
  function Blanked(ad: DecisionAd): DecisionAd {
    ad.(clickUrl := DUMMY_CLICK, impressionUrl := DUMMY_IMPRESSION, shown := None)
  }

  /**
   The same request at the same moment, with other rolls: every call seeds its own
   generator afresh, so an explanation and a decision never share them.
   */
  function Reseeded(call: Call, rolls: nat -> nat -> nat): Call {
    call.(env := call.env.(rolls := rolls))
  }

  /** The candidates picked for a placement, whatever their order. */
  function PickedFor(call: Call, slots: seq<Slot>, i: nat): set<Candidate>
    requires i < |slots|
  {
    set c | c in Picks(call, slots[i], SiteOr0(call, slots[i]), i)
  }

  lemma SampledPicks(call: Call, slots: seq<Slot>, i: nat, rolls: nat -> nat -> nat)
    requires i < |slots| && ForcedId(call, slots[i]).None?
    ensures var slot, site := slots[i], SiteOr0(call, slots[i]);
            PickedFor(Reseeded(call, rolls), slots, i)
            == Chosen(TopCandidates(call, slot, site), PlacementOf(slot, site).count, rolls(i))
  {
    hide Sample, Priority, Filtered;
  }

  /**
   The explainer picks what the decision picked exactly as far as the rolls have no
   say. Without override: whatever the two generators yield, iff the rounds drawn
   are none or cover every top-tier ad that can be drawn at all.
   */
  lemma PicksAgreeIff(call: Call, slots: seq<Slot>, i: nat)
    requires i < |slots| && ForcedId(call, slots[i]).None?
    requires NoRepeats(call.project.flights) && NoRepeats(call.project.ads)
    ensures var site := SiteOr0(call, slots[i]);
            var top := TopCandidates(call, slots[i], site);
            var rounds := Rounds(|top|, PlacementOf(slots[i], site).count);
            ((forall r, s: nat -> nat -> nat ::
                PickedFor(Reseeded(call, r), slots, i) == PickedFor(Reseeded(call, s), slots, i))
             <==> rounds == 0 || Drawable(top) <= rounds)
  {
    hide Sample, Priority, Filtered, NoRepeats, Rounds, Drawable, PickedFor, Chosen, ResolveSite;
    var site := SiteOr0(call, slots[i]);
    var top, p := TopCandidates(call, slots[i], site), PlacementOf(slots[i], site);
    TopHasNoRepeats(call.project.flights, call.project.ads, p, call.block, call.nowMs);
    var rounds := Rounds(|top|, p.count);
    if rounds == 0 || Drawable(top) <= rounds {
      forall r, s: nat -> nat -> nat
        ensures PickedFor(Reseeded(call, r), slots, i) == PickedFor(Reseeded(call, s), slots, i)
      {
        SampledPicks(call, slots, i, r);
        SampledPicks(call, slots, i, s);
        SameChoice(top, p.count, r(i), s(i));
      }
    } else {
      var r, s := OtherChoice(top, p.count);
      SampledPicks(call, slots, i, _ => r);
      SampledPicks(call, slots, i, _ => s);
    }
  }

  /** And in the same order, hence with the same ad reported as selected, iff there is no choice to make. */
  lemma PickOrderAgreesIff(call: Call, slots: seq<Slot>, i: nat)
    requires i < |slots| && ForcedId(call, slots[i]).None?
    requires NoRepeats(call.project.flights) && NoRepeats(call.project.ads)
    ensures var site := SiteOr0(call, slots[i]);
            var top := TopCandidates(call, slots[i], site);
            ((forall r, s: nat -> nat -> nat ::
                Picks(Reseeded(call, r), slots[i], site, i) == Picks(Reseeded(call, s), slots[i], site, i))
             <==> Rounds(|top|, PlacementOf(slots[i], site).count) == 0 || Drawable(top) <= 1)
  {
    hide Sample, Priority, Filtered, NoRepeats, Rounds, Drawable, ResolveSite;
    var site := SiteOr0(call, slots[i]);
    var top, p := TopCandidates(call, slots[i], site), PlacementOf(slots[i], site);
    TopHasNoRepeats(call.project.flights, call.project.ads, p, call.block, call.nowMs);
    if Rounds(|top|, p.count) == 0 || Drawable(top) <= 1 {
      forall r, s: nat -> nat -> nat
        ensures Picks(Reseeded(call, r), slots[i], site, i) == Picks(Reseeded(call, s), slots[i], site, i)
      {
        SameSample(top, p.count, r(i), s(i));
      }
    } else {
      var r, s := OtherSample(top, p.count);
      var rs: nat -> nat -> nat, ss: nat -> nat -> nat := _ => r, _ => s;
      assert Picks(Reseeded(call, rs), slots[i], site, i) == Sample(top, p.count, r);
      assert Picks(Reseeded(call, ss), slots[i], site, i) == Sample(top, p.count, s);
    }
  }

  /** Whatever the rolls: the tier, the candidates and the verdicts on every listed rule; and all of it if forced. */
  lemma RollsDecideOnlyPicks(call: Call, slots: seq<Slot>, i: nat, rolls: nat -> nat -> nat)
    requires i < |slots|
    ensures var e, f := ExplanationAt(call, slots, i), ExplanationAt(Reseeded(call, rolls), slots, i);
            && e.tier == f.tier && |e.candidates| == |f.candidates|
            && (forall j :: 0 <= j < |e.candidates| ==>
                  && |e.candidates[j].evaluation| >= 5 && |f.candidates[j].evaluation| >= 5
                  && e.candidates[j].evaluation[..5] == f.candidates[j].evaluation[..5]
                  && e.candidates[j].(evaluation := []) == f.candidates[j].(evaluation := []))
            && (ForcedId(call, slots[i]).Some? ==> e == f)
  {
    hide Sample, Priority, Filtered, ResolveSite, ForcedCandidate;
    var all := ExplainAds(call.project, call.project.ads, slots[i], ResolveSite(call.project, slots[i]), call.block);
    FiveRulesEach(call.project, call.project.ads, slots[i], ResolveSite(call.project, slots[i]), call.block);
    hide ExplainAds;
  }

  lemma {:induction false} FiveRulesEach(project: Project, ads: seq<Ad>, slot: Slot, site: Option<int>, block: BlockSet)
    ensures forall e :: e in ExplainAds(project, ads, slot, site, block) ==> |e.evaluation| == 5
  {
    if ads != [] {
      FiveRulesEach(project, ads[..|ads| - 1], slot, site, block);
    }
  }

  /**
   When the picks do agree, the explainer shows the decision: a pick that does not
   render is shown and not served; if every pick renders, the decision's ads are
   the explainer's, but for URLs and creatives.
   */
  lemma ExplainerShowsTheDecision(call: Call, rolls: nat -> nat -> nat, slots: seq<Slot>, i: nat, c: Candidate)
    requires i < |slots| && Selects(call, slots[i])
    requires var site := SiteOr0(call, slots[i]);
             Picks(Reseeded(call, rolls), slots[i], site, i) == Picks(call, slots[i], site, i)
    ensures var picks := Picks(call, slots[i], SiteOr0(call, slots[i]), i);
            var shown := ExplainedAdsAt(Reseeded(call, rolls), slots, i);
            && shown == DummyAds(SiteOr0(call, slots[i]), picks)
            && (c in ServedFor(call, slots, i) <==> c in picks && Renders(call, slots[i], c))
            && ((forall d :: d in picks ==> Renders(call, slots[i], d)) ==>
                  && |AdsAt(call, slots, i)| == |shown|
                  && forall j :: 0 <= j < |shown| ==> Blanked(AdsAt(call, slots, i)[j]) == shown[j])
  {
    hide Picks, Renders, SignedFor, ShownFor;
    var picks := Picks(call, slots[i], SiteOr0(call, slots[i]), i);
    DecisionProperties.RenderedMembers(call, slots[i], picks, c);
    assert c in Rendered(call, slots[i], picks) <==> multiset(Rendered(call, slots[i], picks))[c] > 0;
    assert c in picks <==> multiset(picks)[c] > 0;
    if forall d :: d in picks ==> Renders(call, slots[i], d) {
      AllRendered(call, slots[i], picks);
    }
  }

  lemma {:induction false} AllRendered(call: Call, slot: Slot, picks: seq<Candidate>)
    requires forall d :: d in picks ==> Renders(call, slot, d)
    ensures Rendered(call, slot, picks) == picks
  {
    hide Renders;
    if picks != [] {
      AllRendered(call, slot, picks[..|picks| - 1]);
      assert picks == picks[..|picks| - 1] + [picks[|picks| - 1]];
    }
  }

  /** The reported tier is that of every ad served without override, and of no eligible better one. */
  lemma ReportedTierIsServed(call: Call, slots: seq<Slot>, i: nat, c: Candidate)
    requires i < |slots| && Selects(call, slots[i]) && ForcedId(call, slots[i]).None?
    requires c in ServedFor(call, slots, i)
    ensures ExplanationAt(call, slots, i).tier == Some(c.flight.tier)
  {
    hide Renders, Sample, Priority, Filtered, ExplainAds, Marked;
    var slot, site := slots[i], SiteOr0(call, slots[i]);
    var p := PlacementOf(slot, site);
    var cands := Filtered(call.project.flights, call.project.ads, p, call.block, call.nowMs);
    var top := Priority(cands);
    DecisionProperties.RenderedMembers(call, slot, Picks(call, slot, site, i), c);
    assert multiset(ServedFor(call, slots, i))[c] > 0;
    assert c in Picks(call, slot, site, i);
    DecisionProperties.SampledAreCandidates(top, p.count, call.env.rolls(i), c);
    PriorityKeepsTop(cands, c);
    PriorityKeepsTop(cands, top[0]);
  }
}
