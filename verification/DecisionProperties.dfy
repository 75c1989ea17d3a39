/** What a successful decision promises: eligible ads, events in step, URLs that verify. */
module DecisionProperties {
  import opened Prelude
  import opened Wire
  import opened SignedUrls
  import opened Selection
  import opened Snapshots
  import opened Events
  import opened EventEndpoints
  import opened Decisions

  // ----- ads and events in step ---------------------------------------------

  predicate DistinctIds(slots: seq<Slot>) {
    forall i, j :: 0 <= i < j < |slots| ==> slots[i].id != slots[j].id
  }

  /** A returned ad and its Decision event tell the same story. */
  predicate InStep(ad: DecisionAd, e: Event) {
    && e.kind == Decision
    && e.adId == Some(ad.adId) && e.flightId == Some(ad.flightId) && e.campaignId == Some(ad.campaignId)
    && e.advertiserId == Some(ad.advertiserId) && e.siteId == Some(ad.siteId)
    && OrDefault(e.creativeId, 0) == ad.creativeId
  }

  lemma {:induction false} DecisionsAt(call: Call, slots: seq<Slot>, n: nat)
    requires n <= |slots|
    ensures forall id :: id in DecisionsUpTo(call, slots, n) <==> exists i :: 0 <= i < n && slots[i].id == id
    ensures DistinctIds(slots) ==>
              forall i :: 0 <= i < n ==> slots[i].id in DecisionsUpTo(call, slots, n)
                                         && DecisionsUpTo(call, slots, n)[slots[i].id] == AdsAt(call, slots, i)
  {
    hide AdsAt;
    if n > 0 {
      DecisionsAt(call, slots, n - 1);
    }
  }

  /** Position of placement `n`'s events in the whole list. */
  function Offset(call: Call, slots: seq<Slot>, n: nat): nat
    requires n <= |slots|
  {
    if n == 0 then 0 else Offset(call, slots, n - 1) + |AdsAt(call, slots, n - 1)|
  }

  lemma {:induction false} EventsAreConcatenated(call: Call, slots: seq<Slot>, n: nat, i: nat)
    requires i < n <= |slots|
    ensures |EventsUpTo(call, slots, n)| == Offset(call, slots, n)
    ensures Offset(call, slots, i) + |AdsAt(call, slots, i)| <= Offset(call, slots, n)
    ensures EventsUpTo(call, slots, n)[Offset(call, slots, i)..Offset(call, slots, i) + |AdsAt(call, slots, i)|]
         == EventsAt(call, slots, i)
    decreases n
  {
    hide ServedFor, SiteOr0, AdFor, DecisionEvent;
    assert |EventsAt(call, slots, n - 1)| == |AdsAt(call, slots, n - 1)|;
    if n == 1 {
      assert EventsUpTo(call, slots, 0) == [] && Offset(call, slots, 0) == 0;
    } else if i == n - 1 {
      EventsAreConcatenated(call, slots, n - 1, 0);
    } else {
      EventsAreConcatenated(call, slots, n - 1, i);
    }
  }

  /**
   For distinct placement ids: one response entry per placement, and the event list
   is, placement after placement, one Decision event per returned ad, agreeing on
   ad, flight, campaign, advertiser, site and creative.
   */
  lemma AdsAndEventsInStep(call: Call, slots: seq<Slot>, i: nat, j: nat)
    requires DistinctIds(slots) && i < |slots|
    ensures var decisions := DecisionsUpTo(call, slots, |slots|);
            && (forall id :: id in decisions <==> exists k :: 0 <= k < |slots| && slots[k].id == id)
            && |EventsUpTo(call, slots, |slots|)| == Offset(call, slots, |slots|)
            && var ads := decisions[slots[i].id];
               j < |ads| ==>
                 && Offset(call, slots, i) + j < |EventsUpTo(call, slots, |slots|)|
                 && var e := EventsUpTo(call, slots, |slots|)[Offset(call, slots, i) + j];
                    InStep(ads[j], e) && e.placementId == Some(slots[i].id)
  {
    hide DecisionsUpTo, EventsUpTo, Offset, ServedFor, SiteOr0, SignedFor, ShownFor;
    DecisionsAt(call, slots, |slots|);
    EventsAreConcatenated(call, slots, |slots|, i);
    var ads := AdsAt(call, slots, i);
    if j < |ads| {
      var es := EventsAt(call, slots, i);
      assert InStep(ads[j], es[j]) && es[j].placementId == Some(slots[i].id);
      assert EventsUpTo(call, slots, |slots|)[Offset(call, slots, i)..Offset(call, slots, i) + |ads|][j] == es[j];
    }
  }

  lemma {:induction false} RenderedMembers(call: Call, slot: Slot, picks: seq<Candidate>, c: Candidate)
    ensures multiset(Rendered(call, slot, picks))[c] == if Renders(call, slot, c) then multiset(picks)[c] else 0
    ensures |Rendered(call, slot, picks)| <= |picks|
  {
    hide Renders;
    if picks != [] {
      RenderedMembers(call, slot, picks[..|picks| - 1], c);
      assert picks == picks[..|picks| - 1] + [picks[|picks| - 1]];
    }
  }

  /** A failed render removes an ad from both lists, and nothing else is removed. */
  lemma OnlyFailedRendersDrop(call: Call, slots: seq<Slot>, i: nat, c: Candidate)
    requires i < |slots| && ResolveSite(call.project, slots[i]).Some?
    ensures var picks := Picks(call, slots[i], SiteOr0(call, slots[i]), i);
            && multiset(ServedFor(call, slots, i))[c] == (if Renders(call, slots[i], c) then multiset(picks)[c] else 0)
            && |AdsAt(call, slots, i)| == |EventsAt(call, slots, i)| == |ServedFor(call, slots, i)|
  {
    hide Picks, Renders, AdFor, DecisionEvent;
    RenderedMembers(call, slots[i], Picks(call, slots[i], SiteOr0(call, slots[i]), i), c);
  }

  /** The override finds a candidate iff the first ad with the id has a flight in the snapshot. */
  lemma ForcedCandidateIff(project: Project, id: int, i: nat)
    requires i < |project.ads| ==> project.ads[i].id == id && forall k :: 0 <= k < i ==> project.ads[k].id != id
    requires i >= |project.ads| ==> forall a :: a in project.ads ==> a.id != id
    ensures ForcedCandidate(project, id).Some?
       <==> i < |project.ads| && exists f :: f in project.flights && f.id == project.ads[i].flightId
    ensures ForcedCandidate(project, id).Some? ==>
              var c := ForcedCandidate(project, id).value;
              c.ad == project.ads[i] && c.flight in project.flights && c.flight.id == c.ad.flightId
  {
    FoundAd(project.ads, id, i);
    if i < |project.ads| {
      FoundFlight(project.flights, project.ads[i].flightId, 0);
    }
  }

  /**
   Forcing an ad id yields exactly that ad when the site resolves, the ad and its
   flight are in the snapshot and it renders; otherwise it yields none.
   */
  lemma ForcedServesItOrNothing(call: Call, slots: seq<Slot>, i: nat)
    requires i < |slots| && ForcedId(call, slots[i]).Some?
    ensures var id := ForcedId(call, slots[i]).value;
            var forced := ForcedCandidate(call.project, id);
            && ((exists a :: a in call.project.ads && a.id == id) && forced.None? ==>
                  exists a :: a in call.project.ads && a.id == id
                              && forall f :: f in call.project.flights ==> f.id != a.flightId)
            && (forced.Some? ==> forced.value.ad in call.project.ads && forced.value.ad.id == id
                                 && forced.value.flight in call.project.flights
                                 && forced.value.flight.id == forced.value.ad.flightId)
            && ServedFor(call, slots, i)
               == if ResolveSite(call.project, slots[i]).Some? && forced.Some? && Renders(call, slots[i], forced.value)
                  then [forced.value] else []
  {
    hide Renders;
    var id := ForcedId(call, slots[i]).value;
    FoundAd(call.project.ads, id, 0);
    if FindAd(call.project.ads, id).Some? {
      FoundFlight(call.project.flights, FindAd(call.project.ads, id).value.flightId, 0);
    }
    var forced := ForcedCandidate(call.project, id);
    if forced.Some? {
      RenderedOne(call, slots[i], forced.value);
    }
  }

  lemma RenderedOne(call: Call, slot: Slot, c: Candidate)
    ensures Rendered(call, slot, [c]) == if Renders(call, slot, c) then [c] else []
  {
    hide Renders;
    assert [c][..0] == [];
  }

  /** Looking up an ad fails only if no ad has the id, and otherwise finds the first that does. */
  lemma {:induction false} FoundAd(ads: seq<Ad>, id: int, i: nat)
    ensures FindAd(ads, id).None? <==> forall a :: a in ads ==> a.id != id
    ensures FindAd(ads, id).Some? ==> FindAd(ads, id).value in ads && FindAd(ads, id).value.id == id
    ensures i < |ads| && ads[i].id == id && (forall k :: 0 <= k < i ==> ads[k].id != id) ==>
              FindAd(ads, id) == Some(ads[i])
  {
    if ads != [] {
      FoundAd(ads[1..], id, if i > 0 then i - 1 else 0);
      assert forall k :: 0 < k < |ads| ==> ads[k] == ads[1..][k - 1];
      assert forall a :: a in ads <==> a == ads[0] || a in ads[1..];
    }
  }

  lemma {:induction false} FoundFlight(flights: seq<Flight>, id: int, i: nat)
    ensures FindFlight(flights, id).None? <==> forall f :: f in flights ==> f.id != id
    ensures FindFlight(flights, id).Some? ==>
              FindFlight(flights, id).value in flights && FindFlight(flights, id).value.id == id
    ensures i < |flights| && flights[i].id == id && (forall k :: 0 <= k < i ==> flights[k].id != id) ==>
              FindFlight(flights, id) == Some(flights[i])
  {
    if flights != [] {
      FoundFlight(flights[1..], id, if i > 0 then i - 1 else 0);
      assert forall k :: 0 < k < |flights| ==> flights[k] == flights[1..][k - 1];
      assert forall f :: f in flights <==> f == flights[0] || f in flights[1..];
    }
  }

  // ----- eligibility --------------------------------------------------------

  /**
   Every ad served without an override is an eligible pair of the snapshot with
   positive weight, and no eligible pair there has a better tier.
   */
  lemma ServedAreEligible(call: Call, slots: seq<Slot>, i: nat, c: Candidate)
    requires i < |slots| && ForcedId(call, slots[i]).None?
    requires c in ServedFor(call, slots, i)
    ensures var p := PlacementOf(slots[i], SiteOr0(call, slots[i]));
            && c.ad in call.project.ads && c.flight in call.project.flights && c.ad.weight > 0
            && Eligible(c, p, call.block, call.nowMs)
            && forall d: Candidate ::
                 (d.ad in call.project.ads && d.flight in call.project.flights
                  && Eligible(d, p, call.block, call.nowMs)) ==> c.flight.tier <= d.flight.tier
  {
    hide Renders, Eligible, Sample, Priority, Filtered;
    var slot, site := slots[i], SiteOr0(call, slots[i]);
    var p := PlacementOf(slot, site);
    var cands := Filtered(call.project.flights, call.project.ads, p, call.block, call.nowMs);
    var picks := Picks(call, slot, site, i);
    RenderedMembers(call, slot, picks, c);
    assert multiset(ServedFor(call, slots, i))[c] > 0;
    assert c in picks;
    SampledAreCandidates(Priority(cands), p.count, call.env.rolls(i), c);
    PriorityKeepsTop(cands, c);
    FilteredAreEligible(call.project.flights, call.project.ads, p, call.block, call.nowMs, c);
    forall d: Candidate | d.ad in call.project.ads && d.flight in call.project.flights
                          && Eligible(d, p, call.block, call.nowMs)
      ensures c.flight.tier <= d.flight.tier
    {
      FilteredAreEligible(call.project.flights, call.project.ads, p, call.block, call.nowMs, d);
    }
  }

  lemma SampledAreCandidates(cands: seq<Candidate>, count: nat, rng: nat -> nat, c: Candidate)
    requires c in Sample(cands, count, rng)
    ensures c in cands && c.ad.weight > 0
  {
    SampleIsExact(cands, count, rng);
  }

  /** At most the asked-for number of ads, itself never outside 1 to 10. */
  lemma ServedCountIsBounded(call: Call, slots: seq<Slot>, i: nat)
    requires i < |slots| && ForcedId(call, slots[i]).None?
    ensures |AdsAt(call, slots, i)| <= Max(1, Min(10, OrDefault(slots[i].count, 1)))
  {
    hide Renders, Draw, AdFor, Priority, Filtered, Sample;
    if ResolveSite(call.project, slots[i]).Some? {
      var site := SiteOr0(call, slots[i]);
      var p := PlacementOf(slots[i], site);
      var picks := Picks(call, slots[i], site, i);
      SampleIsExact(TopCandidates(call, slots[i], site), p.count, call.env.rolls(i));
      SampleAtMost(TopCandidates(call, slots[i], site), p.count, call.env.rolls(i));
      if picks == [] {
        assert Rendered(call, slots[i], picks) == [];
      } else {
        RenderedMembers(call, slots[i], picks, picks[0]);
      }
    }
  }

  lemma SampleAtMost(cands: seq<Candidate>, count: nat, rng: nat -> nat)
    ensures |Sample(cands, count, rng)| <= count
  {
    DrawnSlots(Weights(cands), Rounds(|cands|, count), 0, rng);
  }

  // ----- requests that are answered -----------------------------------------

  /** The request ends at the first placement, in order, that ends it. */
  lemma {:induction false} FirstHaltIff(call: Call, slots: seq<Slot>, n: nat)
    requires n <= |slots|
    ensures FirstHalt(call, slots, n) == Some(AdTypesRequired)
       <==> exists i :: 0 <= i < n && Rejects(call, slots[i])
              && forall k :: 0 <= k < i ==> !Rejects(call, slots[k]) && !CannotSign(call, slots, k)
    ensures FirstHalt(call, slots, n).None?
       <==> forall i :: 0 <= i < n ==> !Rejects(call, slots[i]) && !CannotSign(call, slots, i)
    ensures |call.projectId| <= 255 ==> FirstHalt(call, slots, n) != Some(Panicked)
  {
    hide Rejects, CannotSign;
    if n > 0 {
      FirstHaltIff(call, slots, n - 1);
      if |call.projectId| <= 255 {
        ShortIdSigns(call, slots, n - 1);
      }
    }
  }

  lemma ShortIdSigns(call: Call, slots: seq<Slot>, i: nat)
    requires i < |slots| && |call.projectId| <= 255
    ensures !CannotSign(call, slots, i)
  {
  }

  lemma NothingPickedNothingServed(call: Call, slot: Slot, site: int)
    ensures Rendered(call, slot, []) == [] && AdsFor(call, slot, site, []) == []
  {
  }

  /** An answer with an ad in it is only given where the project id can be signed. */
  lemma AnsweredCanSign(call: Call, slots: seq<Slot>, i: nat)
    requires FirstHalt(call, slots, |slots|).None? && i < |slots| && AdsAt(call, slots, i) != []
    ensures |call.projectId| <= 255
  {
    hide Picks, Renders, AdFor, FirstHalt;
    FirstHaltIff(call, slots, |slots|);
    assert !CannotSign(call, slots, i);
    NothingPickedNothingServed(call, slots[i], SiteOr0(call, slots[i]));
  }

  // ----- minted URLs --------------------------------------------------------

  lemma PayloadIsWellTyped(call: Call, slot: Slot, c: Candidate)
    requires ValidUtf8(call.projectId)
    ensures WellTyped(PayloadFor(call, slot, c))
  {
    hide ValidUtf8;
  }

  /**
   The URLs of an ad in an answer carry one signed string. Under any snapshot that still
   has the signing secret as the project's current or previous one, the event
   endpoint accepts it from minting until the TTL is over, and not after; accepted,
   it yields the ad id, the creative id (0 for none) and the nonce of the event
   emitted with it.
   */
  lemma ReturnedUrlsVerify(call: Call, slots: seq<Slot>, i: nat, j: nat, snap: Snapshot, now: u64)
    requires FirstHalt(call, slots, |slots|).None? && ValidUtf8(call.projectId)
    requires i < |slots| && j < |AdsAt(call, slots, i)|
    requires 0 <= call.nowMs && call.nowMs / 1000 < TWO_64
    requires call.projectId in snap.projects
    requires call.project.secret == snap.projects[call.projectId].secret
             || snap.projects[call.projectId].previousSecret == Some(call.project.secret)
    ensures var ad, e := AdsAt(call, slots, i)[j], EventsAt(call, slots, i)[j];
            exists signed: string, hit: Hit ::
              && ad.clickUrl == ClickUrl(signed) && ad.impressionUrl == ImpressionUrl(signed)
              && VerifyAgainstSnapshot(snap, signed, now, call.env.mac)
                 == (if now <= call.nowMs / 1000 + DEFAULT_TTL_SECS then Ok(hit) else Err(Expired))
              && hit.projectId == e.projectId
              && hit.payload.adId == ad.adId && hit.payload.creativeId == ad.creativeId
              && Some(hit.payload.nonce) == e.signatureNonce
  {
    hide VerifyAgainstSnapshot, Sign, ServedFor, SiteOr0, ValidUtf8, MintNonce, PlacementHash, FirstHalt;
    AnsweredCanSign(call, slots, i);
    var c := ServedFor(call, slots, i)[j];
    var slot := slots[i];
    var p := PayloadFor(call, slot, c);
    PayloadIsWellTyped(call, slot, c);
    assert p.issuedAt == call.nowMs / 1000;
    MintedUrlIsAccepted(snap, p, call.project.secret, now, call.env.mac);
    var signed := SignedFor(call, slot, c);
    var hit := Hit(p, p.projectId, snap.projects[p.projectId].orgId);
    assert VerifyAgainstSnapshot(snap, signed, now, call.env.mac)
        == if now <= call.nowMs / 1000 + DEFAULT_TTL_SECS then Ok(hit) else Err(Expired);
  }

  /**
   A click on a returned URL lands on the target that the current snapshot has for
   the very ad it was returned for, and is refused once the TTL is over.
   */
  lemma ClickLandsOnTarget(call: Call, slots: seq<Slot>, i: nat, j: nat, snap: Snapshot, now: u64)
    requires FirstHalt(call, slots, |slots|).None? && ValidUtf8(call.projectId)
    requires i < |slots| && j < |AdsAt(call, slots, i)|
    requires 0 <= call.nowMs && call.nowMs / 1000 < TWO_64
    requires call.projectId in snap.projects
    requires call.project.secret == snap.projects[call.projectId].secret
             || snap.projects[call.projectId].previousSecret == Some(call.project.secret)
    ensures var ad := AdsAt(call, slots, i)[j];
            exists signed: string ::
              && ad.clickUrl == ClickUrl(signed)
              && ClickReply(snap, signed, now, call.env.mac)
                 == if now <= call.nowMs / 1000 + DEFAULT_TTL_SECS
                    then Found(ResolveRedirect(snap, call.projectId, ad.adId)) else BadSignatureReply
  {
    hide VerifyAgainstSnapshot, AdsAt, EventsAt, FirstHalt, ValidUtf8, ResolveRedirect;
    ReturnedUrlsVerify(call, slots, i, j, snap, now);
    EventProject(call, slots, i, j);
  }

  lemma EventProject(call: Call, slots: seq<Slot>, i: nat, j: nat)
    requires i < |slots| && j < |AdsAt(call, slots, i)|
    ensures |EventsAt(call, slots, i)| == |AdsAt(call, slots, i)|
    ensures EventsAt(call, slots, i)[j].projectId == call.projectId
  {
    hide ServedFor, SiteOr0;
  }

  /** Exactly when two mints, of any ads at any times, give the same nonce. */
  lemma NonceCollidesIff(nowMs: int, a: i64, laterMs: int, b: i64)
    ensures MintNonce(nowMs, a) == MintNonce(laterMs, b)
       <==> ((nowMs - laterMs) * 2_654_435_761 + (a - b)) % TWO_64 == 0
  {
    hide U64Bytes, U64FromBytes;
    var x, y := nowMs * 2_654_435_761 + a, laterMs * 2_654_435_761 + b;
    U64RoundTrip(x % TWO_64, []);
    U64RoundTrip(y % TWO_64, []);
    SameRemainder(x, y);
    assert x - y == (nowMs - laterMs) * 2_654_435_761 + (a - b);
  }

  lemma SameRemainder(x: int, y: int)
    ensures x % TWO_64 == y % TWO_64 <==> (x - y) % TWO_64 == 0
  {
  }

  /**
   So at one instant the nonce tells ads apart and nothing else: two placements of
   one response that serve the same ad share it.
   */
  lemma NonceIsPerAd(nowMs: int, a: i64, b: i64)
    ensures MintNonce(nowMs, a) == MintNonce(nowMs, b) <==> a == b
  {
    hide MintNonce;
    NonceCollidesIff(nowMs, a, nowMs, b);
  }

  /**
   So their pings carry the same dedup key: of the impressions of one ad in two
   placements of a response, the key cannot tell which was which.
   */
  lemma SameAdSharesDedupKey(call: Call, slot: Slot, other: Slot, c: Candidate, d: Candidate, click: bool,
                             orgId: string, version: int, nowMs: int)
    requires c.ad.id == d.ad.id
    ensures var hit := Hit(PayloadFor(call, slot, c), call.projectId, orgId);
            var otherHit := Hit(PayloadFor(call, other, d), call.projectId, orgId);
            PingEvent(click, hit, version, nowMs, call.env.mac).dedupKey
            == PingEvent(click, otherHit, version, nowMs, call.env.mac).dedupKey
    ensures DecisionEvent(call, slot, 0, c).signatureNonce == DecisionEvent(call, other, 0, d).signatureNonce
  {
    hide MintNonce, PlacementHash;
  }

  /** The ping recorded for such a URL names the same ad and creative as the decision did. */
  lemma PingMatchesDecision(call: Call, slot: Slot, site: int, c: Candidate, click: bool, orgId: string, version: int,
                            nowMs: int)
    ensures var hit := Hit(PayloadFor(call, slot, c), call.projectId, orgId);
            var ping := PingEvent(click, hit, version, nowMs, call.env.mac);
            var e := DecisionEvent(call, slot, site, c);
            && ping.adId == e.adId && ping.signatureNonce == e.signatureNonce && ping.projectId == e.projectId
            && (ping.creativeId == e.creativeId <==> c.ad.creativeId != Some(0))
  {
    hide MintNonce, PlacementHash, DedupKey;
  }

  // ----- site resolution ----------------------------------------------------

  /** What a placement asks of a site: its id if it names one, else its URL or an alias. */
  predicate SiteFits(s: Site, slot: Slot) {
    if slot.siteId.Some? then s.id == slot.siteId.value
    else slot.siteUrl.Some? && (s.url == slot.siteUrl.value || slot.siteUrl.value in s.aliases)
  }

  /** A placement resolves to the first site of the project that fits, and fails only if none does. */
  lemma {:induction false} SiteResolution(sites: seq<Site>, slot: Slot, i: nat)
    ensures FindSite(sites, slot).None? <==> forall s :: s in sites ==> !SiteFits(s, slot)
    ensures i < |sites| && SiteFits(sites[i], slot) && (forall k :: 0 <= k < i ==> !SiteFits(sites[k], slot)) ==>
              FindSite(sites, slot) == Some(sites[i].id)
  {
    if sites != [] {
      SiteResolution(sites[1..], slot, if i > 0 then i - 1 else 0);
      assert sites[0] in sites;
      assert forall k :: 0 < k < |sites| ==> sites[k] == sites[1..][k - 1];
      assert forall s :: s in sites <==> s == sites[0] || s in sites[1..];
    }
  }
}
