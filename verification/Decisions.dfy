/**
 The decision hot path: resolve the site, select ads, sign URLs, and compose the
 response and its Decision events together.
 */
module Decisions {
  import opened Prelude
  import Wire
  import opened SignedUrls
  import opened Selection
  import opened Snapshots
  import opened Events

  const MAX_PLACEMENTS := 32

  datatype Context = Context(url: Option<string>, referrer: Option<string>, userAgent: Option<string>)

  /** Of the overrides only `adId` is acted on. */
  datatype Force = Force(adId: Option<int>)

  datatype Slot = Slot(id: seq<byte>, siteId: Option<int>, siteUrl: Option<string>, zoneIds: Option<seq<int>>,
                       adTypes: seq<int>, count: Option<int>, force: Option<Force>)

  datatype Block = Block(creativeIds: Option<seq<int>>, advertiserIds: Option<seq<int>>, campaignIds: Option<seq<int>>)

  datatype Request = Request(context: Option<Context>, placements: seq<Slot>, block: Option<Block>)

  /** A creative as returned; `body` is present when the server rendered it. */
  datatype Shown = Shown(creative: Creative, body: Option<string>)

  datatype DecisionAd = DecisionAd(adId: int, creativeId: int, flightId: int, campaignId: int, advertiserId: int,
                                   priorityId: int, siteId: int, clickUrl: string, impressionUrl: string,
                                   shown: Option<Shown>)

  /** `Panicked` is not an error value: the assertion in record packing failed. */
  datatype DecideError = PlacementsRequired | TooManyPlacements | AdTypesRequired | Panicked

  datatype Outcome = Outcome(snapshotVersion: int, decisions: map<seq<byte>, seq<DecisionAd>>, events: seq<Event>)

  datatype RenderCtx = RenderCtx(adId: int, clickUrl: string, impressionUrl: string, placementId: seq<byte>,
                                 version: int)

  /**
   Everything outside the model: the MAC, template rendering (which may fail), the
   roll stream of each placement, referrer-host extraction, user-agent hashing.
   */
  datatype Env = Env(mac: Mac, render: (Creative, string, RenderCtx) -> Option<string>, rolls: nat -> nat -> nat,
                     host: string -> Option<string>, uaHash: string -> seq<byte>)

  /** The fixed part of one call. */
  datatype Call = Call(project: Project, version: int, orgId: string, projectId: seq<byte>, context: Option<Context>,
                       block: BlockSet, nowMs: int, forceActive: bool, env: Env)

  function OrDefault<T>(x: Option<T>, d: T): T {
    match x case None => d case Some(v) => v
  }

  function BuildBlock(b: Option<Block>): BlockSet {
    match b
    case None => BlockSet([], [], [])
    case Some(x) =>
      BlockSet(OrDefault(x.creativeIds, []), OrDefault(x.advertiserIds, []), OrDefault(x.campaignIds, []))
  }

  // ----- per placement ------------------------------------------------------

  function FindSite(sites: seq<Site>, slot: Slot): Option<int> {
    if sites == [] then None
    else if slot.siteId.Some? && sites[0].id == slot.siteId.value then Some(sites[0].id)
    else if slot.siteId.None? && slot.siteUrl.Some?
            && (sites[0].url == slot.siteUrl.value || slot.siteUrl.value in sites[0].aliases) then Some(sites[0].id)
    else FindSite(sites[1..], slot)
  }

  /** By id if one is given, else by URL or alias, else not at all. */
  function ResolveSite(project: Project, slot: Slot): Option<int> {
    if slot.siteId.None? && slot.siteUrl.None? then None else FindSite(project.sites, slot)
  }

  function FindAd(ads: seq<Ad>, id: int): Option<Ad> {
    if ads == [] then None else if ads[0].id == id then Some(ads[0]) else FindAd(ads[1..], id)
  }

  function FindFlight(flights: seq<Flight>, id: int): Option<Flight> {
    if flights == [] then None else if flights[0].id == id then Some(flights[0]) else FindFlight(flights[1..], id)
  }

  function ForcedCandidate(project: Project, adId: int): Option<Candidate> {
    match FindAd(project.ads, adId)
    case None => None
    case Some(ad) =>
      match FindFlight(project.flights, ad.flightId)
      case None => None
      case Some(flight) => Some(Candidate(ad, flight))
  }

  function PlacementOf(slot: Slot, site: int): Placement {
    Placement(site, OrDefault(slot.zoneIds, []), slot.adTypes, Min(Max(OrDefault(slot.count, 1), 1), 10))
  }

  /** The forced ad id, when the override path runs for this placement. */
  function ForcedId(call: Call, slot: Slot): Option<int> {
    if call.forceActive && slot.force.Some? then slot.force.value.adId else None
  }

  /** Candidates that filter and priority leave for a placement. */
  function TopCandidates(call: Call, slot: Slot, site: int): seq<Candidate> {
    Priority(Filtered(call.project.flights, call.project.ads, PlacementOf(slot, site), call.block, call.nowMs))
  }

  function Picks(call: Call, slot: Slot, site: int, index: nat): seq<Candidate> {
    match ForcedId(call, slot)
    case None => Sample(TopCandidates(call, slot, site), PlacementOf(slot, site).count, call.env.rolls(index))
    case Some(adId) => match ForcedCandidate(call.project, adId) case None => [] case Some(c) => [c]
  }

  // ----- per picked ad ------------------------------------------------------

  /** Wrapping 64-bit arithmetic, written out big-endian. */
  function MintNonce(nowMs: int, adId: int): (r: seq<byte>)
    ensures |r| == 8
  {
    Wire.U64Bytes((nowMs * 2_654_435_761 + adId) % TWO_64)
  }

  /** `(now_ms / 1000) as u64`. */
  function IssuedAt(nowMs: int): u64 {
    TruncDiv(nowMs, 1000) % TWO_64
  }

  function PlacementHash(call: Call, slot: Slot): seq<byte> {
    call.env.mac(call.projectId, slot.id)[..16]
  }

  function PayloadFor(call: Call, slot: Slot, c: Candidate): Payload {
    Payload(call.projectId, c.ad.id, OrDefault(c.ad.creativeId, 0), PlacementHash(call, slot),
            IssuedAt(call.nowMs), MintNonce(call.nowMs, c.ad.id))
  }

  /** Shows a stored creative; a template without source, or that fails, shows nothing. */
  function BuildCreative(c: Creative, ctx: RenderCtx, env: Env): Option<Shown> {
    if c.kind == "image" || c.kind == "html" || c.kind == "native" then Some(Shown(c, None))
    else if c.kind == "templated" then
      match c.templateSource
      case None => None
      case Some(source) =>
        (match env.render(c, source, ctx) case None => None case Some(body) => Some(Shown(c, Some(body))))
    else None
  }

  function ClickUrl(signed: string): string { "/e/c/" + signed }
  function ImpressionUrl(signed: string): string { "/e/i/" + signed }

  /** `None` for an ad without a known creative, `Some(None)` for a failed render. */
  function ShownFor(call: Call, slot: Slot, c: Candidate, signed: string): Option<Option<Shown>> {
    if c.ad.creativeId.Some? && c.ad.creativeId.value in call.project.creatives then
      var ctx := RenderCtx(c.ad.id, ClickUrl(signed), ImpressionUrl(signed), slot.id, call.version);
      Some(BuildCreative(call.project.creatives[c.ad.creativeId.value], ctx, call.env))
    else None
  }

  /**
   Packing the record asserts that the project id has at most 255 bytes. A request
   that fails the assertion has no answer, so what stands here for it is not seen.
   */
  function SignedFor(call: Call, slot: Slot, c: Candidate): string {
    if |call.projectId| <= 255 then Sign(PayloadFor(call, slot, c), call.project.secret, call.env.mac) else ""
  }

  function DecisionEvent(call: Call, slot: Slot, site: int, c: Candidate): Event {
    Event(call.nowMs, call.orgId, call.projectId, Decision, Some(slot.id), Some(site),
          (match slot.zoneIds case None => None case Some(z) => if z == [] then None else Some(z[0])),
          Some(c.ad.id), c.ad.creativeId, Some(c.flight.id), Some(c.flight.campaignId), Some(c.flight.advertiserId),
          (match call.context case None => None case Some(x) => x.url),
          (match call.context case None => None
           case Some(x) => match x.referrer case None => None case Some(r) => call.env.host(r)),
          (match call.context case None => None
           case Some(x) => match x.userAgent case None => None case Some(u) => Some(call.env.uaHash(u))),
          Some(MintNonce(call.nowMs, c.ad.id)), None, Some(call.version))
  }

  /** Whether a picked ad is served: a failed render drops it. */
  predicate Renders(call: Call, slot: Slot, c: Candidate)
  {
    ShownFor(call, slot, c, SignedFor(call, slot, c)) != Some(None)
  }

  function AdFor(call: Call, slot: Slot, site: int, c: Candidate): DecisionAd
  {
    var signed := SignedFor(call, slot, c);
    DecisionAd(c.ad.id, OrDefault(c.ad.creativeId, 0), c.flight.id, c.flight.campaignId, c.flight.advertiserId,
               c.flight.tier, site, ClickUrl(signed), ImpressionUrl(signed),
               OrDefault(ShownFor(call, slot, c, signed), None))
  }

  function Rendered(call: Call, slot: Slot, picks: seq<Candidate>): seq<Candidate>
  {
    if picks == [] then []
    else
      var c := picks[|picks| - 1];
      Rendered(call, slot, picks[..|picks| - 1]) + if Renders(call, slot, c) then [c] else []
  }

  function AdsFor(call: Call, slot: Slot, site: int, cs: seq<Candidate>): seq<DecisionAd>
  {
    seq(|cs|, i requires 0 <= i < |cs| => AdFor(call, slot, site, cs[i]))
  }

  function EventsFor(call: Call, slot: Slot, site: int, cs: seq<Candidate>): seq<Event> {
    seq(|cs|, i requires 0 <= i < |cs| => DecisionEvent(call, slot, site, cs[i]))
  }

  // ----- the whole request --------------------------------------------------

  /** The candidates served for the `i`-th placement, in order. */
  function ServedFor(call: Call, slots: seq<Slot>, i: nat): seq<Candidate>
    requires i < |slots|
  {
    match ResolveSite(call.project, slots[i])
    case None => []
    case Some(site) => Rendered(call, slots[i], Picks(call, slots[i], site, i))
  }

  function SiteOr0(call: Call, slot: Slot): int {
    OrDefault(ResolveSite(call.project, slot), 0)
  }

  function AdsAt(call: Call, slots: seq<Slot>, i: nat): seq<DecisionAd>
    requires i < |slots|
  {
    AdsFor(call, slots[i], SiteOr0(call, slots[i]), ServedFor(call, slots, i))
  }

  function EventsAt(call: Call, slots: seq<Slot>, i: nat): seq<Event>
    requires i < |slots|
  {
    EventsFor(call, slots[i], SiteOr0(call, slots[i]), ServedFor(call, slots, i))
  }

  /** Events of the first `n` placements, one after the other. */
  function EventsUpTo(call: Call, slots: seq<Slot>, n: nat): seq<Event>
    requires n <= |slots|
  {
    if n == 0 then [] else EventsUpTo(call, slots, n - 1) + EventsAt(call, slots, n - 1)
  }

  /** The response map after `n` placements; a repeated id keeps its last entry. */
  function DecisionsUpTo(call: Call, slots: seq<Slot>, n: nat): map<seq<byte>, seq<DecisionAd>>
    requires n <= |slots|
  {
    if n == 0 then map[] else DecisionsUpTo(call, slots, n - 1)[slots[n - 1].id := AdsAt(call, slots, n - 1)]
  }

  /** A placement whose site resolves must name at least one ad type. */
  predicate Rejects(call: Call, slot: Slot) {
    ResolveSite(call.project, slot).Some? && slot.adTypes == []
  }

  /** Signing the first pick fails: the project id does not fit its length byte. */
  predicate CannotSign(call: Call, slots: seq<Slot>, i: nat)
    requires i < |slots|
  {
    var site := ResolveSite(call.project, slots[i]);
    |call.projectId| > 255 && site.Some? && Picks(call, slots[i], site.value, i) != []
  }

  /** What ends the request within its first `n` placements, if anything does. */
  function FirstHalt(call: Call, slots: seq<Slot>, n: nat): Option<DecideError>
    requires n <= |slots|
  {
    if n == 0 then None
    else match FirstHalt(call, slots, n - 1)
      case Some(e) => Some(e)
      case None =>
        if Rejects(call, slots[n - 1]) then Some(AdTypesRequired)
        else if CannotSign(call, slots, n - 1) then Some(Panicked)
        else None
  }

  function CallOf(project: Project, version: int, orgId: string, projectId: seq<byte>, req: Request, nowMs: int,
                  forceActive: bool, env: Env): Call
  {
    Call(project, version, orgId, projectId, req.context, BuildBlock(req.block), nowMs, forceActive, env)
  }

  method ServePlacement(call: Call, slot: Slot, site: int, index: nat)
    returns (panicked: bool, ads: seq<DecisionAd>, events: seq<Event>)
    ensures panicked <==> |call.projectId| > 255 && Picks(call, slot, site, index) != []
    ensures !panicked ==>
              var served := Rendered(call, slot, Picks(call, slot, site, index));
              ads == AdsFor(call, slot, site, served) && events == EventsFor(call, slot, site, served)
  {
    hide Rendered, AdFor, DecisionEvent, Renders, Sample, Priority, Filtered, ForcedCandidate;
    var p := PlacementOf(slot, site);
    var cands := Filter(call.project.flights, call.project.ads, p, call.block, call.nowMs);
    var top := Priority(cands);
    var picks := WeightedRandom(top, p.count, call.env.rolls(index));
    if call.forceActive {
      if slot.force.Some? && slot.force.value.adId.Some? {
        var forced := ForcedCandidate(call.project, slot.force.value.adId.value);
        if forced.Some? {
          picks := [forced.value];
        } else {
          picks := [];
        }
      }
    }
    assert picks == Picks(call, slot, site, index);
    panicked, ads, events := ServePicks(call, slot, site, picks);
  }

  method ServePicks(call: Call, slot: Slot, site: int, picks: seq<Candidate>)
    returns (panicked: bool, ads: seq<DecisionAd>, events: seq<Event>)
    ensures panicked <==> |call.projectId| > 255 && picks != []
    ensures !panicked ==> ads == AdsFor(call, slot, site, Rendered(call, slot, picks))
    ensures !panicked ==> events == EventsFor(call, slot, site, Rendered(call, slot, picks))
  {
    hide ShownFor, DecisionEvent, SignedFor;
    panicked, ads, events := false, [], [];
    for i := 0 to |picks|
      invariant i > 0 ==> |call.projectId| <= 255
      invariant ads == AdsFor(call, slot, site, Rendered(call, slot, picks[..i]))
      invariant events == EventsFor(call, slot, site, Rendered(call, slot, picks[..i]))
    {
      var c := picks[i];
      assert picks[..i + 1][..i] == picks[..i];
      if |call.projectId| > 255 {
        return true, [], [];
      }
      var signed := SignedFor(call, slot, c);
      var shown := ShownFor(call, slot, c, signed);
      if shown == Some(None) {
        assert Rendered(call, slot, picks[..i]) + [] == Rendered(call, slot, picks[..i]);
        continue;
      }
      ads := ads + [DecisionAd(c.ad.id, OrDefault(c.ad.creativeId, 0), c.flight.id, c.flight.campaignId,
                               c.flight.advertiserId, c.flight.tier, site, ClickUrl(signed), ImpressionUrl(signed),
                               OrDefault(shown, None))];
      events := events + [DecisionEvent(call, slot, site, c)];
    }
    assert picks[..|picks|] == picks;
  }

  method DecidePure(project: Project, version: int, orgId: string, projectId: seq<byte>, req: Request, nowMs: int,
                    forceActive: bool, env: Env)
    returns (r: Result<Outcome, DecideError>)
    ensures var call := CallOf(project, version, orgId, projectId, req, nowMs, forceActive, env);
            var slots := req.placements;
            r == if |slots| == 0 then Err(PlacementsRequired)
                 else if |slots| > MAX_PLACEMENTS then Err(TooManyPlacements)
                 else match FirstHalt(call, slots, |slots|)
                   case Some(e) => Err(e)
                   case None =>
                     Ok(Outcome(version, DecisionsUpTo(call, slots, |slots|), EventsUpTo(call, slots, |slots|)))
  {
    hide Picks, Rendered, AdsFor, EventsFor, ResolveSite;
    if |req.placements| == 0 {
      return Err(PlacementsRequired);
    }
    if |req.placements| > 32 {
      return Err(TooManyPlacements);
    }
    var call := CallOf(project, version, orgId, projectId, req, nowMs, forceActive, env);
    var slots := req.placements;
    var decisions: map<seq<byte>, seq<DecisionAd>> := map[];
    var eventsToSend: seq<Event> := [];
    for i := 0 to |slots|
      invariant decisions == DecisionsUpTo(call, slots, i)
      invariant eventsToSend == EventsUpTo(call, slots, i)
      invariant FirstHalt(call, slots, i).None?
    {
      var slot := slots[i];
      var resolved := ResolveSite(project, slot);
      if resolved.None? {
        NothingServed(call, slot, SiteOr0(call, slot));
        decisions := decisions[slot.id := []];
        assert eventsToSend + [] == eventsToSend;
        continue;
      }
      if slot.adTypes == [] {
        HaltStays(call, slots, i + 1);
        return Err(AdTypesRequired);
      }
      var panicked, ads, events := ServePlacement(call, slot, resolved.value, i);
      if panicked {
        HaltStays(call, slots, i + 1);
        return Err(Panicked);
      }
      eventsToSend := eventsToSend + events;
      decisions := decisions[slot.id := ads];
    }
    return Ok(Outcome(version, decisions, eventsToSend));
  }

  lemma {:induction false} HaltStays(call: Call, slots: seq<Slot>, n: nat)
    requires n <= |slots| && FirstHalt(call, slots, n).Some?
    ensures FirstHalt(call, slots, |slots|) == FirstHalt(call, slots, n)
    decreases |slots| - n
  {
    hide Rejects, CannotSign;
    if n < |slots| {
      HaltStays(call, slots, n + 1);
    }
  }

  lemma NothingServed(call: Call, slot: Slot, site: int)
    ensures AdsFor(call, slot, site, []) == [] && EventsFor(call, slot, site, []) == []
  {
  }

  /**
   The end of a decision request: its events go to the channel, if there is one. It
   is answered iff all were taken; if not, those before the first refusal stay in
   the channel although the caller gets an error.
   */
  method Respond(channel: Flusher?<Event>, outcome: Outcome, between: nat -> seq<Action<Event>>)
    returns (reply: Option<Outcome>, ghost n: nat, ghost others: seq<seq<Event>>)
    requires channel != null ==> channel.Valid()
    modifies if channel == null then {} else {channel}
    ensures channel != null ==> channel.Valid()
    ensures reply == if channel == null || n == |outcome.events| then Some(outcome) else None
    ensures channel != null ==>
              && n <= |outcome.events| && |others| == n + (if reply.Some? then 0 else 1)
              && channel.accepted == old(channel.accepted) + Woven(outcome.events[..n], others)
              && (reply.None? ==> channel.exited || |channel.queue| == channel.capacity)
  {
    n, others := 0, [];
    if channel != null {
      var ok, sent, woven := channel.DrainToSender(outcome.events, between);
      n, others := sent, woven;
      if !ok {
        return None, n, others;
      }
    }
    return Some(outcome), n, others;
  }
}
