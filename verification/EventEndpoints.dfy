/** The public event endpoints: find the project a URL names, verify, record a ping. */
module EventEndpoints {
  import opened Prelude
  import Wire
  import Base64Url
  import opened SignedUrls
  import opened Snapshots
  import SnapshotLoader
  import opened Events

  /** Reads the project id off the record without checking the tag. */
  function PeekProjectId(signed: string): Option<seq<byte>> {
    match SplitOnce(signed)
    case None => None
    case Some((r64, _)) =>
      match Base64Url.Decode(r64)
      case None => None
      case Some(record) =>
        if record == [] then None
        else
          var pidLen: nat := record[0];
          if |record| < 1 + pidLen then None
          else if !Wire.ValidUtf8(record[1..1 + pidLen]) then None
          else Some(record[1..1 + pidLen])
  }

  datatype Hit = Hit(payload: Payload, projectId: seq<byte>, orgId: string)

  function VerifyAgainstSnapshot(snap: Snapshot, signed: string, now: u64, mac: Mac): Result<Hit, VerifyError> {
    match PeekProjectId(signed)
    case None => Err(Malformed)
    case Some(pid) =>
      if pid !in snap.projects then Err(BadSignature)
      else
        var project := snap.projects[pid];
        match Verified(signed, project.secret, project.previousSecret, now, DEFAULT_TTL_SECS, mac)
        case Err(e) => Err(e)
        case Ok(p) => Ok(Hit(p, pid, project.orgId))
  }

  /** Truncated MAC keyed on the project id, so it survives secret rotation. */
  function DedupKey(projectId: seq<byte>, kindByte: byte, nonce: seq<byte>, mac: Mac): seq<byte> {
    mac(projectId, [kindByte] + nonce)[..16]
  }

  /** The row a verified ping is recorded as; creative 0 means none. */
  function PingEvent(click: bool, hit: Hit, snapshotVersion: int, nowMs: int, mac: Mac): Event {
    Event(nowMs, hit.orgId, hit.projectId, if click then Click else Impression, None, None, None,
          Some(hit.payload.adId), if hit.payload.creativeId == 0 then None else Some(hit.payload.creativeId),
          None, None, None, None, None, None, Some(hit.payload.nonce),
          Some(DedupKey(hit.projectId, if click then 2 else 1, hit.payload.nonce, mac)), Some(snapshotVersion))
  }

  /** What the caller of an endpoint gets. */
  datatype Reply = NoContent | Gif | BadSignatureReply | Found(location: string)

  /** The click target stored for the ad, or a placeholder. */
  function ResolveRedirect(snap: Snapshot, pid: seq<byte>, adId: int): string {
    if pid in snap.projects && adId in snap.projects[pid].clickThroughUrls
    then snap.projects[pid].clickThroughUrls[adId] else "/"
  }

  function ClickReply(snap: Snapshot, signed: string, now: u64, mac: Mac): Reply {
    match VerifyAgainstSnapshot(snap, signed, now, mac)
    case Err(_) => BadSignatureReply
    case Ok(hit) => Found(ResolveRedirect(snap, hit.projectId, hit.payload.adId))
  }

  /** Puts the ping in the channel, if there is one; a full or closed channel is tolerated. */
  method EmitEvent(channel: Flusher?<Event>, click: bool, hit: Hit, snapshotVersion: int, nowMs: int, mac: Mac)
    requires channel != null ==> channel.Valid()
    modifies if channel == null then {} else {channel}
    ensures channel != null ==> channel.Valid()
    ensures channel != null ==>
              channel.accepted == old(channel.accepted) +
                if !old(channel.exited) && |old(channel.queue)| < channel.capacity
                then [PingEvent(click, hit, snapshotVersion, nowMs, mac)] else []
  {
    if channel != null {
      var _ := channel.TrySend(PingEvent(click, hit, snapshotVersion, nowMs, mac));
    }
  }

  /** Says nothing about the signature: only the recorded event tells. */
  method HandleImpression(channel: Flusher?<Event>, snap: Snapshot, signed: string, wantGif: bool, now: u64,
                          nowMs: int, mac: Mac)
    returns (reply: Reply)
    requires channel != null ==> channel.Valid()
    modifies if channel == null then {} else {channel}
    ensures channel != null ==> channel.Valid()
    ensures reply == if wantGif then Gif else NoContent
    ensures channel != null ==>
              var r := VerifyAgainstSnapshot(snap, signed, now, mac);
              channel.accepted == old(channel.accepted) +
                if r.Ok? && !old(channel.exited) && |old(channel.queue)| < channel.capacity
                then [PingEvent(false, r.value, snap.configVersion, nowMs, mac)] else []
  {
    hide VerifyAgainstSnapshot, PingEvent;
    var r := VerifyAgainstSnapshot(snap, signed, now, mac);
    if r.Ok? {
      EmitEvent(channel, false, r.value, snap.configVersion, nowMs, mac);
    }
    return if wantGif then Gif else NoContent;
  }

  /** Redirects to the ad's target, or refuses; the override in the query is not honoured. */
  method HandleClick(channel: Flusher?<Event>, snap: Snapshot, signed: string, now: u64, nowMs: int, mac: Mac)
    returns (reply: Reply)
    requires channel != null ==> channel.Valid()
    modifies if channel == null then {} else {channel}
    ensures channel != null ==> channel.Valid()
    ensures reply == ClickReply(snap, signed, now, mac)
    ensures channel != null ==>
              var r := VerifyAgainstSnapshot(snap, signed, now, mac);
              channel.accepted == old(channel.accepted) +
                if r.Ok? && !old(channel.exited) && |old(channel.queue)| < channel.capacity
                then [PingEvent(true, r.value, snap.configVersion, nowMs, mac)] else []
  {
    hide VerifyAgainstSnapshot, PingEvent;
    var r := VerifyAgainstSnapshot(snap, signed, now, mac);
    if r.Err? {
      return BadSignatureReply;
    }
    EmitEvent(channel, true, r.value, snap.configVersion, nowMs, mac);
    return Found(ResolveRedirect(snap, r.value.projectId, r.value.payload.adId));
  }

  /** Whatever verifies names, in its unauthenticated prefix, the project it was signed for. */
  lemma PeekAgreesWithVerify(signed: string, current: seq<byte>, previous: Option<seq<byte>>, now: u64, ttl: u64,
                             mac: Mac)
    requires Verified(signed, current, previous, now, ttl, mac).Ok?
    ensures PeekProjectId(signed) == Some(Verified(signed, current, previous, now, ttl, mac).value.projectId)
  {
    hide Wire.ValidUtf8;
  }

  /**
   An endpoint accepts exactly the URLs that verify under the secrets of the very
   project their payload names, and reports that project and its organisation.
   */
  lemma AcceptedIff(snap: Snapshot, signed: string, now: u64, mac: Mac, hit: Hit)
    ensures VerifyAgainstSnapshot(snap, signed, now, mac) == Ok(hit)
       <==> && hit.projectId == hit.payload.projectId
            && hit.projectId in snap.projects
            && hit.orgId == snap.projects[hit.projectId].orgId
            && Verified(signed, snap.projects[hit.projectId].secret, snap.projects[hit.projectId].previousSecret,
                        now, DEFAULT_TTL_SECS, mac) == Ok(hit.payload)
  {
    hide Verified, PeekProjectId;
    var pid := PeekProjectId(signed);
    if pid.Some? && pid.value in snap.projects {
      var project := snap.projects[pid.value];
      if Verified(signed, project.secret, project.previousSecret, now, DEFAULT_TTL_SECS, mac).Ok? {
        PeekAgreesWithVerify(signed, project.secret, project.previousSecret, now, DEFAULT_TTL_SECS, mac);
      }
    }
    if hit.projectId in snap.projects {
      var project := snap.projects[hit.projectId];
      if Verified(signed, project.secret, project.previousSecret, now, DEFAULT_TTL_SECS, mac) == Ok(hit.payload) {
        PeekAgreesWithVerify(signed, project.secret, project.previousSecret, now, DEFAULT_TTL_SECS, mac);
      }
    }
  }

  /**
   A URL minted for a project of the snapshot is accepted until its TTL is over and
   has expired from then on, if its secret is still that project's current or
   previous one.
   */
  lemma MintedUrlIsAccepted(snap: Snapshot, p: Payload, secret: seq<byte>, now: u64, mac: Mac)
    requires WellTyped(p) && |p.projectId| <= 255 && p.projectId in snap.projects
    requires secret == snap.projects[p.projectId].secret || snap.projects[p.projectId].previousSecret == Some(secret)
    ensures VerifyAgainstSnapshot(snap, Sign(p, secret, mac), now, mac)
         == if now <= p.issuedAt + DEFAULT_TTL_SECS
            then Ok(Hit(p, p.projectId, snap.projects[p.projectId].orgId)) else Err(Expired)
  {
    hide Verified, Sign, WellTyped, PeekProjectId;
    var project := snap.projects[p.projectId];
    SignThenVerify(p, secret, project.secret, project.previousSecret, now, DEFAULT_TTL_SECS, mac);
    PeekOfMinted(p, secret, mac);
  }

  /**
   A project without a previous secret accepts, while the TTL lasts, exactly the
   minted URLs on which its current secret gives the same tag as the one they were
   signed with: after a rotation, no others.
   */
  lemma NoOverlapWithoutPrevious(snap: Snapshot, p: Payload, secret: seq<byte>, now: u64, mac: Mac)
    requires WellTyped(p) && |p.projectId| <= 255 && p.projectId in snap.projects
    requires snap.projects[p.projectId].previousSecret.None? && now <= p.issuedAt + DEFAULT_TTL_SECS
    ensures VerifyAgainstSnapshot(snap, Sign(p, secret, mac), now, mac).Ok?
       <==> mac(snap.projects[p.projectId].secret, Packed(p)) == mac(secret, Packed(p))
  {
    hide Verified, Sign, WellTyped, PeekProjectId, Packed;
    PeekOfMinted(p, secret, mac);
    VerifiedUnderOther(p, secret, snap.projects[p.projectId].secret, now, mac);
  }

  lemma VerifiedUnderOther(p: Payload, secret: seq<byte>, current: seq<byte>, now: u64, mac: Mac)
    requires WellTyped(p) && |p.projectId| <= 255 && now <= p.issuedAt + DEFAULT_TTL_SECS
    ensures Verified(Sign(p, secret, mac), current, None, now, DEFAULT_TTL_SECS, mac).Ok?
       <==> mac(current, Packed(p)) == mac(secret, Packed(p))
  {
    hide Packed, Unpacked, Base64Url.Encode, Base64Url.Decode, SplitOnce, WellTyped;
    var record := Packed(p);
    var tag := mac(secret, record);
    Base64Url.NoDotInEncoding(record);
    SplitOnceIff(Sign(p, secret, mac), Base64Url.Encode(record), Base64Url.Encode(tag));
    Base64Url.DecodeIffEncoded(Base64Url.Encode(record), record);
    Base64Url.DecodeIffEncoded(Base64Url.Encode(tag), tag);
    UnpackedIffPackedPrefix(record, p);
  }

  /**
   No reload ever gives a project a previous secret, so for every snapshot the
   loader serves that is the whole truth about rotation.
   */
  lemma ReloadedSnapshotsDoNotOverlap(history: seq<SnapshotLoader.Seen>, at: seq<nat>, p: Payload, secret: seq<byte>,
                                      now: u64, mac: Mac)
    requires |at| == SnapshotLoader.STATEMENTS && SnapshotLoader.InRange(history, at)
    requires p.projectId in SnapshotLoader.Loaded(history, at).projects
    requires WellTyped(p) && |p.projectId| <= 255 && now <= p.issuedAt + DEFAULT_TTL_SECS
    ensures var snap := SnapshotLoader.Loaded(history, at);
            (VerifyAgainstSnapshot(snap, Sign(p, secret, mac), now, mac).Ok?
             <==> mac(snap.projects[p.projectId].secret, Packed(p)) == mac(secret, Packed(p)))
  {
    hide VerifyAgainstSnapshot, Sign, Packed, WellTyped, SnapshotLoader.Loaded;
    LoadedHasNoPrevious(history, at, p.projectId);
    NoOverlapWithoutPrevious(SnapshotLoader.Loaded(history, at), p, secret, now, mac);
  }

  lemma LoadedHasNoPrevious(history: seq<SnapshotLoader.Seen>, at: seq<nat>, pid: Pid)
    requires |at| == SnapshotLoader.STATEMENTS && SnapshotLoader.InRange(history, at)
    requires pid in SnapshotLoader.Loaded(history, at).projects
    ensures SnapshotLoader.Loaded(history, at).projects[pid].previousSecret.None?
  {
    hide SeedAll, ActiveProjects, FlightRows, ClickRows, CreativeRows, Group, ClickMap, CreativeMap;
    SnapshotHasActiveProjects(history[at[1]].db.projects, pid);
  }

  lemma PeekOfMinted(p: Payload, secret: seq<byte>, mac: Mac)
    requires WellTyped(p) && |p.projectId| <= 255
    ensures PeekProjectId(Sign(p, secret, mac)) == Some(p.projectId)
  {
    hide Verified, Sign, WellTyped, PeekProjectId;
    SignThenVerify(p, secret, secret, None, p.issuedAt, 0, mac);
    PeekAgreesWithVerify(Sign(p, secret, mac), secret, None, p.issuedAt, 0, mac);
  }
}
