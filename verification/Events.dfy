/**
 The bounded event channel and the task that drains it in batches. `Flusher`
 holds both ends; a schedule says in which order sends, wake-ups, timer ticks and
 flush outcomes happen, and every schedule is allowed.
 */
module Events {
  import opened Prelude

  const DRAIN_BATCH := 5_000

  datatype EventKind = Decision | Impression | Click

  datatype Event = Event(tsMs: int, orgId: string, projectId: seq<byte>, kind: EventKind,
                         placementId: Option<seq<byte>>, siteId: Option<int>, zoneId: Option<int>, adId: Option<int>,
                         creativeId: Option<int>, flightId: Option<int>, campaignId: Option<int>,
                         advertiserId: Option<int>, url: Option<string>, referrerHost: Option<string>,
                         userAgentHash: Option<seq<byte>>, signatureNonce: Option<seq<byte>>,
                         dedupKey: Option<seq<byte>>, snapshotVersion: Option<int>)

  datatype SendError = ChannelSaturated | FlusherDown

  /** A batch handed to the database: one transaction, all of it or nothing. */
  datatype Flush<T> = Committed(events: seq<T>) | Dropped(events: seq<T>)

  function Outcome<T>(ok: bool, events: seq<T>): Flush<T> {
    if ok then Committed(events) else Dropped(events)
  }

  function Flatten<T>(flushes: seq<Flush<T>>): seq<T> {
    if flushes == [] then [] else Flatten(flushes[..|flushes| - 1]) + flushes[|flushes| - 1].events
  }

  /** One sender's events with what the others got in before each of them, and possibly after the last. */
  function Woven<T>(own: seq<T>, others: seq<seq<T>>): seq<T>
    requires |own| <= |others| <= |own| + 1
    decreases |others|, |own|
  {
    if |others| > |own| then Woven(own, others[..|own|]) + others[|own|]
    else if own == [] then []
    else
      var n := |own| - 1;
      Woven(own[..n], others[..n]) + others[n] + [own[n]]
  }

  /** Rows the database has in the end. */
  function Stored<T>(flushes: seq<Flush<T>>): seq<T> {
    if flushes == [] then []
    else
      var last := flushes[|flushes| - 1];
      Stored(flushes[..|flushes| - 1]) + if last.Committed? then last.events else []
  }

  datatype Action<T> =
    | Send(e: T)
    | DropSenders
    | Receive(upTo: nat, flushOk: bool)
    | TimerTick(flushOk: bool)

  class Flusher<T> {
    const capacity: nat
    var queue: seq<T>
    var open: bool
    var batch: seq<T>
    var flushes: seq<Flush<T>>
    var exited: bool
    ghost var accepted: seq<T>

    /**
     Conservation: what was accepted, in order, is what was flushed, then the batch,
     then the queue. Between iterations the batch is short of its limit, which is
     why receiving nothing can only mean closed and drained.
     */
    ghost predicate Valid()
      reads this
    {
      && accepted == Flatten(flushes) + batch + queue
      && |queue| <= capacity
      && |batch| < DRAIN_BATCH
      && (forall i :: 0 <= i < |flushes| ==> 0 < |flushes[i].events| <= DRAIN_BATCH)
      && (exited ==> !open && queue == [] && batch == [])
    }

    constructor (capacity: nat)
      requires capacity > 0
      ensures Valid() && this.capacity == capacity && open && !exited && accepted == []
    {
      this.capacity := capacity;
      queue, batch, flushes, accepted := [], [], [], [];
      open, exited := true, false;
    }

    method TrySend(e: T) returns (r: Option<SendError>)
      requires Valid()
      modifies this
      ensures Valid()
      ensures r == if old(exited) then Some(FlusherDown)
                   else if |old(queue)| == capacity then Some(ChannelSaturated) else None
      ensures queue == if r.None? then old(queue) + [e] else old(queue)
      ensures accepted == if r.None? then old(accepted) + [e] else old(accepted)
      ensures open == old(open) && batch == old(batch) && flushes == old(flushes) && exited == old(exited)
    {
      if exited {
        return Some(FlusherDown);
      }
      if |queue| >= capacity {
        return Some(ChannelSaturated);
      }
      queue := queue + [e];
      accepted := accepted + [e];
      return None;
    }

    /** Whether `recv_many` would return at once rather than wait. */
    predicate RecvReady(want: nat)
      reads this
    {
      want == 0 || queue != [] || !open
    }

    /** `recv_many`: moves 1 to `want` queued events; 0 if asked for none, or closed and drained. */
    method RecvMany(want: nat, upTo: nat) returns (n: nat)
      requires RecvReady(want)
      modifies this`queue, this`batch
      ensures n <= |old(queue)| && n <= want
      ensures n == 0 <==> want == 0 || old(queue) == []
      ensures batch == old(batch) + old(queue)[..n] && queue == old(queue)[n..]
      ensures batch + queue == old(batch) + old(queue)
    {
      n := if want == 0 then 0 else Min(Max(upTo, 1), Min(want, |queue|));
      batch := batch + queue[..n];
      queue := queue[n..];
    }

    /** Flushes the batch as one transaction; on failure it is logged and lost. */
    method FlushBatch(ok: bool)
      requires batch != []
      modifies this`batch, this`flushes
      ensures flushes == old(flushes) + [Outcome(ok, old(batch))] && batch == []
      ensures Flatten(flushes) == old(Flatten(flushes) + batch)
    {
      assert (flushes + [Outcome(ok, batch)])[..|flushes|] == flushes;
      flushes := flushes + [Outcome(ok, batch)];
      batch := [];
    }

    /** One turn of the loop on the receive arm; `n` events were received. */
    method OnReceive(upTo: nat, flushOk: bool) returns (n: nat)
      requires Valid() && !exited && RecvReady(DRAIN_BATCH - |batch|)
      modifies this
      ensures Valid() && open == old(open) && accepted == old(accepted)
      ensures n <= |old(queue)| && queue == old(queue)[n..]
      ensures (n == 0 <==> exited) && (exited <==> old(queue) == [])
      ensures var full := old(batch) + old(queue)[..n];
              if |full| == DRAIN_BATCH || (exited && full != [])
              then flushes == old(flushes) + [Outcome(flushOk, full)] && batch == []
              else flushes == old(flushes) && batch == full
    {
      hide Flatten;
      var want := DRAIN_BATCH - |batch|;
      n := RecvMany(want, upTo);
      ghost var received := batch + queue;
      assert accepted == Flatten(flushes) + received;
      if n == 0 {
        if batch != [] {
          FlushBatch(flushOk);
        }
        exited := true;
      } else if |batch| >= DRAIN_BATCH {
        FlushBatch(flushOk);
      }
      assert Flatten(flushes) + batch + queue == accepted;
    }

    /** One turn of the loop on the timer arm. */
    method OnTick(flushOk: bool)
      requires Valid() && !exited
      modifies this`batch, this`flushes
      ensures Valid()
      ensures flushes == old(flushes) + if old(batch) != [] then [Outcome(flushOk, old(batch))] else []
      ensures batch == []
    {
      hide Flatten;
      if batch != [] {
        FlushBatch(flushOk);
        assert Flatten(flushes) + batch + queue == accepted;
      }
    }

    /**
     The flusher under any schedule: nothing accepted is lost, doubled or reordered,
     and if it exits then everything accepted has been handed to the database.
     */
    method FlusherLoop(schedule: seq<Action<T>>) returns (sent: seq<T>)
      requires Valid()
      modifies this
      ensures Valid() && accepted == old(accepted) + sent
      ensures old(flushes) <= flushes
      ensures exited ==> accepted == Flatten(flushes)
    {
      hide Flatten;
      sent := [];
      for i := 0 to |schedule|
        invariant Valid() && accepted == old(accepted) + sent
        invariant old(flushes) <= flushes
      {
        var taken := Turn(schedule[i]);
        sent := sent + taken;
      }
      assert exited ==> Flatten(flushes) + [] + [] == Flatten(flushes);
    }

    /** One event of the schedule; `sent` is what the channel took. */
    method Turn(action: Action<T>) returns (sent: seq<T>)
      requires Valid()
      modifies this
      ensures Valid() && accepted == old(accepted) + sent
      ensures old(flushes) <= flushes
    {
      hide Flatten;
      sent := [];
      match action {
        case Send(e) =>
          if open {
            var r := TrySend(e);
            if r.None? {
              sent := [e];
            }
          }
        case DropSenders =>
          open := false;
        case Receive(upTo, flushOk) =>
          if !exited && RecvReady(DRAIN_BATCH - |batch|) {
            var _ := OnReceive(upTo, flushOk);
          }
        case TimerTick(flushOk) =>
          if !exited {
            OnTick(flushOk);
          }
      }
    }

    /**
     Sends the events of one request, stopping at the first refusal; `between(i)` is
     what the flusher and other senders do before the `i`-th send. What the channel
     accepts of the request is a prefix of it, whole if and only if nothing was refused,
     and it stays in the channel when the request is then answered with an error.
     */
    method DrainToSender(items: seq<T>, between: nat -> seq<Action<T>>)
      returns (ok: bool, n: nat, ghost others: seq<seq<T>>)
      requires Valid()
      modifies this
      ensures Valid()
      ensures n <= |items| && (ok <==> n == |items|) && |others| == n + if ok then 0 else 1
      ensures accepted == old(accepted) + Woven(items[..n], others)
      ensures !ok ==> exited || |queue| == capacity
      ensures (forall i :: between(i) == []) ==>
                n == if old(exited) then 0 else Min(|items|, capacity - |old(queue)|)
    {
      others := [];
      WovenEmpty<T>();
      hide Woven, Flatten;
      for i := 0 to |items|
        invariant Valid() && |others| == i
        invariant accepted == old(accepted) + Woven(items[..i], others)
        invariant (forall j :: between(j) == []) ==>
                    |queue| == |old(queue)| + i && exited == old(exited) && (i > 0 ==> !exited)
      {
        hide Valid;
        var refused, sent := SendOne(items[i], between(i));
        WovenStep(items[..i], others, sent, items[i]);
        others := others + [sent];
        assert items[..i] + [items[i]] == items[..i + 1];
        if refused {
          return false, i, others;
        }
      }
      assert items[..|items|] == items;
      return true, |items|, others;
    }

    /** One send, after what others do first. */
    method SendOne(e: T, before: seq<Action<T>>) returns (refused: bool, sent: seq<T>)
      requires Valid()
      modifies this
      ensures Valid()
      ensures accepted == old(accepted) + sent + if refused then [] else [e]
      ensures refused ==> exited || |queue| == capacity
      ensures before == [] ==>
                && sent == [] && exited == old(exited)
                && (refused <==> exited || |old(queue)| == capacity)
                && |queue| == |old(queue)| + if refused then 0 else 1
    {
      hide Flatten, Valid;
      sent := [];
      if before != [] {
        sent := FlusherLoop(before);
      }
      var r := TrySend(e);
      refused := r.Some?;
    }
  }

  lemma WovenEmpty<T>()
    ensures Woven<T>([], []) == []
  {
  }

  lemma WovenStep<T>(own: seq<T>, others: seq<seq<T>>, before: seq<T>, x: T)
    requires |others| == |own|
    ensures Woven(own, others + [before]) == Woven(own, others) + before
    ensures Woven(own + [x], others + [before]) == Woven(own, others) + before + [x]
  {
    assert (others + [before])[..|own|] == others && (own + [x])[..|own|] == own;
  }

  /** The stored rows are the committed batches of what was flushed, whole and in order. */
  lemma {:induction false} StoredWithoutFailures<T>(flushes: seq<Flush<T>>)
    ensures |Stored(flushes)| <= |Flatten(flushes)|
    ensures (forall f :: f in flushes && f.events != [] ==> f.Committed?) <==> Stored(flushes) == Flatten(flushes)
  {
    if flushes != [] {
      var init, last := flushes[..|flushes| - 1], flushes[|flushes| - 1];
      StoredWithoutFailures(init);
      assert flushes == init + [last];
      if last.Dropped? && last.events != [] {
        assert |Stored(flushes)| < |Flatten(flushes)|;
      } else {
        assert Stored(init) + last.events == Flatten(init) + last.events ==> Stored(init) == Flatten(init) by {
          if Stored(init) + last.events == Flatten(init) + last.events {
            assert (Stored(init) + last.events)[..|Stored(init)|] == Stored(init);
            assert (Flatten(init) + last.events)[..|Flatten(init)|] == Flatten(init);
          }
        }
      }
    }
  }
}
