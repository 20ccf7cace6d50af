/** The Redis stream with its single consumer group: entries, the pending-entries list, and never-reused ids. */
module Broker {
  import opened Types

  /** What an entry's payload field holds: nothing, text that is not JSON, JSON that is no object, or an object. */
  datatype Raw = NoPayload | NotJson | NotObject | Body(p: Payload)

  /** `source` is the outbox row an entry was published from; other writers' entries have none. */
  datatype Entry = Entry(raw: Raw, source: Option<nat>)

  datatype Msg = Msg(mid: nat, payload: Payload)

  /**
   * `pel` holds the last delivery time of every delivered, unacknowledged entry. Entries below `cursor`
   * have been delivered. `nextId` only grows, also across a loss of Redis.
   */
  datatype Stream = Stream(entries: map<nat, Entry>, pel: map<nat, int>, cursor: nat, nextId: nat)

  const EMPTY := Stream(map[], map[], 0, 0)

  /** decode: poison messages keep an identity, so that they reach the failure path like any other. */
  function Decode(mid: nat, raw: Raw): Payload {
    match raw
    case Body(p) => p
    case NoPayload => Payload(None, false)
    case NotJson => Payload(Some("malformed:" + Digits(mid)), false)
    case NotObject => Payload(Some("malformed:" + Digits(mid)), false)
  }

  function DecodeAll(b: Stream, ids: seq<nat>): (msgs: seq<Msg>)
    requires forall i | 0 <= i < |ids| :: ids[i] in b.entries
    ensures |msgs| == |ids|
    ensures forall i | 0 <= i < |ids| :: msgs[i] == Msg(ids[i], Decode(ids[i], b.entries[ids[i]].raw))
  {
    seq(|ids|, i requires 0 <= i < |ids| => Msg(ids[i], Decode(ids[i], b.entries[ids[i]].raw)))
  }

  function Enqueue(b: Stream, e: Entry): Stream {
    b.(entries := b.entries[b.nextId := e], nextId := b.nextId + 1)
  }

  predicate Contains(b: Stream, mid: nat) {
    mid in b.entries
  }

  /** XACK and XDEL in one transaction. */
  function Ack(b: Stream, mid: nat): Stream {
    b.(entries := b.entries - {mid}, pel := b.pel - {mid})
  }

  /** Undelivered entries with id below `n`, oldest first. */
  function UndeliveredBelow(b: Stream, n: nat): seq<nat> {
    if n == 0 then []
    else UndeliveredBelow(b, n - 1) + (if n - 1 in b.entries && b.cursor <= n - 1 then [n - 1] else [])
  }

  function Undelivered(b: Stream): seq<nat> {
    UndeliveredBelow(b, b.nextId)
  }

  /** XREADGROUP with `>`: hand out the listed entries, the oldest undelivered ones. */
  function Deliver(b: Stream, ids: seq<nat>, now: int): Stream {
    if ids == [] then b
    else b.(pel := b.pel + (map m | m in ids :: now), cursor := ids[|ids| - 1] + 1)
  }

  predicate Idle(b: Stream, mid: nat, idle: nat, now: int) {
    mid in b.pel && b.pel[mid] + idle <= now
  }

  /** XAUTOCLAIM: hand out delivered entries again. */
  function Reclaim(b: Stream, ids: seq<nat>, now: int): Stream {
    b.(pel := map m | m in b.pel :: if m in ids then now else b.pel[m])
  }

  /** Everything in Redis is gone; the group is created anew. */
  function Lose(b: Stream): Stream {
    Stream(map[], map[], 0, b.nextId)
  }

  ghost predicate Valid(b: Stream) {
    && b.cursor <= b.nextId
    && (forall m | m in b.entries :: m < b.nextId)
    && (forall m :: m in b.pel <==> m in b.entries && m < b.cursor)
  }

  lemma {:induction false} UndeliveredExact(b: Stream, n: nat)
    ensures forall m: nat :: m in UndeliveredBelow(b, n) <==> m < n && m in b.entries && b.cursor <= m
    ensures Ascending(UndeliveredBelow(b, n))
  {
    if n != 0 {
      UndeliveredExact(b, n - 1);
      var below := UndeliveredBelow(b, n - 1);
      assert forall i | 0 <= i < |below| :: below[i] in below;
    }
  }

  lemma HandOutValid(b: Stream, ids: seq<nat>, now: int)
    requires Valid(b) && ids != []
    requires forall m: nat :: m in ids <==> m in b.entries && b.cursor <= m <= ids[|ids| - 1]
    ensures Valid(Deliver(b, ids, now))
  {
    assert ids[|ids| - 1] in ids;
  }

  /** Delivering the n oldest undelivered entries keeps the pending list exact. */
  lemma DeliverValid(b: Stream, n: nat, now: int)
    requires Valid(b)
    ensures var all := Undelivered(b);
            var ids := Take(all, n);
            Valid(Deliver(b, ids, now)) && forall m | m in ids :: m in b.entries
  {
    var all := Undelivered(b);
    var ids := Take(all, n);
    UndeliveredExact(b, b.nextId);
    hide UndeliveredBelow;
    if n != 0 && all != [] {
      PrefixMembers(all, n);
      hide Take;
      HandOutValid(b, ids, now);
    }
  }
}
