/** The Redis Streams adapter as an object over the stream. */
module Queue {
  import opened Types
  import opened Broker

  class RedisStreamsQueue {
    var entries: map<nat, Entry>
    var pel: map<nat, int>
    var cursor: nat
    var nextId: nat
    var claimCursor: nat

    function Contents(): Stream
      reads this
    {
      Stream(entries, pel, cursor, nextId)
    }

    constructor ()
      ensures Contents() == EMPTY && claimCursor == 0
    {
      entries, pel, cursor, nextId, claimCursor := map[], map[], 0, 0, 0;
    }

    method Publish(e: Entry) returns (mid: nat)
      modifies this
      ensures Contents() == Enqueue(old(Contents()), e) && mid == old(nextId)
      ensures Valid(old(Contents())) ==> Valid(Contents()) && mid !in old(entries)
      ensures claimCursor == old(claimCursor)
    {
      mid := nextId;
      entries := entries[mid := e];
      nextId := nextId + 1;
    }

    method Holds(mid: nat) returns (present: bool)
      ensures present <==> Contains(Contents(), mid)
    {
      present := mid in entries;
    }

    method Acknowledge(mid: nat)
      modifies this`entries, this`pel
      ensures Contents() == Ack(old(Contents()), mid)
    {
      pel := pel - {mid};
      entries := entries - {mid};
    }

    method DecodeMessages(ids: seq<nat>) returns (out: seq<Msg>)
      requires forall i | 0 <= i < |ids| :: ids[i] in entries
      ensures out == DecodeAll(Contents(), ids)
    {
      out := [];
      for i := 0 to |ids|
        invariant |out| == i
        invariant forall j | 0 <= j < i :: out[j] == Msg(ids[j], Decode(ids[j], entries[ids[j]].raw))
      {
        var payload;
        match entries[ids[i]].raw {
          case NoPayload => payload := Payload(None, false);
          case Body(p) => payload := p;
          case NotJson => payload := Payload(Some("malformed:" + Digits(ids[i])), false);
          case NotObject => payload := Payload(Some("malformed:" + Digits(ids[i])), false);
        }
        out := out + [Msg(ids[i], payload)];
      }
    }

    /**
     * Take over idle entries first; only when there are none, read new ones. `claimed` and `next` are the
     * server's answer to XAUTOCLAIM: some of the entries idle for long enough, and where to scan from next time.
     */
    method Consume(count: nat, idle: nat, now: int, claimed: seq<nat>, next: nat) returns (msgs: seq<Msg>)
      requires Valid(Contents())
      requires |claimed| <= count && forall i | 0 <= i < |claimed| :: Idle(Contents(), claimed[i], idle, now)
      modifies this
      ensures claimCursor == next && Valid(Contents())
      ensures claimed != [] ==>
                (forall i | 0 <= i < |claimed| :: claimed[i] in old(entries))
                && msgs == DecodeAll(old(Contents()), claimed) && Contents() == Reclaim(old(Contents()), claimed, now)
      ensures claimed == [] ==>
                var ids := Take(Undelivered(old(Contents())), count);
                (forall i | 0 <= i < |ids| :: ids[i] in old(entries))
                && msgs == DecodeAll(old(Contents()), ids) && Contents() == Deliver(old(Contents()), ids, now)
    {
      claimCursor := next;
      if claimed != [] {
        msgs := DecodeMessages(claimed);
        pel := map m | m in pel :: if m in claimed then now else pel[m];
        return;
      }
      DeliverValid(Contents(), count, now);
      var ids := Take(Undelivered(Contents()), count);
      assert forall i | 0 <= i < |ids| :: ids[i] in ids;
      msgs := DecodeMessages(ids);
      if ids != [] {
        pel := pel + (map m | m in ids :: now);
        cursor := ids[|ids| - 1] + 1;
      }
    }
  }
}
