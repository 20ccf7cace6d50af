/** The durable tables and the messages of the event pipeline, as values. */
module Types {

  datatype Option<+T> = None | Some(value: T)

  datatype Result<+T, +E> = Ok(value: T) | Err(error: E)

  type EventId = string
  type CustomerId = string

  datatype Channel = Email | Sms | Whatsapp | Push | Web

  datatype Kind = Purchase | Click | Open | View | Delivered | Send | Bounce | Unsubscribe | Complaint

  datatype Status = Pending | Processed | Failed

  /** What happened: the part of an event that scoring and consent depend on. Times are microseconds. */
  datatype Fact = Fact(channel: Channel, kind: Kind, ts: int)

  /** A validated request body. */
  datatype EventIn = EventIn(eventId: EventId, customerId: CustomerId, fact: Fact)

  /** Rows of `events`, `customers`, `engagement_scores`, `event_outbox` and `dlq_events`. */
  datatype Event = Event(customerId: CustomerId, fact: Fact, status: Status, processedAt: Option<int>)

  datatype Customer = Customer(optIn: set<Channel>, lastActive: Option<int>, hasConverted: bool)

  datatype Tally = Tally(count: nat, totalWeight: real)

  datatype Engagement = Engagement(score: real, lastUpdated: int, breakdown: map<Channel, Tally>)

  datatype OutboxRow = OutboxRow(eventId: EventId, createdAt: int, publishedAt: Option<int>, messageId: Option<nat>)

  datatype DlqRow = DlqRow(eventId: EventId, retries: nat, replayedAt: Option<int>)

  /** A queue payload: the text of its `event_id` member, if it has one, and whether it passes validation. */
  datatype Payload = Payload(idText: Option<string>, valid: bool)

  /** The `event_id` under which the failure path files a payload. */
  function FiledUnder(p: Payload): EventId {
    if p.idText.Some? then p.idText.value else "unknown"
  }

  /** A number in decimal. */
  function Digits(n: nat): string {
    (if n < 10 then "" else Digits(n / 10)) + [['0', '1', '2', '3', '4', '5', '6', '7', '8', '9'][n % 10]]
  }

  function Max(a: int, b: int): int {
    if a < b then b else a
  }

  function Lookup<K, V>(m: map<K, V>, k: K): Option<V> {
    if k in m then Some(m[k]) else None
  }

  /** A counter kept per key; keys never counted read as zero. */
  function Count<K>(m: map<K, nat>, k: K): nat {
    if k in m then m[k] else 0
  }

  predicate Ascending(s: seq<nat>) {
    forall i, j | 0 <= i < j < |s| :: s[i] < s[j]
  }

  function Take<T>(s: seq<T>, n: nat): seq<T> {
    if |s| <= n then s else s[..n]
  }

  function Drop<T>(s: seq<T>, n: nat): seq<T> {
    if |s| <= n then [] else s[n..]
  }

  /** A prefix of an ascending sequence holds exactly the members up to its last one. */
  lemma PrefixMembers(all: seq<nat>, n: nat)
    requires Ascending(all) && 0 < n && all != []
    ensures var ids := Take(all, n);
            forall m :: m in ids <==> m in all && m <= ids[|ids| - 1]
  {
    var ids := Take(all, n);
    forall m | m in all && m <= ids[|ids| - 1]
      ensures m in ids
    {
      var i :| 0 <= i < |all| && all[i] == m;
      assert i < |ids|;
      assert ids[i] == m;
    }
    forall m | m in ids
      ensures m in all && m <= ids[|ids| - 1]
    {
      var i :| 0 <= i < |ids| && ids[i] == m;
      assert all[i] == m;
    }
  }

  lemma TailMembers(a: seq<nat>)
    requires Ascending(a) && a != []
    ensures Ascending(a[1..]) && forall o: nat :: o in a[1..] <==> o in a && a[0] < o
  {
    assert a == [a[0]] + a[1..];
    assert forall j | 0 <= j < |a| - 1 :: a[1..][j] == a[j + 1];
  }

  lemma SomeMember(a: seq<nat>)
    ensures a != [] ==> exists o: nat :: o in a
  {
    if a != [] {
      assert a[0] in a;
    }
  }

  /** An ascending sequence is determined by its members. */
  lemma {:induction false} AscendingUnique(a: seq<nat>, b: seq<nat>)
    requires Ascending(a) && Ascending(b) && forall o: nat :: o in a <==> o in b
    ensures a == b
    decreases |a|
  {
    if a == [] {
      SomeMember(b);
    } else if b == [] {
      SomeMember(a);
    } else {
      TailMembers(a);
      TailMembers(b);
      assert a[0] in b && b[0] in a;
      AscendingUnique(a[1..], b[1..]);
      assert a == [a[0]] + a[1..] && b == [b[0]] + b[1..];
    }
  }

  /** Dropping a prefix leaves the members that are not in it. */
  lemma DropMembers(all: seq<nat>, n: nat)
    requires Ascending(all)
    ensures Ascending(Drop(all, n))
    ensures forall o: nat :: o in Drop(all, n) <==> o in all && o !in Take(all, n)
  {
    var ids, rest := Take(all, n), Drop(all, n);
    assert all == ids + rest;
    forall o: nat | o in rest ensures o !in ids {
      var i :| 0 <= i < |rest| && rest[i] == o;
      assert forall j | 0 <= j < |ids| :: ids[j] == all[j] && all[j] < all[|ids| + i];
    }
    assert forall i | 0 <= i < |rest| :: rest[i] == all[|ids| + i];
  }

  lemma SubsetSize<T>(a: set<T>, b: set<T>)
    requires a <= b
    ensures |a| <= |b|
  {
    if a != {} {
      var x :| x in a;
      SubsetSize(a - {x}, b - {x});
    }
  }
}
