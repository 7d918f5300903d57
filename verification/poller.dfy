/**
 * The poller of the inbound adapter: on each tick it hands at most
 * `MaxMessagesPerPoll` pending entries to the flow, in the order they are pending.
 */
module Poller {

  import opened Routing

  /** The poller's `maxMessagesPerPoll`. */
  const MaxMessagesPerPoll: nat := 1

  /** The outcome of one tick: what was handed to the flow, and what still waits. */
  datatype Poll = Poll(emitted: seq<FileEntry>, remaining: seq<FileEntry>)

  function Min(a: nat, b: nat): nat {
    if a < b then a else b
  }

  /** One tick: take at most `MaxMessagesPerPoll` entries off the front of `pending`. */
  function PollStep(pending: seq<FileEntry>): (p: Poll)
    ensures |p.emitted| <= MaxMessagesPerPoll
    ensures p.emitted + p.remaining == pending
    ensures pending != [] ==> p.emitted != []
  {
    var k := Min(MaxMessagesPerPoll, |pending|);
    Poll(pending[..k], pending[k..])
  }

  /** The entries still pending after `ticks` ticks. */
  function PendingAfter(pending: seq<FileEntry>, ticks: nat): seq<FileEntry>
    decreases ticks
  {
    if ticks == 0 then pending else PendingAfter(PollStep(pending).remaining, ticks - 1)
  }

  /**
   * Ticks consume the pending entries in order, one per tick: after `ticks`
   * ticks exactly the first `min(ticks, |pending|)` entries have been taken.
   */
  lemma {:induction false} PendingAfterTicks(pending: seq<FileEntry>, ticks: nat)
    ensures PendingAfter(pending, ticks) == pending[Min(ticks * MaxMessagesPerPoll, |pending|)..]
    decreases ticks
  {
    if ticks > 0 {
      var rest := PollStep(pending).remaining;
      PendingAfterTicks(rest, ticks - 1);
      if pending != [] {
        assert rest == pending[1..];
        assert Min(ticks * MaxMessagesPerPoll, |pending|) == 1 + Min((ticks - 1) * MaxMessagesPerPoll, |rest|);
      }
    }
  }

  /** Tick after tick until nothing is pending, routing what each tick hands over. */
  function Drain(ch: Channels, pending: seq<FileEntry>): Channels
    decreases |pending|
  {
    if pending == [] then ch
    else
      var p := PollStep(pending);
      Drain(RouteInto(ch, p.emitted), p.remaining)
  }

  /** Draining tick by tick routes the same entries, in the same order, as one batch. */
  lemma {:induction false} DrainIsRouteInto(ch: Channels, pending: seq<FileEntry>)
    ensures Drain(ch, pending) == RouteInto(ch, pending)
    decreases |pending|
  {
    if pending != [] {
      var p := PollStep(pending);
      DrainIsRouteInto(RouteInto(ch, p.emitted), p.remaining);
      RouteIntoConcat(ch, p.emitted, p.remaining);
    }
  }

  /**
   * Per-category FIFO through the poller: after draining, each channel holds
   * the pending entries of its category in their original order.
   */
  lemma DrainPreservesOrder(pending: seq<FileEntry>, cat: Category)
    ensures Drain(NoMessages, pending).Queue(cat) == Select(pending, cat)
  {
    DrainIsRouteInto(NoMessages, pending);
    RouteAllIsSelect(pending, cat);
  }
}
