/**
  The IO loop's side of the handlers: each network event is delivered to the
  `SentinelClient` method waiting for it, one after another. Delivering a
  sequence of events to a client after `connect`, with nothing else touching
  the client or its list object in between, does to its fields exactly what
  `Traces.Run` does to the session, so every lemma about `Run` holds of the
  object. The caller or another client sharing the list object can change it
  between two events; the run's lemmas say nothing about that.
 */
module EventLoop {
  import opened Wrappers
  import opened Discovery
  import opened Client
  import opened Traces

  /** Deliver one event to the handler it completes. */
  method Deliver(client: SentinelClient, e: Event) returns (action: Action, invoked: Option<Callback>)
    requires client.sentinels != null
    modifies client, client.sentinels
    ensures client.sentinels == old(client.sentinels)
    ensures Step(old(client.Snapshot()), e) == Outcome(client.Snapshot(), action, invoked)
  {
    match e
    case SentinelConnected(ok, refused) =>
      action, invoked := client.HandleConnectionToSentinel(ok, refused);
    case SentinelsReplied(entries) =>
      action, invoked := client.HandleGetAllSentinels(entries);
    case MasterReplied(reply, refused) =>
      action, invoked := client.HandleGetMasterAddress(reply, refused);
    case MasterConnected(ok) =>
      action, invoked := client.HandleConnectionSuccess(ok);
  }

  /** Deliver `events` in order: the fields end as `Run` says, and the actions
      taken and callbacks invoked are those of the run. */
  method DeliverAll(client: SentinelClient, events: seq<Event>)
    returns (actions: seq<Action>, fired: seq<Callback>)
    requires client.sentinels != null
    modifies client, client.sentinels
    ensures client.sentinels == old(client.sentinels)
    ensures Run(old(client.Snapshot()), events) == Trace(client.Snapshot(), actions, fired)
  {
    ghost var start := client.Snapshot();
    actions, fired := [], [];
    var i := 0;
    while i < |events|
      invariant 0 <= i <= |events|
      invariant client.sentinels == old(client.sentinels)
      invariant var t := Run(client.Snapshot(), events[i..]);
        Run(start, events) == Trace(t.session, actions + t.actions, fired + t.invoked)
    {
      RunResumes(client.Snapshot(), events[i], events[i + 1..], actions, fired);
      assert [events[i]] + events[i + 1..] == events[i..];
      var action, invoked := Deliver(client, events[i]);
      actions, fired := actions + [action], fired + ToSeq(invoked);
      i := i + 1;
    }
    assert events[i..] == [];
  }
}
