/**
  The discovery scenarios of the repository's test suite, replayed on a
  `SentinelClient` with the network outcomes those tests arrange. The
  candidate strings are parameters: each scenario holds for every list of
  the shape the test uses.
 */
module Scenarios {
  import opened Wrappers
  import opened PyText
  import opened Discovery
  import opened Client
  import opened Traces

  /** `connect(sentinels, "master", callback, timeout)` on a fresh client
      with a fresh list whose first candidate is well-formed: the client
      shares the list object, connects to the first candidate and invokes
      nothing. */
  method StartWalk(l: seq<string>, cb: Callback, limit: real)
    returns (client: SentinelClient, list: PySequence, action: Action, fired: seq<Callback>)
    requires |l| > 0 && WellFormed(l[0])
    ensures fresh(client) && fresh(list)
    ensures client.sentinels == list && !list.isTuple
    ensures client.Snapshot() == Session(l, true, 1, "master", limit, Some(cb), None)
    ensures action == Target(l[0])
    ensures fired == []
  {
    list := new PySequence(l, false);
    client := new SentinelClient();
    ConnectStartsWalk(PyList(l), PyStr("master"), Some(cb), limit, None);
    var r := client.Connect(Sequence(list), PyStr("master"), Some(cb), limit, false);
    action := r.outcome.action;
    fired := ToSeq(r.outcome.invoked);
  }

  /** A sentinel connect that fails while a well-formed candidate is next:
      the cursor moves on by one, the client connects to that candidate,
      nothing is invoked and nothing else changes. */
  method FailedConnect(client: SentinelClient) returns (action: Action, fired: seq<Callback>)
    requires client.sentinels != null
    requires client.nextSentinel < |client.sentinels.items|
    requires WellFormed(client.sentinels.items[client.nextSentinel])
    modifies client
    ensures client.sentinels == old(client.sentinels)
    ensures client.Snapshot() == old(client.Snapshot()).(nextSentinel := old(client.nextSentinel) + 1)
    ensures action == Target(old(client.sentinels.items[client.nextSentinel]))
    ensures fired == []
  {
    FailureAdvances(client.Snapshot());
    var invoked;
    action, invoked := client.HandleConnectionToSentinel(false, false);
    fired := ToSeq(invoked);
  }

  /** A client after `connect` on four candidates of which the first two are
      unreachable and the third accepts the connect: the caller's list is
      shared, unchanged, the cursor is past the third candidate, and the
      client has asked that sentinel for the sentinels it knows, with
      nothing invoked on the way. */
  method WalkToThirdSentinel(c0: string, c1: string, c2: string, c3: string, cb: Callback)
    returns (client: SentinelClient, list: PySequence, action: Action, fired: seq<Callback>)
    requires WellFormedFrom([c0, c1, c2, c3], 0)
    ensures fresh(client) && fresh(list)
    ensures client.sentinels == list && !list.isTuple
    ensures client.Snapshot() == Session([c0, c1, c2, c3], true, 3, "master", 0.05, Some(cb), None)
    ensures action == QuerySentinels("master")
    ensures fired == []
  {
    assert WellFormed([c0, c1, c2, c3][0]);
    var f0, f1, f2, invoked;
    client, list, action, f0 := StartWalk([c0, c1, c2, c3], cb, 0.05);
    action, f1 := FailedConnect(client);
    action, f2 := FailedConnect(client);
    action, invoked := client.HandleConnectionToSentinel(true, false);
    fired := f0 + f1 + f2 + ToSeq(invoked);
  }

  /** The live sentinel reports one sentinel the client does not know yet:
      its name is appended to the caller's list object in place, the cursor
      goes back to 0, nothing is invoked and the master address is asked for
      next. */
  method LearnOneSentinel(client: SentinelClient, list: PySequence, learned: string,
                          ghost s: Session)
    returns (action: Action, fired: seq<Callback>)
    requires client.sentinels == list && !list.isTuple
    requires client.Snapshot() == s && learned !in s.sentinels
    modifies client, list
    ensures client.sentinels == list
    ensures client.Snapshot() == s.(sentinels := s.sentinels + [learned], nextSentinel := 0)
    ensures action == QueryMasterAddress(s.masterName)
    ensures fired == []
  {
    var entry := ["name", learned, "flags", "sentinel"];
    LearnsNewSentinel(s, entry);
    var invoked;
    action, invoked := client.HandleGetAllSentinels(Some([entry]));
    fired := ToSeq(invoked);
  }

  /** Two unreachable sentinels, then a live one that knows one more sentinel
      and resolves the master, then a fourth candidate: the client ends
      CONNECTED, the callback fires once, and the caller's own list object has
      grown to five entries, the new sentinel last. */
  method LiveThirdSentinel(c0: string, c1: string, c2: string, c3: string, learned: string,
                           masterHost: string, masterPort: nat, cb: Callback)
    returns (status: Option<Status>, items: seq<string>, fired: seq<Callback>)
    requires WellFormedFrom([c0, c1, c2, c3], 0)
    requires learned !in [c0, c1, c2, c3]
    ensures status == Some(Connected)
    ensures items == [c0, c1, c2, c3, learned]
    ensures fired == [cb]
  {
    var client, list, action, walked := WalkToThirdSentinel(c0, c1, c2, c3, cb);
    var learnt, resolved, completed;
    action, learnt := LearnOneSentinel(client, list, learned, client.Snapshot());
    ParseShow(masterPort);
    action, resolved := client.HandleGetMasterAddress(MasterItems([masterHost, ShowInt(masterPort)]), false);
    action, completed := client.HandleConnectionSuccess(true);
    fired := walked + learnt + ToSeq(resolved) + ToSeq(completed);
    status := client.status;
    items := list.items;
  }

  /** Three unreachable sentinels: each is tried once, in order, then the
      client reports FAILED_AFTER_ALL_SENTINELS and invokes the callback once;
      the list is unchanged. */
  method NoAvailableSentinels(c0: string, c1: string, c2: string, cb: Callback)
    returns (status: Option<Status>, tried: seq<Action>, items: seq<string>, fired: seq<Callback>)
    requires WellFormedFrom([c0, c1, c2], 0)
    ensures status == Some(FailedAfterAllSentinels)
    ensures tried == Attempts([c0, c1, c2], 0) + [Exhausted]
    ensures items == [c0, c1, c2]
    ensures fired == [cb]
  {
    var l := [c0, c1, c2];
    assert WellFormed(l[0]) && WellFormed(l[1]) && WellFormed(l[2]);
    assert Attempts(l, 3) == [];
    assert Attempts(l, 2) == [Target(c2)];
    assert Attempts(l, 1) == [Target(c1), Target(c2)];
    assert Attempts(l, 0) == [Target(c0), Target(c1), Target(c2)];
    var client, list, first, f0 := StartWalk(l, cb, 0.05);
    var second, f1 := FailedConnect(client);
    var third, f2 := FailedConnect(client);
    FailureExhausts(client.Snapshot());
    var last, invoked := client.HandleConnectionToSentinel(false, false);
    tried := [first, second, third, last];
    fired := f0 + f1 + f2 + ToSeq(invoked);
    status := client.status;
    items := list.items;
  }

  /** A single reachable sentinel with a negative timeout: the guarded
      connect reports failure, so the one candidate is used up and the client
      reports FAILED_AFTER_ALL_SENTINELS, invoking the callback once. */
  method TimeoutOnOnlySentinel(c0: string, limit: real, cb: Callback)
    returns (status: Option<Status>, fired: seq<Callback>, storedTimeout: real)
    requires WellFormedFrom([c0], 0)
    requires limit < 0.0
    ensures status == Some(FailedAfterAllSentinels)
    ensures fired == [cb]
    ensures storedTimeout == limit
  {
    assert WellFormed([c0][0]);
    var client, list, action, started := StartWalk([c0], cb, limit);
    var invoked;
    action, invoked := client.HandleConnectionToSentinel(false, false);
    fired := started + ToSeq(invoked);
    status := client.status;
    storedTimeout := client.timeout;
  }

  /** `None`, a string and an empty list are refused as sentinels, and a
      missing, empty or integer master name is refused, each with ValueError
      and before any field of the client is set. */
  method RejectsInvalidArguments() returns (errors: seq<PyError>, untouched: bool)
    ensures errors == [ValueError(InvalidSentinels), ValueError(InvalidSentinels), ValueError(InvalidSentinels),
                       ValueError(InvalidMasterName), ValueError(InvalidMasterName), ValueError(InvalidMasterName)]
    ensures untouched
  {
    var client := new SentinelClient();
    var empty := new PySequence([], false);
    var one := new PySequence(["localhost:2345"], false);
    var r0 := client.Connect(NoneArg, PyNone, None, 0.05, false);
    var r1 := client.Connect(StrArg("invalid"), PyNone, None, 0.05, false);
    var r2 := client.Connect(Sequence(empty), PyNone, None, 0.05, false);
    var r3 := client.Connect(Sequence(one), PyNone, None, 0.05, false);
    var r4 := client.Connect(Sequence(one), PyStr(""), None, 0.05, false);
    var r5 := client.Connect(Sequence(one), PyInt(10), None, 0.05, false);
    errors := [r0.error, r1.error, r2.error, r3.error, r4.error, r5.error];
    untouched := client.sentinels == null && client.status == None;
  }
}
