/**
  Runs of the discovery state machine: any sequence of network events fed to
  the handlers of `Discovery`, one after another, and what holds over all of
  them (the callback fires at most once; the list only grows, by new names
  only; the cursor stays within the list; a list whose sentinels all fail is
  walked to the end, in order, before the failure is reported).
 */
module Traces {
  import opened Wrappers
  import opened PyText
  import opened Discovery

  /** One network event, delivered to the handler waiting for it. `refused`
      is the immediate outcome of the next sentinel connect, should one start. */
  datatype Event =
    | SentinelConnected(ok: bool, refused: bool)
    | SentinelsReplied(entries: Option<seq<seq<string>>>)
    | MasterReplied(reply: MasterReply, refused: bool)
    | MasterConnected(ok: bool)

  function Step(s: Session, e: Event): Outcome
  {
    match e
    case SentinelConnected(ok, refused) => HandleConnectionToSentinel(s, ok, refused)
    case SentinelsReplied(reply) => HandleGetAllSentinels(s, reply)
    case MasterReplied(reply, refused) => HandleGetMasterAddress(s, reply, refused)
    case MasterConnected(ok) => HandleConnectionSuccess(s, ok)
  }

  datatype Trace = Trace(session: Session, actions: seq<Action>, invoked: seq<Callback>)

  /** The session after `events`, the actions taken and the callbacks invoked, in order. */
  function Run(s: Session, events: seq<Event>): (t: Trace)
    ensures |t.actions| == |events|
    decreases |events|
  {
    if events == [] then Trace(s, [], [])
    else
      var o := Step(s, events[0]);
      var t := Run(o.session, events[1..]);
      Trace(t.session, [o.action] + t.actions, ToSeq(o.invoked) + t.invoked)
  }

  /** The entries past `base` were each new when appended. */
  ghost predicate GrowsFreshly(base: seq<string>, l: seq<string>)
  {
    base <= l && forall i :: |base| <= i < |l| ==> l[i] !in l[..i]
  }

  /** What every handler keeps: the callback is invoked only if pending, and
      is then cleared; a pending callback is otherwise kept or cleared, never
      replaced; the status changes only with an invocation; the list only
      grows, and only by new names; a cursor within the list stays within it,
      and it only stays, moves on by one or goes back to 0; name, timeout and
      the kind of list stay. */
  ghost predicate Sound(s: Session, o: Outcome)
  {
    && (o.invoked.Some? ==> o.invoked == s.callback && o.session.callback == None)
    && (o.session.callback == None || o.session.callback == s.callback)
    && (o.session.status != s.status ==> o.invoked.Some?)
    && GrowsFreshly(s.sentinels, o.session.sentinels)
    && (s.nextSentinel <= |s.sentinels| ==> o.session.nextSentinel <= |o.session.sentinels|)
    && (o.session.nextSentinel == s.nextSentinel || o.session.nextSentinel == s.nextSentinel + 1
        || o.session.nextSentinel == 0)
    && o.session.masterName == s.masterName && o.session.timeout == s.timeout
    && o.session.appendable == s.appendable
  }

  lemma ConnectToNextSentinelSound(s: Session, refused: bool)
    ensures Sound(s, ConnectToNextSentinel(s, refused))
  {
  }

  lemma HandleGetAllSentinelsSound(s: Session, reply: Option<seq<seq<string>>>)
    ensures Sound(s, HandleGetAllSentinels(s, reply))
  {
    if reply.Some? {
      var entries := reply.value;
      var k := Handled(s.sentinels, s.appendable, entries);
      EnrichExtends(s.sentinels, NamesOf(entries[..k]));
      EnrichAppendsFresh(s.sentinels, NamesOf(entries[..k]));
    }
  }

  lemma HandleGetMasterAddressSound(s: Session, reply: MasterReply, refused: bool)
    ensures Sound(s, HandleGetMasterAddress(s, reply, refused))
  {
    ConnectToNextSentinelSound(s, refused);
  }

  /** Every handler is `Sound`. */
  lemma StepFacts(s: Session, e: Event)
    ensures Sound(s, Step(s, e))
  {
    match e
    case SentinelConnected(ok, refused) => ConnectToNextSentinelSound(s, refused);
    case SentinelsReplied(reply) => HandleGetAllSentinelsSound(s, reply);
    case MasterReplied(reply, refused) => HandleGetMasterAddressSound(s, reply, refused);
    case MasterConnected(ok) =>
  }

  /** Over any run, the callback is invoked at most once, and only if it was
      pending at the start: no sequence of late or stray events fires it twice. */
  lemma {:induction false} RunFiresAtMostOnce(s: Session, events: seq<Event>)
    ensures |Run(s, events).invoked| <= (if s.callback.Some? then 1 else 0)
    ensures forall i :: 0 <= i < |Run(s, events).invoked| ==> Some(Run(s, events).invoked[i]) == s.callback
    decreases |events|
  {
    if events != [] {
      var o := Step(s, events[0]);
      StepFacts(s, events[0]);
      RunFiresAtMostOnce(o.session, events[1..]);
    }
  }

  /** Over any run, the list is only appended to, each appended name new at
      the time; the cursor stays within the list; name and timeout stay. */
  lemma {:induction false} RunOnlyAppends(s: Session, events: seq<Event>)
    ensures GrowsFreshly(s.sentinels, Run(s, events).session.sentinels)
    ensures s.nextSentinel <= |s.sentinels| ==>
      Run(s, events).session.nextSentinel <= |Run(s, events).session.sentinels|
    ensures Run(s, events).session.masterName == s.masterName
    ensures Run(s, events).session.timeout == s.timeout
    decreases |events|
  {
    if events != [] {
      var o := Step(s, events[0]);
      StepFacts(s, events[0]);
      RunOnlyAppends(o.session, events[1..]);
      var l := Run(s, events).session.sentinels;
      var mid := o.session.sentinels;
      forall i | |s.sentinels| <= i < |l|
        ensures l[i] !in l[..i]
      {
        if i < |mid| {
          assert l[..i] == mid[..i];
        }
      }
    }
  }

  /** Whether a candidate splits into a host and an integer port. */
  predicate WellFormed(entry: string)
  {
    HostPort(entry).Some? && ParseInt(HostPort(entry).value.1).Some?
  }

  /** The connect started for a well-formed candidate. */
  function Target(entry: string): Action
    requires WellFormed(entry)
  {
    ConnectToSentinel(HostPort(entry).value.0, ParseInt(HostPort(entry).value.1).value)
  }

  /** Whether every candidate from index `c` on is well-formed. */
  predicate WellFormedFrom(l: seq<string>, c: nat)
  {
    forall i :: c <= i < |l| ==> WellFormed(l[i])
  }

  /** The connects to the candidates from index `c` on, in list order. */
  function Attempts(l: seq<string>, c: nat): seq<Action>
    requires WellFormedFrom(l, c)
    decreases |l| - c
  {
    if c >= |l| then [] else [Target(l[c])] + Attempts(l, c + 1)
  }

  /** `n` failed sentinel connects, none refused at once. */
  function Failures(n: nat): (es: seq<Event>)
    ensures |es| == n
  {
    if n == 0 then [] else [SentinelConnected(false, false)] + Failures(n - 1)
  }

  /** The first step of a run, and the rest. */
  lemma RunCons(s: Session, e: Event, rest: seq<Event>)
    ensures var o := Step(s, e);
      var t := Run(o.session, rest);
      Run(s, [e] + rest) == Trace(t.session, [o.action] + t.actions, ToSeq(o.invoked) + t.invoked)
  {
    assert ([e] + rest)[0] == e;
    assert ([e] + rest)[1..] == rest;
  }

  /** A run already under way, with `actions` taken and `fired` invoked so
      far, continued by one more event and then `rest`. */
  lemma RunResumes(s: Session, e: Event, rest: seq<Event>, actions: seq<Action>, fired: seq<Callback>)
    ensures var o := Step(s, e);
      var t := Run(o.session, rest);
      var u := Run(s, [e] + rest);
      Trace(u.session, actions + u.actions, fired + u.invoked)
        == Trace(t.session, (actions + [o.action]) + t.actions, (fired + ToSeq(o.invoked)) + t.invoked)
  {
    RunCons(s, e, rest);
    var o := Step(s, e);
    var t := Run(o.session, rest);
    assert actions + ([o.action] + t.actions) == (actions + [o.action]) + t.actions;
    assert fired + (ToSeq(o.invoked) + t.invoked) == (fired + ToSeq(o.invoked)) + t.invoked;
  }

  /** A failed sentinel connect with a well-formed candidate next moves the
      cursor on by one and connects to that candidate. */
  lemma FailureAdvances(s: Session)
    requires s.nextSentinel < |s.sentinels|
    requires WellFormed(s.sentinels[s.nextSentinel])
    ensures Step(s, SentinelConnected(false, false))
      == Outcome(s.(nextSentinel := s.nextSentinel + 1), Target(s.sentinels[s.nextSentinel]), None)
  {
  }

  /** An accepted `connect` whose first candidate is well-formed stores its
      arguments, moves the cursor past the first candidate and connects to it. */
  lemma ConnectStartsWalk(sentinels: PyValue, masterName: PyValue, callback: Option<Callback>,
                          timeout: real, priorStatus: Option<Status>)
    requires CheckArguments(sentinels, masterName).None?
    requires WellFormed(sentinels.items[0])
    ensures Connect(sentinels, masterName, callback, timeout, priorStatus, false)
      == Started(Outcome(Session(sentinels.items, sentinels.PyList?, 1, masterName.s, timeout, callback, priorStatus),
                         Target(sentinels.items[0]), None))
  {
    FailureAdvances(Session(sentinels.items, sentinels.PyList?, 0, masterName.s, timeout, callback, priorStatus));
  }

  /** A failed sentinel connect with the list used up reports exhaustion. */
  lemma FailureExhausts(s: Session)
    requires s.nextSentinel >= |s.sentinels|
    ensures Step(s, SentinelConnected(false, false))
      == Outcome(s.(status := if s.callback.Some? then Some(FailedAfterAllSentinels) else s.status,
                    callback := None),
                 Exhausted, s.callback)
  {
  }

  /** When every sentinel connect fails, the client tries each remaining
      candidate in turn and then reports exhaustion. */
  lemma {:induction false} FailuresWalkInOrder(s: Session)
    requires s.nextSentinel <= |s.sentinels|
    requires WellFormedFrom(s.sentinels, s.nextSentinel)
    ensures Run(s, Failures(|s.sentinels| - s.nextSentinel + 1)).actions
      == Attempts(s.sentinels, s.nextSentinel) + [Exhausted]
    decreases |s.sentinels| - s.nextSentinel
  {
    var n := |s.sentinels| - s.nextSentinel + 1;
    var fail := SentinelConnected(false, false);
    RunCons(s, fail, Failures(n - 1));
    var o := Step(s, fail);
    if s.nextSentinel < |s.sentinels| {
      FailureAdvances(s);
      FailuresWalkInOrder(o.session);
      var rest := Attempts(s.sentinels, s.nextSentinel + 1);
      assert [o.action] + (rest + [Exhausted]) == ([o.action] + rest) + [Exhausted];
    } else {
      FailureExhausts(s);
    }
  }

  /** ... with the list unchanged, a pending callback invoked once, and the
      status FAILED_AFTER_ALL_SENTINELS if it was pending. */
  lemma {:induction false} FailuresWalkToEnd(s: Session)
    requires s.nextSentinel <= |s.sentinels|
    requires WellFormedFrom(s.sentinels, s.nextSentinel)
    ensures var t := Run(s, Failures(|s.sentinels| - s.nextSentinel + 1));
      && t.session.sentinels == s.sentinels
      && t.session.callback == None
      && t.invoked == ToSeq(s.callback)
      && t.session.status == (if s.callback.Some? then Some(FailedAfterAllSentinels) else s.status)
    decreases |s.sentinels| - s.nextSentinel
  {
    var n := |s.sentinels| - s.nextSentinel + 1;
    var fail := SentinelConnected(false, false);
    RunCons(s, fail, Failures(n - 1));
    var o := Step(s, fail);
    var t := Run(o.session, Failures(n - 1));
    if s.nextSentinel < |s.sentinels| {
      FailureAdvances(s);
      FailuresWalkToEnd(o.session);
      assert ToSeq(o.invoked) + t.invoked == t.invoked;
    } else {
      FailureExhausts(s);
      assert ToSeq(o.invoked) + t.invoked == ToSeq(s.callback);
    }
  }

  /** All sentinels unreachable: after an accepted `connect` and one failure per
      candidate, every original candidate has been tried exactly once, in
      order, the list is unchanged, and the status is FAILED_AFTER_ALL_SENTINELS
      with the callback invoked once. */
  lemma AllUnreachable(sentinels: PyValue, masterName: PyValue, callback: Callback,
                       timeout: real, priorStatus: Option<Status>)
    requires CheckArguments(sentinels, masterName).None?
    requires WellFormedFrom(sentinels.items, 0)
    ensures var o := Connect(sentinels, masterName, Some(callback), timeout, priorStatus, false).outcome;
      var t := Run(o.session, Failures(|sentinels.items|));
      && [o.action] + t.actions == Attempts(sentinels.items, 0) + [Exhausted]
      && t.session.sentinels == sentinels.items
      && t.session.status == Some(FailedAfterAllSentinels)
      && ToSeq(o.invoked) + t.invoked == [callback]
  {
    var l := sentinels.items;
    ConnectStartsWalk(sentinels, masterName, Some(callback), timeout, priorStatus);
    var s1 := Session(l, sentinels.PyList?, 1, masterName.s, timeout, Some(callback), priorStatus);
    FailuresWalkInOrder(s1);
    FailuresWalkToEnd(s1);
    var rest := Attempts(l, 1);
    assert [Target(l[0])] + (rest + [Exhausted]) == ([Target(l[0])] + rest) + [Exhausted];
  }

  /** Running `a` and then `b` is running `a + b`. */
  lemma {:induction false} RunAppend(s: Session, a: seq<Event>, b: seq<Event>)
    ensures var ta := Run(s, a);
      var tb := Run(ta.session, b);
      Run(s, a + b) == Trace(tb.session, ta.actions + tb.actions, ta.invoked + tb.invoked)
    decreases |a|
  {
    if a == [] {
      assert a + b == b;
    } else {
      var e, rest := a[0], a[1..];
      assert a == [e] + rest;
      assert a + b == [e] + (rest + b);
      var o := Step(s, e);
      RunCons(s, e, rest);
      RunCons(s, e, rest + b);
      RunAppend(o.session, rest, b);
      var ta := Run(o.session, rest);
      var tb := Run(ta.session, b);
      Associative([o.action], ta.actions, tb.actions);
      Associative(ToSeq(o.invoked), ta.invoked, tb.invoked);
    }
  }

  lemma Associative<T>(x: seq<T>, y: seq<T>, z: seq<T>)
    ensures x + (y + z) == (x + y) + z
  {
  }

  /** One round with a live sentinel that knows no other sentinel and cannot
      resolve the master: the connect succeeds, the sentinels reply is empty,
      the master reply is `None`, and the next connect starts. */
  function Round(): seq<Event>
  {
    [SentinelConnected(true, false), SentinelsReplied(Some([])), MasterReplied(NoMaster, false)]
  }

  /** `n` such rounds. */
  function Rounds(n: nat): seq<Event>
  {
    if n == 0 then [] else Round() + Rounds(n - 1)
  }

  /** Connected to the first candidate, one round brings the client back to
      exactly the same fields: the empty reply puts the cursor back at 0 and
      the walk reconnects to the same first candidate, invoking nothing. */
  lemma EndlessWalk(s: Session)
    requires s.nextSentinel == 1 && |s.sentinels| >= 1 && WellFormed(s.sentinels[0])
    ensures Run(s, Round()).session == s
    ensures Run(s, Round()).invoked == []
    ensures Run(s, Round()).actions
      == [QuerySentinels(s.masterName), QueryMasterAddress(s.masterName), Target(s.sentinels[0])]
  {
    var e0, e1, e2 := SentinelConnected(true, false), SentinelsReplied(Some([])), MasterReplied(NoMaster, false);
    var s1 := s.(nextSentinel := 0);
    assert Step(s, e0) == Outcome(s, QuerySentinels(s.masterName), None);
    assert Step(s, e1) == Outcome(s1, QueryMasterAddress(s.masterName), None) by {
      assert Handled(s.sentinels, s.appendable, []) == 0;
      assert NamesOf([][..0]) == [];
    }
    FailureAdvances(s1);
    assert Step(s1, e2) == Outcome(s, Target(s.sentinels[0]), None);
    assert Run(s, []) == Trace(s, [], []);
    RunCons(s1, e2, []);
    RunCons(s, e1, [e2]);
    RunCons(s, e0, [e1, e2]);
    assert [e2] + [] == [e2] && [e1] + [e2] == [e1, e2] && [e0] + [e1, e2] == Round();
  }

  /** ... and so does any number of rounds: the callback never fires and the
      walk never reaches the second candidate. */
  lemma {:induction false} EndlessWalkForever(s: Session, n: nat)
    requires s.nextSentinel == 1 && |s.sentinels| >= 1 && WellFormed(s.sentinels[0])
    ensures Run(s, Rounds(n)).session == s
    ensures Run(s, Rounds(n)).invoked == []
  {
    if n > 0 {
      EndlessWalk(s);
      RunAppend(s, Round(), Rounds(n - 1));
      EndlessWalkForever(s, n - 1);
    }
  }
}
