/**
  Two alternative handlers set beside the code, each following one stated
  rule. The first resets the cursor only when a reply to `SENTINEL sentinels`
  appended something. The second moves on to the next candidate after an
  immediate ECONNREFUSED, which is what the handler's "Trying next sentinel."
  warning and its commented-out recursive call describe (core.py:64-65). Each
  variant is proved equal to the code's handler except in exactly the case
  where the rule and the code disagree, and the lemmas show what that
  difference buys: the walk goes on to the next candidate instead of circling,
  and a walk of refusing sentinels ends in FAILED_AFTER_ALL_SENTINELS instead
  of stalling.
 */
module Intended {
  import opened Wrappers
  import opened Discovery
  import opened Traces

  // ------------------------------------------------- resetting on growth only

  /** `handle_get_all_sentinels` with the rule "reset only when something was
      appended": the cursor goes back to 0 only when the list grew. Everything
      else is as in the code. */
  function HandleGetAllSentinelsOnGrowth(s: Session, reply: Option<seq<seq<string>>>): Outcome
  {
    match reply
    case None => Outcome(s, QueryMasterAddress(s.masterName), None)
    case Some(entries) =>
      var k := Handled(s.sentinels, s.appendable, entries);
      var grown := s.(sentinels := Enrich(s.sentinels, NamesOf(entries[..k])));
      if k < |entries| then
        Outcome(grown, Raised(if |entries[k]| < 2 then IndexError else AttributeError), None)
      else if |grown.sentinels| > |s.sentinels| then
        Outcome(grown.(nextSentinel := 0), QueryMasterAddress(s.masterName), None)
      else
        Outcome(grown, QueryMasterAddress(s.masterName), None)
  }

  /** The variant and the code disagree exactly on a reply the loop gets
      through that names no new sentinel, while the cursor is not at 0. */
  lemma OnGrowthDiffersExactly(s: Session, reply: Option<seq<seq<string>>>)
    ensures HandleGetAllSentinelsOnGrowth(s, reply) != HandleGetAllSentinels(s, reply)
      <==> && reply.Some?
           && Handled(s.sentinels, s.appendable, reply.value) == |reply.value|
           && FirstSeen(NamesOf(reply.value), s.sentinels) == []
           && s.nextSentinel != 0
  {
    if reply.Some? {
      var entries := reply.value;
      var k := Handled(s.sentinels, s.appendable, entries);
      if k == |entries| {
        assert entries[..k] == entries;
        EnrichAppendsFirstSeen(s.sentinels, NamesOf(entries));
      }
    }
  }

  /** The round of `Traces.EndlessWalk` under the variant: the empty reply
      keeps the cursor, so the unresolved master sends the walk on to the
      second candidate instead of back to the first. */
  lemma OnGrowthMovesOn(s: Session)
    requires s.nextSentinel == 1 && |s.sentinels| >= 2 && WellFormed(s.sentinels[1])
    ensures var o1 := HandleConnectionToSentinel(s, true, false);
      var o2 := HandleGetAllSentinelsOnGrowth(o1.session, Some([]));
      var o3 := HandleGetMasterAddress(o2.session, NoMaster, false);
      && o3.session == s.(nextSentinel := 2)
      && o3.action == Target(s.sentinels[1])
  {
    assert Handled(s.sentinels, s.appendable, []) == 0;
    assert NamesOf([][..0]) == [];
    FailureAdvances(s);
  }

  // ---------------------------------------------- moving on after a refusal

  /** How far the walk has left to go. */
  function Remaining(s: Session): nat
  {
    if s.nextSentinel <= |s.sentinels| then |s.sentinels| - s.nextSentinel else 0
  }

  /** `connect_to_next_sentinel` with the rule "after ECONNREFUSED, try the
      next candidate", i.e. with the commented-out recursive call of
      core.py:65 in place. `refusing` holds the positions of the candidates
      whose connect is refused at once. */
  function ConnectSkippingRefused(s: Session, refusing: set<nat>): Outcome
    decreases Remaining(s)
  {
    var o := ConnectToNextSentinel(s, s.nextSentinel in refusing);
    if o.action.RefusedBySentinel? then
      ConnectToNextSentinelSelects(s, true);
      ConnectSkippingRefused(o.session, refusing)
    else o
  }

  /** Where the next candidate does not refuse, the variant is the code. */
  lemma SkippingAgrees(s: Session, refusing: set<nat>)
    requires s.nextSentinel !in refusing
    ensures ConnectSkippingRefused(s, refusing) == ConnectToNextSentinel(s, false)
  {
  }

  /** Under the variant the walk never stops on a refusal: it ends in a
      connect started, an exception, or exhaustion. */
  lemma {:induction false} SkippingNeverStalls(s: Session, refusing: set<nat>)
    ensures !ConnectSkippingRefused(s, refusing).action.RefusedBySentinel?
    decreases Remaining(s)
  {
    var o := ConnectToNextSentinel(s, s.nextSentinel in refusing);
    if o.action.RefusedBySentinel? {
      ConnectToNextSentinelSelects(s, true);
      SkippingNeverStalls(o.session, refusing);
    }
  }

  /** In the code a refused well-formed candidate stops the walk: the cursor
      has moved on, nothing is invoked and the callback stays pending. */
  lemma RefusalStalls(s: Session)
    requires s.nextSentinel < |s.sentinels| && WellFormed(s.sentinels[s.nextSentinel])
    ensures ConnectToNextSentinel(s, true) == Outcome(
      s.(nextSentinel := s.nextSentinel + 1),
      RefusedBySentinel(Target(s.sentinels[s.nextSentinel]).host, Target(s.sentinels[s.nextSentinel]).port),
      None)
  {
  }

  /** Under the variant, when every remaining well-formed candidate refuses,
      the walk reaches the end of the list and reports
      FAILED_AFTER_ALL_SENTINELS, invoking a pending callback. */
  lemma {:induction false} AllRefusingExhausts(s: Session, refusing: set<nat>)
    requires s.nextSentinel <= |s.sentinels|
    requires WellFormedFrom(s.sentinels, s.nextSentinel)
    requires forall i :: s.nextSentinel <= i < |s.sentinels| ==> i in refusing
    ensures var o := ConnectSkippingRefused(s, refusing);
      && o.action == Exhausted
      && o.invoked == s.callback
      && o.session.sentinels == s.sentinels
      && o.session.callback == None
      && o.session.status == (if s.callback.Some? then Some(FailedAfterAllSentinels) else s.status)
    decreases |s.sentinels| - s.nextSentinel
  {
    if s.nextSentinel < |s.sentinels| {
      var next := s.(nextSentinel := s.nextSentinel + 1);
      assert ConnectToNextSentinel(s, true).session == next
        && ConnectToNextSentinel(s, true).action.RefusedBySentinel? by {
        RefusalStalls(s);
      }
      AllRefusingExhausts(next, refusing);
    }
  }
}
