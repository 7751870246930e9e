/**
  `SentinelClient` as an object: its instance fields and one method per
  handler, each doing what the source's handler does to those fields. Every
  method states its new fields as the matching function of `Discovery`
  applied to the old ones; `EventLoop.DeliverAll` lifts that to a sequence
  of handler calls on one client with nothing else touching its list object
  in between, so the lemmas of `Traces` hold of the object then.
 */
module Client {
  import opened Wrappers
  import opened PyText
  import opened Discovery

  /** A Python list or tuple of "host:port" strings. The client keeps a
      reference to the caller's own object, so what it appends the caller sees. */
  class PySequence {
    var items: seq<string>
    const isTuple: bool

    constructor (items: seq<string>, isTuple: bool)
      ensures this.items == items && this.isTuple == isTuple
    {
      this.items := items;
      this.isTuple := isTuple;
    }
  }

  /** The `sentinels` argument of `connect`: `None`, an integer, a string, or
      a list or tuple object. */
  datatype SentinelsArg = NoneArg | IntArg(i: int) | StrArg(s: string) | Sequence(obj: PySequence)

  /** The Python value an argument stands for. */
  function ValueOf(a: SentinelsArg): PyValue
    reads if a.Sequence? then {a.obj} else {}
  {
    match a
    case NoneArg => PyNone
    case IntArg(i) => PyInt(i)
    case StrArg(s) => PyStr(s)
    case Sequence(obj) => if obj.isTuple then PyTuple(obj.items) else PyList(obj.items)
  }

  class SentinelClient {
    /** `null` until the first accepted `connect`; then the caller's list object. */
    var sentinels: PySequence?
    var nextSentinel: nat
    var masterName: string
    var timeout: real
    var callback: Option<Callback>
    /** `connection_status`; `None` while the attribute does not exist yet. */
    var status: Option<Status>

    constructor ()
      ensures sentinels == null && callback == None && status == None
    {
      sentinels := null;
      nextSentinel := 0;
      masterName := "";
      timeout := 0.0;
      callback := None;
      status := None;
    }

    /** The fields as a `Discovery.Session`. */
    function Snapshot(): Session
      reads this, sentinels
      requires sentinels != null
    {
      Session(sentinels.items, !sentinels.isTuple, nextSentinel, masterName, timeout, callback, status)
    }

    method Connect(list: SentinelsArg, name: PyValue, cb: Option<Callback>, limit: real, refused: bool)
      returns (r: ConnectResult)
      modifies this
      ensures r == Discovery.Connect(ValueOf(list), name, cb, limit, old(status), refused)
      ensures r.Rejected? ==> unchanged(this)
      ensures r.Started? ==> list.Sequence? && sentinels == list.obj && Snapshot() == r.outcome.session
    {
      var check := CheckArguments(ValueOf(list), name);
      if check.Some? {
        return Rejected(check.value);
      }
      nextSentinel := 0;
      timeout := limit;
      sentinels := list.obj;
      masterName := name.s;
      callback := cb;
      var action, invoked := ConnectToNextSentinel(refused);
      r := Started(Outcome(Snapshot(), action, invoked));
    }

    method ConnectToNextSentinel(refused: bool) returns (action: Action, invoked: Option<Callback>)
      requires sentinels != null
      modifies this
      ensures sentinels == old(sentinels)
      ensures Discovery.ConnectToNextSentinel(old(Snapshot()), refused) == Outcome(Snapshot(), action, invoked)
    {
      invoked := None;
      if nextSentinel < |sentinels.items| {
        var hostPort := HostPort(sentinels.items[nextSentinel]);
        if hostPort.None? {
          return Raised(ValueError(UnpackMismatch)), None;
        }
        var (host, portText) := hostPort.value;
        nextSentinel := nextSentinel + 1;
        var port := ParseInt(portText);
        if port.None? {
          return Raised(ValueError(NotAnInteger)), None;
        }
        if refused {
          action := RefusedBySentinel(host, port.value);
        } else {
          action := ConnectToSentinel(host, port.value);
        }
      } else {
        if callback.Some? {
          status := Some(FailedAfterAllSentinels);
          invoked := callback;
        }
        callback := None;
        action := Exhausted;
      }
    }

    method HandleConnectionToSentinel(ok: bool, refused: bool) returns (action: Action, invoked: Option<Callback>)
      requires sentinels != null
      modifies this
      ensures sentinels == old(sentinels)
      ensures Discovery.HandleConnectionToSentinel(old(Snapshot()), ok, refused) == Outcome(Snapshot(), action, invoked)
    {
      if !ok {
        action, invoked := ConnectToNextSentinel(refused);
        return;
      }
      action, invoked := QuerySentinels(masterName), None;
    }

    /** The loop of `handle_get_all_sentinels`: append each entry's name that
        is not yet in the list, in place, until an entry raises. Returns how
        many entries it got through. */
    method AppendUnknown(entries: seq<seq<string>>) returns (handled: nat)
      requires sentinels != null
      modifies sentinels
      ensures handled == Handled(old(sentinels.items), !sentinels.isTuple, entries)
      ensures sentinels.items == Enrich(old(sentinels.items), NamesOf(entries[..handled]))
    {
      ghost var known := sentinels.items;
      ghost var appendable := !sentinels.isTuple;
      handled := 0;
      while handled < |entries|
        invariant 0 <= handled <= |entries|
        invariant forall j :: 0 <= j < handled ==> Admissible(known, appendable, entries[j])
        invariant sentinels.items == Enrich(known, NamesOf(entries[..handled]))
        invariant sentinels.isTuple ==> sentinels.items == known
      {
        var entry := entries[handled];
        if |entry| < 2 {
          break;
        }
        var name := entry[1];
        if name !in sentinels.items {
          if sentinels.isTuple {
            break;
          }
          sentinels.items := sentinels.items + [name];
        }
        EnrichOneMore(known, entries, handled);
        handled := handled + 1;
      }
      HandledIsFirstFailure(known, appendable, entries, handled);
    }

    method HandleGetAllSentinels(reply: Option<seq<seq<string>>>) returns (action: Action, invoked: Option<Callback>)
      requires sentinels != null
      modifies this, sentinels
      ensures sentinels == old(sentinels)
      ensures Discovery.HandleGetAllSentinels(old(Snapshot()), reply) == Outcome(Snapshot(), action, invoked)
    {
      invoked := None;
      if reply.Some? {
        var entries := reply.value;
        var handled := AppendUnknown(entries);
        if handled < |entries| {
          return Raised(if |entries[handled]| < 2 then IndexError else AttributeError), None;
        }
        nextSentinel := 0;
      }
      action := QueryMasterAddress(masterName);
    }

    method HandleGetMasterAddress(reply: MasterReply, refused: bool) returns (action: Action, invoked: Option<Callback>)
      requires sentinels != null
      modifies this
      ensures sentinels == old(sentinels)
      ensures Discovery.HandleGetMasterAddress(old(Snapshot()), reply, refused) == Outcome(Snapshot(), action, invoked)
    {
      if reply.NoMaster? || reply == MasterText(IDontKnow) {
        action, invoked := ConnectToNextSentinel(refused);
        return;
      }
      invoked := None;
      var pair := Unpack(reply);
      if pair.None? {
        return Raised(ValueError(UnpackMismatch)), None;
      }
      var (host, portText) := pair.value;
      var port := ParseInt(portText);
      if port.None? {
        return Raised(ValueError(NotAnInteger)), None;
      }
      action := ConnectToMaster(host, port.value);
    }

    method HandleConnectionSuccess(ok: bool) returns (action: Action, invoked: Option<Callback>)
      requires sentinels != null
      modifies this
      ensures sentinels == old(sentinels)
      ensures Discovery.HandleConnectionSuccess(old(Snapshot()), ok) == Outcome(Snapshot(), action, invoked)
    {
      invoked := None;
      if callback.Some? {
        status := Some(Connected);
        invoked := callback;
      }
      callback := None;
      action := Completed;
    }
  }
}
