/**
  The sentinel-discovery state machine of `SentinelClient`, as values.

  A `Session` holds the client's instance fields after `connect`: the ordered
  candidate list of "host:port" strings, the cursor `nextSentinel`, the master
  name, the timeout, the pending completion callback and the connection status.
  Each handler of the client is one function from the session (and the network
  outcome it is called with) to an `Outcome`: the new session, what the client
  does next, and the callback it invoked, if any.
 */
module Discovery {
  import opened Wrappers
  import opened PyText

  datatype Status = Connected | FailedAfterAllSentinels

  /** The identity of a Python callable passed as `callback`. */
  datatype Callback = Callback(id: nat)

  datatype ValueCause = InvalidSentinels | InvalidMasterName | UnpackMismatch | NotAnInteger

  /** The exceptions the client raises. */
  datatype PyError = ValueError(cause: ValueCause) | IndexError | AttributeError

  /** The Python values a caller can pass to `connect`. */
  datatype PyValue =
    | PyNone
    | PyInt(i: int)
    | PyStr(s: string)
    | PyList(items: seq<string>)
    | PyTuple(items: seq<string>)

  /** The instance fields of a client on which `connect` has run.
      `appendable` is false when the caller passed a tuple. */
  datatype Session = Session(
    sentinels: seq<string>,
    appendable: bool,
    nextSentinel: nat,
    masterName: string,
    timeout: real,
    callback: Option<Callback>,
    status: Option<Status>)

  /** What the client does at the end of a handler. */
  datatype Action =
    | ConnectToSentinel(host: string, port: int)   // connect started; `handle_connection_to_sentinel` follows
    | RefusedBySentinel(host: string, port: int)   // ECONNREFUSED raised at once: logged, nothing follows
    | QuerySentinels(name: string)                 // `SENTINEL sentinels <name>` sent
    | QueryMasterAddress(name: string)             // `SENTINEL get-master-addr-by-name <name>` sent
    | ConnectToMaster(host: string, port: int)     // connect started; `handle_connection_success` follows
    | Exhausted                                    // the candidate list is used up
    | Completed                                    // the master connect has finished
    | Raised(error: PyError)                       // the handler raised

  datatype Outcome = Outcome(session: Session, action: Action, invoked: Option<Callback>)

  datatype ConnectResult = Rejected(error: PyError) | Started(outcome: Outcome)

  /** The reply to `SENTINEL get-master-addr-by-name`. */
  datatype MasterReply = NoMaster | MasterText(text: string) | MasterItems(items: seq<string>)

  /** The error token a sentinel sends when it does not know the master. */
  const IDontKnow := "-IDONTKNOW"

  // ---------------------------------------------------------------- connect

  predicate Truthy(v: PyValue)
  {
    match v
    case PyNone => false
    case PyInt(i) => i != 0
    case PyStr(s) => s != []
    case PyList(items) => items != []
    case PyTuple(items) => items != []
  }

  /** The argument checks of `connect`, in the order the source makes them. */
  function CheckArguments(sentinels: PyValue, masterName: PyValue): Option<PyError>
  {
    if !Truthy(sentinels) || !(sentinels.PyList? || sentinels.PyTuple?) then
      Some(ValueError(InvalidSentinels))
    else if masterName.PyNone? || !Truthy(masterName) || !masterName.PyStr? then
      Some(ValueError(InvalidMasterName))
    else None
  }

  /** `connect`: check the arguments, store them with the cursor at 0, and move
      to the first candidate. The status is left as it was before. */
  function Connect(sentinels: PyValue, masterName: PyValue, callback: Option<Callback>,
                   timeout: real, priorStatus: Option<Status>, refused: bool): ConnectResult
  {
    match CheckArguments(sentinels, masterName)
    case Some(e) => Rejected(e)
    case None =>
      var s := Session(sentinels.items, sentinels.PyList?, 0, masterName.s, timeout, callback, priorStatus);
      Started(ConnectToNextSentinel(s, refused))
  }

  // ------------------------------------------------------ walking the list

  /** `connect_to_next_sentinel`. `refused` says whether starting the socket
      connect raised ECONNREFUSED at once. */
  function ConnectToNextSentinel(s: Session, refused: bool): Outcome
  {
    if s.nextSentinel < |s.sentinels| then
      match HostPort(s.sentinels[s.nextSentinel])
      case None => Outcome(s, Raised(ValueError(UnpackMismatch)), None)
      case Some((host, portText)) =>
        var s' := s.(nextSentinel := s.nextSentinel + 1);
        match ParseInt(portText)
        case None => Outcome(s', Raised(ValueError(NotAnInteger)), None)
        case Some(port) =>
          Outcome(s', if refused then RefusedBySentinel(host, port) else ConnectToSentinel(host, port), None)
    else if s.callback.Some? then
      Outcome(s.(status := Some(FailedAfterAllSentinels), callback := None), Exhausted, s.callback)
    else
      Outcome(s, Exhausted, None)
  }

  /** `handle_connection_to_sentinel`: on failure try the next candidate,
      on success ask the sentinel for the sentinels it knows. */
  function HandleConnectionToSentinel(s: Session, ok: bool, refused: bool): Outcome
  {
    if !ok then ConnectToNextSentinel(s, refused)
    else Outcome(s, QuerySentinels(s.masterName), None)
  }

  // ------------------------------------------------------ enriching the list

  /** The candidate list after appending each of `names` that is not yet in it,
      one at a time and in order, as the loop of `handle_get_all_sentinels` does. */
  function Enrich(known: seq<string>, names: seq<string>): seq<string>
    decreases |names|
  {
    if names == [] then known
    else
      var before := Enrich(known, names[..|names| - 1]);
      var name := names[|names| - 1];
      if name in before then before else before + [name]
  }

  /** Whether the loop gets past `entry`: the entry has an element at index 1,
      and the list can take an append if that name is new. */
  predicate Admissible(known: seq<string>, appendable: bool, entry: seq<string>)
  {
    |entry| >= 2 && (appendable || entry[1] in known)
  }

  /** How many entries of a reply the loop handles before it raises. */
  function Handled(known: seq<string>, appendable: bool, entries: seq<seq<string>>): (k: nat)
    ensures k <= |entries|
    ensures forall i :: 0 <= i < k ==> Admissible(known, appendable, entries[i])
    ensures k < |entries| ==> !Admissible(known, appendable, entries[k])
    decreases |entries|
  {
    if entries == [] || !Admissible(known, appendable, entries[0]) then 0
    else 1 + Handled(known, appendable, entries[1..])
  }

  /** The `sentinel[1]` of each entry. */
  function NamesOf(entries: seq<seq<string>>): seq<string>
    requires forall i :: 0 <= i < |entries| ==> |entries[i]| >= 2
  {
    seq(|entries|, i requires 0 <= i < |entries| => entries[i][1])
  }

  /** `handle_get_all_sentinels`: a `None` reply changes nothing; otherwise the
      new names are appended and the cursor goes back to 0 (even when nothing
      was new). An entry without index 1 raises IndexError and an append to a
      tuple raises AttributeError; what was appended before stays and the cursor
      is not reset. Then the master address is asked for. */
  function HandleGetAllSentinels(s: Session, reply: Option<seq<seq<string>>>): Outcome
  {
    match reply
    case None => Outcome(s, QueryMasterAddress(s.masterName), None)
    case Some(entries) =>
      var k := Handled(s.sentinels, s.appendable, entries);
      var grown := s.(sentinels := Enrich(s.sentinels, NamesOf(entries[..k])));
      if k < |entries| then
        Outcome(grown, Raised(if |entries[k]| < 2 then IndexError else AttributeError), None)
      else
        Outcome(grown.(nextSentinel := 0), QueryMasterAddress(s.masterName), None)
  }

  // ------------------------------------------------------ resolving the master

  /** `master_host, master_port = reply`: a pair, or a two-character string
      taken apart character by character; `None` stands for the ValueError. */
  function Unpack(reply: MasterReply): Option<(string, string)>
  {
    match reply
    case NoMaster => None
    case MasterText(t) => if |t| == 2 then Some(([t[0]], [t[1]])) else None
    case MasterItems(xs) => if |xs| == 2 then Some((xs[0], xs[1])) else None
  }

  /** `handle_get_master_address`: with no answer or `-IDONTKNOW` try the next
      candidate; otherwise connect to the master at `(host, int(port))`. */
  function HandleGetMasterAddress(s: Session, reply: MasterReply, refused: bool): Outcome
  {
    if reply.NoMaster? || reply == MasterText(IDontKnow) then ConnectToNextSentinel(s, refused)
    else
      match Unpack(reply)
      case None => Outcome(s, Raised(ValueError(UnpackMismatch)), None)
      case Some((host, portText)) =>
        match ParseInt(portText)
        case None => Outcome(s, Raised(ValueError(NotAnInteger)), None)
        case Some(port) => Outcome(s, ConnectToMaster(host, port), None)
  }

  /** `handle_connection_success`: the flag `ok` is not looked at. */
  function HandleConnectionSuccess(s: Session, ok: bool): Outcome
  {
    if s.callback.Some? then
      Outcome(s.(status := Some(Connected), callback := None), Completed, s.callback)
    else
      Outcome(s, Completed, None)
  }

  // ---------------------------------------------------------------- lemmas

  /** `connect` rejects exactly a sentinels argument that is not a non-empty
      list or tuple, and then exactly a master name that is not a non-empty string. */
  lemma CheckArgumentsExact(sentinels: PyValue, masterName: PyValue)
    ensures CheckArguments(sentinels, masterName) == Some(ValueError(InvalidSentinels))
      <==> !((sentinels.PyList? || sentinels.PyTuple?) && sentinels.items != [])
    ensures CheckArguments(sentinels, masterName) == Some(ValueError(InvalidMasterName))
      <==> (sentinels.PyList? || sentinels.PyTuple?) && sentinels.items != []
           && !(masterName.PyStr? && masterName.s != [])
    ensures CheckArguments(sentinels, masterName) == None
      <==> (sentinels.PyList? || sentinels.PyTuple?) && sentinels.items != []
           && masterName.PyStr? && masterName.s != []
  {
  }

  /** An accepted `connect` stores its arguments and, the list being non-empty,
      always selects the first candidate: it never reports exhaustion or
      invokes the callback. A first candidate without exactly one colon
      raises ValueError with the cursor still at 0; otherwise the cursor is 1. */
  lemma ConnectSelectsFirst(sentinels: PyValue, masterName: PyValue, callback: Option<Callback>,
                            timeout: real, priorStatus: Option<Status>, refused: bool)
    requires CheckArguments(sentinels, masterName).None?
    ensures Connect(sentinels, masterName, callback, timeout, priorStatus, refused).Started?
    ensures var o := Connect(sentinels, masterName, callback, timeout, priorStatus, refused).outcome;
      && o.session.sentinels == sentinels.items
      && o.session.appendable == sentinels.PyList?
      && o.session.masterName == masterName.s
      && o.session.timeout == timeout
      && o.session.callback == callback
      && o.session.status == priorStatus
      && o.session.nextSentinel <= 1
      && o.action != Exhausted
      && o.invoked == None
      && (HostPort(sentinels.items[0]).None? ==>
            o.session.nextSentinel == 0 && o.action == Raised(ValueError(UnpackMismatch)))
      && (HostPort(sentinels.items[0]).Some? ==> o.session.nextSentinel == 1)
  {
  }

  /** Selecting a candidate takes `sentinels[nextSentinel]`, splits it at the
      colon and moves the cursor on by exactly one, even when the port then
      does not read as an integer and ValueError is raised; running out changes neither
      list nor cursor. Either way the callback is invoked only on exhaustion,
      and only if it was pending. */
  lemma ConnectToNextSentinelSelects(s: Session, refused: bool)
    ensures var o := ConnectToNextSentinel(s, refused);
      && o.session.sentinels == s.sentinels
      && (s.nextSentinel < |s.sentinels| ==>
            match HostPort(s.sentinels[s.nextSentinel])
            case None => o.session == s && o.action == Raised(ValueError(UnpackMismatch))
            case Some((host, portText)) =>
              && s.sentinels[s.nextSentinel] == host + ":" + portText
              && o.session.nextSentinel == s.nextSentinel + 1
              && o.invoked == None && o.session.callback == s.callback
              && o.session.status == s.status
              && (ParseInt(portText).Some? ==>
                    o.action == (if refused then RefusedBySentinel(host, ParseInt(portText).value)
                                 else ConnectToSentinel(host, ParseInt(portText).value)))
              && (ParseInt(portText).None? ==> o.action == Raised(ValueError(NotAnInteger))))
      && (s.nextSentinel >= |s.sentinels| ==>
            && o.action == Exhausted
            && o.session.nextSentinel == s.nextSentinel
            && o.session.callback == None
            && o.invoked == s.callback
            && o.session.status == (if s.callback.Some? then Some(FailedAfterAllSentinels) else s.status))
  {
    if s.nextSentinel < |s.sentinels| && HostPort(s.sentinels[s.nextSentinel]).Some? {
      HostPortSound(s.sentinels[s.nextSentinel]);
    }
  }

  /** The candidate list after the loop begins with the list before it. */
  lemma {:induction false} EnrichExtends(known: seq<string>, names: seq<string>)
    ensures known <= Enrich(known, names)
    decreases |names|
  {
    if names != [] {
      EnrichExtends(known, names[..|names| - 1]);
    }
  }

  /** A string is in the enriched list exactly when it was in the list or is
      one of the reported names. */
  lemma {:induction false} EnrichMembers(known: seq<string>, names: seq<string>, x: string)
    ensures x in Enrich(known, names) <==> x in known || x in names
    decreases |names|
  {
    if names != [] {
      var init := names[..|names| - 1];
      EnrichMembers(known, init, x);
      assert names == init + [names[|names| - 1]];
    }
  }

  /** No appended entry was in the list already or appears earlier in it. */
  lemma {:induction false} EnrichAppendsFresh(known: seq<string>, names: seq<string>)
    ensures var r := Enrich(known, names);
      forall i :: |known| <= i < |r| ==> r[i] !in r[..i]
    decreases |names|
  {
    if names != [] {
      var init := names[..|names| - 1];
      EnrichAppendsFresh(known, init);
      EnrichExtends(known, init);
      var before := Enrich(known, init);
      var r := Enrich(known, names);
      if r != before {
        assert r == before + [names[|names| - 1]];
        assert r[..|before|] == before;
        forall i | |known| <= i < |before|
          ensures r[i] !in r[..i]
        {
          assert r[..i] == before[..i];
        }
      }
    }
  }

  /** Enriching with a reply and then another is enriching with both. */
  lemma {:induction false} EnrichComposes(known: seq<string>, a: seq<string>, b: seq<string>)
    ensures Enrich(known, a + b) == Enrich(Enrich(known, a), b)
    decreases |b|
  {
    if b == [] {
      assert a + b == a;
    } else {
      var ab := a + b;
      assert ab[..|ab| - 1] == a + b[..|b| - 1];
      assert ab[|ab| - 1] == b[|b| - 1];
      EnrichComposes(known, a, b[..|b| - 1]);
    }
  }

  /** Names that are all known already leave the list as it is. */
  lemma {:induction false} EnrichKnown(known: seq<string>, names: seq<string>)
    requires forall i :: 0 <= i < |names| ==> names[i] in known
    ensures Enrich(known, names) == known
    decreases |names|
  {
    if names != [] {
      EnrichKnown(known, names[..|names| - 1]);
    }
  }

  /** Enrichment is idempotent: a name reported again, by the same or a later
      reply, is never appended a second time. */
  lemma EnrichIdempotent(known: seq<string>, names: seq<string>)
    ensures Enrich(Enrich(known, names), names) == Enrich(known, names)
  {
    var r := Enrich(known, names);
    forall i | 0 <= i < |names|
      ensures names[i] in r
    {
      EnrichMembers(known, names, names[i]);
    }
    EnrichKnown(r, names);
  }

  /** The names not in `seen`, each at its first occurrence, in reply order. */
  function FirstSeen(names: seq<string>, seen: seq<string>): seq<string>
    decreases |names|
  {
    if names == [] then []
    else if names[0] in seen then FirstSeen(names[1..], seen)
    else [names[0]] + FirstSeen(names[1..], seen + [names[0]])
  }

  /** What the loop appends is the reported names that were not yet present,
      at their first occurrence and in the order the reply gives them. */
  lemma {:induction false} EnrichAppendsFirstSeen(known: seq<string>, names: seq<string>)
    ensures Enrich(known, names) == known + FirstSeen(names, known)
    decreases |names|
  {
    if names != [] {
      var first, rest := names[..1], names[1..];
      assert names == first + rest;
      EnrichComposes(known, first, rest);
      assert first[..0] == [];
      var afterFirst := Enrich(known, first);
      EnrichAppendsFirstSeen(afterFirst, rest);
      if names[0] !in known {
        assert known + FirstSeen(names, known) == (known + [names[0]]) + FirstSeen(rest, known + [names[0]]);
      }
    }
  }

  /** One more entry through the loop appends its name if it is new. */
  lemma EnrichOneMore(known: seq<string>, entries: seq<seq<string>>, i: nat)
    requires i < |entries|
    requires forall j :: 0 <= j <= i ==> |entries[j]| >= 2
    ensures NamesOf(entries[..i + 1]) == NamesOf(entries[..i]) + [entries[i][1]]
    ensures var before := Enrich(known, NamesOf(entries[..i]));
      Enrich(known, NamesOf(entries[..i + 1]))
        == if entries[i][1] in before then before else before + [entries[i][1]]
  {
    var before := NamesOf(entries[..i]);
    assert NamesOf(entries[..i + 1]) == before + [entries[i][1]];
    assert (before + [entries[i][1]])[..|before|] == before;
  }

  /** A loop that got through the first `i` entries and stops at `i`, either
      at the end or at an entry it cannot get past, handled `Handled` entries. */
  lemma HandledIsFirstFailure(known: seq<string>, appendable: bool, entries: seq<seq<string>>, i: nat)
    requires i <= |entries|
    requires forall j :: 0 <= j < i ==> Admissible(known, appendable, entries[j])
    requires i < |entries| ==> !Admissible(known, appendable, entries[i])
    ensures Handled(known, appendable, entries) == i
  {
  }

  /** With a non-`None` reply that the loop gets through, the list is extended
      by the new names and the cursor is reset to 0, whether or not anything
      was appended, and the master address is asked for; a `None` reply
      changes neither and also asks for it. A reply the loop cannot get
      through raises at the first entry it cannot pass: the names before it
      stay appended, the cursor is not reset and the master is not queried. */
  lemma HandleGetAllSentinelsResets(s: Session, reply: Option<seq<seq<string>>>)
    ensures var o := HandleGetAllSentinels(s, reply);
      && s.sentinels <= o.session.sentinels
      && o.invoked == None
      && o.session.callback == s.callback && o.session.status == s.status
      && o.session.masterName == s.masterName
      && (reply.None? ==> o.session == s && o.action == QueryMasterAddress(s.masterName))
      && (reply.Some? && Handled(s.sentinels, s.appendable, reply.value) == |reply.value| ==>
            && o.session.sentinels == s.sentinels + FirstSeen(NamesOf(reply.value), s.sentinels)
            && o.session.nextSentinel == 0
            && o.action == QueryMasterAddress(s.masterName))
      && (reply.Some? && Handled(s.sentinels, s.appendable, reply.value) < |reply.value| ==>
            var k := Handled(s.sentinels, s.appendable, reply.value);
            && o.session.sentinels == Enrich(s.sentinels, NamesOf(reply.value[..k]))
            && o.session.nextSentinel == s.nextSentinel
            && o.action == Raised(if |reply.value[k]| < 2 then IndexError else AttributeError))
  {
    if reply.Some? {
      var entries := reply.value;
      var k := Handled(s.sentinels, s.appendable, entries);
      EnrichExtends(s.sentinels, NamesOf(entries[..k]));
      if k == |entries| {
        assert entries[..k] == entries;
        EnrichAppendsFirstSeen(s.sentinels, NamesOf(entries));
      }
    }
  }

  /** A tuple of candidates is never changed: a reply naming only known
      sentinels resets the cursor, and a new name raises AttributeError. */
  lemma TupleNeverGrows(s: Session, reply: Option<seq<seq<string>>>)
    requires !s.appendable
    ensures HandleGetAllSentinels(s, reply).session.sentinels == s.sentinels
  {
    if reply.Some? {
      var entries := reply.value;
      var k := Handled(s.sentinels, s.appendable, entries);
      EnrichKnown(s.sentinels, NamesOf(entries[..k]));
    }
  }

  /** A reply naming one sentinel the list does not hold yet appends it at
      the end and resets the cursor. */
  lemma LearnsNewSentinel(s: Session, entry: seq<string>)
    requires s.appendable && |entry| >= 2 && entry[1] !in s.sentinels
    ensures HandleGetAllSentinels(s, Some([entry]))
      == Outcome(s.(sentinels := s.sentinels + [entry[1]], nextSentinel := 0),
                 QueryMasterAddress(s.masterName), None)
  {
    HandledIsFirstFailure(s.sentinels, true, [entry], 1);
    EnrichOneMore(s.sentinels, [entry], 0);
    assert [entry][..1] == [entry];
    assert NamesOf([entry][..0]) == [];
  }

  /** With no answer or `-IDONTKNOW` the walk moves to the next candidate.
      A `(host, port)` pair whose port text reads as an integer connects to
      the master at that integer, leaving list, cursor and callback alone; a
      port text that does not read as one raises ValueError, and so does a
      reply of any other length than two. A port written as the decimal text
      of an integer reads back as it. */
  lemma HandleGetMasterAddressRoutes(s: Session, host: string, portText: string, port: int,
                                     items: seq<string>, refused: bool)
    ensures HandleGetMasterAddress(s, NoMaster, refused) == ConnectToNextSentinel(s, refused)
    ensures HandleGetMasterAddress(s, MasterText(IDontKnow), refused) == ConnectToNextSentinel(s, refused)
    ensures ParseInt(portText) == Some(port) ==>
      HandleGetMasterAddress(s, MasterItems([host, portText]), refused)
        == Outcome(s, ConnectToMaster(host, port), None)
    ensures ParseInt(portText).None? ==>
      HandleGetMasterAddress(s, MasterItems([host, portText]), refused)
        == Outcome(s, Raised(ValueError(NotAnInteger)), None)
    ensures |items| != 2 ==>
      HandleGetMasterAddress(s, MasterItems(items), refused)
        == Outcome(s, Raised(ValueError(UnpackMismatch)), None)
    ensures HandleGetMasterAddress(s, MasterItems([host, ShowInt(port)]), refused)
      == Outcome(s, ConnectToMaster(host, port), None)
  {
    ParseShow(port);
  }

  /** The success handler reports CONNECTED whatever the outcome of the master
      connect, and invokes the callback only if it is pending, clearing it. */
  lemma HandleConnectionSuccessOneShot(s: Session, ok: bool)
    ensures HandleConnectionSuccess(s, ok) == HandleConnectionSuccess(s, !ok)
    ensures var o := HandleConnectionSuccess(s, ok);
      && o.invoked == s.callback
      && o.session.callback == None
      && o.session.status == (if s.callback.Some? then Some(Connected) else s.status)
      && o.session.sentinels == s.sentinels && o.session.nextSentinel == s.nextSentinel
    ensures HandleConnectionSuccess(HandleConnectionSuccess(s, ok).session, ok).invoked == None
  {
  }
}
