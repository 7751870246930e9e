# Sentinel discovery in `tornado-redis-sentinel`, modelled in Dafny

`SentinelClient` (tornado_redis_sentinel/core.py) finds the current Redis
master through a list of sentinels. `connect` checks its arguments. It then
stores the caller's list of `"host:port"` candidates, the master name, the
timeout and a completion callback, and puts a cursor `next_sentinel` at 0.
From there, one handler per network event walks the list:

- connect to the next candidate;
- on success, ask it for the sentinels it knows with `SENTINEL sentinels <name>`,
  append the names not yet in the list and put the cursor back at 0;
- ask for the master with `SENTINEL get-master-addr-by-name <name>`;
- connect to the master, then set `connection_status` to `CONNECTED` and fire the
  callback.

A failed sentinel connect and a master reply of `None` or `-IDONTKNOW` move
to the next candidate. Other failures do not: a failed master connect still
completes, an immediate ECONNREFUSED stops the walk, and a malformed
candidate, port or reply raises (see the departures below). When the list
runs out, `connection_status` becomes `FAILED_AFTER_ALL_SENTINELS` and the
callback fires. The callback is cleared whenever it fires, so it fires at
most once.

The project has three layers:

- `discovery.dfy` (module `Discovery`) holds the client's fields as a value
  (`Session`). It has one function per handler, giving the new fields, the
  next action (a connect started, a query sent, exhaustion, completion or an
  exception) and the callback invoked. The lemmas about the list enrichment are
  here too.
- `traces.dfy` (module `Traces`) feeds any sequence of network events to those
  functions. It proves what holds over every run: the callback fires at most
  once; the list only grows, and only by names that were new; the cursor stays
  in `[0, len(sentinels)]`; when every sentinel is unreachable, each candidate
  is tried once, in order, before failure is reported.
- `client.dfy` (module `Client`) is the class `SentinelClient`. Its fields are
  updated by one method per handler, with the same branches as the Python code.
  Each method's postcondition equates the new fields with the matching
  `Discovery` function applied to the old ones. `eventloop.dfy` (module
  `EventLoop`) delivers events to those methods. It proves that a sequence of
  handler calls on one client after one `connect` leaves the fields as
  `Traces.Run` says, provided nothing else touches the list object in
  between. The lemmas of `Traces` then hold of the object. A second `connect`
  installs a new callback and starts a new run. The candidate list is a separate
  object (`PySequence`) that the client shares with the caller, as the Python
  list is; the caller sees every append.

`intended.dfy` (module `Intended`) sets two alternative handlers beside the
code, each following one stated rule, and proves exactly where they differ
from it.

`pytext.dfy` models the two Python built-ins the handlers rely on: `str.split(':')`
followed by two-name unpacking, and `int()`. Round-trip lemmas tie each to
its inverse. `scenarios.dfy` replays the discovery tests of
tests/test_sentinel.py on the class, with the candidate strings as parameters.

Everything that touches the network is an input. The outcome of each connect
is a boolean passed to the handler. Whether starting a sentinel connect raised
ECONNREFUSED at once is another boolean. Both query replies are values.

## Where the code departs from its stated intent

The model follows the code. The only
statement of intent in the source is the "Trying next sentinel." warning and
the commented-out recursive call after ECONNREFUSED (core.py:64-65). These are
the places where the code does something its own messages and intent suggest
it should not, or where a caller could be surprised:

- The cursor is reset to 0 for every reply to `SENTINEL sentinels` that is not `None`.
  It is reset even when nothing was appended, including for an empty list
  (core.py:88-93). The rule "reset only when something was appended" would
  reset it only when a new sentinel was learned.
  `Discovery.HandleGetAllSentinelsResets` states the code's behaviour. A live
  sentinel that never resolves the master can therefore keep the walk going
  forever: `Traces.EndlessWalk` and `Traces.EndlessWalkForever` exhibit the
  round that brings the client back to its exact fields. The variant following
  that rule, `Intended.HandleGetAllSentinelsOnGrowth`, differs from the code exactly when
  nothing new was learned and the cursor is not at 0
  (`Intended.OnGrowthDiffersExactly`). In the same round it moves on to the
  second candidate (`Intended.OnGrowthMovesOn`).
- `handle_connection_success` ignores its success flag (core.py:110-114). So a
  failed master connect still reports `CONNECTED`, and the walk does not move
  on to the next candidate (`Discovery.HandleConnectionSuccessOneShot`).
- If starting a sentinel connect raises ECONNREFUSED at once, the error is logged and
  nothing else happens (core.py:61-65). The recursive call is commented out: the
  walk stops with the callback still pending (`Intended.RefusalStalls`). The
  warning says the walk moves on to the next candidate, and
  `Intended.ConnectSkippingRefused` is that variant, with the recursive call
  in place. It agrees with the code
  when the candidate does not refuse (`Intended.SkippingAgrees`) and never
  stalls (`Intended.SkippingNeverStalls`). When every remaining candidate
  refuses, it reaches `FAILED_AFTER_ALL_SENTINELS` and fires the callback
  (`Intended.AllRefusingExhausts`).
- `connect` accepts a tuple of candidates (core.py:32). A reply that names a new
  sentinel then raises AttributeError on `append` (core.py:92). The list stays
  as it was and the cursor is not reset (`Discovery.TupleNeverGrows`).
- A reply entry without an element at index 1 raises IndexError part-way
  through the loop (core.py:90). Names appended before it stay; the cursor is
  not reset and the master is not queried (`Discovery.HandleGetAllSentinelsResets`).
- The callback fires at most once, not exactly once. A raised exception, an
  ECONNREFUSED stall or an endless walk means it never fires.

## Model

| member | source | states |
|---|---|---|
| `Discovery.CheckArgumentsExact` | tornado_redis_sentinel/core.py:32-36 | `connect` raises ValueError for the sentinels argument exactly when it is not a non-empty list or tuple (so `None`, a string and `[]` are refused). Otherwise it raises exactly when the master name is not a non-empty string. With both valid, nothing is raised. |
| `Discovery.ConnectSelectsFirst` | tornado_redis_sentinel/core.py:31-50 | An accepted `connect` stores the list, the name, the timeout and the callback as given, and keeps the previous status. A first candidate without exactly one colon raises ValueError with the cursor still at 0. Otherwise the cursor is 1. Because the list is non-empty, it never reports exhaustion and never invokes the callback. |
| `Discovery.ConnectToNextSentinelSelects` | tornado_redis_sentinel/core.py:47-56 | With the cursor inside the list, the client takes `sentinels[next_sentinel]`. That entry is `host + ":" + port`; the cursor moves on by exactly 1 and the client connects to `(host, int(port))`, or reports the refusal. A port that does not read as an integer raises ValueError after the cursor has moved (core.py:60). An entry without exactly one colon raises ValueError and leaves everything as it was. With the list used up, list and cursor are unchanged. A pending callback is then invoked and cleared, with status `FAILED_AFTER_ALL_SENTINELS`. With no callback pending, nothing is invoked and the status is kept. |
| `Discovery.Handled` | tornado_redis_sentinel/core.py:89-92 | The number of reply entries the enrichment loop handles is the index of the first entry that raises: one with no element at index 1, or a new name when the list is a tuple. Every entry before it is handled. |
| `Discovery.EnrichExtends` | tornado_redis_sentinel/core.py:89-92 | The list after enrichment starts with the list before it: no entry is removed or reordered. |
| `Discovery.EnrichMembers` | tornado_redis_sentinel/core.py:89-92 | A string is in the enriched list if and only if it was in the list before or is one of the reported names. |
| `Discovery.EnrichAppendsFresh` | tornado_redis_sentinel/core.py:91-92 | Each appended entry was neither in the list already nor appended earlier: enrichment never adds a duplicate. |
| `Discovery.EnrichComposes` | tornado_redis_sentinel/core.py:89-92 | Enriching with one reply and then another gives the same list as enriching once with both replies' names in order. |
| `Discovery.EnrichKnown` | tornado_redis_sentinel/core.py:91 | When every reported name is already in the list, the list is left unchanged. |
| `Discovery.EnrichIdempotent` | tornado_redis_sentinel/core.py:89-92 | Enriching again with the same names changes nothing. A sentinel reported again, by the same or a later reply, is not appended a second time. |
| `Discovery.EnrichAppendsFirstSeen` | tornado_redis_sentinel/core.py:89-92 | The enriched list is the old list followed by the reported names that were not present, each at its first occurrence, in reply order. This is checked against `FirstSeen`, a separate left-to-right definition. |
| `Discovery.HandleGetAllSentinelsResets` | tornado_redis_sentinel/core.py:83-99 | A `None` reply changes nothing and the master address is asked for next. A reply the loop gets through makes the list the old list plus the new names in first-seen order, resets the cursor to 0 whether or not anything was appended, and asks for the master address. A reply the loop cannot get through raises at the first entry it cannot pass: IndexError for an entry without index 1, AttributeError for a new name against a tuple. The names of the entries before it stay appended, the cursor keeps its value and the master is not queried. In every case the list only grows and the callback and status are untouched. |
| `Discovery.LearnsNewSentinel` | tornado_redis_sentinel/core.py:88-95 | A reply with one entry whose name is not in a list that can be appended to: the name is appended at the end, the cursor is reset to 0, nothing is invoked, and the master address is asked for next. |
| `Discovery.TupleNeverGrows` | tornado_redis_sentinel/core.py:32-33 | A tuple of candidates, which `connect` accepts, is never changed by a reply: a new name raises AttributeError instead of being appended (core.py:91-92). |
| `Discovery.HandleGetMasterAddressRoutes` | tornado_redis_sentinel/core.py:101-108 | A `None` reply and the `-IDONTKNOW` token both lead to the next candidate, exactly as `connect_to_next_sentinel` does. A pair whose port text reads as an integer leads to a master connect to `(host, int(port))`, with list, cursor, callback and status unchanged. A port text that does not read as an integer raises ValueError, and so does a reply of any length other than two. A port written as the decimal text of an integer reads back as that integer. |
| `Discovery.HandleConnectionSuccessOneShot` | tornado_redis_sentinel/core.py:110-114 | The outcome does not depend on the success flag. A pending callback is invoked and cleared, with status `CONNECTED`. With none pending, the status is kept. A second call invokes nothing. |
| `Traces.StepFacts` | tornado_redis_sentinel/core.py:47-114 | Every handler invokes the callback only when one is pending, and then clears it. Otherwise it keeps or clears the callback, and never sets a new one. The status changes only together with an invocation. The list only grows, by names that were new. A cursor within the list stays within the list, and the cursor only stays, moves on by one (core.py:50) or goes back to 0 (core.py:93). The master name and the timeout do not change. |
| `Traces.RunFiresAtMostOnce` | tornado_redis_sentinel/core.py:52-55 | Over any sequence of events, the callback is invoked at most once, and only if it was pending at the start. A later exhaustion or a second success does not fire it again (core.py:111-114). |
| `Traces.RunOnlyAppends` | tornado_redis_sentinel/core.py:88-93 | Over any sequence of events, the list keeps its old entries as a prefix. Each appended entry was new when it was appended. The cursor stays in `[0, len(sentinels)]` (core.py:48-50). The master name and the timeout do not change. |
| `Traces.FailureAdvances` | tornado_redis_sentinel/core.py:69-72 | A failed sentinel connect with a well-formed candidate next moves the cursor on by one. The client then connects to that candidate (core.py:48-50). |
| `Traces.ConnectStartsWalk` | tornado_redis_sentinel/core.py:31-50 | An accepted `connect` whose first candidate is well-formed stores the list, the name, the timeout and the callback, and keeps the status. It moves the cursor to 1 and connects to that first candidate, invoking nothing. |
| `Traces.FailureExhausts` | tornado_redis_sentinel/core.py:51-56 | A failed sentinel connect with the list used up reports exhaustion. It sets `FAILED_AFTER_ALL_SENTINELS` and invokes the callback if one is pending, and clears it. |
| `Traces.FailuresWalkInOrder` | tornado_redis_sentinel/core.py:47-72 | When every sentinel connect fails, the client connects to each remaining candidate in list order, then reports exhaustion. |
| `Traces.FailuresWalkToEnd` | tornado_redis_sentinel/core.py:47-72 | When every sentinel connect fails, the list is unchanged at the end. A pending callback has been invoked exactly once, and the status is `FAILED_AFTER_ALL_SENTINELS`. |
| `Traces.AllUnreachable` | tornado_redis_sentinel/core.py:31-72 | After an accepted `connect`, with one failed connect per candidate, every original candidate is tried exactly once, in order. The list is unchanged, the status is `FAILED_AFTER_ALL_SENTINELS`, and the callback is invoked exactly once. |
| `Traces.RunResumes` | tornado_redis_sentinel/core.py:47-114 | A run under way, continued by one more event and then the rest, gives the same trace as taking that step and then running the rest. |
| `Traces.RunAppend` | tornado_redis_sentinel/core.py:47-114 | Running one sequence of events and then another is running their concatenation: the fields are those after the second, and the actions and invocations are concatenated in order. |
| `Traces.EndlessWalk` | tornado_redis_sentinel/core.py:69-104 | Connected to the first candidate, one round of a successful connect, an empty sentinels reply and a `None` master reply brings the client back to exactly the same fields. The cursor is reset to 0 (core.py:93) and the walk reconnects to the first candidate, invoking nothing. |
| `Traces.EndlessWalkForever` | tornado_redis_sentinel/core.py:88-104 | Any number of those rounds leaves the fields unchanged and invokes nothing, so the callback never fires. |
| `Intended.OnGrowthDiffersExactly` | tornado_redis_sentinel/core.py:88-93 | The variant that resets the cursor only when the list grew differs from the code's exactly when the loop gets through a reply that names no new sentinel while the cursor is not at 0. |
| `Intended.OnGrowthMovesOn` | tornado_redis_sentinel/core.py:69-104 | In the round of `Traces.EndlessWalk`, the variant keeps the cursor, so the unresolved master sends the walk on to the second candidate. |
| `Intended.SkippingAgrees` | tornado_redis_sentinel/core.py:47-67 | The variant of `connect_to_next_sentinel` that tries the next candidate after ECONNREFUSED is the code's handler whenever the next candidate does not refuse. |
| `Intended.SkippingNeverStalls` | tornado_redis_sentinel/core.py:61-65 | The variant's walk never ends on a refusal: it ends in a connect started, an exception or exhaustion. |
| `Intended.RefusalStalls` | tornado_redis_sentinel/core.py:58-65 | In the code, a refused well-formed candidate moves the cursor on and produces the refusal with nothing invoked. The callback stays pending and no handler is waiting. |
| `Intended.AllRefusingExhausts` | tornado_redis_sentinel/core.py:47-65 | Under that variant, when every remaining well-formed candidate refuses, the walk reaches the end of the list. It reports `FAILED_AFTER_ALL_SENTINELS`, invokes and clears a pending callback, and leaves the list unchanged. |
| `PyText.Split` | tornado_redis_sentinel/core.py:49 | `str.split(':')` always yields at least one piece. |
| `PyText.JoinSplit` | tornado_redis_sentinel/core.py:49 | Joining the pieces of `split(':')` with `':'` gives back the entry. |
| `PyText.SplitPiecesFree` | tornado_redis_sentinel/core.py:49 | No piece of `split(':')` contains a colon. |
| `PyText.SplitJoin` | tornado_redis_sentinel/core.py:49 | Splitting a `':'`-join of colon-free pieces gives back the pieces. |
| `PyText.HostPortSound` | tornado_redis_sentinel/core.py:49 | When `host, port = entry.split(':')` succeeds, the entry is `host + ":" + port` and neither part contains a colon. |
| `PyText.HostPortComplete` | tornado_redis_sentinel/core.py:49 | Every colon-free host and port joined by one colon unpack into exactly that host and port. |
| `PyText.ParseShow` | tornado_redis_sentinel/core.py:60 | `int(str(n)) == n` for every integer `n`: the port text of an entry reads back as the port. |
| `Client.SentinelClient.constructor` | tornado_redis_sentinel/core.py:16-18 | A new client has no candidate list, no callback and no `connection_status`. |
| `Client.SentinelClient.Connect` | tornado_redis_sentinel/core.py:31-45 | An invalid argument raises before any field is set. Otherwise the client keeps a reference to the caller's own list object, not a copy. It stores name, timeout and callback, puts the cursor at 0 and moves to the first candidate. The result is `Discovery.Connect`. |
| `Client.SentinelClient.ConnectToNextSentinel` | tornado_redis_sentinel/core.py:47-67 | The new fields, the action and the invoked callback are those of `Discovery.ConnectToNextSentinel` on the old fields. ECONNREFUSED yields `RefusedBySentinel` with the cursor already moved on. |
| `Client.SentinelClient.HandleConnectionToSentinel` | tornado_redis_sentinel/core.py:69-81 | A failed connect moves to the next candidate. A successful one sends `SENTINEL sentinels <name>` and changes no field. This is `Discovery.HandleConnectionToSentinel`. |
| `Client.SentinelClient.AppendUnknown` | tornado_redis_sentinel/core.py:89-92 | The enrichment loop stops at the first entry that raises, or at the end. It has then handled `Discovery.Handled` entries. The shared list is the old list enriched with the names of exactly those entries. |
| `Client.SentinelClient.HandleGetAllSentinels` | tornado_redis_sentinel/core.py:83-99 | The loop appends to the shared list object in place: each entry's name is appended if it is not in the list. The new list, cursor and action are those of `Discovery.HandleGetAllSentinels`, so all the enrichment lemmas hold of it. |
| `Client.SentinelClient.HandleGetMasterAddress` | tornado_redis_sentinel/core.py:101-108 | The new fields and the action are those of `Discovery.HandleGetMasterAddress`. |
| `Client.SentinelClient.HandleConnectionSuccess` | tornado_redis_sentinel/core.py:110-114 | The new fields, the action and the invoked callback are those of `Discovery.HandleConnectionSuccess`. |
| `EventLoop.Deliver` | tornado_redis_sentinel/core.py:69-114 | Delivering one event to the handler it completes changes the fields as `Traces.Step` says, and yields the same action and invocation. |
| `EventLoop.DeliverAll` | tornado_redis_sentinel/core.py:47-114 | Delivering a sequence of events in order leaves the fields as `Traces.Run` says. The actions taken and the callbacks invoked over all calls are those of the run, so every `Traces` lemma holds of the object. |
| `Scenarios.StartWalk` | tests/test_sentinel.py:17-30 | `connect` on a fresh client with a fresh list whose first candidate is well-formed: the client holds the caller's list object, the cursor is 1, the callback is pending, and the first candidate is connected to. Nothing is invoked. |
| `Scenarios.FailedConnect` | tornado_redis_sentinel/core.py:69-72 | On the class, a failed sentinel connect with a well-formed candidate next moves the cursor on by one and connects to that candidate. No other field changes. Nothing is invoked. |
| `Scenarios.WalkToThirdSentinel` | tests/test_sentinel.py:46-59 | After `connect` on four well-formed candidates, two failed connects and a successful third: the client shares the caller's list object, which is unchanged. The cursor is 3, the callback is still pending, and `SENTINEL sentinels master` is sent. Nothing is invoked. |
| `Scenarios.LearnOneSentinel` | tests/test_sentinel.py:46-59 | On the class, a reply naming one new sentinel appends it to the caller's list object in place and resets the cursor to 0. It leaves every other field alone and asks for the master address. Nothing is invoked. |
| `Scenarios.LiveThirdSentinel` | tests/test_sentinel.py:46-59 | With two unreachable candidates, a live third one that knows one new sentinel, and a fourth candidate: the status ends `CONNECTED`, the callbacks invoked, collected over every call of the scenario, are exactly the one callback, and the caller's list has five entries, the learned one last. |
| `Scenarios.NoAvailableSentinels` | tests/test_sentinel.py:62-78 | With three unreachable candidates, each is tried once, in order, then exhaustion is reported. The status is `FAILED_AFTER_ALL_SENTINELS`, the callbacks invoked, collected over every call of the scenario, are exactly the one callback, and the list is unchanged. |
| `Scenarios.TimeoutOnOnlySentinel` | tests/test_sentinel.py:80-98 | With one candidate whose connect fails by timeout, the status is `FAILED_AFTER_ALL_SENTINELS` and the callbacks invoked, collected over every call of the scenario, are exactly the one callback. The timeout is stored as given. |
| `Scenarios.RejectsInvalidArguments` | tests/test_sentinel.py:221-243 | `None`, `"invalid"` and `[]` as sentinels, and a missing, empty or integer master name, each raise ValueError with the client left untouched. |

## Left out

- tornado_redis_sentinel/stream.py (`DownStream.connect`): the timeout and close-callback race runs on tornado's event loop. Each connect is reduced to the boolean outcome passed to `handle_connection_to_sentinel` and `handle_connection_success`. A negative timeout producing a failure is therefore an input of `Scenarios.TimeoutOnOnlySentinel`, not something derived. The stored timeout is only handed on to that connect.
- `_connect`, socket creation and replacing the active stream (core.py:24-29, 59-60, 107-108) are socket and stream I/O. The model records only the address a connect is started to (`ConnectToSentinel`, `ConnectToMaster`).
- `send_message` and the rest of the inherited `toredis` client speak the Redis wire protocol. The model records only which query is sent (`QuerySentinels`, `QueryMasterAddress`); replies are inputs. A `SENTINEL sentinels` reply is `None` or a list of string lists. A master reply is `None`, a string or a list of strings.
- `on_disconnect` and the disconnect callback (core.py:20-22) only forward a callback and are not modelled.
- The warning logged on ECONNREFUSED (core.py:64) is not modelled. The other `socket.error`s that are re-raised (core.py:66-67) are not modelled either: only "ECONNREFUSED does not advance" is.
- `PyText.ParseInt` accepts an optional sign and ASCII digits. Python's `int()` additionally allows surrounding whitespace, `_` between digits and non-ASCII digits; these are not modelled. Ports outside the TCP range are left to the socket layer, which is not modelled.
- Candidates are strings in the model. A non-string element of the caller's list, which would raise on `.split`, is not modelled.
- The callback is taken to return normally (it does not raise) and not to touch the client. If it raised, the status would already have changed while `_connect_callback` stays stored (core.py:54-55, 113-114), so it could fire again. A callback that calls `connect` again before the handler clears `_connect_callback` is not modelled.
- The handlers require that `connect` has run (`sentinels != null`). Before that, the Python attributes do not exist and a handler would raise AttributeError.
- The lemmas of `Traces`, lifted to the object by `EventLoop.DeliverAll`, assume that during a run nobody else changes the shared list object: neither the caller, who still holds it, nor another client connected with the same object or the default list. A change made between two events, such as another client appending a name or the caller removing one, is outside every run lemma: the next connect may then target a name the run never saw, and the list need not only grow.
- No termination argument: because of the cursor reset, the walk can repeat without end (`Traces.EndlessWalkForever`).
- Client.SentinelClient.Connect: the default arguments of core.py:31 are not modelled; every argument is passed explicitly. Omitting `master_name` or `callback` is the same as passing `None`, which is modelled. The default `sentinels=['localhost:6379']` is one list object, created once with the function and shared by every call that omits the argument. Because `connect` stores that object and the enrichment appends to it, names learned in one session stay in the default for every later call on any client. The model has no value for an omitted argument, so this leak between sessions is not captured. Passing one `PySequence` to several `Connect` calls gives the same sharing explicitly.
- The intended variant of `handle_connection_success`, which would move on to the next candidate on a failed master connect, is not written out. `Discovery.HandleConnectionSuccessOneShot` states that the code ignores the flag.
- tests/test_sentinel.py needs live Redis and sentinel servers. Its discovery tests are replayed as `Scenarios`; its data-command tests (set, get, pub/sub, blpop, disconnect) exercise the `toredis` library and are not modelled.
- setup.py and tornado_redis_sentinel/__init__.py hold packaging and a re-export.
