# cs-lua, modelled and proved in Dafny

cs-lua is a C++ module that runs Lua plugins inside a game server. This project models the parts of it whose
guarantees are about every run, every interleaving or every cut of a byte stream, and proves them.

Each component comes in the same shape. A specification says what the component means as functions on values; laws
about the specification are proved by induction over scripts, steps or input; and where the C++ code works by changing
things in place, a class with the code's own fields, loops and index arithmetic is proved to do what the specification
says. A plugin's callback is an arbitrary finite script of the operations plugins have, so a statement about every
script is a statement about every plugin; threads are interleavings of the sections run under one lock, and a thread's
own functions are proved with the other threads getting on wherever it lets go of its lock: a caller's plan says what
they do, and the method is right for every plan.

| component | source | files |
|---|---|---|
| hooks: nested dispatch over vectors with deferred deletion | `src/lua_events.cpp` | EventSpec, EventLaws, LuaEvents |
| timers on a clock that restarts with each map | `src/lua_timers.cpp` | TimerSpec, TimerLaws, TimerFate, LuaTimers |
| outgoing HTTP requests: workers, cancel, drain, reset | `src/lua_http.cpp` | HttpClientSpec, HttpClientLaws, HttpClientFate, HttpClientThreads, HttpClient |
| web server threads: sockets and the handover of answers | `src/lua_httpserver.cpp` | HttpServerSpec, HttpServerLaws, HttpServerFate, HttpServer |
| web server request parser over arbitrary `recv` cuts | `src/lua_httpserver.cpp` | Bytes, HttpMessage, HttpRead |
| live-update outboxes, form decoding | `src/lua_httpserver.cpp` | Sse, Form |
| SQL placeholders, literals and statement builders | `src/lua_mysql.cpp` | SqlTemplate, SqlBuild |
| migrations | `src/lua_mysql.cpp` | Migrations |
| database and statement handles, transactions | `src/lua_db.cpp` | DbHandles, LuaDb |
| UTF-8 to CP1251, panel chunks | `src/lua_message.cpp` | Bytes, Cp1251 |
| render overrides | `src/cslua_visibility.cpp` | Visibility |
| durations | `src/lua_time.cpp` | Durations |
| traffic ring and dump | `src/cslua_netwatch.cpp` | Netwatch |
| error limiter | `src/lua_engine.cpp` | ErrorLimiter |

Wrappers and Numerals hold what several components share. `dafny verify dfyconfig.toml` checks everything. The build is
32-bit, so `size_t`, `unsigned long` and `lua_Integer` have 32 bits wherever that shows.

## Where the code and its promises differ

The code was followed; each difference has a witness or an exact condition.

* A well-formed request with a line of 16384 to 18430 bytes in its head, and none longer, is accepted or refused
  depending on how `recv` cut the stream; exactly those are (`HttpRead.CutMatters`), a GET with one long header among
  them (`HttpRead.CutDecides`).
* `scripts/docs/api/http.py` says callbacks of an unloaded plugin do not run and that a cancelled callback does not run.
  A request on a worker or in the drained batch still calls back (`HttpClientLaws.RemovedPluginCalled`); exactly those
  do (`HttpClientFate.RemovalSilences`, `HttpClientFate.CancelSilences`).
* Cancelling a request whose answer waits for the drain, and nothing else, leaves a reference in the registry through
  which nobody will be called back (`HttpClientLaws.OrphansExactly`); it stays until the next reset
  (`HttpClientLaws.LeakedForGood`). A run in which that happens is `HttpClientLaws.CancelLeaks`.
* Removing a plugin that still has an armed answer to an earlier Lua state gives back a reference of somebody else
  (`HttpClientLaws.StaleRemovalFaults`); exactly then does a release go wrong (`HttpClientLaws.FaultExactly`).
* A failed migration run can be resumed, but it ends where one undisturbed run would have ended only after a harmless
  failure (`Migrations.ResumesExactly`): a statement that failed half done is done again (`Migrations.HalfDoneAgain`).
* An id occurring twice among those to apply makes a run fail (`Migrations.CleanRunSucceeds`), after its second step has
  been executed (`Migrations.TwiceGiven`).
* A lost read of the recorded ids runs everything again (`Migrations.LostReadSucceeds`, `Migrations.LostReadRepeats`).
* A string parameter is read by the server as one plain string of its own exactly when its placeholder touches neither
  a single quote nor another string's placeholder and no word stands right in front of it that is `x`, `b` or `n`, in
  either case, or begins with an underscore (`SqlTemplate.ReadsBackExactly`): `??` with two strings makes one
  (`SqlTemplate.NeighboursMerge`), `x?` makes a hexadecimal one (`SqlTemplate.PrefixMarks`).
* `timer.create` and `timer.destroy` under the empty name change the plugin's first timer without a name, which
  `timer.after` and `timer.every` made; exactly then do they touch one (`TimerLaws.TakesOverExactly`, and a run in which
  it happens, `TimerLaws.EmptyNameTakesOver`).
* Of the code page's places above ASCII only the letters from 0xC0 and ten more are converted; Ukrainian, Belarusian
  and Serbian letters that have a place become question marks (`Cp1251.ConvertsExactly`).
* Text that encodes a surrogate is taken for UTF-8 (`Cp1251.SurrogatesAccepted`), which section 3 of RFC 3629 forbids;
  exactly then is what is accepted not UTF-8 (`Cp1251.AcceptedWrongly`). UTF-8 text that needs four bytes anywhere, and
  no other, is not accepted and goes out as it is (`Cp1251.ShortScalarsAccepted`).

## Model

| member | source | states |
|---|---|---|
| EventLaws.AnyRun | src/lua_events.cpp:505-692 | after any script from the start, nested as it may be: no callback is reached or released after its reference was released, walks go in registration order and stop at the first cancel, references are held once or released, one handler per plugin and id |
| EventLaws.FireReachesAll | src/lua_events.cpp:579-618 | unless cancelled, a fired event calls every handler its list ends up with, including those added during the walk; it ends cancelled exactly when a callback of the walk returned with its flag set |
| EventLaws.CancelStops | src/lua_events.cpp:579-618 | a callback that sets its event's flag and clears it again does not end the walk, one that leaves it set does |
| EventLaws.AddKeeps | src/lua_events.cpp:221-266 | hook.add keeps the invariant: the replaced reference is given back as the new one is minted, and nothing removed comes back |
| EventLaws.AddExactly | src/lua_events.cpp:245-266 | only your own: hook.add takes out nothing but the caller's handler of that event and id, releasing its reference alone, and puts in one handler of that plugin and id under the new reference, in the old one's place or last |
| EventLaws.RemoveKeeps | src/lua_events.cpp:268-305 | hook.remove keeps the invariant and releases exactly the removed handler's reference |
| EventLaws.RemoveExactly | src/lua_events.cpp:280-305 | only your own: hook.remove takes out exactly the caller's handler of that event and id and releases exactly its reference, and changes nothing when there is none |
| EventLaws.RemovePluginKeeps | src/lua_events.cpp:505-535 | removing a plugin keeps the invariant, takes out its handlers of every event and nobody else's, and releases exactly their references |
| EventLaws.CallKeeps | src/lua_events.cpp:579-618 | one callback, whatever it does, keeps the invariant and leaves the walk standing at its handler or stopped |
| EventLaws.WalkKeeps | src/lua_events.cpp:579-618 | a walk keeps the invariant and, unless cancelled, has called every handler listed when it ends |
| LuaEvents.EraseDead | src/lua_events.cpp:537-577 | the back-to-front erasure leaves exactly the live handlers in order |
| LuaEvents.Hooks.Sweep | src/lua_events.cpp:537-577 | at depth 0 no dead handler and no empty plugin event remains; deeper nothing changes; the abstract registry is untouched either way |
| LuaEvents.Hooks.LAdd | src/lua_events.cpp:221-266 | replacing in place or appending is adding with immediate deletion; every live handler of another event, plugin or id is untouched, one of the caller's own is in under the new reference, and what is released was the caller's own; positions under a running walk are kept |
| LuaEvents.Hooks.LRemove | src/lua_events.cpp:268-305 | marking dead and sweeping is removing at once; true exactly when the caller's plugin had a live handler of that event and id, which alone goes and whose reference is released |
| LuaEvents.Hooks.LRemovePlugin | src/lua_events.cpp:505-535 | marking a plugin's handlers dead in every list is removing them at once; of the live handlers exactly those of other plugins stay |
| LuaEvents.Hooks.CallAt | src/lua_events.cpp:579-618 | the handler under the index is the one the abstract walk calls next, and the index stays right whatever the callback does |
| LuaEvents.Hooks.DispatchList | src/lua_events.cpp:579-618 | the walk by index over a changing vector is the walk with immediate deletion |
| LuaEvents.Hooks.LFire | src/lua_events.cpp:307-345 | hook.run and the module's own dispatch, nested or not, do what firing means; no list shrinks while a walk is under way; a plugin cannot fire an engine event or an undotted name; the answer says whether the event was cancelled |
| LuaEvents.Hooks.Run | src/lua_events.cpp:221-692 | every script of registry operations has the same effect on the vectors as on the registry with immediate deletion |
| TimerLaws.AnyRun | src/lua_timers.cpp:35-316 | over any run of frames, plugin code, map changes and unloads: what fires was due and fires at its pass's own time, no pass leaves anything due, a pass calls a timer once at most and in id order, references are conserved, named timers are unique |
| TimerLaws.FirstPassFires | src/lua_timers.cpp:205-316 | over any run whose clock never runs backwards: the first thing that happens to a timer after it was set, by the end of the first pass whose accumulated frame time reaches its moment, is that it fires in that very pass at that time, or is dropped or set anew |
| TimerFate.FiresUnlessTouched | src/lua_timers.cpp:91-316 | after any run, a live timer that no cancel, create or destroy is aimed at, whose plugin stays loaded and which persists if the map changes, fires in the first pass whose time reaches its moment, at that time, and nothing happens to it before |
| TimerFate.OnlyTouched | src/lua_timers.cpp:91-316 | such a timer stays in the list, live, until it is called: nothing else drops it or sets it anew |
| TimerFate.FrameLeaves | src/lua_timers.cpp:308-315 | the end of a pass leaves exactly the live timers, unchanged and in order |
| TimerFate.SetsAsAsked | src/lua_timers.cpp:35-178 | after, every, create, cancel and destroy leave a timer with the owner, name, moment, interval and persistence asked for, or none; a repeat or a named timer without a positive time is refused |
| TimerFate.CalledThen | src/lua_timers.cpp:284-306 | a timer being called is put off by its interval from now, or spent if it has none; one whose callback raises an error is spent either way |
| TimerLaws.OneShotOnce | src/lua_timers.cpp:284-306 | a one-shot that fired does not fire again unless set anew |
| TimerLaws.DroppedForGood | src/lua_timers.cpp:91-106 | a cancelled, destroyed, failed, unloaded or lost timer does not fire unless set anew |
| TimerLaws.MapChangePlans | src/lua_timers.cpp:205-225 | a map change keeps the moments of persistent timers on the accumulated clock, overdue ones becoming due at once, and drops all others; the clock goes on from the last frame |
| TimerLaws.TakesOverExactly | src/lua_timers.cpp:108-178 | create and destroy change a live timer without a name if and only if they are given the empty name and it is the plugin's first such timer |
| TimerLaws.EmptyNameTakesOver | src/lua_timers.cpp:122-165 | a run in which create takes over a timer made by timer.after |
| TimerLaws.WalkKeeps | src/lua_timers.cpp:282-306 | a pass with arbitrary callbacks keeps the invariant and ends with nothing due |
| TimerLaws.PurgeKeeps | src/lua_timers.cpp:308-315 | erasing keeps the invariant: each erased timer's reference is given back once |
| LuaTimers.Timers.SetClock | src/lua_timers.cpp:265-281 | a tick of the map's own clock is a tick of the accumulated clock |
| LuaTimers.Timers.Add | src/lua_timers.cpp:35-53 | a new timer is appended under the next id, due after a delay clamped at zero |
| LuaTimers.Timers.LCancel | src/lua_timers.cpp:92-106 | the live timer with this id, if any, is marked dead, and the answer says whether there was one |
| LuaTimers.Timers.LCreate | src/lua_timers.cpp:122-165 | the named timer is replaced in place or appended and named |
| LuaTimers.Timers.LDestroy | src/lua_timers.cpp:168-178 | the plugin's own live timer of that name is marked dead, and the answer says whether there was one |
| LuaTimers.Timers.WalkDue | src/lua_timers.cpp:282-306 | the walk by index over a growing vector calls due timers in id order, as the pass on the clock that never restarts does |
| LuaTimers.Timers.EraseAll | src/lua_timers.cpp:310-315 | back-to-front erasure takes out exactly the dead, the not persistent or a plugin's timers, leaves the others unchanged and in order and gives back exactly the erased references |
| LuaTimers.Timers.RunPass | src/lua_timers.cpp:265-316 | a frame on the map's own clock is a frame on the accumulated clock, and leaves no dead timer |
| LuaTimers.Timers.Rebase | src/lua_timers.cpp:205-225 | carrying the remaining waits over to the new map's clock is going on with the accumulated clock |
| LuaTimers.Timers.RemovePlugin | src/lua_timers.cpp:227-238 | unloading erases exactly a plugin's timers |
| HttpClientLaws.AnyInterleaving | src/lua_http.cpp:434-774 | in every interleaving a request is in one place, is called back once at most and only under the generation that asked, never after a cancel that said true, at most six are on workers, and without stale removals references are conserved |
| HttpClientLaws.TidyRun | src/lua_http.cpp:652-774 | without stale removals no reference is released twice and no callback reached through a released one |
| HttpClientLaws.FaultExactly | src/lua_http.cpp:719-746 | a release goes wrong exactly when plugin removal meets an armed answer to an earlier Lua state |
| HttpClientLaws.StaleRemovalFaults | src/lua_http.cpp:737-745 | a run in which it does: another plugin's queued request loses its reference |
| HttpClientLaws.CleanReset | src/lua_http.cpp:754-774 | after a reset with no request on a worker no release goes wrong, in any interleaving, until the next reset |
| HttpClientLaws.OrphansExactly | src/lua_http.cpp:622-631 | as long as no release goes wrong, a registry slot is left with nobody to call back through it exactly when a request is cancelled whose answer waits for the drain and would have been called back through it |
| HttpClientLaws.LeakedForGood | src/lua_http.cpp:622-631 | a forgotten reference stays in the registry until the next reset |
| HttpClientLaws.OnlyLeaksLinger | src/lua_http.cpp:598-774 | in every interleaving without stale removals a reference nobody will be called back through is a forgotten one |
| HttpClientLaws.CancelLeaks | src/lua_http.cpp:622-631 | a run after which every queue is empty and the registry still holds the cancelled request's reference |
| HttpClientLaws.AfterRemoval | src/lua_http.cpp:719-746 | after a removal the plugin's armed requests are on a worker or in the drained batch |
| HttpClientLaws.AfterCancelFalse | src/lua_http.cpp:598-633 | after a cancel that said false the request is on a worker, in the drained batch or gone |
| HttpClientLaws.RemovedPluginCalled | src/lua_http.cpp:737-745 | a run in which a removed plugin's callback runs |
| HttpClientFate.FateDecided | src/lua_http.cpp:434-717 | a request can still be called back in some continuation exactly when it is armed, of this Lua state and queued, on a worker, answered or in the batch |
| HttpClientFate.CancelSilences | src/lua_http.cpp:598-633 | cancelling a request past the queue silences it exactly when it is not on a worker or in the batch, and says true exactly when an answer waits for the drain |
| HttpClientFate.RemovalSilences | src/lua_http.cpp:719-746 | plugin removal silences exactly the requests not on a worker or in the batch |
| HttpClientThreads.FirstComeFirstServed | src/lua_http.cpp:434-448 | whatever happens between two takes, the request taken first was queued first |
| HttpClient.Client.QueueRequest | src/lua_http.cpp:501-544 | nobody had the new id before, the request is the last in the queue, and its callback can be reached |
| HttpClient.Client.Serve | src/lua_http.cpp:434-461 | a worker performs the oldest request, whatever the other threads do meanwhile: its reply carries over id, plugin, callback and generation, the request has left queue and wire for good, and whoever is still queued asked later |
| HttpClient.Client.WorkerLoop | src/lua_http.cpp:434-461 | a worker performs requests in the order of their queueing, each leaving queue and wire for good |
| HttpClient.Client.CancelQueued | src/lua_http.cpp:598-619 | the first queued match is erased and its reference released |
| HttpClient.Client.CancelAnswered | src/lua_http.cpp:620-632 | every answered match is disarmed, none released |
| HttpClient.Client.RemovePluginQueued | src/lua_http.cpp:719-735 | a plugin's queued requests are erased in place and their references released |
| HttpClient.Client.RemovePluginAnswered | src/lua_http.cpp:737-746 | a plugin's armed answers are released and disarmed |
| HttpClient.Client.Cancel | src/lua_http.cpp:598-633 | with workers getting on between the two sections: true means the callback cannot run any more, and it can run exactly when the request is on a worker or in the drained batch |
| HttpClient.Client.RemovePlugin | src/lua_http.cpp:719-746 | with workers getting on between the two sections: what a removed plugin still has anywhere can be called back exactly when it is on a worker or in the drained batch |
| HttpClient.Client.Drain | src/lua_http.cpp:652-717 | the drain calls back exactly those of the waiting replies that were not cancelled and were asked for in this Lua state, in their order and once each, whatever the callbacks ask for meanwhile |
| HttpClient.Client.Reset | src/lua_http.cpp:754-774 | after a reset nothing is queued or answered, only what is on a worker is left, and nothing asked for before can be called back in any continuation |
| HttpServerLaws.AnyInterleaving | src/lua_httpserver.cpp:417-520 | in every interleaving each accepted socket is held, queued, with a worker or closed, exactly one of them and once; done and abandoned never both; each closed socket got the answer its connection settled on; at most 64 queued, eight workers while it listens |
| HttpServerLaws.SettledForGood | src/lua_httpserver.cpp:1035-1041 | once done or abandoned a connection never changes, so its answer may be read without the lock |
| HttpServerLaws.StoppedClosesAll | src/lua_httpserver.cpp:838-877 | with the listener stopped every socket ever accepted has been closed exactly once |
| HttpServerLaws.NeverTooManyOpen | src/lua_httpserver.cpp:148-155 | never more than 73 client sockets are open: one in hand, 64 queued, eight with workers |
| HttpServerLaws.FirstComeFirstServed | src/lua_httpserver.cpp:466-518 | whatever happens between two takes, the socket taken first was accepted first |
| HttpServerLaws.NobodyForgotten | src/lua_httpserver.cpp:431-444 | in every interleaving a worker that waits has not been given up on, and its request is answered or else, and only else, on its way to the drain |
| HttpServerFate.RefusedExactly | src/lua_httpserver.cpp:505-515 | in every run the sockets closed for want of room are exactly those that came while 64 others were waiting, in that order |
| HttpServerFate.NotRefused | src/lua_httpserver.cpp:464-520 | any other accepted socket is in the acceptor's hands, queued, with a worker or closed for another reason |
| HttpServerFate.Arrives | src/lua_httpserver.cpp:464-520 | with a free worker and nobody waiting a connection reaches that worker |
| HttpServerFate.AnsweredAsHandled | src/lua_httpserver.cpp:417-462 | a request that is read and handled is answered with its handler's response; a stream keeps its worker until it ends |
| HttpServerFate.ToldOfReload | src/lua_httpserver.cpp:1073-1091 | a request posted when the server reloads is answered 503 "server reloading" |
| HttpServerFate.NotHandled | src/lua_httpserver.cpp:417-462 | a malformed request is closed with 400; one given up on with 503, and its handler is not called any more |
| HttpServerFate.Listens | src/lua_httpserver.cpp:787-836 | outside the drain or from a handler a listener can be started, again too: eight idle workers and an acceptor |
| HttpServerFate.StopsWhenIdle | src/lua_httpserver.cpp:838-877 | told to stop, an idle listener's threads leave, it is down, and what waited is closed unserved |
| HttpServerLaws.StepKeeps | src/lua_httpserver.cpp:417-1091 | every step of acceptor, workers and game thread keeps ownership, handover and shape |
| HttpServer.Server.Await | src/lua_httpserver.cpp:436-444 | the wait ends with an answer that is there, or with the worker giving up for good, whatever the other threads do between two looks |
| HttpServer.Server.HandleConnection | src/lua_httpserver.cpp:417-462 | with the other threads getting on wherever no lock is held: the worker is free again and the socket has been closed once, after the one outcome its connection settled on: 400 exactly when malformed, otherwise 503 when given up on, the stored answer, or a stream's end |
| HttpServer.Server.WorkerLoop | src/lua_httpserver.cpp:464-485 | a worker takes sockets in the order of acceptance, each has been closed once before the next is taken, and it leaves only when told to stop |
| HttpServer.Server.AcceptLoop | src/lua_httpserver.cpp:487-520 | every socket ever accepted is queued, with a worker or closed, exactly one of them and once, whenever the acceptor is back in select or gone; closed for want of room are exactly those that came while 64 waited, and any other is queued, with a worker or closed for another reason |
| HttpServer.Server.Drain | src/lua_httpserver.cpp:939-1043 | every request posted before the drain is answered with its own handler's response, in the order of posting, or its worker has given up on it |
| HttpServer.Server.ResetPosted | src/lua_httpserver.cpp:1073-1091 | every request posted before a reload is answered 503 "server reloading", or its worker has given up on it |
| HttpServer.Server.StopListening | src/lua_httpserver.cpp:838-877 | when it returns, every socket ever accepted has been closed, once |
| HttpServer.Server.CloseQueued | src/lua_httpserver.cpp:872-876 | what is still queued after the joins is closed, in order, once each |
| HttpMessage.ParseWrite | src/lua_httpserver.cpp:193-257 | a one-shot parse of what a sender writes gives back method, path, query, headers and body, whatever follows (sections 2.2, 3 and 6.2 of RFC 9112) |
| HttpMessage.LengthAnnounced | src/lua_httpserver.cpp:217-239 | a sender that announces a body of up to 1048576 bytes in decimal in its last Content-Length field, each letter of the name in either case, has written a well-formed request |
| HttpMessage.TooMuchAnnounced | src/lua_httpserver.cpp:235-256 | a request that announces more than 1048576 bytes, or more than arrive, is refused |
| HttpMessage.PaddingIgnored | src/lua_httpserver.cpp:182-233 | blanks and tabs around a field's name and value are no part of them (section 5.1 of RFC 9112) |
| HttpMessage.ParsedLineSays | src/lua_httpserver.cpp:193-217 | the method is the line up to its first space with small letters made capital, the target is what stands before the next space, split at its first question mark, "/" standing for an empty path |
| Bytes.StrtoulReads | src/lua_httpserver.cpp:235-236 | strtoul skips white space, takes a sign, stops at the first other byte, saturates at 32 bits and counts a negative number down from 2^32 |
| HttpRead.ShortLinesArrive | src/lua_httpserver.cpp:161-180 | however recv cuts the stream, a line shorter than 16384 bytes gets through and none longer than 18430 does |
| HttpRead.CutMatters | src/lua_httpserver.cpp:161-257 | a well-formed request is treated alike under every cut if and only if its head lines are all shorter than 16384 bytes, when it is accepted, or one is longer than 18430, when it is refused |
| HttpRead.CutDecides | src/lua_httpserver.cpp:161-257 | for every length between those bounds a well-formed GET with a header that long is accepted under one cut and refused under another |
| HttpRead.RecvLine | src/lua_httpserver.cpp:161-180 | the line returned is the stream's first line and nothing behind it is lost; whether there is one is decided by the cut |
| HttpRead.ReadBody | src/lua_httpserver.cpp:240-256 | the body is the declared number of bytes, counting what arrived with the head |
| HttpRead.ReadRequest | src/lua_httpserver.cpp:193-257 | accepted is exactly a well-formed request whose head arrives under this cut; what is accepted is the one-shot parse of the stream, its method in capitals and its target split as the first line has them |
| HttpRead.WrittenIsRead | src/lua_httpserver.cpp:193-257 | a well-formed request with fitting head lines is accepted and read back whole under every cut |
| Sse.EveryRun | src/lua_httpserver.cpp:343-411 | an outbox is always the last at most 200 messages pushed since the join; all before were taken or lost, never both, in push order |
| Sse.LostExactly | src/lua_httpserver.cpp:777-779 | a message is lost exactly when it was the oldest of 200 waiting as one more was pushed |
| Sse.SentAsPushed | src/lua_httpserver.cpp:379-383 | what is sent next is the message pushed under that number |
| Sse.NothingLost | src/lua_httpserver.cpp:343-411 | a subscriber never 200 behind is sent everything in order without repeats |
| Sse.SseClient.Offer | src/lua_httpserver.cpp:774-780 | one push drops the oldest of a full outbox and appends |
| Sse.SseClient.Take | src/lua_httpserver.cpp:370-384 | a session turn ends, takes the oldest message or finds none |
| Sse.PushAll | src/lua_httpserver.cpp:766-785 | every subscriber gets the message, and the answer is how many there are |
| Sse.Leave | src/lua_httpserver.cpp:400-408 | an ended session leaves the list, the others keep their order |
| Form.UrlDecode | src/lua_httpserver.cpp:565-584 | the decoding loop computes the decoding relation |
| Form.DecodesText | src/lua_httpserver.cpp:565-584 | however a sender wrote a byte string, plain, plus or escaped, decoding gives it back |
| Form.PercentStands | src/lua_httpserver.cpp:565-584 | a percent sign that no two hexadecimal digits follow stands for itself |
| Form.HexSays | src/lua_httpserver.cpp:572-577 | a hexadecimal digit has its value in either case |
| Form.EscapesAnything | src/lua_httpserver.cpp:565-584 | percent-encoding every byte is undone |
| Form.ParseQuery | src/lua_httpserver.cpp:586-608 | the splitting loop computes the list of fields |
| Form.ParsesJoined | src/lua_httpserver.cpp:586-608 | parsing undoes form encoding for every list of fields: those with a name come back in order, byte for byte (application/x-www-form-urlencoded parsing, section 5.1 of the WHATWG URL standard) |
| SqlTemplate.SubstKeepsState | src/lua_mysql.cpp:192-267 | rescanning a substituted statement finds no placeholder and ends in the template's quote state |
| SqlTemplate.SegmentsKeepState | src/lua_mysql.cpp:252-267 | every segment of the template keeps its quote state in the result |
| SqlTemplate.LiteralInPlace | src/lua_mysql.cpp:252-267 | the k-th parameter's literal stands where the k-th placeholder stood, outside quotes |
| SqlTemplate.LiteralSays | src/lua_mysql.cpp:219-249 | a missing parameter reads back as NULL, a truth value as 1 or 0, an integer as itself with its sign, another number as the text it was printed as, a string as its bytes |
| SqlTemplate.EscapeClean | src/lua_mysql.cpp:238-246 | no NUL, line break or end-of-file byte of a string goes through bare |
| SqlTemplate.BareCounts | src/lua_mysql.cpp:193-210 | without quotes every question mark is a placeholder |
| SqlTemplate.QuotedSkipped | src/lua_mysql.cpp:193-210 | between single or double quotes there is none |
| SqlTemplate.ReadsBackExactly | src/lua_mysql.cpp:238-267 | in the whole statement the server reads a string parameter as one plain string of its own, and the rest as without it, exactly when its placeholder touches neither a single quote nor another string's placeholder and no word that marks a string stands right in front of it |
| SqlTemplate.NeighboursMerge | src/lua_mysql.cpp:252-267 | two placeholders side by side turn two strings into one |
| SqlTemplate.PrefixMarks | src/lua_mysql.cpp:252-267 | a placeholder right behind an x makes a hexadecimal string of a parameter |
| SqlBuild.ScanPlaceholders | src/lua_mysql.cpp:193-210 | the scanner loop finds exactly the unquoted placeholders |
| SqlBuild.CountPlaceholders | src/lua_mysql.cpp:212-217 | their number |
| SqlBuild.BuildSql | src/lua_mysql.cpp:252-267 | copying segments and literals by position is substitution |
| SqlBuild.AppendAssignments | src/lua_mysql.cpp:784-808 | as many placeholders as parameters, in order, and the statement they make; refused exactly for a bad column |
| SqlBuild.BuildUpdate | src/lua_mysql.cpp:976-1020 | UPDATE table SET col = value, ... WHERE col = value AND ..., with as many parameters as placeholders, in order; refused exactly for a bad name or an empty table |
| SqlBuild.BuildDelete | src/lua_mysql.cpp:1022-1057 | DELETE FROM table WHERE col = value AND ..., likewise |
| SqlBuild.BuildCreate | src/lua_mysql.cpp:918-974 | INSERT INTO table (columns) VALUES (values), columns and values in one order; refused exactly for a bad name or nothing to insert |
| SqlBuild.BuildFind | src/lua_mysql.cpp:810-916 | SELECT the columns, or *, FROM table, then WHERE, ORDER BY, LIMIT and OFFSET as far as given, with matching parameters; refused exactly for a bad name, order or number |
| SqlBuild.OrderSays | src/lua_mysql.cpp:856-873 | an order is a column, or a column and a direction after one space, which goes into the statement as given; any other direction is refused |
| SqlBuild.IdentSays | src/lua_mysql.cpp:673-683 | a name is made of digits, letters and underscores and is not empty |
| SqlBuild.JoinSays | src/lua_mysql.cpp:784-808 | two parts have one separator between them, and each further part one more |
| Migrations.GoesSoFar | src/lua_mysql.cpp:473-495 | up to the first failure exactly the unrecorded ids are applied, in batch order, each recorded after its SQL succeeded |
| Migrations.ResumesExactly | src/lua_mysql.cpp:446-495 | a clean rerun after a failure always succeeds, and ends where one clean run would exactly when the failed statement had no effect or only the record's report was lost |
| Migrations.CleanRunApplies | src/lua_mysql.cpp:446-495 | a clean run executes and records what was not recorded, once each |
| Migrations.CleanRunSucceeds | src/lua_mysql.cpp:466-476 | a clean run succeeds exactly when no id still to be applied occurs twice |
| Migrations.LostReadSucceeds | src/lua_mysql.cpp:455-463 | with the recorded ids lost unnoticed a run succeeds exactly when nothing of the batch was recorded |
| Migrations.HalfDoneAgain | src/lua_mysql.cpp:446-495 | a statement that failed half done is executed again by the rerun |
| Migrations.TwiceGiven | src/lua_mysql.cpp:466-495 | of two steps under one id both are executed, and the run fails |
| Migrations.LostReadRepeats | src/lua_mysql.cpp:455-495 | with the recorded ids lost a step applied long ago is executed once more |
| Migrations.RerunDoesNothing | src/lua_mysql.cpp:473-476 | after a success a rerun executes nothing |
| Migrations.SetupFails | src/lua_mysql.cpp:446-464 | a run whose set-up fails executes and records no step |
| Migrations.Conn.PerformMigrate | src/lua_mysql.cpp:438-496 | the runner does that, and drops the connection when its set-up fails |
| DbHandles.AnyScript | src/lua_db.cpp:446-559 | after any script of opens, prepares, closes, nested transactions and removals: every call to SQLite was legal, live statements belong to live databases, every BEGIN was answered |
| DbHandles.NothingInside | src/lua_db.cpp:471-518 | inside a transaction's callback, whatever it does, nothing begins, commits or rolls back on its database |
| DbHandles.TransactionEnds | src/lua_db.cpp:471-518 | a transaction ends with one COMMIT or ROLLBACK unless its callback closed the database, and nothing else begins or ends on it in between |
| DbHandles.RemovedPluginClosed | src/lua_db.cpp:817-823 | a removed plugin has no open database |
| DbHandles.TouchesExactly | src/lua_db.cpp:446-716 | what each operation does to the tables and that it does nothing else: opening again hands out the open one except in memory, a close takes its own database and statements, a removal only the plugin's |
| DbHandles.CloseKeeps | src/lua_db.cpp:540-559 | a close finalizes the database's statements first, and closing twice is nothing |
| LuaDb.Handles.OpenDb | src/lua_db.cpp:648-716 | a plugin's database is opened once and its handle handed out again |
| LuaDb.Handles.CloseDatabase | src/lua_db.cpp:550-559 | the tables after a close |
| LuaDb.Handles.CloseStatementsOf | src/lua_db.cpp:540-548 | the loop finalizes exactly the database's live statements |
| LuaDb.Handles.Transact | src/lua_db.cpp:471-518 | the transaction keeps an id, not an entry, across an arbitrary callback |
| LuaDb.Handles.RemovePluginDbs | src/lua_db.cpp:817-823 | the loop closes exactly the plugin's databases; every other plugin's stay as they are |
| Cp1251.DecodesEncoded | src/lua_message.cpp:99-120 | decoding inverts the one- to three-byte encodings of section 3 of RFC 3629 whatever follows |
| Cp1251.DecodedIsEncoded | src/lua_message.cpp:99-120 | what decodes is a shortest encoding lying within the text |
| Cp1251.AcceptedExactly | src/lua_message.cpp:143-162 | a text is taken for UTF-8 exactly when it is a row of such encodings |
| Cp1251.ByteOfIsRight | src/lua_message.cpp:122-141 | a code point becomes its own place in the Windows code page, a question mark or, for a no-break space, a space |
| Cp1251.ConvertsExactly | src/lua_message.cpp:122-141 | of what the code page can show above ASCII, exactly the letters from 0xC0 and ten more places are converted |
| Cp1251.SurrogatesAccepted | src/lua_message.cpp:112-116 | encoded surrogates are accepted |
| Cp1251.AcceptedWrongly | src/lua_message.cpp:99-162 | what is taken for UTF-8 is UTF-8 by section 3 of RFC 3629 exactly when no surrogate is encoded in it |
| Cp1251.ShortScalarsAccepted | src/lua_message.cpp:99-162 | UTF-8 text is taken for UTF-8 exactly when nothing in it needs four bytes |
| Cp1251.ConvertsEncoded | src/lua_message.cpp:143-184 | one byte per code point |
| Cp1251.OthersStay | src/lua_message.cpp:143-162 | any other text goes out as it is |
| Cp1251.ToCp1251 | src/lua_message.cpp:143-184 | the buffer holds the converted text cut to its size, terminated in bounds |
| Cp1251.Prepare | src/lua_message.cpp:478-497 | the bounded copy with its newline, converted or not |
| Cp1251.TextForClient | src/lua_message.cpp:501-511 | a buffer of the text's own size never truncates |
| Cp1251.SendMotd | src/lua_message.cpp:390-431 | the chunks are the text in order, full but for the last, which alone is marked |
| Visibility.Table.SetOverride | src/cslua_visibility.cpp:67-81 | the table, its slots of other lives and the counter agree with the history after a set, and players 1 to 32 are seen to have it |
| Visibility.Table.ClearOverride | src/cslua_visibility.cpp:83-97 | likewise after a clear |
| Visibility.Table.ResetAll | src/cslua_visibility.cpp:140-144 | after a reset table and counter agree with a history in which nothing is set |
| Visibility.Table.Get | src/cslua_visibility.cpp:99-110 | an override is seen exactly when it is the latest set for that life and not cleared |
| Visibility.LatestExactly | src/cslua_visibility.cpp:31-110 | a player sees a value exactly when it was set for that player and that life and neither a reset, a clear, a new value nor another life of the index has come since |
| Visibility.Table.Apply | src/cslua_visibility.cpp:112-138 | exactly when the history says so the entity is painted, mode and effect as set, the amount without its fraction, each colour its byte; otherwise nothing changes |
| Visibility.Table.SlotFor | src/cslua_visibility.cpp:31-63 | a slot claimed for another life has lost the former rows, and the counter knows |
| Visibility.ZeroTotal | src/cslua_visibility.cpp:114-115 | a zero counter means no active row anywhere |
| Durations.ParsesExactly | src/lua_time.cpp:52-99 | accepted is exactly a non-empty row of numbers with units, and the value is their sum |
| Durations.ParseAdds | src/lua_time.cpp:73-80 | durations in a row are their sum: the month's second letter is never read across the join |
| Durations.UnitsSay | src/lua_time.cpp:17-50 | the units: years of 365 days, months of 30, weeks, days, hours, minutes, seconds |
| Durations.Wraps | src/lua_time.cpp:95-98 | past 32 bits the value wraps around |
| Durations.LParse | src/lua_time.cpp:52-99 | the scanner loop, down to the 32-bit result |
| Durations.LFormat | src/lua_time.cpp:102-134 | the formatter loop writes the amounts d < 7, h < 24, m < 60, s < 60 that are not zero |
| Durations.FormatSays | src/lua_time.cpp:102-134 | so many weeks, days, hours, minutes and seconds are written as just that, zeros left out and nothing at all as 0s |
| Durations.FormatParses | src/lua_time.cpp:52-134 | parse undoes format |
| Durations.RoundTrip | src/lua_time.cpp:52-134 | within the 32 bits of lua_Integer too |
| Durations.FormatInjective | src/lua_time.cpp:102-134 | different durations are written differently |
| Netwatch.BytesAdded | src/cslua_netwatch.cpp:306-330 | a message is as long as what was added since its begin |
| Netwatch.FinishesWith | src/cslua_netwatch.cpp:332-342 | ending it records that length for its client |
| Netwatch.NobodysAndForgotten | src/cslua_netwatch.cpp:306-351 | what is begun for nobody in particular is nobody's; a forgotten client has nothing left and the others keep theirs |
| Netwatch.RingIsTail | src/cslua_netwatch.cpp:45-51 | the ring is the last at most 512 finished messages, read from where it has wrapped |
| Netwatch.Slot.Push | src/cslua_netwatch.cpp:45-51 | a push appends to them |
| Netwatch.Watcher.constructor | src/cslua_netwatch.cpp:27-58 | a fresh watcher agrees with the empty history |
| Netwatch.Watcher.MessageBegin | src/cslua_netwatch.cpp:306-321 | flags and slots agree with the history: the message begun last is the one built |
| Netwatch.Watcher.AddBytes | src/cslua_netwatch.cpp:323-330 | bytes go to that message alone |
| Netwatch.Watcher.MessageEnd | src/cslua_netwatch.cpp:332-342 | it is recorded once, for its client |
| Netwatch.Watcher.ForgetClient | src/cslua_netwatch.cpp:344-351 | a forgotten client has no messages and none being built |
| Netwatch.SortBuckets | src/cslua_netwatch.cpp:399-410 | the selection sort leaves a descending permutation |
| Netwatch.Dump | src/cslua_netwatch.cpp:360-410 | over a client's last at most 512 messages, however the ring has wrapped: buckets have distinct kinds, count their kind exactly, descend by bytes, and sum to the window's totals as long as the kinds fit the buckets |
| Netwatch.DumpClient | src/cslua_netwatch.cpp:360-410 | the same read off the history of begins, adds, ends and disconnects |
| Netwatch.WindowSays | src/cslua_netwatch.cpp:45-51 | the window is the last 512 messages, or all while there are fewer |
| Netwatch.OneCounts | src/cslua_netwatch.cpp:360-398 | a message counts, with its bytes and under its kind, if it is at most eight seconds old |
| Netwatch.TotalsAdd | src/cslua_netwatch.cpp:360-398 | the totals of two runs of messages are the sums of theirs |
| ErrorLimiter.FourReportsSpan | src/lua_engine.cpp:97-143 | any four reports of one error span at least 60 seconds |
| ErrorLimiter.MuteLasts | src/lua_engine.cpp:110-114 | nothing is printed in the 60 seconds after a muting report |
| ErrorLimiter.MuteEnds | src/lua_engine.cpp:110-130 | after those 60 seconds the next occurrence is printed with the number of those muted; it mutes again at once exactly when there were none |
| ErrorLimiter.FirstThree | src/lua_engine.cpp:110-130 | the first three occurrences are printed, and the third starts a mute |
| ErrorLimiter.StartsOver | src/lua_engine.cpp:116-130 | after a mute with something to announce three are printed again |
| ErrorLimiter.SameKeyExactly | src/lua_engine.cpp:97-109 | two errors are counted as one exactly when place and first line are the same |
| ErrorLimiter.LinesSay | src/lua_engine.cpp:131-143 | a text is printed line by line, empty lines left out |
| ErrorLimiter.NothingLost | src/lua_engine.cpp:116-121 | every occurrence is printed, announced in an "N more" line or still counted |
| ErrorLimiter.Reporter.ReportError | src/lua_engine.cpp:97-143 | a report follows its own key's history alone and prints the text's non-empty lines |

## Left out

- Lua stack handling, metatables, console commands and the `fire_*` wrappers: plumbing around the calls modelled here. A
  Lua function is a reference and a script; a script's error aborts nothing further, which only allows more behaviours.
- Hook profiling and the per-event choice of which events may be cancelled: `SetCancelled` may come from any callback.
- TimerLaws.FirstPassFires: the server's frame times are taken not to run backwards within a map.
- TimerFate.FiresUnlessTouched: likewise; an error in its callback, which spends it, comes after it was called.
- TimerLaws.AnyRun: real numbers stand for the server's floats, so rounding of game time is not modelled; a plugin is
  not unloaded from inside a timer callback, and a map does not change there.
- HttpClientLaws.AnyInterleaving: the in-flight counter is not modelled, and slots other components hold in the Lua
  registry are not either; a wrong release is counted, not followed.
- HttpClient.Client.WorkerLoop: the workers' leaving at shutdown is not modelled; a worker is one of six interchangeable
  ones, and the others are assumed to leave it its place.
- The MySQL request queue (`src/lua_mysql.cpp:1255-1419`) repeats the HTTP client's protocol without cancel.
- HttpServerLaws.AnyInterleaving: descriptors are named by acceptance; sending is assumed to end, and a failed send is
  not told apart from a finished one. Fairness and time limits are not modelled: giving up may happen at any moment.
- Routing (`match_route`, the choice between 404, 405, 401 and 500) and response headers: the answer to a request is
  arbitrary here.
- HttpRead.ReadRequest: the receive timeout is the end of the stream.
- Sse.EveryRun: pings and the framing of a message with line breaks in it are not modelled.
- SqlTemplate.ReadsBackExactly: comments and names in backquotes, which the server reads differently from the scanner,
  are not modelled, nor are the joining of strings that stand side by side with blanks between them and a character set
  named in front of a string with blanks between. The escaping follows the backslash rules of section 9.1.1 of the MySQL
  manual; `NO_BACKSLASH_ESCAPES` and multi-byte connection character sets are not modelled, and a number's text is a
  parameter.
- Migrations.ResumesExactly: a database is the list of effects of what it executed; connecting and the case-insensitive
  collation of the id column are not modelled.
- DbHandles.AnyScript: transactions begun or ended by SQL text through `db:exec` are not modelled; SQLite's own
  verdicts on opening, preparing, beginning and committing are arbitrary.
- Durations.LParse: overflow of the 64-bit intermediate values is not modelled; `time.add_calendar` is left out.
- ErrorLimiter.FourReportsSpan: the clock is assumed not to run backwards, which `clock()` with 32 bits does when it wraps.
- Netwatch.Dump: byte and message counts are unbounded, and the log lines themselves are left out.
- `src/lua_engine.cpp` beyond the error reporter (module cache, load order), and the game SDK glue.
