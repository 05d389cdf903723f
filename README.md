# krossbow: reconnection episodes, the Autobahn echo client, and the native source-set hierarchy

This project models three parts of krossbow, a Kotlin multiplatform WebSocket and STOMP library:

- **The auto-reconnecting WebSocket client decorator** (`withAutoReconnect`), as its test suite
  pins it down. The first connect goes straight to the base client, and a failure there is not
  retried. The base connection's frames are forwarded to one logical inbound channel. When that
  connection fails, a *reconnection episode* starts: while fewer than `maxAttempts` retries have
  been made, `reconnectWhen(lastError, retriesSoFar)` is asked. A "no" ends the logical stream with
  that error. A "yes" calls the base client again. A refusal becomes the new last error and counts
  one more retry. A new connection ends the episode, runs `afterReconnect` and resumes forwarding.
  A run of `maxAttempts` refused retries ends the stream with a reconnection exception whose cause
  is the last error. Attempts are counted per episode.
  The base client is a script of connect outcomes: a returned connection, given as the frames it
  delivers and how its channel ends, or a refusal with an error. The decorator is a class whose
  `Run` loop consumes that script. Its methods are proved against the functions `Retry`,
  `AfterStream`, `Forwarded` and `Session`. Lemmas about those functions state the tests'
  promises, and they replay the tests' scenarios.
- **The Autobahn echo client** (`AutobahnClientTestSuite.kt`):
  - `echoFrame`: text and binary frames are sent back, ping and pong are ignored, and a close
    frame is an error;
  - the `echoUntilClosed` and `echoNFrames` receive loops, as methods of a connection class;
  - the server-closed and client-force-closed checks, and the exact-count check that combines them;
  - `truncated`;
  - the verdict of one case: the status must be OK or NON-STRICT, an exception is tolerated only
    when the case expects a failure, and a timeout fails the case.
- **The build's source-set helpers** (`buildSrc/src/main/kotlin/SourceSets.kt`):
  - the declared parent-to-children hierarchy of native source sets;
  - `ancestors`, `isDarwin`, `isDarwinOrDarwinDescendant`, `darwinRelatedSourceSetRefs` and `isWindows`;
  - `setupSourceSetsTree`: find or create each reference's source set, then make it depend on each
    parent's. It is a nested loop in a container class;
  - `setupMainAndTestSourceSets`: both trees for a flavor, then `native<flavor>Main` on
    `commonMain` and `native<flavor>Test` on `commonTest`.

Files:
- `frames.dfy` holds the shared frame, error, option and channel types.
- `reconnection.dfy` holds the decorator: its specification functions, the class and `OpenSession`.
- `reconnection_properties.dfy` holds the lemmas about the decorator and the test scenarios.
- `autobahn.dfy` holds the echo client.
- `source_sets.dfy` holds the source-set hierarchy and the container.

The decorator's own implementation is not part of this model. Its behaviour is taken from
`ReconnectingWebSocketClientTest.kt`, and two of the model's choices rest on particular tests:

- `reconnectWhen` receives the number of retries already made in the episode, starting at 0. The
  test at lines 211-242 uses `attempt < 2`, refuses two retries and expects the second refusal's
  error, "connection failure 2", at lines 240-241. Counting from 0 gives exactly that. Counting
  from 1 would stop after the first refusal.
- A "no" from `reconnectWhen` ends the stream with the latest error itself (`Rethrown`), not
  wrapped. At the start of an episode that error is the one the connection failed with ("simulated
  error", lines 205-206). Later in the episode it is the latest refusal ("connection failure 2",
  lines 240-241).

Assumptions where the code the model needs is not part of it:

- `buildSourceSetRefs` is not part of this model. It is taken to make one reference per declared
  name, whether the name appears as a parent or as a child (`SourceSets.Names`), so the
  Darwin-related selection ranges over every declared name. A reference's parents are taken to be
  the declared parents whose child list holds its name, in declaration order.
- `withAppendedNames(suffix)` is taken to append the suffix to the reference's name and to each
  parent's name.
- The message "Channel was closed" is the error of a receive on a normally closed channel (the
  coroutine library's default).
- The hierarchy's `depth` map is not in the source. It witnesses that the declared graph is acyclic
  (see `SourceSets.NativeHierarchyLayered`). The recursive `ancestors` and
  `isDarwinOrDarwinDescendant` terminate because of it.

## Model

| member | source | states |
|---|---|---|
| Reconnection.Retry | krossbow-websocket-core/src/commonTest/kotlin/org/hildan/krossbow/websocket/reconnection/ReconnectingWebSocketClientTest.kt:139-242 | an episode takes at most the answers the script holds; a reconnection takes at least one retry; an exhausted episode has made every retry left up to maxAttempts; no episode goes beyond maxAttempts retries |
| Reconnection.AfterStream | krossbow-websocket-core/src/commonTest/kotlin/org/hildan/krossbow/websocket/reconnection/ReconnectingWebSocketClientTest.kt:59-105 | what follows the end of a connection's channel uses at most the remaining script, and a normally closed stream has had no more reconnections than connect calls |
| Reconnection.Forwarded | krossbow-websocket-core/src/commonTest/kotlin/org/hildan/krossbow/websocket/reconnection/ReconnectingWebSocketClientTest.kt:46-57 | the current connection's frames come first on the logical stream, unchanged |
| Reconnection.Session | krossbow-websocket-core/src/commonTest/kotlin/org/hildan/krossbow/websocket/reconnection/ReconnectingWebSocketClientTest.kt:15-44 | connect stays suspended exactly when the base client has not answered; it fails exactly when the first answer is a failure; an established session used at least one and at most all answers |
| Reconnection.ReconnectingConnection.Connect | krossbow-websocket-core/src/commonTest/kotlin/org/hildan/krossbow/websocket/reconnection/ReconnectingWebSocketClientTest.kt:15-44 | the first connect makes one base call and no retry: it suspends, returns the base client's error, or starts forwarding the returned connection |
| Reconnection.ReconnectingConnection.Reconnect | krossbow-websocket-core/src/commonTest/kotlin/org/hildan/krossbow/websocket/reconnection/ReconnectingWebSocketClientTest.kt:139-242 | the retry loop ends as `Retry` says, with the attempt counter equal to the retries made and one base call per retry |
| Reconnection.ReconnectingConnection.ForwardFrame | krossbow-websocket-core/src/commonTest/kotlin/org/hildan/krossbow/websocket/reconnection/ReconnectingWebSocketClientTest.kt:46-57 | the next frame of the current connection is appended, unchanged, to the logical stream and removed from the connection, whose end stays the same; the projection of the session is kept |
| Reconnection.ReconnectingConnection.HandleEnd | krossbow-websocket-core/src/commonTest/kotlin/org/hildan/krossbow/websocket/reconnection/ReconnectingWebSocketClientTest.kt:59-137 | a normal end closes the logical stream with no further call; a failure runs the episode `Retry` gives: a new connection becomes current with one afterReconnect call, a "no" rethrows the latest error, exhaustion wraps it, and an unanswered call leaves the session reconnecting; the script and call count advance by the episode's retries, and the projection is kept |
| Reconnection.ReconnectingConnection.Run | krossbow-websocket-core/src/commonTest/kotlin/org/hildan/krossbow/websocket/reconnection/ReconnectingWebSocketClientTest.kt:46-242 | the forwarding loop ends with exactly the trace the projection promised when it started |
| Reconnection.OpenSession | krossbow-websocket-core/src/commonTest/kotlin/org/hildan/krossbow/websocket/reconnection/ReconnectingWebSocketClientTest.kt:15-44 | connecting and running the decorator produces `Session`'s result: suspended, the base error after one call, or the established trace |
| ReconnectionProperties.YieldedAppend | krossbow-websocket-core/src/commonTest/kotlin/org/hildan/krossbow/websocket/reconnection/ReconnectingWebSocketClientTest.kt:77-105 | the frames and connection counts of a script split over concatenation |
| ReconnectionProperties.RetryYields | krossbow-websocket-core/src/commonTest/kotlin/org/hildan/krossbow/websocket/reconnection/ReconnectingWebSocketClientTest.kt:139-178 | the answers an episode consumes are refusals, except the last one of a reconnecting episode, which is the answer that returned the new connection; only that connection contributes frames |
| ReconnectionProperties.AfterStreamYields | krossbow-websocket-core/src/commonTest/kotlin/org/hildan/krossbow/websocket/reconnection/ReconnectingWebSocketClientTest.kt:77-137 | the stream after a connection holds the frames of the connections returned afterwards, in order, with one reconnection per returned connection |
| ReconnectionProperties.SessionShowsYieldedFrames | krossbow-websocket-core/src/commonTest/kotlin/org/hildan/krossbow/websocket/reconnection/ReconnectingWebSocketClientTest.kt:77-137 | the logical stream is the concatenation of the returned connections' frames, in order and unchanged, and afterReconnect runs once per connection after the first |
| ReconnectionProperties.FirstConnectIsNotRetried | krossbow-websocket-core/src/commonTest/kotlin/org/hildan/krossbow/websocket/reconnection/ReconnectingWebSocketClientTest.kt:31-44 | a failed first connect surfaces the base client's own error, whatever comes after it |
| ReconnectionProperties.NormalCloseEndsStream | krossbow-websocket-core/src/commonTest/kotlin/org/hildan/krossbow/websocket/reconnection/ReconnectingWebSocketClientTest.kt:59-74 | a normal close is forwarded with its code and reason, nothing follows it, and no reconnection happens |
| ReconnectionProperties.ReconnectsAfterError | krossbow-websocket-core/src/commonTest/kotlin/org/hildan/krossbow/websocket/reconnection/ReconnectingWebSocketClientTest.kt:76-137 | after an error, one base call replaces the connection; its frames follow the old ones; afterReconnect runs once |
| ReconnectionProperties.RetryRecovers | krossbow-websocket-core/src/commonTest/kotlin/org/hildan/krossbow/websocket/reconnection/ReconnectingWebSocketClientTest.kt:76-137 | after k refused retries with reconnectWhen saying yes at each of the k + 1 checks and attempts to spare, the next returned connection ends the episode after exactly k + 1 answers |
| ReconnectionProperties.ReconnectsAfterRefusals | krossbow-websocket-core/src/commonTest/kotlin/org/hildan/krossbow/websocket/reconnection/ReconnectingWebSocketClientTest.kt:76-137 | after an error and k refused retries, the next returned connection takes over: its frames follow, k + 2 calls were made, and afterReconnect runs once |
| ReconnectionProperties.RetryExhausts | krossbow-websocket-core/src/commonTest/kotlin/org/hildan/krossbow/websocket/reconnection/ReconnectingWebSocketClientTest.kt:139-178 | with all answers refused and reconnectWhen always true, an episode makes exactly the remaining attempts and ends exhausted with the latest error |
| ReconnectionProperties.FailsAfterMaxAttempts | krossbow-websocket-core/src/commonTest/kotlin/org/hildan/krossbow/websocket/reconnection/ReconnectingWebSocketClientTest.kt:139-178 | maxAttempts refused retries end the stream with a reconnection exception caused by the last retry's error, after 1 + maxAttempts calls and no reconnection |
| ReconnectionProperties.RetryRejected | krossbow-websocket-core/src/commonTest/kotlin/org/hildan/krossbow/websocket/reconnection/ReconnectingWebSocketClientTest.kt:180-242 | reconnectWhen gets the latest error and the retries made so far; its first "no" ends the episode with that error after exactly those retries |
| ReconnectionProperties.FailsWhenPredicateRejects | krossbow-websocket-core/src/commonTest/kotlin/org/hildan/krossbow/websocket/reconnection/ReconnectingWebSocketClientTest.kt:180-208 | a "no" on the first evaluation makes no retry and surfaces the disconnect error, with no reconnection |
| ReconnectionProperties.EpisodesStartAfresh | krossbow-websocket-core/src/commonTest/kotlin/org/hildan/krossbow/websocket/reconnection/ReconnectingWebSocketClientTest.kt:76-137 | attempts are counted per episode: when every connection fails and every first retry succeeds, every connection is used, whatever maxAttempts is |
| ReconnectionProperties.ForwardsTestFrame | krossbow-websocket-core/src/commonTest/kotlin/org/hildan/krossbow/websocket/reconnection/ReconnectingWebSocketClientTest.kt:46-57 | the frame "test" on the base connection appears on the logical stream with identical text |
| ReconnectionProperties.ReconnectScenario | krossbow-websocket-core/src/commonTest/kotlin/org/hildan/krossbow/websocket/reconnection/ReconnectingWebSocketClientTest.kt:76-105 | "test1", an error, then "test2" from the second connection: two base calls and one reconnection |
| ReconnectionProperties.ExhaustionScenario | krossbow-websocket-core/src/commonTest/kotlin/org/hildan/krossbow/websocket/reconnection/ReconnectingWebSocketClientTest.kt:139-178 | with maxAttempts 5 and refusals "error 0" to "error 4", the stream fails with a reconnection exception caused by "error 4", and afterReconnect never runs |
| ReconnectionProperties.PredicateBecomesFalseScenario | krossbow-websocket-core/src/commonTest/kotlin/org/hildan/krossbow/websocket/reconnection/ReconnectingWebSocketClientTest.kt:210-242 | with `attempt < 2`, exactly two retries happen and "connection failure 2" surfaces |
| ReconnectionProperties.BelowTwoAttempts | krossbow-websocket-core/src/commonTest/kotlin/org/hildan/krossbow/websocket/reconnection/ReconnectingWebSocketClientTest.kt:216 | the test's predicate `{ _, attempt -> attempt < 2 }`; `PredicateBecomesFalseScenario` shows it allows exactly two retries |
| Autobahn.EchoFrame | krossbow-websocket-test/src/commonMain/kotlin/org/hildan/krossbow/websocket/test/autobahn/AutobahnClientTestSuite.kt:252-260 | exactly text and binary frames are sent, and the peer receives the same frame; exactly ping and pong are ignored; exactly a close frame throws, with the "should not receive CLOSE frame" error |
| Autobahn.Relevant | krossbow-websocket-test/src/commonMain/kotlin/org/hildan/krossbow/websocket/test/autobahn/AutobahnClientTestSuite.kt:292 | the filtered frames are exactly those that are neither ping nor pong |
| Autobahn.BeforeClose | krossbow-websocket-test/src/commonMain/kotlin/org/hildan/krossbow/websocket/test/autobahn/AutobahnClientTestSuite.kt:233 | `takeWhile` keeps the longest close-free prefix: a prefix with no close frame, followed by a close frame when it is not everything |
| Autobahn.Echoes | krossbow-websocket-test/src/commonMain/kotlin/org/hildan/krossbow/websocket/test/autobahn/AutobahnClientTestSuite.kt:232-236 | the sends echoing a frame list issues; `EchoesAppend` and `EchoesDeliverDataFrames` state that they follow the frames' order and give back exactly the data frames |
| Autobahn.UntilClosed | krossbow-websocket-test/src/commonMain/kotlin/org/hildan/krossbow/websocket/test/autobahn/AutobahnClientTestSuite.kt:232-236 | what `echoUntilClosed` does; `UntilClosedEchoesBeforeClose` and `UntilClosedConsumesClose` tie it to the `takeWhile` prefix |
| Autobahn.EchoN | krossbow-websocket-test/src/commonMain/kotlin/org/hildan/krossbow/websocket/test/autobahn/AutobahnClientTestSuite.kt:245-250 | `echoNFrames(n)` sends at most n frames |
| Autobahn.EchoesAppend | krossbow-websocket-test/src/commonMain/kotlin/org/hildan/krossbow/websocket/test/autobahn/AutobahnClientTestSuite.kt:232-236 | echoing a concatenation sends the echoes of each part, in order |
| Autobahn.BeforeCloseAppend | krossbow-websocket-test/src/commonMain/kotlin/org/hildan/krossbow/websocket/test/autobahn/AutobahnClientTestSuite.kt:233 | `takeWhile` lets a close-free prefix through whole, then continues on what follows |
| Autobahn.UntilClosedEchoesBeforeClose | krossbow-websocket-test/src/commonMain/kotlin/org/hildan/krossbow/websocket/test/autobahn/AutobahnClientTestSuite.kt:232-236 | `echoUntilClosed` sends the echoes of exactly the frames before the first close frame |
| Autobahn.UntilClosedConsumesClose | krossbow-websocket-test/src/commonMain/kotlin/org/hildan/krossbow/websocket/test/autobahn/AutobahnClientTestSuite.kt:232-236 | `echoUntilClosed` consumes the first close frame and finishes normally; without one it consumes everything and ends as the channel does: normally, with its error, or hanging |
| Autobahn.EchoesDeliverDataFrames | krossbow-websocket-test/src/commonMain/kotlin/org/hildan/krossbow/websocket/test/autobahn/AutobahnClientTestSuite.kt:252-260 | every send echoes a received frame; when all frames are text or binary, the peer gets back exactly those frames in order |
| Autobahn.EchoNEchoesExactlyN | krossbow-websocket-test/src/commonMain/kotlin/org/hildan/krossbow/websocket/test/autobahn/AutobahnClientTestSuite.kt:245-250 | on n frames without a close frame, `echoNFrames(n)` echoes exactly those n, in receipt order, leaves the rest unread and finishes |
| Autobahn.EchoNStopsAtClose | krossbow-websocket-test/src/commonMain/kotlin/org/hildan/krossbow/websocket/test/autobahn/AutobahnClientTestSuite.kt:245-260 | a close frame within the n frames aborts `echoNFrames` with the close error after echoing what came before it |
| Autobahn.EchoNRunsOut | krossbow-websocket-test/src/commonMain/kotlin/org/hildan/krossbow/websocket/test/autobahn/AutobahnClientTestSuite.kt:245-250 | on fewer than n frames and no close frame, `echoNFrames(n)` echoes them all, then the next receive throws "Channel was closed" after a normal end, the channel's error after a failure, or waits forever on an open channel |
| Autobahn.RelevantSingle | krossbow-websocket-test/src/commonMain/kotlin/org/hildan/krossbow/websocket/test/autobahn/AutobahnClientTestSuite.kt:292-294 | the filtered list has one frame exactly when exactly one frame is neither ping nor pong, and that frame is the one |
| Autobahn.RelevantEmpty | krossbow-websocket-test/src/commonMain/kotlin/org/hildan/krossbow/websocket/test/autobahn/AutobahnClientTestSuite.kt:292 | the filtered list is empty exactly when every frame is a ping or a pong |
| Autobahn.ServerClosed | krossbow-websocket-test/src/commonMain/kotlin/org/hildan/krossbow/websocket/test/autobahn/AutobahnClientTestSuite.kt:289-296 | `expectServerClosed`; characterized by `ServerClosedCharacterization` |
| Autobahn.ServerClosedCharacterization | krossbow-websocket-test/src/commonMain/kotlin/org/hildan/krossbow/websocket/test/autobahn/AutobahnClientTestSuite.kt:289-296 | the server-closed check accepts exactly the channels that end normally with one close frame among pings and pongs |
| Autobahn.TruncatedIsPrefix | krossbow-websocket-test/src/commonMain/kotlin/org/hildan/krossbow/websocket/test/autobahn/AutobahnClientTestSuite.kt:298-302 | a text frame keeps a prefix of its text of length min(length, size); other frames are unchanged |
| Autobahn.Truncated | krossbow-websocket-test/src/commonMain/kotlin/org/hildan/krossbow/websocket/test/autobahn/AutobahnClientTestSuite.kt:298-302 | `truncated(length)`; `TruncatedIsPrefix` and `TruncatedTwice` state its effect |
| Autobahn.TruncatedTwice | krossbow-websocket-test/src/commonMain/kotlin/org/hildan/krossbow/websocket/test/autobahn/AutobahnClientTestSuite.kt:298-302 | truncating twice truncates to the smaller length, and a long enough length changes nothing |
| Autobahn.EchoCaseVerdict | krossbow-websocket-test/src/commonMain/kotlin/org/hildan/krossbow/websocket/test/autobahn/AutobahnClientTestSuite.kt:204-236 | with a close frame the case passes exactly when the status is OK or NON-STRICT; without one a normal end is the same, a failed channel passes only when failure is expected, and a channel that stays open times out and fails |
| Autobahn.ConnectionFailureVerdict | krossbow-websocket-test/src/commonMain/kotlin/org/hildan/krossbow/websocket/test/autobahn/AutobahnClientTestSuite.kt:211-243 | an exception while connecting passes only a case that expects failure; a connection timeout fails every case |
| Autobahn.CasePasses | krossbow-websocket-test/src/commonMain/kotlin/org/hildan/krossbow/websocket/test/autobahn/AutobahnClientTestSuite.kt:204-229 | the case verdict; `EchoCaseVerdict` and `ConnectionFailureVerdict` state it for every way a case can end |
| Autobahn.Acceptable | krossbow-websocket-test/src/commonMain/kotlin/org/hildan/krossbow/websocket/test/autobahn/AutobahnClientTestSuite.kt:207-208 | the status check accepts exactly OK and NON-STRICT; `EchoCaseVerdict` and `ConnectionFailureVerdict` show every passing case goes through it |
| Autobahn.CaseRun | krossbow-websocket-test/src/commonMain/kotlin/org/hildan/krossbow/websocket/test/autobahn/AutobahnClientTestSuite.kt:211-229 | connect, then echo until closed; `EchoCaseVerdict` and `ConnectionFailureVerdict` state its outcomes |
| Autobahn.ClientForceClosed | krossbow-websocket-test/src/commonMain/kotlin/org/hildan/krossbow/websocket/test/autobahn/AutobahnClientTestSuite.kt:279-287 | `expectClientForceClosed`: reading the rest of the channel neither hangs nor fails; `ServerCloseCheckIsStronger` relates it to the server-closed check |
| Autobahn.ExactFrameCountPasses | krossbow-websocket-test/src/commonMain/kotlin/org/hildan/krossbow/websocket/test/autobahn/AutobahnClientTestSuite.kt:266-277 | `echoExactFrameCountAndExpectClosure`; `ExactFrameCountAccepts` and `ServerCloseCheckIsStronger` state when it passes |
| Autobahn.ServerCloseCheckIsStronger | krossbow-websocket-test/src/commonMain/kotlin/org/hildan/krossbow/websocket/test/autobahn/AutobahnClientTestSuite.kt:266-296 | an exact-count run that passes with the server-closed check also passes with the weaker client-force-closed check |
| Autobahn.ExactFrameCountAccepts | krossbow-websocket-test/src/commonMain/kotlin/org/hildan/krossbow/websocket/test/autobahn/AutobahnClientTestSuite.kt:266-277 | n close-free frames, then only a close frame among pings and pongs, then a normal end: the exact-count check passes, and exactly those n frames were echoed |
| Autobahn.EchoConnection.SendEcho | krossbow-websocket-test/src/commonMain/kotlin/org/hildan/krossbow/websocket/test/autobahn/AutobahnClientTestSuite.kt:252-260 | echoing a frame returns what `echoFrame` does with it and appends its echo, if it has one, to what was sent; a close frame sends nothing and is the error |
| Autobahn.EchoConnection.EchoUntilClosed | krossbow-websocket-test/src/commonMain/kotlin/org/hildan/krossbow/websocket/test/autobahn/AutobahnClientTestSuite.kt:232-236 | the receive loop sends, leaves unread and ends exactly as `UntilClosed` says |
| Autobahn.EchoConnection.EchoNFrames | krossbow-websocket-test/src/commonMain/kotlin/org/hildan/krossbow/websocket/test/autobahn/AutobahnClientTestSuite.kt:245-250 | the n receives send, leave unread and end exactly as `EchoN` says; a receive on a normally closed channel throws |
| SourceSets.ParentsIn | buildSrc/src/main/kotlin/SourceSets.kt:105-138 | a name's parents are exactly the declared parents whose child list holds it |
| SourceSets.Parents | buildSrc/src/main/kotlin/SourceSets.kt:105-138 | a reference's parents in the hierarchy, as `ParentsIn` states; `ParentsAreShallower` bounds them |
| SourceSets.ParentsAreShallower | buildSrc/src/main/kotlin/SourceSets.kt:105-138 | in a layered hierarchy every parent is shallower than its child and is a declared name |
| SourceSets.Ancestors | buildSrc/src/main/kotlin/SourceSets.kt:155-156 | `ancestors`; `AncestorsMembers`, `AncestorsAreShallower` and `AncestorsTransitive` characterize it |
| SourceSets.AncestorsVia | buildSrc/src/main/kotlin/SourceSets.kt:155-156 | the ancestors reached through a list of parents; characterized by `AncestorsViaMembers` |
| SourceSets.AncestorsViaMembers | buildSrc/src/main/kotlin/SourceSets.kt:155-156 | the ancestors through a list of parents are exactly those parents and each one's ancestors |
| SourceSets.IsDarwin | buildSrc/src/main/kotlin/SourceSets.kt:149-150 | the name is darwin |
| SourceSets.IsDarwinOrDescendant | buildSrc/src/main/kotlin/SourceSets.kt:152-153 | `isDarwinOrDarwinDescendant`; characterized by `DarwinOrDescendantMeans` |
| SourceSets.AnyDarwinOrDescendant | buildSrc/src/main/kotlin/SourceSets.kt:153 | `parents.any { it.isDarwinOrDarwinDescendant }`; characterized by `AnyDarwinOrDescendantMeans` |
| SourceSets.DarwinRelated | buildSrc/src/main/kotlin/SourceSets.kt:143-147 | `darwinRelatedSourceSetRefs`, none when no darwin is declared; characterized by `DarwinRelatedMembers` |
| SourceSets.IsWindows | buildSrc/src/main/kotlin/SourceSets.kt:158-159 | `isWindows`; characterized by `IsWindowsMeans` |
| SourceSets.AncestorsMembers | buildSrc/src/main/kotlin/SourceSets.kt:155-156 | `ancestors` holds exactly the parents and the ancestors of each parent |
| SourceSets.ParentsAreAncestors | buildSrc/src/main/kotlin/SourceSets.kt:155-156 | every parent is an ancestor |
| SourceSets.AncestorsAreShallower | buildSrc/src/main/kotlin/SourceSets.kt:155-156 | every ancestor is a declared name, strictly shallower, so no source set is its own ancestor |
| SourceSets.AncestorsTransitive | buildSrc/src/main/kotlin/SourceSets.kt:155-156 | an ancestor of an ancestor is an ancestor |
| SourceSets.AnyDarwinOrDescendantMeans | buildSrc/src/main/kotlin/SourceSets.kt:152-153 | some parent in a list is darwin or a darwin descendant exactly when darwin is among that list's parents and their ancestors |
| SourceSets.DarwinOrDescendantMeans | buildSrc/src/main/kotlin/SourceSets.kt:149-156 | `isDarwinOrDarwinDescendant` holds exactly for darwin and for the source sets that have darwin among their ancestors |
| SourceSets.DarwinRelatedMembers | buildSrc/src/main/kotlin/SourceSets.kt:143-147 | the Darwin-related selection holds exactly darwin, its descendants and its ancestors |
| SourceSets.DarwinAncestorsAreNotDescendants | buildSrc/src/main/kotlin/SourceSets.kt:146-147 | no ancestor of darwin is a darwin descendant, so the two parts of the selection do not overlap |
| SourceSets.IsWindowsMeans | buildSrc/src/main/kotlin/SourceSets.kt:158-159 | a name is a Windows one exactly when its first five characters are "mingw" |
| SourceSets.NativeHierarchyLayered | buildSrc/src/main/kotlin/SourceSets.kt:105-138 | the declared native hierarchy is acyclic: the depths put every parent above each of its children |
| SourceSets.NativeHierarchy | buildSrc/src/main/kotlin/SourceSets.kt:105-138 | the declared parent-to-children hierarchy; its shape is stated by the `Native...` lemmas |
| SourceSets.NativeHierarchyNames | buildSrc/src/main/kotlin/SourceSets.kt:105-138 | the declared hierarchy names exactly native, desktop, unix, nonDarwin, darwin, linuxX64, mingwX64 and darwin's nine platform children |
| SourceSets.NativeRootHasNoParents | buildSrc/src/main/kotlin/SourceSets.kt:105-138 | native has no parents |
| SourceSets.NativeParentOfUnix | buildSrc/src/main/kotlin/SourceSets.kt:105-121 | unix's only parent is native |
| SourceSets.NativeParentOfDarwin | buildSrc/src/main/kotlin/SourceSets.kt:118-136 | darwin's only parent is unix |
| SourceSets.NativeDarwinChildren | buildSrc/src/main/kotlin/SourceSets.kt:126-136 | each of the nine platform children lists darwin among its parents |
| SourceSets.NativeDarwinRelated | buildSrc/src/main/kotlin/SourceSets.kt:143-147 | the Darwin-related refs are darwin, its nine children, unix and native; desktop, nonDarwin, linuxX64 and mingwX64 are not among them |
| SourceSets.NativeWindows | buildSrc/src/main/kotlin/SourceSets.kt:140-159 | among the declared source sets only mingwX64 is a Windows one |
| SourceSets.RefsOf | buildSrc/src/main/kotlin/SourceSets.kt:105-138 | one reference per name, in order; its parents are exactly the declared parents whose child list holds the name; in an acyclic hierarchy each parent is a declared name shallower than its child |
| SourceSets.WithAppendedNames | buildSrc/src/main/kotlin/SourceSets.kt:83-84 | the suffix on every reference's name and every parent's name; what the suffixed references mention and declare is stated by `AppendedNamesMentions` and `AppendedNamesParents` |
| SourceSets.Wire | buildSrc/src/main/kotlin/SourceSets.kt:99-101 | wiring a source set's parents never removes a source set |
| SourceSets.SetupRef | buildSrc/src/main/kotlin/SourceSets.kt:97-101 | setting up a reference keeps every source set and leaves the reference's own source set present |
| SourceSets.Tree | buildSrc/src/main/kotlin/SourceSets.kt:94-103 | `setupSourceSetsTree` never removes a source set |
| SourceSets.WireAt | buildSrc/src/main/kotlin/SourceSets.kt:99-101 | after the inner loop the source set depends on everything it depended on plus each listed parent, each parent exists, and nothing else changes |
| SourceSets.SetupRefAt | buildSrc/src/main/kotlin/SourceSets.kt:95-101 | one reference: its source set is found or created, its parents' source sets are found or created and added to its dependencies, and nothing else changes |
| SourceSets.GetOrCreate | buildSrc/src/main/kotlin/SourceSets.kt:95 | `findByName(name) ?: create(name)`; its effect inside a tree is stated by `SetupRefAt` and `TreeAt` |
| SourceSets.AddDependency | buildSrc/src/main/kotlin/SourceSets.kt:100 | gets or creates the parent, then adds it to the child's dependencies; `WireAt` states the effect |
| SourceSets.MentionsSnoc | buildSrc/src/main/kotlin/SourceSets.kt:97 | the names the references mention grow by the last reference's name and parents |
| SourceSets.DeclaredParentsSnoc | buildSrc/src/main/kotlin/SourceSets.kt:97-101 | the parents declared for a name grow by the last reference's parents when it has that name |
| SourceSets.TreeAt | buildSrc/src/main/kotlin/SourceSets.kt:94-103 | afterwards exactly the existing source sets and the mentioned names exist; each existing source set is reused and keeps its dependencies; each gains every parent a reference of its name declares, and nothing more |
| SourceSets.MainAndTestNamesDiffer | buildSrc/src/main/kotlin/SourceSets.kt:86-90 | `native<flavor>Main` and `native<flavor>Test` are different source sets for every flavor |
| SourceSets.AppendedNamesMentions | buildSrc/src/main/kotlin/SourceSets.kt:83-84 | the suffixed references mention a name exactly when it is a name the base references mention, with the suffix |
| SourceSets.AppendedNamesParents | buildSrc/src/main/kotlin/SourceSets.kt:83-84 | the parents declared for a suffixed name are exactly the suffixed parents declared for the base name |
| SourceSets.AppendedTreeAt | buildSrc/src/main/kotlin/SourceSets.kt:83-84 | after setting up the suffixed tree, a suffixed source set exists exactly when it existed or its base name is mentioned, and it depends on what it did plus the suffixed parents declared for its base name |
| SourceSets.MainAndTestWiring | buildSrc/src/main/kotlin/SourceSets.kt:76-92 | with commonMain and commonTest present and native among the references, setup succeeds: `native<flavor>Main` depends on commonMain and `native<flavor>Test` on commonTest |
| SourceSets.MainAndTestSetup | buildSrc/src/main/kotlin/SourceSets.kt:76-92 | `setupMainAndTestSourceSets`, the failed lookup included; `MainAndTestWiring` states when it succeeds |
| SourceSets.RefsSetupSucceeds | buildSrc/src/main/kotlin/SourceSets.kt:76-92 | any references built from a name list holding native set up without a missing source set, with both common dependencies wired |
| SourceSets.TargetsSetupSucceeds | buildSrc/src/main/kotlin/SourceSets.kt:44-74 | the reference lists of `nativeTargets` and `darwinTargets` both hold native, so their setup succeeds when commonMain and commonTest exist |
| SourceSets.SourceSetContainer.GetOrCreateSourceSet | buildSrc/src/main/kotlin/SourceSets.kt:95 | an existing source set is found unchanged, otherwise one is created with no dependencies |
| SourceSets.SourceSetContainer.DependsOn | buildSrc/src/main/kotlin/SourceSets.kt:100 | the child source set gains the parent as a dependency and nothing else changes |
| SourceSets.SourceSetContainer.SetupSourceSetsTree | buildSrc/src/main/kotlin/SourceSets.kt:94-103 | the nested loops leave the container exactly as `Tree` says (characterized by `TreeAt`) |
| SourceSets.SourceSetContainer.SetupMainAndTestSourceSets | buildSrc/src/main/kotlin/SourceSets.kt:76-92 | a missing commonMain or commonTest fails before any change; otherwise both trees are set up, and a missing `native<flavor>Main` or `native<flavor>Test` fails after the trees exist; the result is `MainAndTestSetup`'s |

## Left out

- The delay strategy and the waits between retries are left out. Durations and time are not modelled.
  Which attempt number the strategy receives is not fixed by the tests.
- The default `maxAttempts` is not shown. `ReconnectionProperties.PredicateBecomesFalseScenario`
  requires at least 3, which the test's expectation implies.
- Coroutines, dispatchers, `advanceUntilIdle` and cancellation are left out. The decorator is run
  to quiescence: it stops when the script runs out or a connection's channel stays open.
- The caller closing the logical session, and sends through it, are not exercised by the tests (the
  not-connected error included).
- The close code of a forwarded close frame is not examined. Reconnection is triggered by the base
  channel failing; deciding whether an abnormal close counts as a failure is the adapter's concern.
  `Jdk11WebSocketClient.kt` is not part of this model.
- The build scripts, the JavaScript test and the Gradle target declarations (`jsTargets`,
  `ios(...)`, `linuxX64(...)` and the others) configure tools; they are left out.
- `linuxPrefix` is declared but unused.
- `darwinRelatedSourceSetRefs` is a list: the model gives its members as a set. The lemmas show that
  no member appears in both parts. The creation order of source sets is not observable in the model.
- The Autobahn server, the reports it writes and its case list are I/O. The status of a case is a
  parameter, and a timeout is the `Hangs` outcome rather than a clock.
- `Autobahn.EchoN`: its own contract gives only the bound on sends. Its exact behaviour is proved in
  `EchoNEchoesExactlyN` (n frames without a close), `EchoNStopsAtClose` (a close frame within the
  n) and `EchoNRunsOut` (fewer than n frames and no close).
- `Autobahn.EchoCaseVerdict`: sends are assumed to succeed. In the source, `sendText` and
  `sendBinary` are network calls that can throw; the case's catch blocks would then pass it only
  when a failure is expected. A failed send is not modelled, so the verdict for a channel with a
  close frame depends only on the status.
- `Autobahn.Truncated`: lengths count Unicode characters, while Kotlin's `take` counts UTF-16 code
  units. On a text whose cut falls inside a surrogate pair, the source keeps a lone high surrogate
  and the model keeps the whole character. Only the diagnostic message of the server-closed check
  uses it.
- `SourceSets.Ancestors`, `SourceSets.IsDarwinOrDescendant` and the other hierarchy functions need
  an acyclic hierarchy (`Layered`). Without one the source's recursion would not terminate.
