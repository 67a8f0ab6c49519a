# fastdds-minimal-sample in Dafny

This project models the two programs of the FastDDS minimal publish/subscribe
sample: the image publisher (`src/minimal_publisher.cpp`) and the subscriber
that counts what it receives (`src/minimal_subscriber.cpp`).

- `dds.dfy` (module `Dds`) holds what both programs share:
  - the `Minimal` sample, which is a sequence index plus image bytes;
  - middleware handles (`Ptr`), the four handles an endpoint owns (`Handles`);
  - the trace of calls the programs make into the middleware (`Call`), with
    three views of a trace: written indices, deleted handles, attempted
    creations.
- `minimal_publisher.dfy` (module `MinimalPublisherModel`) holds:
  - the `PubListener` class and its match value `matched_`;
  - the `MinimalPublisher` class with `Init`, `Publish`, `Run` and the
    destructor (`Destroy`);
  - `PublisherProcess`, the flow of `main`.
- `minimal_subscriber.dfy` (module `MinimalSubscriberModel`) holds:
  - the `SubListener` class, with its stored sample `minimal_` and its
    counter `samples_`;
  - the `MinimalSubscriber` class with `Init`, `Run` and `Destroy`;
  - `SubscriberProcess`, the flow of `main`.

How the middleware is modelled:

- The middleware is outside the model. A creation call's result is an input:
  the `Handles` value `o` gives, in creation order, what the four creation
  calls would return.
- Every creation, type registration, write and deletion the programs make
  is appended to a `calls` trace field. Two other middleware calls are not
  recorded. The outcome of `take_next_sample` is an input: the `Take` value
  of a `DataAvailable` event. `DomainParticipantFactory::get_instance()`
  only reaches the factory that the participant creation and deletion
  stand for.
- Both `run` loops depend on callbacks the middleware delivers on other
  threads. Each loop therefore takes a finite sequence of events. Each event
  is either one callback or one pass of the loop body.
- The two `Run` methods are specified against value-level functions of the
  events (`AfterEvents`, `SentCount`, `ValidCount`, `Stored`). `Init` and
  `Destroy` are specified against the handles and calls they produce
  (`InitHandles`, the `*InitCalls` functions, the `*Releases` functions).
  The listener callbacks state their field updates directly. The lemmas
  prove what the programs promise about those functions.

Three behaviours of the code are worth knowing, and the model follows the
code in each:

- Match tracking. The publisher's listener does not count current matches.
  A tracker of current matches would add one on a match and subtract one,
  clamped at zero, on an unmatch. The code instead stores the status's
  cumulative `total_count` on both a +1 and a -1 change. An unmatch never
  lowers that count, so after the first match the publisher stays "matched"
  for good. `GateStaysOpenAfterUnmatch` shows that a match followed by an
  unmatch leaves the gate open.
- Release order. The publisher's destructor releases the handles in the
  reverse of their creation order (`TeardownReversesCreation`). The
  subscriber's destructor deletes the topic before the subscriber. It still
  deletes every created handle exactly once (`TeardownReleasesCreated`), but
  not in reverse order (`TeardownIsNotReverseCreation`).
- No latency log. These two files take no capture timestamps, keep no
  latency log, and select no transport or QoS beyond the participant name.
  The message carries only an index and image bytes.

Each state-changing method has a value-level twin that its loop or caller
reasons with:
- `MatchedUpdate` is the twin of `OnPublicationMatched`;
- `PublishStep` is the twin of `Publish`;
- `Step` is one event of the publisher's `Run`;
- `PublisherReleases`/`SubscriberReleases` are the call sequences the two
  `Destroy` methods append.

The methods' direct `ensures` clauses state the behaviour. The twins carry
no row of their own: the lemmas in the table are stated over them.

## Model

| member | source | states |
|---|---|---|
| MinimalPublisherModel.PubListener.constructor | src/minimal_publisher.cpp:32-35 | the match value starts at 0 |
| MinimalPublisherModel.PubListener.OnPublicationMatched | src/minimal_publisher.cpp:41-60 | a +1 or a -1 change stores the status's total count; any other change leaves the match value unchanged |
| MinimalPublisherModel.MinimalPublisher.constructor | src/minimal_publisher.cpp:67-74 | all four handles start null, the sample is default and no call has been made |
| MinimalPublisherModel.MinimalPublisher.Init | src/minimal_publisher.cpp:94-136 | resets the index to 0; creates participant (after which it registers the type), topic, publisher and writer, each stored in its field; stops right after the first null result; succeeds exactly when all four are non-null |
| MinimalPublisherModel.MinimalPublisher.Publish | src/minimal_publisher.cpp:139-165 | an unopened file returns false and changes nothing; an opened one replaces the image bytes with the file's contents; then only when the match value is positive the index advances by one, the sample is written and the result is true |
| MinimalPublisherModel.MinimalPublisher.Run | src/minimal_publisher.cpp:168-183 | counts the successful publishes and stops as soon as the count reaches the target; the count never exceeds the target and it falls short only when the events run out; the index advances by exactly the number sent; the final state is that of the consumed events applied in order |
| MinimalPublisherModel.MinimalPublisher.Destroy | src/minimal_publisher.cpp:76-91 | deletes writer, publisher and topic, each only when set and in that order, then deletes the participant unconditionally |
| MinimalPublisherModel.MatchedWithoutNotice | src/minimal_publisher.cpp:41-60 | events with no +1/-1 status leave the match value as it was |
| MinimalPublisherModel.MatchedFollowsLatestNotice | src/minimal_publisher.cpp:45-54 | after a +1/-1 status with none later, the match value is that status's total count, whatever the sign of the change |
| MinimalPublisherModel.IndexAdvancesBySends | src/minimal_publisher.cpp:158-161 | over any events the index grows by exactly the number of successful publishes, and the writer is unchanged |
| MinimalPublisherModel.StepViews | src/minimal_publisher.cpp:139-165 | one callback or one publish adds at most one write, of the incremented index, and only when the publish succeeds; it never creates or deletes anything |
| MinimalPublisherModel.WritesAreConsecutive | src/minimal_publisher.cpp:158-163 | over any events, the written samples carry the consecutive indices that follow the initial one, one per successful publish |
| MinimalPublisherModel.PublishingTouchesNoHandles | src/minimal_publisher.cpp:139-183 | over any events, publishing and status changes neither create nor delete any handle |
| MinimalPublisherModel.UnmatchedPublisherSendsNothing | src/minimal_publisher.cpp:158-164 | if the match value starts at or below 0 and no status carries a positive total, nothing is sent, no call is made and the index stays put |
| MinimalPublisherModel.GateStaysOpenAfterUnmatch | src/minimal_publisher.cpp:45-54 | a +1 then a -1 status with a positive total leaves the match value at that total, so the next opened payload is sent |
| MinimalPublisherModel.InitCreatesInFixedOrder | src/minimal_publisher.cpp:99-134 | the creations come in the order participant, topic, publisher, writer, and none is attempted after the first null result; init writes and deletes nothing |
| MinimalPublisherModel.ReleasesNeverThroughNull | src/minimal_publisher.cpp:76-91 | on live handles, every release is a deletion whose parent is non-null (the participant's comes from the factory) |
| MinimalPublisherModel.ReleasedHandles | src/minimal_publisher.cpp:78-90 | the destructor deletes the writer, publisher and topic that are set, in that order, then the participant; it writes and creates nothing |
| MinimalPublisherModel.FreshTeardownDeletes | src/minimal_publisher.cpp:76-136 | after an init from null handles, the deletions are, case by case on the first failed creation: the participant (null or not) when the participant or topic failed; topic then participant; publisher, topic, participant; or writer, publisher, topic, participant |
| MinimalPublisherModel.TeardownReversesCreation | src/minimal_publisher.cpp:76-136 | after an init from null handles, the destructor deletes exactly the created handles in the reverse of their creation order; only the null participant is deleted when no creation succeeded |
| MinimalPublisherModel.RunAfterInit | src/minimal_publisher.cpp:96 | from any state whose index is 0 (as init leaves it) and whose trace holds no write or deletion, a run writes the indices 1, 2, ... in order and makes no creation or deletion |
| MinimalPublisherModel.ProcessTrace | src/minimal_publisher.cpp:186-199 | a trace made of init from null handles, any run and the destructor holds, in order, the writes 1 .. sent, the creations in the fixed order, and the deletions of the created handles in reverse order |
| MinimalPublisherModel.SentCountPrefix | src/minimal_publisher.cpp:173-178 | a prefix of the events counts no more successful publishes than all of them |
| MinimalPublisherModel.PublisherProcess | src/minimal_publisher.cpp:186-199 | `main`: run only after a successful init, and destroy always; sends at most the target, and nothing when init failed; after a successful init it sends the target, or every successful publish there was when the events ran out, and never more than the events' successful publishes; indices 1 .. sent are written; creations come in the fixed order; the created handles are deleted in reverse order |
| MinimalSubscriberModel.SubListener.constructor | src/minimal_subscriber.cpp:36-39 | the counter starts at 0 and the stored sample is default |
| MinimalSubscriberModel.SubListener.OnSubscriptionMatched | src/minimal_subscriber.cpp:45-62 | for every count change, changes neither the counter nor the stored sample |
| MinimalSubscriberModel.SubListener.OnDataAvailable | src/minimal_subscriber.cpp:64-84 | a take returning OK overwrites the stored sample; the counter grows by one only when that take also has valid data; a failed take changes nothing |
| MinimalSubscriberModel.MinimalSubscriber.constructor | src/minimal_subscriber.cpp:88-95 | all four handles start null and no call has been made |
| MinimalSubscriberModel.MinimalSubscriber.Init | src/minimal_subscriber.cpp:115-155 | creates participant (after which it registers the type), topic, subscriber and reader, each stored in its field; stops right after the first null result; succeeds exactly when all four are non-null |
| MinimalSubscriberModel.MinimalSubscriber.Run | src/minimal_subscriber.cpp:158-165 | returns at once when the counter already meets the target; otherwise consumes callbacks until the counter reaches the target or they run out; the counter grows by the valid takes consumed, and the stored sample is that of the latest successful take |
| MinimalSubscriberModel.MinimalSubscriber.Destroy | src/minimal_subscriber.cpp:97-112 | deletes reader, topic and subscriber, each only when set and in that order, then deletes the participant unconditionally |
| MinimalSubscriberModel.ValidCountAppend | src/minimal_subscriber.cpp:68-72 | the count over two consecutive stretches of callbacks is the sum of their counts |
| MinimalSubscriberModel.NothingCountedIffNoValidSample | src/minimal_subscriber.cpp:68-72 | the count is zero if and only if no callback took a valid sample |
| MinimalSubscriberModel.ValidCountAtMostCallbacks | src/minimal_subscriber.cpp:64-84 | the count never exceeds the number of callbacks, and equals it exactly when every callback took a valid sample |
| MinimalSubscriberModel.StoredIsLatestTaken | src/minimal_subscriber.cpp:68 | the stored sample is the one of the latest successful take, valid or not |
| MinimalSubscriberModel.StoredWithoutTake | src/minimal_subscriber.cpp:68 | without a successful take the stored sample keeps its initial value |
| MinimalSubscriberModel.MatchCallbacksChangeNothing | src/minimal_subscriber.cpp:45-62 | one more match callback leaves both the count and the stored sample as they were |
| MinimalSubscriberModel.InvalidTakeOverwritesWithoutCounting | src/minimal_subscriber.cpp:68-72 | a successful take without valid data replaces the stored sample but is not counted |
| MinimalSubscriberModel.InitCreatesInFixedOrder | src/minimal_subscriber.cpp:117-152 | the creations come in the order participant, topic, subscriber, reader, and none is attempted after the first null result; init writes and deletes nothing |
| MinimalSubscriberModel.ReleasesNeverThroughNull | src/minimal_subscriber.cpp:97-112 | on live handles, every release is a deletion whose parent is non-null (the participant's comes from the factory) |
| MinimalSubscriberModel.ReleasedHandles | src/minimal_subscriber.cpp:99-111 | the destructor deletes the reader, topic and subscriber that are set, in that order, then the participant; it writes and creates nothing |
| MinimalSubscriberModel.FreshTeardownDeletes | src/minimal_subscriber.cpp:97-155 | after an init from null handles, the deletions are, case by case on the first failed creation: the null participant; the participant; topic then participant; topic, subscriber, participant; or reader, topic, subscriber, participant |
| MinimalSubscriberModel.TeardownReleasesCreated | src/minimal_subscriber.cpp:97-155 | after an init from null handles, the destructor deletes exactly the created handles, each once (as multisets); only the null participant is deleted when no creation succeeded |
| MinimalSubscriberModel.TeardownIsNotReverseCreation | src/minimal_subscriber.cpp:103-110 | for every init in which all four creations succeed with distinct topic and subscriber handles, the deletions put the topic before the subscriber and so differ from the reverse of the creation order |
| MinimalSubscriberModel.ProcessTrace | src/minimal_subscriber.cpp:169-178 | a trace made of init from null handles and the destructor holds no write, the creations in the fixed order, and deletions of exactly the created handles |
| MinimalSubscriberModel.WaitEndCount | src/minimal_subscriber.cpp:158-165 | when the wait ends, the count is at most that of all callbacks, and equals it unless the target was reached first |
| MinimalSubscriberModel.SubscriberProcess | src/minimal_subscriber.cpp:169-178 | `main`: wait only after a successful init, and destroy always; received nothing when init failed; otherwise the target was reached or every callback was consumed; never more than the valid takes; creations come in the fixed order and every created handle is deleted once |
| Dds.CreatedCountsLeadingResults | src/minimal_publisher.cpp:99-134 | the number of successful creations counts the non-null results before the first null one, in the order participant, topic, group, endpoint |
| Dds.HeldIsCreatedPrefix | src/minimal_publisher.cpp:99-134 | the handles stored by an init are the successful creations in order, or only the null participant when that first creation failed |
| Dds.FreshInitIsLive | src/minimal_publisher.cpp:94-136 | an init from null handles leaves no handle set while the handle it is reached through is null |
| Dds.FreshInitStoresCreatedPrefix | src/minimal_subscriber.cpp:115-155 | an init from null handles stores exactly the results up to the first null one and leaves the others null |
| Dds.InitCreatesInFixedOrder | src/minimal_subscriber.cpp:117-152 | the init trace of either program attempts participant, topic, group and endpoint creation in that order and no creation after the first null result; it writes and deletes nothing |

## Left out

- The FastDDS middleware is not modelled. This covers participant factories,
  discovery, matching, QoS, transports, serialization and the
  `MinimalPubSubType` type support. Creation results and callbacks are
  inputs, and calls into the middleware are recorded in a trace.
- The topic creation records only its topic name. Its type-name argument
  `"Minimal"` is not recorded; the type name enters the trace only through
  the type registration. The QoS arguments, the listener pointers and the
  topic passed to `create_datawriter`/`create_datareader` are not recorded
  either.
- The domain id 0 and the participant QoS other than its name are not
  recorded.
- Reading `./img.png` is not modelled. Only its outcome is an input
  (`PayloadFile`): not opened, or opened with these bytes. A read that
  yields fewer bytes than `tellg` reported is not modelled.
- Console output, the one-second sleep in the publisher's loop and the busy
  wait in the subscriber's loop are left out, because they change no state.
- Concurrency is left out. The listeners run on middleware threads, and
  `std::atomic_int` makes each single update atomic. The model puts those
  callbacks in one sequence, interleaved with the loop's passes.
- MinimalPublisherModel.MinimalPublisher.Run: a loop that never ends is not
  modelled. It waits forever when no subscriber ever matches. The model stops
  when its finite event sequence runs out.
- MinimalSubscriberModel.MinimalSubscriber.Run: same as the publisher's
  `Run`. It stops when its events run out instead of spinning forever.
- MinimalPublisherModel.PublisherProcess: the constant 15 samples of `main`
  is a parameter. The same holds for `MinimalSubscriberModel.SubscriberProcess`.
- Integer widths are not modelled, because in the sample they cannot wrap
  for the 15 samples of `main`:
  - the `atomic_int` counters (`matched_`, `samples_`) are `int` and `nat`,
    with no wrap at 2^31;
  - the `uint32_t` sample targets are `nat`;
  - the sample's `index` is `nat`, because the IDL type definition is not
    part of this model.
- MinimalPublisherModel.MinimalPublisher.Publish: requires a non-null
  writer. The source only reaches `publish` after a successful init; through
  a null writer the write would be undefined behaviour.
- MinimalPublisherModel.MinimalPublisher.Run: requires a non-null writer,
  for the same reason as `Publish`.
- MinimalPublisherModel.MinimalPublisher.Destroy: requires live handles.
  Otherwise a release would call through a null parent, which is undefined
  behaviour. `Dds.FreshInitIsLive` proves that every init from a freshly
  constructed object leaves live handles. The same holds for
  `MinimalSubscriberModel.MinimalSubscriber.Destroy`.
- The publisher's `main` deletes the heap object, while the subscriber's
  object is destroyed at the end of its scope. Both become a `Destroy` call
  at the end of the process method.
- The commented-out saving of received images in `on_data_available` is not
  modelled, because it is dead code.
