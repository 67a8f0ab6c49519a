/** The publisher sample: a listener that tracks matches, a publish step
    that loads a payload file and writes it while matched, a run loop that
    counts successful publishes, and the init/teardown of the four handles. */
module MinimalPublisherModel {
  import opened Dds

  const PARTICIPANT_NAME := "Participant_pub"

  /** The two fields of a publication-matched status that the sample reads. */
  datatype PublicationMatchedStatus = PublicationMatchedStatus(totalCount: int, currentCountChange: int)

  /** The outcome of opening the payload file: not opened, or opened with
      these bytes (its size is the length). */
  datatype PayloadFile = Unopened | Opened(contents: seq<byte>)

  /** What can happen between two checks of the run loop's guard: a match
      callback delivered by the middleware, or one pass of the loop body. */
  datatype PubEvent = Notify(info: PublicationMatchedStatus) | Attempt(file: PayloadFile)

  /** The publisher's observable state: the listener's match value, the
      sample, the writer handle and the calls made so far. */
  datatype PubState = PubState(matched: int, sample: Minimal, writer: Ptr, calls: seq<Call>)

  /** A status whose current count change is +1 or -1; any other change is
      only reported as invalid. */
  predicate IsCountChange(info: PublicationMatchedStatus) {
    info.currentCountChange == 1 || info.currentCountChange == -1
  }

  /** An event that makes the listener store a new match value. */
  predicate IsNotice(e: PubEvent) {
    e.Notify? && IsCountChange(e.info)
  }

  /** The listener's reaction to a status: the cumulative total count is
      stored on +1 and on -1 alike. */
  function MatchedUpdate(matched: int, info: PublicationMatchedStatus): int {
    if IsCountChange(info) then info.totalCount else matched
  }

  /** One publish: the new state and whether a sample was sent. */
  function PublishStep(s: PubState, file: PayloadFile): (PubState, bool) {
    match file
    case Unopened => (s, false)
    case Opened(bytes) =>
      var loaded := s.sample.(imgData := bytes);
      if s.matched > 0 then
        var next := loaded.(index := loaded.index + 1);
        (s.(sample := next, calls := s.calls + [Write(s.writer, next)]), true)
      else
        (s.(sample := loaded), false)
  }

  function Step(s: PubState, e: PubEvent): (PubState, bool) {
    match e
    case Notify(info) => (s.(matched := MatchedUpdate(s.matched, info)), false)
    case Attempt(file) => PublishStep(s, file)
  }

  /** The state after the events, in order. */
  function AfterEvents(s: PubState, events: seq<PubEvent>): PubState {
    if events == [] then s
    else Step(AfterEvents(s, events[..|events| - 1]), events[|events| - 1]).0
  }

  /** How many of the events were successful publishes. */
  function SentCount(s: PubState, events: seq<PubEvent>): nat {
    if events == [] then 0
    else
      var before := events[..|events| - 1];
      SentCount(s, before) + if Step(AfterEvents(s, before), events[|events| - 1]).1 then 1 else 0
  }

  /** The calls an init makes when the four creation calls would return o:
      it stops right after the first creation that yields null. */
  function PublisherInitCalls(o: Handles): seq<Call> {
    InitCalls(o, PARTICIPANT_NAME, PublisherKind, DataWriterKind)
  }

  /** The calls the destructor makes: writer, publisher and topic when set,
      then the participant whatever its value. */
  function PublisherReleases(h: Handles): seq<Call> {
    DeleteIfSet(DataWriterKind, h.group, h.endpoint)
    + DeleteIfSet(PublisherKind, h.participant, h.group)
    + DeleteIfSet(TopicKind, h.participant, h.topic)
    + [Delete(ParticipantKind, Null, h.participant)]
  }

  class PubListener {
    var matched: int

    constructor ()
      ensures matched == 0
    {
      matched := 0;
    }

    method OnPublicationMatched(info: PublicationMatchedStatus)
      modifies this
      ensures info.currentCountChange == 1 ==> matched == info.totalCount
      ensures info.currentCountChange == -1 ==> matched == info.totalCount
      ensures !IsCountChange(info) ==> matched == old(matched)
      ensures matched == MatchedUpdate(old(matched), info)
    {
      if info.currentCountChange == 1 {
        matched := info.totalCount;
      } else if info.currentCountChange == -1 {
        matched := info.totalCount;
      }
      // any other change is only reported on the console
    }
  }

  class MinimalPublisher {
    var minimal: Minimal
    var participant: Ptr
    var publisher: Ptr
    var topic: Ptr
    var writer: Ptr
    const listener: PubListener
    /** The calls made into the middleware so far. */
    var calls: seq<Call>

    ghost function Handles(): Handles
      reads this
    {
      Dds.Handles(participant, topic, publisher, writer)
    }

    ghost function State(): PubState
      reads this, listener
    {
      PubState(listener.matched, minimal, writer, calls)
    }

    constructor ()
      ensures Handles() == NULL_HANDLES && minimal == DEFAULT_MINIMAL && calls == []
      ensures fresh(listener) && listener.matched == 0
    {
      minimal := DEFAULT_MINIMAL;
      participant, publisher, topic, writer := Null, Null, Null, Null;
      listener := new PubListener();
      calls := [];
    }

    /** Resets the index and creates participant, topic, publisher and
        writer in that order, giving up at the first null result. */
    method Init(o: Handles) returns (ok: bool)
      modifies this
      ensures ok <==> Created(o) == 4
      ensures minimal == old(minimal).(index := 0)
      ensures Handles() == InitHandles(old(Handles()), o)
      ensures calls == old(calls) + PublisherInitCalls(o)
    {
      minimal := minimal.(index := 0);
      participant := o.participant;
      ghost var start := calls;
      ghost var rest := AfterParticipant(o, PublisherKind, DataWriterKind);
      assert PublisherInitCalls(o) == [Create(ParticipantKind, Null, PARTICIPANT_NAME, participant)] + rest;
      calls := calls + [Create(ParticipantKind, Null, PARTICIPANT_NAME, participant)];
      if participant == Null {
        return false;
      }
      calls := calls + [RegisterType(participant, TYPE_NAME)];
      topic := o.topic;
      calls := calls + [Create(TopicKind, participant, TOPIC_NAME, topic)];
      assert start + PublisherInitCalls(o) == calls + AfterTopic(o, PublisherKind, DataWriterKind);
      if topic == Null {
        return false;
      }
      publisher := o.group;
      calls := calls + [Create(PublisherKind, participant, "", publisher)];
      assert start + PublisherInitCalls(o) == calls + AfterGroup(o, DataWriterKind);
      if publisher == Null {
        return false;
      }
      writer := o.endpoint;
      calls := calls + [Create(DataWriterKind, publisher, "", writer)];
      if writer == Null {
        return false;
      }
      return true;
    }

    /** Loads the payload file into the sample and, while matched, advances
        the index and writes the sample. */
    method Publish(file: PayloadFile) returns (sent: bool)
      requires writer != Null
      modifies this`minimal, this`calls
      ensures sent <==> file.Opened? && listener.matched > 0
      ensures minimal.imgData == if file.Opened? then file.contents else old(minimal.imgData)
      ensures minimal.index == if sent then old(minimal.index) + 1 else old(minimal.index)
      ensures calls == if sent then old(calls) + [Write(writer, minimal)] else old(calls)
      ensures (State(), sent) == PublishStep(old(State()), file)
    {
      if file.Unopened? {
        return false;
      }
      minimal := minimal.(imgData := file.contents);
      if listener.matched > 0 {
        minimal := minimal.(index := minimal.index + 1);
        calls := calls + [Write(writer, minimal)];
        return true;
      }
      return false;
    }

    /** Publishes until samples publishes have succeeded. Since the events
        come from outside, the model also stops when they run out. */
    method Run(samples: nat, events: seq<PubEvent>) returns (samplesSent: nat, consumed: nat)
      requires writer != Null
      modifies this, listener
      ensures consumed <= |events|
      ensures samplesSent == SentCount(old(State()), events[..consumed])
      ensures State() == AfterEvents(old(State()), events[..consumed])
      ensures samplesSent <= samples
      ensures samplesSent < samples ==> consumed == |events|
      ensures consumed > 0 ==> SentCount(old(State()), events[..consumed - 1]) < samples
      ensures minimal.index == old(minimal.index) + samplesSent
      ensures Handles() == old(Handles())
    {
      samplesSent, consumed := 0, 0;
      while samplesSent < samples && consumed < |events|
        invariant consumed <= |events|
        invariant samplesSent == SentCount(old(State()), events[..consumed])
        invariant State() == AfterEvents(old(State()), events[..consumed])
        invariant samplesSent <= samples
        invariant consumed > 0 ==> SentCount(old(State()), events[..consumed - 1]) < samples
        invariant Handles() == old(Handles())
        decreases |events| - consumed
      {
        assert events[..consumed + 1][..consumed] == events[..consumed];
        match events[consumed] {
          case Notify(info) =>
            listener.OnPublicationMatched(info);
          case Attempt(file) =>
            var ok := Publish(file);
            if ok {
              samplesSent := samplesSent + 1;
            }
        }
        consumed := consumed + 1;
      }
      IndexAdvancesBySends(old(State()), events[..consumed]);
    }

    /** The destructor: releases the set handles children first. */
    method Destroy()
      requires Handles().Live()
      modifies this`calls
      ensures calls == old(calls) + PublisherReleases(Handles())
    {
      if writer != Null {
        calls := calls + [Delete(DataWriterKind, publisher, writer)];
      }
      if publisher != Null {
        calls := calls + [Delete(PublisherKind, participant, publisher)];
      }
      if topic != Null {
        calls := calls + [Delete(TopicKind, participant, topic)];
      }
      calls := calls + [Delete(ParticipantKind, Null, participant)];
    }
  }


  /** Without a +1/-1 status among the events the match value is unchanged. */
  lemma {:induction false} MatchedWithoutNotice(s: PubState, events: seq<PubEvent>)
    requires forall i :: 0 <= i < |events| ==> !IsNotice(events[i])
    ensures AfterEvents(s, events).matched == s.matched
  {
    if events != [] {
      var before := events[..|events| - 1];
      assert forall i :: 0 <= i < |before| ==> before[i] == events[i];
      MatchedWithoutNotice(s, before);
    }
  }

  /** After a +1/-1 status and no later one, the match value is that
      status's total count, whatever the sign of the change. */
  lemma {:induction false} MatchedFollowsLatestNotice(s: PubState, events: seq<PubEvent>, j: nat)
    requires j < |events| && IsNotice(events[j])
    requires forall i :: j < i < |events| ==> !IsNotice(events[i])
    ensures AfterEvents(s, events).matched == events[j].info.totalCount
  {
    var n := |events| - 1;
    var before := events[..n];
    if j < n {
      assert forall i :: j < i < |before| ==> before[i] == events[i];
      MatchedFollowsLatestNotice(s, before, j);
    }
  }

  /** Each successful publish advances the index by exactly one, and
      nothing changes the writer. */
  lemma {:induction false} IndexAdvancesBySends(s: PubState, events: seq<PubEvent>)
    ensures AfterEvents(s, events).sample.index == s.sample.index + SentCount(s, events)
    ensures AfterEvents(s, events).writer == s.writer
  {
    if events != [] {
      IndexAdvancesBySends(s, events[..|events| - 1]);
    }
  }

  /** One event adds to the trace at most one write, of the incremented
      index, and never a creation or a deletion. */
  lemma StepViews(m: PubState, e: PubEvent)
    ensures Step(m, e).1 ==> Written(Step(m, e).0.calls) == Written(m.calls) + [m.sample.index + 1]
    ensures !Step(m, e).1 ==> Written(Step(m, e).0.calls) == Written(m.calls)
    ensures Deleted(Step(m, e).0.calls) == Deleted(m.calls)
    ensures CreatedKinds(Step(m, e).0.calls) == CreatedKinds(m.calls)
  {
    if Step(m, e).1 {
      var w := Write(m.writer, Minimal(m.sample.index + 1, e.file.contents));
      assert Step(m, e).0.calls == m.calls + [w];
      TraceSnoc(m.calls, w);
    } else {
      assert Step(m, e).0.calls == m.calls;
    }
  }

  /** The samples written by a run carry the consecutive indices that
      follow the initial one. */
  lemma {:induction false} WritesAreConsecutive(s: PubState, events: seq<PubEvent>)
    ensures Written(AfterEvents(s, events).calls)
            == Written(s.calls) + Range(s.sample.index + 1, s.sample.index + 1 + SentCount(s, events))
  {
    if events != [] {
      var before := events[..|events| - 1];
      var e := events[|events| - 1];
      var m := AfterEvents(s, before);
      WritesAreConsecutive(s, before);
      IndexAdvancesBySends(s, before);
      var from := s.sample.index + 1;
      var c := SentCount(s, before);
      var r := Step(m, e).0;
      assert AfterEvents(s, events) == r;
      StepViews(m, e);
      if Step(m, e).1 {
        assert SentCount(s, events) == c + 1;
        calc {
          Written(r.calls);
          Written(m.calls) + [from + c];
          (Written(s.calls) + Range(from, from + c)) + [from + c];
          Written(s.calls) + (Range(from, from + c) + [from + c]);
          Written(s.calls) + Range(from, from + c + 1);
        }
      } else {
        assert SentCount(s, events) == c;
      }
    }
  }

  /** Publishing and status changes neither create nor delete anything. */
  lemma {:induction false} PublishingTouchesNoHandles(s: PubState, events: seq<PubEvent>)
    ensures Deleted(AfterEvents(s, events).calls) == Deleted(s.calls)
    ensures CreatedKinds(AfterEvents(s, events).calls) == CreatedKinds(s.calls)
  {
    if events != [] {
      var before := events[..|events| - 1];
      PublishingTouchesNoHandles(s, before);
      StepViews(AfterEvents(s, before), events[|events| - 1]);
    }
  }

  /** A publisher that was never matched and receives no status with a
      positive total count sends nothing, makes no call and keeps its index. */
  lemma {:induction false} UnmatchedPublisherSendsNothing(s: PubState, events: seq<PubEvent>)
    requires s.matched <= 0
    requires forall i :: 0 <= i < |events| && IsNotice(events[i]) ==> events[i].info.totalCount <= 0
    ensures SentCount(s, events) == 0
    ensures AfterEvents(s, events).matched <= 0
    ensures AfterEvents(s, events).calls == s.calls
    ensures AfterEvents(s, events).sample.index == s.sample.index
  {
    if events != [] {
      var before := events[..|events| - 1];
      assert forall i :: 0 <= i < |before| ==> before[i] == events[i];
      UnmatchedPublisherSendsNothing(s, before);
    }
  }

  /** Because the cumulative total count is stored, a match followed by an
      unmatch with a positive total leaves the gate open: the next opened
      payload is sent. */
  lemma GateStaysOpenAfterUnmatch(s: PubState, first: int, second: int, bytes: seq<byte>)
    requires second > 0
    ensures var events := [Notify(PublicationMatchedStatus(first, 1)),
                           Notify(PublicationMatchedStatus(second, -1)),
                           Attempt(Opened(bytes))];
            && AfterEvents(s, events[..2]).matched == second
            && SentCount(s, events) == 1
  {
    var e0 := Notify(PublicationMatchedStatus(first, 1));
    var e1 := Notify(PublicationMatchedStatus(second, -1));
    var e2 := Attempt(Opened(bytes));
    var events := [e0, e1, e2];
    assert events[..2] == [e0, e1];
    assert [e0, e1][..1] == [e0];
    assert [e0][..0] == [];
    assert AfterEvents(s, [e0]).matched == first;
    assert AfterEvents(s, [e0, e1]).matched == second;
    assert SentCount(s, [e0]) == 0;
    assert SentCount(s, [e0, e1]) == 0;
    assert Step(AfterEvents(s, [e0, e1]), e2).1;
  }

  /** Init attempts the creations in the fixed order participant, topic,
      publisher, writer, and none after the first null result. */
  lemma InitCreatesInFixedOrder(o: Handles)
    ensures CreatedKinds(PublisherInitCalls(o))
            == [ParticipantKind, TopicKind, PublisherKind, DataWriterKind][..Stages(o)]
    ensures Written(PublisherInitCalls(o)) == [] && Deleted(PublisherInitCalls(o)) == []
  {
    Dds.InitCreatesInFixedOrder(o, PARTICIPANT_NAME, PublisherKind, DataWriterKind);
  }

  /** On live handles the destructor never calls through a null parent. */
  lemma ReleasesNeverThroughNull(h: Handles)
    requires h.Live()
    ensures forall c :: c in PublisherReleases(h) ==>
              c.Delete? && (c.kind == ParticipantKind || c.parent != Null)
  {
  }

  /** The handles the destructor deletes: writer, publisher and topic when
      set, then the participant. */
  lemma ReleasedHandles(h: Handles)
    ensures Deleted(PublisherReleases(h))
            == SetOnly(h.endpoint) + SetOnly(h.group) + SetOnly(h.topic) + [h.participant]
    ensures Written(PublisherReleases(h)) == [] && CreatedKinds(PublisherReleases(h)) == []
  {
    var dw := DeleteIfSet(DataWriterKind, h.group, h.endpoint);
    var dp := DeleteIfSet(PublisherKind, h.participant, h.group);
    var dt := DeleteIfSet(TopicKind, h.participant, h.topic);
    var dq := Delete(ParticipantKind, Null, h.participant);
    DeleteIfSetViews(DataWriterKind, h.group, h.endpoint);
    DeleteIfSetViews(PublisherKind, h.participant, h.group);
    DeleteIfSetViews(TopicKind, h.participant, h.topic);
    WrittenAppend(dw, dp);
    DeletedAppend(dw, dp);
    CreatedKindsAppend(dw, dp);
    WrittenAppend(dw + dp, dt);
    DeletedAppend(dw + dp, dt);
    CreatedKindsAppend(dw + dp, dt);
    TraceSnoc(dw + dp + dt, dq);
  }

  /** After an init from the all-null state, the deletions of the
      destructor, case by case on the first creation that failed. */
  lemma FreshTeardownDeletes(o: Handles)
    ensures var p, t, g, e := o.participant, o.topic, o.group, o.endpoint;
            Deleted(PublisherReleases(InitHandles(NULL_HANDLES, o)))
            == if p == Null || t == Null then [p]
               else if g == Null then [t, p]
               else if e == Null then [g, t, p]
               else [e, g, t, p]
  {
    ReleasedHandles(InitHandles(NULL_HANDLES, o));
  }

  /** After an init from the all-null state, the destructor deletes the
      created handles in exactly the reverse of their creation order (only
      the null participant when even that creation failed). */
  lemma TeardownReversesCreation(o: Handles)
    ensures Deleted(PublisherReleases(InitHandles(NULL_HANDLES, o))) == Reverse(Held(o))
  {
    FreshTeardownDeletes(o);
    var p, t, g, e := o.participant, o.topic, o.group, o.endpoint;
    var r := Reverse(Held(o));
    if p == Null || t == Null {
      assert r == [p];
    } else if g == Null {
      assert r == [t, p];
    } else if e == Null {
      assert r == [g, t, p];
    } else {
      assert r == [e, g, t, p];
    }
  }

  /** The state a run starts from right after a successful init of a
      fresh publisher. */
  function StartState(o: Handles): PubState {
    PubState(0, DEFAULT_MINIMAL, o.endpoint, PublisherInitCalls(o))
  }

  /** A run started right after a successful init writes the indices
      1, 2, ... in order and makes no creation or deletion of its own. */
  lemma RunAfterInit(s: PubState, run: seq<PubEvent>)
    requires s.sample.index == 0 && Written(s.calls) == [] && Deleted(s.calls) == []
    ensures var calls := AfterEvents(s, run).calls;
            && Written(calls) == Range(1, SentCount(s, run) + 1)
            && Deleted(calls) == []
            && CreatedKinds(calls) == CreatedKinds(s.calls)
  {
    WritesAreConsecutive(s, run);
    PublishingTouchesNoHandles(s, run);
    var w := Range(1, 1 + SentCount(s, run));
    assert [] + w == w;
  }

  /** The whole trace of a process: the writes 1 .. n for the n successful
      publishes, the creations in the fixed order, and the releases in the
      reverse of the creation order. */
  lemma ProcessTrace(o: Handles, run: seq<PubEvent>, sent: nat, ran: seq<Call>, h: Handles, calls: seq<Call>)
    requires sent == SentCount(StartState(o), run)
    requires ran == AfterEvents(StartState(o), run).calls && h == InitHandles(NULL_HANDLES, o)
    requires calls == ran + PublisherReleases(h)
    ensures && Written(calls) == Range(1, sent + 1)
            && CreatedKinds(calls)
               == [ParticipantKind, TopicKind, PublisherKind, DataWriterKind][..Stages(o)]
            && Deleted(calls) == Reverse(Held(o))
  {
    var released := PublisherReleases(h);
    InitCreatesInFixedOrder(o);
    RunAfterInit(StartState(o), run);
    TeardownReversesCreation(o);
    ReleasedHandles(h);
    WrittenAppend(ran, released);
    var w := Range(1, sent + 1);
    assert Written(ran) == w && Written(released) == [];
    assert w + [] == w;
    DeletedAppend(ran, released);
    CreatedKindsAppend(ran, released);
  }

  /** A prefix of the events has no more successful publishes than all
      of them. */
  lemma {:induction false} SentCountPrefix(s: PubState, events: seq<PubEvent>, k: nat)
    requires k <= |events|
    ensures SentCount(s, events[..k]) <= SentCount(s, events)
  {
    if k < |events| {
      var before := events[..|events| - 1];
      assert events[..k] == before[..k];
      SentCountPrefix(s, before, k);
    } else {
      assert events[..k] == events;
    }
  }

  /** The publisher process: construct, init, run only when init
      succeeded, then destroy; the result is the full call trace. */
  method PublisherProcess(o: Handles, samples: nat, events: seq<PubEvent>)
    returns (ok: bool, samplesSent: nat, calls: seq<Call>)
    ensures ok <==> Created(o) == 4
    ensures !ok ==> samplesSent == 0
    ensures samplesSent <= samples
    ensures ok ==> samplesSent == samples || samplesSent == SentCount(StartState(o), events)
    ensures ok ==> samplesSent <= SentCount(StartState(o), events)
    ensures Written(calls) == Range(1, samplesSent + 1)
    ensures CreatedKinds(calls)
            == [ParticipantKind, TopicKind, PublisherKind, DataWriterKind][..Stages(o)]
    ensures Deleted(calls) == Reverse(Held(o))
  {
    var p := new MinimalPublisher();
    ok := p.Init(o);
    ghost var h := p.Handles();
    FreshInitIsLive(o);
    ghost var run: seq<PubEvent> := [];
    samplesSent := 0;
    if ok {
      assert p.State() == StartState(o);
      var consumed;
      samplesSent, consumed := p.Run(samples, events);
      run := events[..consumed];
      SentCountPrefix(StartState(o), events, consumed);
      if samplesSent < samples {
        assert run == events;
      }
    }
    ghost var ran := p.calls;
    p.Destroy();
    calls := p.calls;
    ProcessTrace(o, run, samplesSent, ran, h, calls);
  }
}
