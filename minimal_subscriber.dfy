/** The subscriber sample: a listener that counts the valid samples it
    takes, a run loop that waits for the count to reach a target, and the
    init/teardown of the four handles. */
module MinimalSubscriberModel {
  import opened Dds

  const PARTICIPANT_NAME := "Participant_subscriber"

  /** The two fields of a subscription-matched status the sample reads. */
  datatype SubscriptionMatchedStatus = SubscriptionMatchedStatus(totalCount: int, currentCountChange: int)

  /** Return codes of take_next_sample: success, or one of the failures
      (the sample does not tell the failures apart). */
  datatype ReturnCode = RetcodeOk | RetcodeNoData | RetcodeError

  /** What take_next_sample yields: its return code, the sample it stores
      on success and the sample info's valid_data flag. */
  datatype Take = Take(code: ReturnCode, sample: Minimal, validData: bool)

  /** A callback delivered by the middleware while run is waiting. */
  datatype SubEvent = Matched(info: SubscriptionMatchedStatus) | DataAvailable(take: Take)

  /** An event that stores a taken sample, valid or not. */
  predicate IsTaken(e: SubEvent) {
    e.DataAvailable? && e.take.code == RetcodeOk
  }

  /** An event that the listener counts: a take that succeeded with valid data. */
  predicate IsCounted(e: SubEvent) {
    IsTaken(e) && e.take.validData
  }

  /** How many of the events the listener counts. */
  function ValidCount(events: seq<SubEvent>): nat {
    if events == [] then 0
    else ValidCount(events[..|events| - 1]) + if IsCounted(events[|events| - 1]) then 1 else 0
  }

  /** The listener's stored sample after the events, starting from m. */
  function Stored(m: Minimal, events: seq<SubEvent>): Minimal {
    if events == [] then m
    else
      var e := events[|events| - 1];
      if IsTaken(e) then e.take.sample else Stored(m, events[..|events| - 1])
  }

  /** The calls an init makes when the four creation calls would return o:
      it stops right after the first creation that yields null. */
  function SubscriberInitCalls(o: Handles): seq<Call> {
    InitCalls(o, PARTICIPANT_NAME, SubscriberKind, DataReaderKind)
  }

  /** The calls the destructor makes: reader, topic and subscriber when
      set, then the participant whatever its value. */
  function SubscriberReleases(h: Handles): seq<Call> {
    DeleteIfSet(DataReaderKind, h.group, h.endpoint)
    + DeleteIfSet(TopicKind, h.participant, h.topic)
    + DeleteIfSet(SubscriberKind, h.participant, h.group)
    + [Delete(ParticipantKind, Null, h.participant)]
  }

  class SubListener {
    var minimal: Minimal
    var samples: nat

    constructor ()
      ensures samples == 0 && minimal == DEFAULT_MINIMAL
    {
      minimal := DEFAULT_MINIMAL;
      samples := 0;
    }

    /** Only reports the change on the console, for every value of it. */
    method OnSubscriptionMatched(info: SubscriptionMatchedStatus)
      ensures samples == old(samples) && minimal == old(minimal)
    {
      if info.currentCountChange == 1 {
        // reports the match
      } else if info.currentCountChange == -1 {
        // reports the unmatch
      } else {
        // reports an invalid change
      }
    }

    /** Takes the next sample, storing it on success, and counts it when
        its data is valid. */
    method OnDataAvailable(take: Take)
      modifies this
      ensures minimal == if take.code == RetcodeOk then take.sample else old(minimal)
      ensures samples == if take.code == RetcodeOk && take.validData then old(samples) + 1 else old(samples)
    {
      if take.code == RetcodeOk {
        minimal := take.sample;
        if take.validData {
          samples := samples + 1;
        }
      }
    }
  }

  class MinimalSubscriber {
    var participant: Ptr
    var subscriber: Ptr
    var reader: Ptr
    var topic: Ptr
    const listener: SubListener
    /** The calls made into the middleware so far. */
    var calls: seq<Call>

    ghost function Handles(): Handles
      reads this
    {
      Dds.Handles(participant, topic, subscriber, reader)
    }

    constructor ()
      ensures Handles() == NULL_HANDLES && calls == []
      ensures fresh(listener) && listener.samples == 0 && listener.minimal == DEFAULT_MINIMAL
    {
      participant, subscriber, reader, topic := Null, Null, Null, Null;
      listener := new SubListener();
      calls := [];
    }

    /** Creates participant, topic, subscriber and reader in that order,
        giving up at the first null result. */
    method Init(o: Handles) returns (ok: bool)
      modifies this
      ensures ok <==> Created(o) == 4
      ensures Handles() == InitHandles(old(Handles()), o)
      ensures calls == old(calls) + SubscriberInitCalls(o)
    {
      participant := o.participant;
      ghost var start := calls;
      ghost var rest := AfterParticipant(o, SubscriberKind, DataReaderKind);
      assert SubscriberInitCalls(o) == [Create(ParticipantKind, Null, PARTICIPANT_NAME, participant)] + rest;
      calls := calls + [Create(ParticipantKind, Null, PARTICIPANT_NAME, participant)];
      if participant == Null {
        return false;
      }
      calls := calls + [RegisterType(participant, TYPE_NAME)];
      topic := o.topic;
      calls := calls + [Create(TopicKind, participant, TOPIC_NAME, topic)];
      assert start + SubscriberInitCalls(o) == calls + AfterTopic(o, SubscriberKind, DataReaderKind);
      if topic == Null {
        return false;
      }
      subscriber := o.group;
      calls := calls + [Create(SubscriberKind, participant, "", subscriber)];
      assert start + SubscriberInitCalls(o) == calls + AfterGroup(o, DataReaderKind);
      if subscriber == Null {
        return false;
      }
      reader := o.endpoint;
      calls := calls + [Create(DataReaderKind, subscriber, "", reader)];
      if reader == Null {
        return false;
      }
      return true;
    }

    /** Waits until the listener has counted samples samples; each check of
        the guard may follow one callback. Since the callbacks come from
        outside, the model also stops when they run out. */
    method Run(samples: nat, events: seq<SubEvent>) returns (consumed: nat)
      modifies listener
      ensures consumed <= |events|
      ensures old(listener.samples) >= samples ==> consumed == 0
      ensures listener.samples >= samples || consumed == |events|
      ensures consumed > 0 ==> old(listener.samples) + ValidCount(events[..consumed - 1]) < samples
      ensures listener.samples == old(listener.samples) + ValidCount(events[..consumed])
      ensures listener.minimal == Stored(old(listener.minimal), events[..consumed])
    {
      consumed := 0;
      while listener.samples < samples && consumed < |events|
        invariant consumed <= |events|
        invariant consumed > 0 ==> old(listener.samples) + ValidCount(events[..consumed - 1]) < samples
        invariant listener.samples == old(listener.samples) + ValidCount(events[..consumed])
        invariant listener.minimal == Stored(old(listener.minimal), events[..consumed])
        decreases |events| - consumed
      {
        assert events[..consumed + 1][..consumed] == events[..consumed];
        match events[consumed] {
          case Matched(info) =>
            listener.OnSubscriptionMatched(info);
          case DataAvailable(take) =>
            listener.OnDataAvailable(take);
        }
        consumed := consumed + 1;
      }
    }

    /** The destructor: releases the set handles, the topic before the
        subscriber. */
    method Destroy()
      requires Handles().Live()
      modifies this`calls
      ensures calls == old(calls) + SubscriberReleases(Handles())
    {
      if reader != Null {
        calls := calls + [Delete(DataReaderKind, subscriber, reader)];
      }
      if topic != Null {
        calls := calls + [Delete(TopicKind, participant, topic)];
      }
      if subscriber != Null {
        calls := calls + [Delete(SubscriberKind, participant, subscriber)];
      }
      calls := calls + [Delete(ParticipantKind, Null, participant)];
    }
  }

  /** Counting distributes over consecutive stretches of callbacks. */
  lemma {:induction false} ValidCountAppend(a: seq<SubEvent>, b: seq<SubEvent>)
    ensures ValidCount(a + b) == ValidCount(a) + ValidCount(b)
    decreases |b|
  {
    if b == [] {
      assert a + b == a;
    } else {
      var b' := b[..|b| - 1];
      assert (a + b)[..|a + b| - 1] == a + b';
      ValidCountAppend(a, b');
    }
  }

  /** The count is zero exactly when no callback took a valid sample. */
  lemma {:induction false} NothingCountedIffNoValidSample(events: seq<SubEvent>)
    ensures ValidCount(events) == 0 <==> forall i :: 0 <= i < |events| ==> !IsCounted(events[i])
  {
    if events != [] {
      var before := events[..|events| - 1];
      assert forall i :: 0 <= i < |before| ==> before[i] == events[i];
      NothingCountedIffNoValidSample(before);
    }
  }

  /** The count never exceeds the number of data callbacks. */
  lemma {:induction false} ValidCountAtMostCallbacks(events: seq<SubEvent>)
    ensures ValidCount(events) <= |events|
    ensures ValidCount(events) == |events| <==> forall i :: 0 <= i < |events| ==> IsCounted(events[i])
  {
    if events != [] {
      var before := events[..|events| - 1];
      assert forall i :: 0 <= i < |before| ==> before[i] == events[i];
      ValidCountAtMostCallbacks(before);
    }
  }

  /** The stored sample is the one of the latest successful take, valid or
      not, and the initial one when no take succeeded. */
  lemma {:induction false} StoredIsLatestTaken(m: Minimal, events: seq<SubEvent>, j: nat)
    requires j < |events| && IsTaken(events[j])
    requires forall i :: j < i < |events| ==> !IsTaken(events[i])
    ensures Stored(m, events) == events[j].take.sample
  {
    var n := |events| - 1;
    if j < n {
      var before := events[..n];
      assert forall i :: j < i < |before| ==> before[i] == events[i];
      StoredIsLatestTaken(m, before, j);
    }
  }

  lemma {:induction false} StoredWithoutTake(m: Minimal, events: seq<SubEvent>)
    requires forall i :: 0 <= i < |events| ==> !IsTaken(events[i])
    ensures Stored(m, events) == m
  {
    if events != [] {
      var before := events[..|events| - 1];
      assert forall i :: 0 <= i < |before| ==> before[i] == events[i];
      StoredWithoutTake(m, before);
    }
  }

  /** Match callbacks change neither the count nor the stored sample,
      whatever their count change. */
  lemma MatchCallbacksChangeNothing(m: Minimal, events: seq<SubEvent>, info: SubscriptionMatchedStatus)
    ensures ValidCount(events + [Matched(info)]) == ValidCount(events)
    ensures Stored(m, events + [Matched(info)]) == Stored(m, events)
  {
    assert (events + [Matched(info)])[..|events|] == events;
  }

  /** A successful take with invalid data replaces the stored sample but is
      not counted. */
  lemma InvalidTakeOverwritesWithoutCounting(m: Minimal, events: seq<SubEvent>, sample: Minimal)
    ensures var e := DataAvailable(Take(RetcodeOk, sample, false));
            && ValidCount(events + [e]) == ValidCount(events)
            && Stored(m, events + [e]) == sample
  {
    var e := DataAvailable(Take(RetcodeOk, sample, false));
    assert (events + [e])[..|events|] == events;
  }

  /** Init attempts the creations in the fixed order participant, topic,
      subscriber, reader, and none after the first null result. */
  lemma InitCreatesInFixedOrder(o: Handles)
    ensures CreatedKinds(SubscriberInitCalls(o))
            == [ParticipantKind, TopicKind, SubscriberKind, DataReaderKind][..Stages(o)]
    ensures Written(SubscriberInitCalls(o)) == [] && Deleted(SubscriberInitCalls(o)) == []
  {
    Dds.InitCreatesInFixedOrder(o, PARTICIPANT_NAME, SubscriberKind, DataReaderKind);
  }

  /** On live handles the destructor never calls through a null parent. */
  lemma ReleasesNeverThroughNull(h: Handles)
    requires h.Live()
    ensures forall c :: c in SubscriberReleases(h) ==>
              c.Delete? && (c.kind == ParticipantKind || c.parent != Null)
  {
  }

  /** The handles the destructor deletes: reader, topic and subscriber
      when set, then the participant. */
  lemma ReleasedHandles(h: Handles)
    ensures Deleted(SubscriberReleases(h))
            == SetOnly(h.endpoint) + SetOnly(h.topic) + SetOnly(h.group) + [h.participant]
    ensures Written(SubscriberReleases(h)) == [] && CreatedKinds(SubscriberReleases(h)) == []
  {
    var dr := DeleteIfSet(DataReaderKind, h.group, h.endpoint);
    var dt := DeleteIfSet(TopicKind, h.participant, h.topic);
    var ds := DeleteIfSet(SubscriberKind, h.participant, h.group);
    var dq := Delete(ParticipantKind, Null, h.participant);
    DeleteIfSetViews(DataReaderKind, h.group, h.endpoint);
    DeleteIfSetViews(TopicKind, h.participant, h.topic);
    DeleteIfSetViews(SubscriberKind, h.participant, h.group);
    WrittenAppend(dr, dt);
    DeletedAppend(dr, dt);
    CreatedKindsAppend(dr, dt);
    WrittenAppend(dr + dt, ds);
    DeletedAppend(dr + dt, ds);
    CreatedKindsAppend(dr + dt, ds);
    TraceSnoc(dr + dt + ds, dq);
  }

  /** The handles deleted after an init from the all-null state, case by
      case on the first creation that failed. */
  lemma FreshTeardownDeletes(o: Handles)
    ensures var p, t, g, e := o.participant, o.topic, o.group, o.endpoint;
            Deleted(SubscriberReleases(InitHandles(NULL_HANDLES, o)))
            == if p == Null then [Null]
               else if t == Null then [p]
               else if g == Null then [t, p]
               else if e == Null then [t, g, p]
               else [e, t, g, p]
  {
    ReleasedHandles(InitHandles(NULL_HANDLES, o));
  }

  /** Three handles deleted as topic, subscriber, participant are the
      three created as participant, topic, subscriber. */
  lemma ThreeReleasedPermuteCreated(d: seq<Ptr>, c: seq<Ptr>, p: Ptr, t: Ptr, g: Ptr)
    requires d == [t, g, p] && c == [p, t, g]
    ensures multiset(d) == multiset(c)
  {
    assert d == [t, g] + [p];
    assert c == [p] + [t, g];
    ConcatCommutes([t, g], [p]);
  }

  /** Four handles deleted as reader, topic, subscriber, participant are
      the four created as participant, topic, subscriber, reader. */
  lemma FourReleasedPermuteCreated(d: seq<Ptr>, c: seq<Ptr>, p: Ptr, t: Ptr, g: Ptr, e: Ptr)
    requires d == [e, t, g, p] && c == [p, t, g, e]
    ensures multiset(d) == multiset(c)
  {
    assert d == [e] + [t, g] + [p];
    assert c == [p] + [t, g] + [e];
    OuterSwap([e], [t, g], [p]);
  }

  /** After an init from the all-null state, the destructor deletes every
      created handle exactly once (only the null participant when even that
      creation failed). */
  lemma TeardownReleasesCreated(o: Handles)
    ensures multiset(Deleted(SubscriberReleases(InitHandles(NULL_HANDLES, o)))) == multiset(Held(o))
  {
    FreshTeardownDeletes(o);
    var p, t, g, e := o.participant, o.topic, o.group, o.endpoint;
    var d := Deleted(SubscriberReleases(InitHandles(NULL_HANDLES, o)));
    var c := Held(o);
    if p == Null || t == Null {
      assert d == c;
    } else if g == Null {
      assert c == [p] + [t] && d == [t] + [p];
      ConcatCommutes([t], [p]);
    } else if e == Null {
      ThreeReleasedPermuteCreated(d, c, p, t, g);
    } else {
      FourReleasedPermuteCreated(d, c, p, t, g, e);
    }
  }

  /** Whenever all four creations succeed and the topic and subscriber
      handles differ, the deletion order (topic before subscriber) is not
      the reverse of the creation order. */
  lemma TeardownIsNotReverseCreation(o: Handles)
    requires Created(o) == 4 && o.topic != o.group
    ensures Deleted(SubscriberReleases(InitHandles(NULL_HANDLES, o))) != Reverse(Held(o))
  {
    FreshTeardownDeletes(o);
    var d := Deleted(SubscriberReleases(InitHandles(NULL_HANDLES, o)));
    var r := Reverse(Held(o));
    assert Held(o) == [o.participant, o.topic, o.group, o.endpoint];
    assert d[1] == o.topic && r[1] == o.group;
  }

  /** The whole trace of a process writes nothing, attempts the creations in
      the fixed order and deletes every created handle once. */
  lemma ProcessTrace(o: Handles, init: seq<Call>, h: Handles, calls: seq<Call>)
    requires init == SubscriberInitCalls(o) && h == InitHandles(NULL_HANDLES, o)
    requires calls == init + SubscriberReleases(h)
    ensures && Written(calls) == []
            && CreatedKinds(calls)
               == [ParticipantKind, TopicKind, SubscriberKind, DataReaderKind][..Stages(o)]
            && multiset(Deleted(calls)) == multiset(Held(o))
  {
    var released := SubscriberReleases(h);
    InitCreatesInFixedOrder(o);
    TeardownReleasesCreated(o);
    ReleasedHandles(h);
    WrittenAppend(init, released);
    DeletedAppend(init, released);
    CreatedKindsAppend(init, released);
  }

  /** When the wait ends, the count comes from a prefix of the callbacks:
      it is at most the count of all of them, and it is that count unless
      the wait was satisfied first. */
  lemma WaitEndCount(events: seq<SubEvent>, consumed: nat, samples: nat, received: nat)
    requires consumed <= |events|
    requires received == ValidCount(events[..consumed])
    requires received >= samples || consumed == |events|
    ensures received <= ValidCount(events)
    ensures received >= samples || received == ValidCount(events)
  {
    ValidCountAppend(events[..consumed], events[consumed..]);
    assert events[..consumed] + events[consumed..] == events;
  }

  /** The subscriber process: construct, init, wait in run only when init
      succeeded, then destroy. */
  method SubscriberProcess(o: Handles, samples: nat, events: seq<SubEvent>)
    returns (ok: bool, received: nat, calls: seq<Call>)
    ensures ok <==> Created(o) == 4
    ensures !ok ==> received == 0
    ensures ok ==> received >= samples || received == ValidCount(events)
    ensures received <= ValidCount(events)
    ensures Written(calls) == []
    ensures CreatedKinds(calls)
            == [ParticipantKind, TopicKind, SubscriberKind, DataReaderKind][..Stages(o)]
    ensures multiset(Deleted(calls)) == multiset(Held(o))
  {
    var sub := new MinimalSubscriber();
    ok := sub.Init(o);
    ghost var init := sub.calls;
    ghost var h := sub.Handles();
    FreshInitIsLive(o);
    if ok {
      var consumed := sub.Run(samples, events);
      WaitEndCount(events, consumed, samples, sub.listener.samples);
    }
    received := sub.listener.samples;
    sub.Destroy();
    calls := sub.calls;
    ProcessTrace(o, init, h, calls);
  }
}
