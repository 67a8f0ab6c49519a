/** Types shared by the publisher and the subscriber sample: the Minimal
    message, middleware handles, the four handles an endpoint owns, and the
    trace of calls the samples make into the middleware. */
module Dds {

  newtype byte = x: int | 0 <= x < 256

  /** The sample type: a sequence index and an image byte buffer. */
  datatype Minimal = Minimal(index: nat, imgData: seq<byte>)

  /** The value of a default-constructed Minimal. */
  const DEFAULT_MINIMAL := Minimal(0, [])

  /** A pointer to a middleware entity, as returned by a creation call. */
  datatype Ptr = Null | Ref(id: nat)

  datatype Kind =
    | ParticipantKind
    | TopicKind
    | PublisherKind
    | SubscriberKind
    | DataWriterKind
    | DataReaderKind

  /** A call into the middleware. Creation results are inputs of the model;
      the call records which result the middleware gave back. The parent of
      a participant is the factory singleton, written Null. */
  datatype Call =
    | Create(kind: Kind, parent: Ptr, name: string, result: Ptr)
    | RegisterType(participant: Ptr, typeName: string)
    | Write(writer: Ptr, sample: Minimal)
    | Delete(kind: Kind, parent: Ptr, target: Ptr)

  /** The four handles an endpoint owns, in creation order: the participant,
      the topic, the publisher or subscriber (group) and the data writer or
      data reader (endpoint). */
  datatype Handles = Handles(participant: Ptr, topic: Ptr, group: Ptr, endpoint: Ptr)
  {
    function InOrder(): (s: seq<Ptr>)
      ensures |s| == 4
    {
      [participant, topic, group, endpoint]
    }

    /** No handle is set while a handle it is reached through is null, so
        that the destructors never call through a null pointer. */
    predicate Live() {
      && (topic != Null ==> participant != Null)
      && (group != Null ==> participant != Null)
      && (endpoint != Null ==> group != Null)
    }
  }

  const NULL_HANDLES := Handles(Null, Null, Null, Null)

  /** The topic both samples use, and the name its type is registered under. */
  const TOPIC_NAME := "MinimalTopic"
  const TYPE_NAME := "Minimal"

  /** How many of the four creation results, taken in creation order, are
      set before the first null one (4 when none is null). */
  function Created(o: Handles): (k: nat)
    ensures k <= 4
  {
    if o.participant == Null then 0
    else if o.topic == Null then 1
    else if o.group == Null then 2
    else if o.endpoint == Null then 3
    else 4
  }

  /** Created counts the leading set results: every earlier result is set
      and the one at the count, if any, is null. */
  lemma CreatedCountsLeadingResults(o: Handles)
    ensures forall i :: 0 <= i < Created(o) ==> o.InOrder()[i] != Null
    ensures Created(o) < 4 ==> o.InOrder()[Created(o)] == Null
  {
    var s := o.InOrder();
    assert s[0] == o.participant && s[1] == o.topic && s[2] == o.group && s[3] == o.endpoint;
  }

  /** How many of the four creation steps an init attempts: it goes on
      until a step yields null or all four have succeeded. */
  function Stages(o: Handles): (n: nat)
    ensures 1 <= n <= 4
  {
    if Created(o) == 4 then 4 else Created(o) + 1
  }

  /** The handles a fresh object holds after init, in creation order: the
      created ones, or only the null participant when even that creation
      failed. */
  function Held(o: Handles): (h: seq<Ptr>)
    ensures 1 <= |h| <= 4 && h[0] == o.participant
  {
    if o.participant == Null then [Null]
    else if o.topic == Null then [o.participant]
    else if o.group == Null then [o.participant, o.topic]
    else if o.endpoint == Null then [o.participant, o.topic, o.group]
    else [o.participant, o.topic, o.group, o.endpoint]
  }

  /** What is held is the prefix of the results up to the first null one,
      or the null participant alone. */
  lemma HeldIsCreatedPrefix(o: Handles)
    ensures Created(o) == 0 ==> Held(o) == [Null]
    ensures Created(o) > 0 ==> Held(o) == o.InOrder()[..Created(o)]
  {
    var s := o.InOrder();
    if Created(o) == 1 {
      assert s[..1] == [o.participant];
    } else if Created(o) == 2 {
      assert s[..2] == [o.participant, o.topic];
    } else if Created(o) == 3 {
      assert s[..3] == [o.participant, o.topic, o.group];
    } else if Created(o) == 4 {
      assert s[..4] == s;
    }
  }

  /** The handle fields after an init that started from h and whose
      creation calls would return o: every attempted step stores its
      result, every later field keeps its value. */
  function InitHandles(h: Handles, o: Handles): Handles {
    var n := Stages(o);
    Handles(o.participant,
            if n >= 2 then o.topic else h.topic,
            if n >= 3 then o.group else h.group,
            if n == 4 then o.endpoint else h.endpoint)
  }

  /** An init from the all-null state leaves live handles. */
  lemma FreshInitIsLive(o: Handles)
    ensures InitHandles(NULL_HANDLES, o).Live()
  {
  }

  /** An init from the all-null state stores exactly the results up to the
      first null one and leaves the others null. */
  lemma FreshInitStoresCreatedPrefix(o: Handles)
    ensures var h := InitHandles(NULL_HANDLES, o);
            forall i :: 0 <= i < 4 ==>
              h.InOrder()[i] == if i < Created(o) then o.InOrder()[i] else Null
  {
    var s := o.InOrder();
    var h := InitHandles(NULL_HANDLES, o).InOrder();
    assert s[0] == o.participant && s[1] == o.topic && s[2] == o.group && s[3] == o.endpoint;
    assert h[0] == o.participant;
  }

  /** The indices of the samples written, in call order. */
  function Written(calls: seq<Call>): seq<nat> {
    if calls == [] then []
    else Written(calls[..|calls| - 1])
         + (if calls[|calls| - 1].Write? then [calls[|calls| - 1].sample.index] else [])
  }

  /** The handles deleted, in call order. */
  function Deleted(calls: seq<Call>): seq<Ptr> {
    if calls == [] then []
    else Deleted(calls[..|calls| - 1])
         + (if calls[|calls| - 1].Delete? then [calls[|calls| - 1].target] else [])
  }

  /** The kinds of entity whose creation was attempted, in call order. */
  function CreatedKinds(calls: seq<Call>): seq<Kind> {
    if calls == [] then []
    else CreatedKinds(calls[..|calls| - 1])
         + (if calls[|calls| - 1].Create? then [calls[|calls| - 1].kind] else [])
  }

  /** What one more call adds to each view of a trace. */
  lemma TraceSnoc(a: seq<Call>, c: Call)
    ensures Written(a + [c]) == Written(a) + if c.Write? then [c.sample.index] else []
    ensures Deleted(a + [c]) == Deleted(a) + if c.Delete? then [c.target] else []
    ensures CreatedKinds(a + [c]) == CreatedKinds(a) + if c.Create? then [c.kind] else []
  {
    assert (a + [c])[..|a + [c]| - 1] == a;
  }

  lemma {:induction false} WrittenAppend(a: seq<Call>, b: seq<Call>)
    ensures Written(a + b) == Written(a) + Written(b)
    decreases |b|
  {
    if b == [] {
      assert a + b == a;
    } else {
      var b' := b[..|b| - 1];
      assert (a + b)[..|a + b| - 1] == a + b';
      WrittenAppend(a, b');
    }
  }

  lemma {:induction false} DeletedAppend(a: seq<Call>, b: seq<Call>)
    ensures Deleted(a + b) == Deleted(a) + Deleted(b)
    decreases |b|
  {
    if b == [] {
      assert a + b == a;
    } else {
      var b' := b[..|b| - 1];
      assert (a + b)[..|a + b| - 1] == a + b';
      DeletedAppend(a, b');
    }
  }

  lemma {:induction false} CreatedKindsAppend(a: seq<Call>, b: seq<Call>)
    ensures CreatedKinds(a + b) == CreatedKinds(a) + CreatedKinds(b)
    decreases |b|
  {
    if b == [] {
      assert a + b == a;
    } else {
      var b' := b[..|b| - 1];
      assert (a + b)[..|a + b| - 1] == a + b';
      CreatedKindsAppend(a, b');
    }
  }

  /** What each view of a trace gets from one call in front of the rest. */
  lemma StageViews(c: Call, rest: seq<Call>)
    ensures Written([c] + rest) == (if c.Write? then [c.sample.index] else []) + Written(rest)
    ensures Deleted([c] + rest) == (if c.Delete? then [c.target] else []) + Deleted(rest)
    ensures CreatedKinds([c] + rest) == (if c.Create? then [c.kind] else []) + CreatedKinds(rest)
  {
    TraceSnoc([], c);
    assert [] + [c] == [c];
    WrittenAppend([c], rest);
    DeletedAppend([c], rest);
    CreatedKindsAppend([c], rest);
  }

  /** The calls an init makes when the four creation calls would return o:
      create the participant, register the type, create the topic, the
      group and the endpoint, stopping right after the first creation that
      yields null. The group and endpoint are created without a name. */
  function InitCalls(o: Handles, participantName: string, groupKind: Kind, endpointKind: Kind): seq<Call> {
    [Create(ParticipantKind, Null, participantName, o.participant)]
    + AfterParticipant(o, groupKind, endpointKind)
  }

  function AfterParticipant(o: Handles, groupKind: Kind, endpointKind: Kind): seq<Call> {
    if o.participant == Null then []
    else [RegisterType(o.participant, TYPE_NAME)]
         + ([Create(TopicKind, o.participant, TOPIC_NAME, o.topic)] + AfterTopic(o, groupKind, endpointKind))
  }

  function AfterTopic(o: Handles, groupKind: Kind, endpointKind: Kind): seq<Call> {
    if o.topic == Null then []
    else [Create(groupKind, o.participant, "", o.group)] + AfterGroup(o, endpointKind)
  }

  function AfterGroup(o: Handles, endpointKind: Kind): seq<Call> {
    if o.group == Null then [] else [Create(endpointKind, o.group, "", o.endpoint)]
  }

  /** The views of one creation in front of a trace that only creates. */
  lemma CreationsOnly(c: Call, rest: seq<Call>)
    requires c.Create? && Written(rest) == [] && Deleted(rest) == []
    ensures CreatedKinds([c] + rest) == [c.kind] + CreatedKinds(rest)
    ensures Written([c] + rest) == [] && Deleted([c] + rest) == []
  {
    StageViews(c, rest);
  }

  lemma AfterGroupViews(o: Handles, endpointKind: Kind)
    ensures CreatedKinds(AfterGroup(o, endpointKind)) == if o.group == Null then [] else [endpointKind]
    ensures Written(AfterGroup(o, endpointKind)) == [] && Deleted(AfterGroup(o, endpointKind)) == []
  {
    if o.group != Null {
      var c := Create(endpointKind, o.group, "", o.endpoint);
      TraceSnoc([], c);
      assert [] + [c] == [c];
    }
  }

  lemma AfterTopicViews(o: Handles, groupKind: Kind, endpointKind: Kind)
    ensures CreatedKinds(AfterTopic(o, groupKind, endpointKind))
            == if o.topic == Null then [] else [groupKind] + CreatedKinds(AfterGroup(o, endpointKind))
    ensures Written(AfterTopic(o, groupKind, endpointKind)) == []
    ensures Deleted(AfterTopic(o, groupKind, endpointKind)) == []
  {
    AfterGroupViews(o, endpointKind);
    if o.topic != Null {
      CreationsOnly(Create(groupKind, o.participant, "", o.group), AfterGroup(o, endpointKind));
    }
  }

  lemma AfterParticipantViews(o: Handles, groupKind: Kind, endpointKind: Kind)
    ensures CreatedKinds(AfterParticipant(o, groupKind, endpointKind))
            == if o.participant == Null then [] else [TopicKind] + CreatedKinds(AfterTopic(o, groupKind, endpointKind))
    ensures Written(AfterParticipant(o, groupKind, endpointKind)) == []
    ensures Deleted(AfterParticipant(o, groupKind, endpointKind)) == []
  {
    AfterTopicViews(o, groupKind, endpointKind);
    if o.participant != Null {
      var rest := [Create(TopicKind, o.participant, TOPIC_NAME, o.topic)] + AfterTopic(o, groupKind, endpointKind);
      CreationsOnly(Create(TopicKind, o.participant, TOPIC_NAME, o.topic), AfterTopic(o, groupKind, endpointKind));
      StageViews(RegisterType(o.participant, TYPE_NAME), rest);
    }
  }

  /** The views of a whole init trace, stage by stage. */
  lemma InitCallsViews(o: Handles, participantName: string, groupKind: Kind, endpointKind: Kind)
    ensures CreatedKinds(InitCalls(o, participantName, groupKind, endpointKind))
            == [ParticipantKind]
               + if o.participant == Null then [] else
                 [TopicKind]
                 + if o.topic == Null then [] else
                   [groupKind]
                   + if o.group == Null then [] else [endpointKind]
    ensures Written(InitCalls(o, participantName, groupKind, endpointKind)) == []
    ensures Deleted(InitCalls(o, participantName, groupKind, endpointKind)) == []
  {
    AfterGroupViews(o, endpointKind);
    AfterTopicViews(o, groupKind, endpointKind);
    AfterParticipantViews(o, groupKind, endpointKind);
    CreationsOnly(Create(ParticipantKind, Null, participantName, o.participant), AfterParticipant(o, groupKind, endpointKind));
  }

  /** The first n of the four kinds, n being the number of stages init attempts. */
  lemma AttemptedKinds(o: Handles, groupKind: Kind, endpointKind: Kind)
    ensures [ParticipantKind, TopicKind, groupKind, endpointKind][..Stages(o)]
            == [ParticipantKind]
               + if o.participant == Null then [] else
                 [TopicKind]
                 + if o.topic == Null then [] else
                   [groupKind]
                   + if o.group == Null then [] else [endpointKind]
  {
  }

  /** Init attempts the creations in the fixed order participant, topic,
      group, endpoint, none after the first null result, and it neither
      writes nor deletes. */
  lemma InitCreatesInFixedOrder(o: Handles, participantName: string, groupKind: Kind, endpointKind: Kind)
    ensures CreatedKinds(InitCalls(o, participantName, groupKind, endpointKind))
            == [ParticipantKind, TopicKind, groupKind, endpointKind][..Stages(o)]
    ensures Written(InitCalls(o, participantName, groupKind, endpointKind)) == []
    ensures Deleted(InitCalls(o, participantName, groupKind, endpointKind)) == []
  {
    InitCallsViews(o, participantName, groupKind, endpointKind);
    AttemptedKinds(o, groupKind, endpointKind);
  }

  /** The deletion of target through parent, made only when target is set. */
  function DeleteIfSet(kind: Kind, parent: Ptr, target: Ptr): seq<Call> {
    if target != Null then [Delete(kind, parent, target)] else []
  }

  /** The pointer, as a one-element sequence when it is set. */
  function SetOnly(p: Ptr): seq<Ptr> {
    if p != Null then [p] else []
  }

  lemma DeleteIfSetViews(kind: Kind, parent: Ptr, target: Ptr)
    ensures Deleted(DeleteIfSet(kind, parent, target)) == SetOnly(target)
    ensures Written(DeleteIfSet(kind, parent, target)) == []
    ensures CreatedKinds(DeleteIfSet(kind, parent, target)) == []
  {
    if target != Null {
      TraceSnoc([], Delete(kind, parent, target));
      assert [] + [Delete(kind, parent, target)] == DeleteIfSet(kind, parent, target);
    }
  }

  /** The integers lo, lo + 1, ..., hi - 1 in order. */
  function Range(lo: nat, hi: nat): (r: seq<nat>)
    ensures |r| == if hi <= lo then 0 else hi - lo
    ensures forall i :: 0 <= i < |r| ==> r[i] == lo + i
  {
    if hi <= lo then [] else Range(lo, hi - 1) + [hi - 1]
  }

  function Reverse<T>(s: seq<T>): (r: seq<T>)
    ensures |r| == |s|
    ensures forall i :: 0 <= i < |s| ==> r[i] == s[|s| - 1 - i]
  {
    if s == [] then [] else Reverse(s[1..]) + [s[0]]
  }

  /** Concatenation in either order gives the same elements. */
  lemma ConcatCommutes<T>(a: seq<T>, b: seq<T>)
    ensures multiset(a + b) == multiset(b + a)
  {
    calc {
      multiset(a + b);
      multiset(a) + multiset(b);
      multiset(b + a);
    }
  }

  /** Exchanging the outer parts around a middle gives the same elements. */
  lemma OuterSwap<T>(a: seq<T>, m: seq<T>, b: seq<T>)
    ensures multiset(a + m + b) == multiset(b + m + a)
  {
    calc {
      multiset(a + m + b);
      multiset(a) + multiset(m) + multiset(b);
      multiset(b) + multiset(m) + multiset(a);
      multiset(b + m + a);
    }
  }
}
