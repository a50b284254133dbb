/** Stream mode of a control session: which frames go through its writer, in which order, and what
    the peer therefore sees. */
module StreamSession {
  import opened Wrappers
  import opened Netstring
  import opened FrameWriter

  /** A frame by its role; stream frames carry the number of their subscription. */
  datatype Item = Response
                | StartResponse(gen: nat) | StartedNotice(gen: nat) | StreamItem(gen: nat)
                | StopResponse(gen: nat)

  /** Nothing of a subscription follows the response to its STREAM.STOP. */
  ghost predicate StopIsLast(wire: seq<Item>) {
    forall i, j :: 0 <= i < j < |wire| && wire[i].StopResponse? ==>
      wire[j].Response? || wire[j].gen != wire[i].gen
  }

  /** A stream frame comes after its started notice, which comes after the start response. */
  ghost predicate StartIsFirst(wire: seq<Item>) {
    && (forall j :: 0 <= j < |wire| && wire[j].StreamItem? ==> StartedNotice(wire[j].gen) in wire[..j])
    && (forall j :: 0 <= j < |wire| && wire[j].StartedNotice? ==> StartResponse(wire[j].gen) in wire[..j])
  }

  /** What has been handed to the writer and not dropped keeps the protocol, and the running
      subscription can still go on. */
  ghost predicate Proper(pipeline: seq<Item>, nextGen: nat, active: Option<nat>) {
    && StopIsLast(pipeline) && StartIsFirst(pipeline)
    && (forall i :: 0 <= i < |pipeline| && !pipeline[i].Response? ==> pipeline[i].gen < nextGen)
    && (active.Some? ==> active.value < nextGen && StopResponse(active.value) !in pipeline)
  }

  ghost function Begun(pipeline: seq<Item>, started: nat): seq<Item> {
    if started <= |pipeline| then pipeline[..started] else pipeline
  }

  /** Between turns of the session loop only stream items can be waiting, and the subscription that
      runs has been announced. */
  ghost predicate AtRest(pipeline: seq<Item>, started: nat, nextGen: nat, active: Option<nat>) {
    && Proper(pipeline, nextGen, active) && started <= |pipeline|
    && (forall i :: started <= i < |pipeline| ==> pipeline[i].StreamItem?)
    && (active.Some? ==> StartedNotice(active.value) in pipeline[..started])
  }

  /** A frame that may follow. */
  ghost predicate MayFollow(pipeline: seq<Item>, nextGen: nat, active: Option<nat>, x: Item) {
    && (!x.Response? ==> x.gen < nextGen && StopResponse(x.gen) !in pipeline)
    && (x.StopResponse? ==> active.None?)
    && (x.StreamItem? ==> StartedNotice(x.gen) in pipeline)
    && (x.StartedNotice? ==> StartResponse(x.gen) in pipeline)
  }

  lemma AppendedStop(s: seq<Item>, x: Item)
    requires StopIsLast(s) && (!x.Response? ==> StopResponse(x.gen) !in s)
    ensures StopIsLast(s + [x])
  {
    forall i, j | 0 <= i < j < |s + [x]| && (s + [x])[i].StopResponse?
      ensures (s + [x])[j].Response? || (s + [x])[j].gen != (s + [x])[i].gen
    {
      assert (s + [x])[i] == s[i] && (j < |s| ==> (s + [x])[j] == s[j]);
    }
  }

  lemma AppendedStart(s: seq<Item>, x: Item)
    requires StartIsFirst(s) && (x.StreamItem? ==> StartedNotice(x.gen) in s)
    requires (x.StartedNotice? ==> StartResponse(x.gen) in s)
    ensures StartIsFirst(s + [x])
  {
    assert (s + [x])[..|s|] == s;
    forall j | 0 <= j < |s| ensures (s + [x])[j] == s[j] && (s + [x])[..j] == s[..j] {}
  }

  lemma Appended(s: seq<Item>, nextGen: nat, active: Option<nat>, x: Item)
    requires Proper(s, nextGen, active) && MayFollow(s, nextGen, active, x)
    ensures Proper(s + [x], nextGen, active)
  {
    AppendedStop(s, x);
    AppendedStart(s, x);
  }

  lemma Shortened(s: seq<Item>, nextGen: nat, active: Option<nat>, n: nat)
    requires Proper(s, nextGen, active) && n <= |s|
    ensures Proper(s[..n], nextGen, active)
  {
    forall j | 0 <= j < n ensures s[..n][..j] == s[..j] {}
    assert forall x | x in s[..n] :: x in s;
  }

  lemma EventMayFollow(s: seq<Item>, started: nat, nextGen: nat, gen: nat)
    requires AtRest(s, started, nextGen, Some(gen))
    ensures MayFollow(s, nextGen, Some(gen), StreamItem(gen))
    ensures AtRest(s + [StreamItem(gen)], started, nextGen, Some(gen))
  {
    assert StartedNotice(gen) in s;
    Appended(s, nextGen, Some(gen), StreamItem(gen));
    assert (s + [StreamItem(gen)])[..started] == s[..started];
  }

  lemma StartedIsAtRest(s: seq<Item>, nextGen: nat, gen: nat)
    requires Proper(s + [StartedNotice(gen)], nextGen, Some(gen))
    ensures AtRest(s + [StartedNotice(gen)], |s| + 1, nextGen, Some(gen))
  {
    var t := s + [StartedNotice(gen)];
    assert t[..|s| + 1] == t && t[|s|] == StartedNotice(gen);
  }

  lemma FreshGen(s: seq<Item>, nextGen: nat)
    requires Proper(s, nextGen, None)
    ensures Proper(s, nextGen + 1, Some(nextGen)) && MayFollow(s, nextGen + 1, Some(nextGen), StartResponse(nextGen))
  {
  }

  lemma StopMayFollow(s: seq<Item>, nextGen: nat, gen: nat)
    requires Proper(s, nextGen, Some(gen))
    ensures Proper(s, nextGen, None) && MayFollow(s, nextGen, None, StopResponse(gen))
  {
  }

  lemma NothingYet()
    ensures AtRest([], 0, 0, None) && Frames<Item>([], []) == []
  {
  }

  /** The frames of a writer are the encodings of the payloads. */
  ghost predicate Encodes(items: seq<Item>, payloads: seq<string>, pipeline: seq<Item>, max: nat, enqueued: seq<string>,
                          order: seq<nat>) {
    && |items| == |payloads| == |enqueued| && (forall i :: 0 <= i < |order| ==> order[i] < |items|)
    && pipeline == Frames(items, order) && Fits(max, payloads)
    && forall i :: 0 <= i < |payloads| ==> enqueued[i] == Encode(payloads[i])
  }

  class Session {
    const writer: FrameWriter
    const maxResponseBytes: nat
    var active: Option<nat>
    var pendingStarted: Option<nat>
    var closed: bool
    var nextGen: nat

    // History: role and payload of every frame ever handed to the writer, and the roles of those
    // that were not dropped.
    ghost var items: seq<Item>
    ghost var payloads: seq<string>
    ghost var pipeline: seq<Item>

    ghost predicate Framed()
      reads this`items, this`payloads, this`pipeline, writer
    {
      writer.Valid() && Encodes(items, payloads, pipeline, maxResponseBytes, writer.enqueued, writer.order)
    }

    /** The frames that are, or have been, on their way. */
    ghost function Wire(): seq<Item>
      reads this`pipeline, writer`started
    {
      Begun(pipeline, writer.started)
    }

    ghost predicate Ordered()
      reads this, writer
    {
      Framed() && Proper(pipeline, nextGen, active)
    }

    /** The state between turns of the session loop. */
    ghost predicate Valid()
      reads this, writer
    {
      Ordered() && pendingStarted.None? && (!closed ==> AtRest(pipeline, writer.started, nextGen, active))
    }

    constructor (maxResponseBytes: nat)
      requires maxResponseBytes <= MAX_SIZE
      ensures Valid() && fresh(writer) && !closed && pipeline == [] && this.maxResponseBytes == maxResponseBytes
    {
      var w := new FrameWriter();
      writer := w;
      this.maxResponseBytes := maxResponseBytes;
      active, pendingStarted, closed, nextGen := None, None, false, 0;
      items, payloads, pipeline := [], [], [];
      new;
      NothingYet();
    }

    /** Hand one frame to the writer. */
    method Push(x: Item, payload: string)
      requires Ordered() && MayFollow(pipeline, nextGen, active, x) && |payload| <= maxResponseBytes <= MAX_SIZE
      modifies this`items, this`payloads, this`pipeline, writer`queue, writer`enqueued, writer`order
      ensures Ordered() && pipeline == old(pipeline) + [x]
    {
      Appended(pipeline, nextGen, active, x);
      writer.Enqueue(Encode(payload));
      items, payloads, pipeline := items + [x], payloads + [payload], pipeline + [x];
    }

    /** Drop what is waiting. */
    method DropQueued()
      requires Ordered()
      modifies this`pipeline, writer`queue, writer`order
      ensures Ordered() && pipeline == old(Wire()) && writer.started == |pipeline|
    {
      Shortened(pipeline, nextGen, active, writer.started);
      writer.ClearQueue();
      pipeline := pipeline[..writer.started];
    }

    /** One non-blocking flush of the session loop. */
    method Write(results: seq<WriteResult>) returns (ok: bool)
      requires Valid()
      modifies writer`queue, writer`current, writer`offset, writer`started, writer`written
      ensures Valid() && old(Wire()) <= Wire() && pipeline == old(pipeline)
    {
      ghost var n;
      ok, n := writer.FlushOnce(results);
      assert old(Wire()) <= Wire();
    }

    method FlushBlocking(rounds: seq<seq<WriteResult>>) returns (ok: bool)
      requires Ordered()
      modifies writer`queue, writer`current, writer`offset, writer`started, writer`written
      ensures Ordered() && old(Wire()) <= Wire() && pipeline == old(pipeline)
      ensures ok ==> writer.Completed() == |writer.order| && Wire() == pipeline
    {
      ok := writer.FlushAll(rounds);
    }

    /** Hand over one frame and write everything out; a payload that is too large, an error or a
        deadline ends the session. */
    method EnqueueAndFlush(x: Item, payload: string, rounds: seq<seq<WriteResult>>)
      requires !closed && Ordered() && MayFollow(pipeline, nextGen, active, x) && maxResponseBytes <= MAX_SIZE
      modifies this`items, this`payloads, this`pipeline, this`closed, writer
      ensures Ordered() && old(Wire()) <= Wire()
      ensures !closed ==> Wire() == pipeline == old(pipeline) + [x]
      ensures |payload| > maxResponseBytes ==> closed
    {
      if |payload| > maxResponseBytes {
        closed := true;
        return;
      }
      Push(x, payload);
      var ok := FlushBlocking(rounds);
      closed := !ok;
    }

    /** Any command that is neither STREAM.START nor STREAM.STOP, or one that is refused. */
    method Answer(payload: string, rounds: seq<seq<WriteResult>>)
      requires Valid() && !closed && maxResponseBytes <= MAX_SIZE
      modifies this`items, this`payloads, this`pipeline, this`closed, writer
      ensures Valid() && old(Wire()) <= Wire()
      ensures !closed ==> Wire() == pipeline == old(pipeline) + [Response]
    {
      EnqueueAndFlush(Response, payload, rounds);
    }

    /** STREAM.START: the response, then the started notice. */
    method Start(payload: string, notice: string, rounds: seq<seq<WriteResult>>, rounds2: seq<seq<WriteResult>>)
      requires Valid() && !closed && maxResponseBytes <= MAX_SIZE
      modifies this, writer
      ensures Valid() && old(Wire()) <= Wire()
      ensures old(active).Some? ==> active == old(active)
      ensures old(active).None? && !closed ==>
        Wire() == pipeline == old(pipeline) + [StartResponse(old(nextGen))] + [StartedNotice(old(nextGen))]
    {
      if active.Some? {
        Answer(payload, rounds);
      } else {
        var gen := Subscribe(payload, rounds);
        pendingStarted := None;
        if !closed {
          ghost var before := pipeline;
          EnqueueAndFlush(StartedNotice(gen), notice, rounds2);
          if !closed {
            StartedIsAtRest(before, nextGen, gen);
          }
        }
      }
    }

    /** A new subscription and the response that tells of it. */
    method Subscribe(payload: string, rounds: seq<seq<WriteResult>>) returns (gen: nat)
      requires Ordered() && !closed && active.None? && maxResponseBytes <= MAX_SIZE
      modifies this, writer
      ensures Ordered() && old(Wire()) <= Wire() && gen == old(nextGen) && nextGen == gen + 1
      ensures active == pendingStarted == Some(gen)
      ensures !closed ==> Wire() == pipeline == old(pipeline) + [StartResponse(gen)]
    {
      FreshGen(pipeline, nextGen);
      gen := nextGen;
      nextGen := nextGen + 1;
      active := Some(gen);
      pendingStarted := Some(gen);
      EnqueueAndFlush(StartResponse(gen), payload, rounds);
    }

    /** STREAM.STOP: waiting stream frames are dropped before the response is handed over. */
    method Stop(payload: string, rounds: seq<seq<WriteResult>>)
      requires Valid() && !closed && maxResponseBytes <= MAX_SIZE
      modifies this, writer
      ensures Valid() && old(Wire()) <= Wire() && active.None?
      ensures old(active).Some? && !closed ==> Wire() == pipeline == old(Wire()) + [StopResponse(old(active).value)]
    {
      if active.None? {
        Answer(payload, rounds);
      } else {
        var gen := Unsubscribe();
        EnqueueAndFlush(StopResponse(gen), payload, rounds);
      }
    }

    /** The end of a subscription: what waits of it is dropped. */
    method Unsubscribe() returns (gen: nat)
      requires Ordered() && active.Some?
      modifies this`active, this`pendingStarted, this`pipeline, writer`queue, writer`order
      ensures Ordered() && pipeline == Wire() == old(Wire()) && active.None? && pendingStarted.None?
      ensures Some(gen) == old(active)
      ensures MayFollow(pipeline, nextGen, active, StopResponse(gen))
    {
      gen := active.value;
      DropQueued();
      StopMayFollow(pipeline, nextGen, gen);
      active := None;
      pendingStarted := None;
    }

    /** The stream writer hands over one event or notice of the active stream; one that is too large
        ends the session. */
    method Pump(event: string)
      requires Valid() && !closed && maxResponseBytes <= MAX_SIZE
      modifies this`items, this`payloads, this`pipeline, this`closed, writer`queue, writer`enqueued, writer`order
      ensures Valid() && Wire() == old(Wire())
      ensures closed <==> active.Some? && |event| > maxResponseBytes
      ensures pipeline == old(pipeline) + if active.Some? && !closed then [StreamItem(active.value)] else []
    {
      if active.Some? {
        if |event| > maxResponseBytes {
          closed := true;
        } else {
          HandOver(active.value, event);
        }
      }
    }

    method HandOver(gen: nat, event: string)
      requires Valid() && !closed && active == Some(gen) && |event| <= maxResponseBytes <= MAX_SIZE
      modifies this`items, this`payloads, this`pipeline, writer`queue, writer`enqueued, writer`order
      ensures Valid() && Wire() == old(Wire()) && pipeline == old(pipeline) + [StreamItem(gen)]
    {
      EventMayFollow(pipeline, writer.started, nextGen, gen);
      Push(StreamItem(gen), event);
    }
  }

  /** What a peer decodes from the bytes written so far: the payloads of frames in protocol order, with
      nothing of a stopped stream behind its stop response and nothing of a stream in front of its
      start. */
  lemma PeerSeesProtocol(s: Session)
    requires s.Ordered()
    ensures 0 <= s.writer.Completed() <= |s.pipeline|
    ensures var seen := s.pipeline[..s.writer.Completed()];
      && Decode(s.maxResponseBytes, s.writer.written).frames ==
         Frames(s.payloads, s.writer.order)[..s.writer.Completed()]
      && Decode(s.maxResponseBytes, s.writer.written).error.None?
      && StopIsLast(seen) && StartIsFirst(seen)
  {
    PeerRecovers(s.writer, s.maxResponseBytes, s.payloads);
    Shortened(s.pipeline, s.nextGen, s.active, s.writer.Completed());
  }
}
