/** The outgoing side of a control session: a queue of encoded frames written with partial,
    interruptible writes, and the order of responses, notices and events on the wire. */
module FrameWriter {
  import opened Wrappers
  import opened Netstring

  /** What one `write` call reports. */
  datatype WriteResult = Wrote(n: nat) | Interrupted | WouldBlock | Failed

  function Frames<T>(all: seq<T>, indexes: seq<nat>): seq<T>
    requires forall i :: 0 <= i < |indexes| ==> indexes[i] < |all|
  {
    seq(|indexes|, i requires 0 <= i < |indexes| => all[indexes[i]])
  }

  ghost predicate Increasing(s: seq<nat>, bound: nat) {
    && (forall i :: 0 <= i < |s| ==> s[i] < bound)
    && forall i, j :: 0 <= i < j < |s| ==> s[i] < s[j]
  }

  predicate Fatal(r: WriteResult) { r.Failed? || r == Wrote(0) }

  predicate Goes(r: WriteResult) { r.Interrupted? || (r.Wrote? && r.n > 0) }

  ghost function Done(current: string, started: nat): int { if current == "" then started else started - 1 }

  /** Frames are started in the order in which they were enqueued, and the bytes written are all
      completed frames followed by a beginning of the current one. */
  ghost predicate Sound(queue: seq<string>, current: string, offset: nat, enqueued: seq<string>, order: seq<nat>,
                        started: nat, written: string) {
    && Increasing(order, |enqueued|) && started + |queue| == |order|
    && queue == Frames(enqueued, order)[started..]
    && (current == "" ==> offset == 0)
    && (current != "" ==> started > 0 && current == enqueued[order[started - 1]] && offset < |current|)
    && written == Join(Frames(enqueued, order)[..Done(current, started)]) + current[..offset]
  }

  class FrameWriter {
    var queue: seq<string>
    var current: string
    var offset: nat

    // History: every frame ever enqueued; the ones not dropped, by position in that list, of
    // which the first `started` have been taken off the queue; every byte the socket took.
    ghost var enqueued: seq<string>
    ghost var order: seq<nat>
    ghost var started: nat
    ghost var written: string

    /** Number of started frames that have been written to their last byte. */
    ghost function Completed(): int
      reads this`current, this`started
    {
      Done(current, started)
    }

    ghost predicate Valid()
      reads this
    {
      Sound(queue, current, offset, enqueued, order, started, written)
    }

    constructor ()
      ensures Valid() && enqueued == [] && written == "" && order == [] && started == 0
    {
      queue, current, offset := [], "", 0;
      enqueued, order, started, written := [], [], 0, "";
    }

    /** Drops what is waiting; a frame that has been started is not touched. */
    method ClearQueue()
      requires Valid()
      modifies this`queue, this`order
      ensures Valid() && queue == [] && order == old(order)[..started]
    {
      queue, order := [], order[..started];
      assert Frames(enqueued, order) == Frames(enqueued, old(order))[..started];
      assert Frames(enqueued, order)[..Completed()] == Frames(enqueued, old(order))[..Completed()];
    }

    /** Some frame that has not been dropped is not yet written to its last byte. */
    method HasPending() returns (r: bool)
      requires Valid()
      ensures r <==> Completed() < |order|
    {
      r := current != "" || queue != [];
    }

    method Enqueue(frame: string)
      requires Valid()
      modifies this`queue, this`enqueued, this`order
      ensures Valid()
      ensures queue == old(queue) + [frame] && enqueued == old(enqueued) + [frame]
      ensures order == old(order) + [|old(enqueued)|]
    {
      queue := queue + [frame];
      order := order + [|enqueued|];
      enqueued := enqueued + [frame];
      assert Frames(enqueued, order) == Frames(old(enqueued), old(order)) + [frame];
      assert Frames(enqueued, order)[..Completed()] == Frames(old(enqueued), old(order))[..Completed()];
    }

    /** Writes until the queue is empty or the socket will not take more; `results` are the outcomes
        of the writes, of which `n` are used up and after which the socket would block. False is a fatal
        error: a write that failed or took nothing. */
    method FlushOnce(results: seq<WriteResult>) returns (ok: bool, ghost n: nat)
      requires Valid()
      modifies this`queue, this`current, this`offset, this`started, this`written
      ensures Valid() && old(written) <= written && old(started) <= started
      ensures n <= |results| && forall i | 0 <= i < n - 1 :: Goes(results[i])
      ensures n > 0 && Fatal(results[n - 1]) ==> !ok
      ensures !ok ==> (n > 0 && Fatal(results[n - 1])) || "" in old(queue)
      ensures ok ==> Completed() == |order| || n == |results| || (n > 0 && results[n - 1].WouldBlock?)
    {
      var k := 0;
      n := 0;
      while true
        invariant Valid() && k == n <= |results| && (forall i | 0 <= i < n :: Goes(results[i]))
        invariant old(written) <= written && old(started) <= started && (forall x | x in queue :: x in old(queue))
        decreases |results| - k, |queue|
      {
        if current == "" {
          if queue == [] {
            return true, n;
          }
          TakeFront();
          if current == "" {
            return false, n;
          }
        }
        if k == |results| {
          return true, n;
        }
        k, n := k + 1, n + 1;
        if results[k - 1].WouldBlock? {
          return true, n;
        }
        if Fatal(results[k - 1]) {
          return false, n;
        }
        if results[k - 1].Wrote? {
          Accept(if results[k - 1].n < |current| - offset then results[k - 1].n else |current| - offset);
        }
      }
    }

    /** Flush until nothing is pending. False is a fatal error, or running out of `rounds` before the
        deadline. */
    method FlushAll(rounds: seq<seq<WriteResult>>) returns (ok: bool)
      requires Valid()
      modifies this`queue, this`current, this`offset, this`started, this`written
      ensures Valid() && old(written) <= written && old(started) <= started
      ensures ok ==> Completed() == |order|
    {
      var k := 0;
      while true
        invariant Valid() && k <= |rounds| && old(written) <= written && old(started) <= started
        decreases |rounds| - k
      {
        var pending := HasPending();
        if !pending || k == |rounds| {
          return !pending;
        }
        ghost var n;
        ok, n := FlushOnce(rounds[k]);
        k := k + 1;
        if !ok {
          return false;
        }
      }
    }

    /** The front of the queue becomes the current frame. */
    method TakeFront()
      requires Valid() && current == "" && queue != []
      modifies this`queue, this`current, this`offset, this`started
      ensures Valid() && current == old(queue)[0] && queue == old(queue)[1..] && started == old(started) + 1
    {
      ghost var all := Frames(enqueued, order);
      current, queue, offset := queue[0], queue[1..], 0;
      started := started + 1;
      if current == "" {
        assert all[..started] == all[..started - 1] + [""];
        JoinSnoc(all[..started - 1], "");
      }
    }

    /** The socket takes `n` more bytes of the current frame. */
    method Accept(n: nat)
      requires Valid() && current != "" && 0 < n <= |current| - offset
      modifies this`current, this`offset, this`written
      ensures Valid() && old(written) <= written
    {
      ghost var all := Frames(enqueued, order);
      assert current[..offset] + current[offset..offset + n] == current[..offset + n];
      written := written + current[offset..offset + n];
      offset := offset + n;
      if offset >= |current| {
        assert all[..started] == all[..started - 1] + [current] && current[..offset] == current;
        JoinSnoc(all[..started - 1], current);
        current := "";
        offset := 0;
      }
    }
  }

  lemma {:induction false} JoinSnoc(fs: seq<string>, f: string)
    ensures Join(fs + [f]) == Join(fs) + f
  {
    if fs == [] {
      assert [] + [f] == [f] && Join([f]) == f + Join([]);
    } else {
      JoinSnoc(fs[1..], f);
      assert (fs + [f])[1..] == fs[1..] + [f];
    }
  }

  lemma {:induction false} JoinOfEncoded(payloads: seq<string>, frames: seq<string>)
    requires |frames| == |payloads| && forall i :: 0 <= i < |payloads| ==> frames[i] == Encode(payloads[i])
    ensures Join(frames) == EncodeAll(payloads)
  {
    if payloads != [] {
      JoinOfEncoded(payloads[1..], frames[1..]);
    }
  }

  /** A peer that decodes what has been written gets exactly the payloads of the completed
      frames, in order, no error, and keeps the beginning of the frame under way. */
  lemma PeerRecoversCompleted(max: nat, payloads: seq<string>, frames: seq<string>, next: string, k: nat)
    requires |frames| == |payloads| && forall i :: 0 <= i < |payloads| ==> frames[i] == Encode(payloads[i])
    requires Fits(max, payloads) && |next| <= max && |next| <= MAX_SIZE && k < |Encode(next)|
    ensures Decode(max, Join(frames) + Encode(next)[..k]) == Decoded(payloads, Encode(next)[..k], None)
  {
    JoinOfEncoded(payloads, frames);
    PrefixIsSettled(max, next, k);
    DecodeEncodeAll(max, payloads, Encode(next)[..k]);
  }

  /** The same for a writer at any moment: if every frame ever enqueued encodes a payload, the
      peer holds the payloads of the completed frames, in the order they were enqueued. */
  lemma PeerRecovers(w: FrameWriter, max: nat, payloads: seq<string>)
    requires w.Valid() && |payloads| == |w.enqueued| && Fits(max, payloads)
    requires forall i :: 0 <= i < |payloads| ==> w.enqueued[i] == Encode(payloads[i])
    ensures Decode(max, w.written) == Decoded(Frames(payloads, w.order)[..w.Completed()], w.current[..w.offset], None)
  {
    var sent := Frames(payloads, w.order)[..w.Completed()];
    var frames := Frames(w.enqueued, w.order)[..w.Completed()];
    if w.current == "" {
      PeerRecoversCompleted(max, sent, frames, "", 0);
      assert Encode("")[..0] == "";
    } else {
      PeerRecoversCompleted(max, sent, frames, payloads[w.order[w.started - 1]], w.offset);
    }
  }
}
