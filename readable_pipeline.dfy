/** The pipeline of `common/ReadablePipeline.java`: a FIFO queue of channel writers, one per
    pending response, in which only the writer at the head writes to the channel. Unlike the
    writable pipeline, each writer keeps its own buffer list and `ended` flag. */
module ReadablePipelines {
  import opened Text

  /** A queued writer as the flushing code sees it: its identity and its two fields. */
  datatype Entry = Entry(writer: ChannelWriter, ended: bool, buffers: seq<seq<byte>>)

  /** The pipeline's state as the flushing code sees it. */
  datatype Line = Line(queue: seq<Entry>, closeWhenDone: bool, written: seq<seq<byte>>, closed: bool)

  /** The writers of a queue, each with its current fields. */
  ghost function Views(q: seq<ChannelWriter>): (r: seq<Entry>)
    reads q
    ensures |r| == |q|
  {
    if q == [] then [] else [Entry(q[0], q[0].ended, q[0].buffers)] + Views(q[1..])
  }

  /** `flush` of writer `w`: nothing unless `w` is at the head; otherwise its buffers are written
      in order, the head is taken off and `flushCompleted` runs. The flag says whether the call
      ends up waiting in a `take` on an empty queue, which it never returns from. */
  function FlushOf(s: Line, w: ChannelWriter): (r: (Line, bool))
    ensures |r.0.queue| <= |s.queue|
    decreases 3 * |s.queue| + 2
  {
    if s.queue == [] || s.queue[0].writer != w then (s, false)
    else FlushCompletedOf(s.(written := s.written + s.queue[0].buffers, queue := s.queue[1..]))
  }

  /** `flushCompleted`: the loop over the top of the queue, then, if the call got that far, the
      channel is closed when the queue is empty and close-when-done is set. */
  function FlushCompletedOf(s: Line): (r: (Line, bool))
    ensures |r.0.queue| <= |s.queue|
    decreases 3 * |s.queue| + 4
  {
    var r := LoopOf(s, if s.queue == [] then None else Some(s.queue[0]));
    if r.1 then r else (CloseIfDone(r.0), false)
  }

  /** The `while` loop of `flushCompleted` from the writer `top`: while it is present, buffering
      and ended, flush it and take the next writer off the queue as the new top; a take from an
      empty queue waits forever. */
  function LoopOf(s: Line, top: Option<Entry>): (r: (Line, bool))
    ensures |r.0.queue| <= |s.queue|
    decreases 3 * |s.queue| + 3
  {
    if top.None? || !Continues(top.value) then (s, false)
    else
      var f := FlushOf(s, top.value.writer);
      if f.1 then f
      else if f.0.queue == [] then (f.0, true)
      else LoopOf(f.0.(queue := f.0.queue[1..]), Some(f.0.queue[0]))
  }

  /** Whether the loop of `flushCompleted` goes on past this writer: it is buffering and ended. */
  predicate Continues(e: Entry)
  {
    e.buffers != [] && e.ended
  }

  function CloseIfDone(s: Line): Line
  {
    if s.queue == [] && s.closeWhenDone then s.(closed := true) else s
  }

  class ReadablePipeline {
    var queue: seq<ChannelWriter>
    var closeWhenDone: bool
    var written: seq<seq<byte>>
    var closed: bool

    ghost function State(): Line
      reads this, queue
    {
      Line(Views(queue), closeWhenDone, written, closed)
    }

    /** A pipeline over a fresh channel: no writers, nothing written. */
    constructor()
      ensures queue == [] && !closeWhenDone && written == [] && !closed
    {
      queue, written := [], [];
      closeWhenDone, closed := false, false;
    }

    /** The queue's `put`, as the subclasses use it: the writer joins the tail. */
    method Push(w: ChannelWriter)
      modifies this`queue
      ensures queue == old(queue) + [w]
    {
      queue := queue + [w];
    }

    /** The queue's `take` on a non-empty queue: the head comes off. */
    method Take() returns (w: ChannelWriter)
      requires queue != []
      modifies this`queue
      ensures w == old(queue[0]) && queue == old(queue[1..])
      ensures State() == old(State()).(queue := old(State()).queue[1..])
      ensures View(Some(w)) == Some(old(State()).queue[0])
    {
      ViewsDrop(queue);
      w := queue[0];
      queue := queue[1..];
    }

    /** The body of `ChannelWriter.flush` for writer `w`. */
    method FlushWriter(w: ChannelWriter) returns (hung: bool)
      modifies this`queue, this`written, this`closed
      ensures (State(), hung) == FlushOf(old(State()), w)
      decreases 3 * |queue| + 2
    {
      hung := false;
      if queue != [] && queue[0] == w {
        var i := 0;
        while i < |w.buffers|
          invariant 0 <= i <= |w.buffers|
          invariant written == old(written) + w.buffers[..i]
          invariant queue == old(queue) && closed == old(closed)
        {
          written := written + [w.buffers[i]];
          i := i + 1;
        }
        assert w.buffers[..i] == w.buffers;
        queue := queue[1..];
        ghost var taken := State();
        assert taken == old(State()).(written := old(written) + w.buffers, queue := old(State()).queue[1..]);
        assert FlushOf(old(State()), w) == FlushCompletedOf(taken);
        hung := FlushCompleted();
      }
    }

    method FlushCompleted() returns (hung: bool)
      modifies this`queue, this`written, this`closed
      ensures (State(), hung) == FlushCompletedOf(old(State()))
      decreases 3 * |queue| + 4
    {
      ghost var s0 := State();
      var top: Option<ChannelWriter> := if queue == [] then None else Some(queue[0]);
      ghost var goal := LoopOf(s0, View(top));
      assert FlushCompletedOf(s0) == if goal.1 then goal else (CloseIfDone(goal.0), false);
      while top.Some? && top.value.IsBuffering() && top.value.ended
        invariant State() == s0.(queue := State().queue, written := written, closed := closed)
        invariant |queue| <= |s0.queue|
        invariant LoopOf(State(), View(top)) == goal
        decreases |queue|
      {
        ghost var before := State();
        hung := FlushWriter(top.value);
        ghost var f := FlushOf(before, top.value);
        assert (State(), hung) == f;
        if hung {
          assert goal == f;
          return;
        }
        if queue == [] {
          hung := true;
          assert goal == (f.0, true);
          return;
        }
        var next := Take();
        top := Some(next);
        assert State() == f.0.(queue := f.0.queue[1..]);
      }
      assert goal == (State(), false);
      hung := false;
      if queue == [] && closeWhenDone {
        closed := true;
      }
      assert State() == CloseIfDone(goal.0);
    }
  }

  /** The writer `top` with its current fields. */
  ghost function View(top: Option<ChannelWriter>): Option<Entry>
    reads if top.Some? then {top.value} else {}
  {
    if top.None? then None else Some(Entry(top.value, top.value.ended, top.value.buffers))
  }

  /** `ReadablePipeline.ChannelWriter`: an inner object of its pipeline with its own buffer list
      and `ended` flag. */
  class ChannelWriter {
    const pipe: ReadablePipeline
    var ended: bool
    var buffers: seq<seq<byte>>

    constructor(p: ReadablePipeline)
      ensures pipe == p && !ended && buffers == []
    {
      pipe := p;
      ended, buffers := false, [];
    }

    /** `isBuffering`. */
    predicate IsBuffering()
      reads this
    {
      |buffers| > 0
    }

    /** `write(bytes, handler)`: at the head the bytes go to the channel; elsewhere they are kept
        in this writer's buffers and a supplied handler is told at once that 0 bytes were
        written. For a direct write the channel tells the handler later (`told` is `None`). */
    method Write(bytes: seq<byte>, hasHandler: bool) returns (told: Option<int>)
      modifies this`buffers, pipe`written
      ensures old(pipe.queue) != [] && old(pipe.queue[0]) == this ==>
        pipe.written == old(pipe.written) + [bytes] && buffers == old(buffers) && told == None
      ensures !(old(pipe.queue) != [] && old(pipe.queue[0]) == this) ==>
        pipe.written == old(pipe.written) && buffers == old(buffers) + [bytes] && IsBuffering() &&
        told == if hasHandler then Some(0) else None
    {
      told := None;
      if pipe.queue != [] && pipe.queue[0] == this {
        pipe.written := pipe.written + [bytes];
      } else {
        buffers := buffers + [bytes];
        if hasHandler {
          told := Some(0);
        }
      }
    }

    /** `closeWhenDone`: sets the flag of the whole pipeline. */
    method CloseWhenDone()
      modifies pipe`closeWhenDone
      ensures pipe.closeWhenDone
    {
      pipe.closeWhenDone := true;
    }

    /** `end`: mark this writer ended and flush it. */
    method End() returns (hung: bool)
      modifies this`ended, pipe`queue, pipe`written, pipe`closed
      ensures ended && buffers == old(buffers)
      ensures (pipe.State(), hung) ==
        FlushOf(Line(Views(old(pipe.queue)), old(pipe.closeWhenDone), old(pipe.written), old(pipe.closed)), this)
    {
      ended := true;
      label marked:
      hung := Flush();
      ViewsKept@marked(old(pipe.queue));
    }

    /** `flush`. */
    method Flush() returns (hung: bool)
      modifies pipe`queue, pipe`written, pipe`closed
      ensures (pipe.State(), hung) == FlushOf(old(pipe.State()), this)
    {
      hung := pipe.FlushWriter(this);
    }
  }

  /** The views of writers whose fields did not change are the same. */
  twostate lemma {:induction false} ViewsKept(q: seq<ChannelWriter>)
    requires forall i :: 0 <= i < |q| ==> q[i].ended == old(q[i].ended) && q[i].buffers == old(q[i].buffers)
    ensures Views(q) == old(Views(q))
  {
    if q != [] {
      ViewsKept(q[1..]);
    }
  }

  lemma ViewsDrop(q: seq<ChannelWriter>)
    requires q != []
    ensures Views(q[1..]) == Views(q)[1..]
  {
  }
  // ---------------------------------------------------------------------------------------
  // Properties

  /** What a flush may do: take writers off the front of the queue only, add channel writes
      after the earlier ones, and close the channel only once the queue is empty and
      close-when-done is set. */
  ghost predicate Settles(s: Line, t: Line)
  {
    t.closeWhenDone == s.closeWhenDone
    && |t.queue| <= |s.queue| && t.queue == s.queue[|s.queue| - |t.queue|..]
    && s.written <= t.written
    && (t.closed ==> s.closed || (t.queue == [] && s.closeWhenDone))
  }

  lemma SettlesTransitive(s: Line, t: Line, u: Line)
    requires Settles(s, t) && Settles(t, u)
    ensures Settles(s, u)
  {
    var n, k := |s.queue|, |t.queue|;
    assert u.queue == s.queue[n - k..][k - |u.queue|..];
  }

  lemma {:induction false} FlushSettles(s: Line, w: ChannelWriter)
    ensures Settles(s, FlushOf(s, w).0)
    decreases 3 * |s.queue| + 2
  {
    if s.queue != [] && s.queue[0].writer == w {
      var taken := s.(written := s.written + s.queue[0].buffers, queue := s.queue[1..]);
      FlushCompletedSettles(taken);
      assert Settles(s, taken) by {
        assert taken.queue == s.queue[|s.queue| - |taken.queue|..];
      }
      SettlesTransitive(s, taken, FlushOf(s, w).0);
    }
  }

  lemma {:induction false} FlushCompletedSettles(s: Line)
    ensures Settles(s, FlushCompletedOf(s).0)
    decreases 3 * |s.queue| + 4
  {
    var top := if s.queue == [] then None else Some(s.queue[0]);
    var r := LoopOf(s, top);
    LoopSettles(s, top);
    if !r.1 {
      SettlesTransitive(s, r.0, CloseIfDone(r.0));
    }
  }

  lemma {:induction false} LoopSettles(s: Line, top: Option<Entry>)
    ensures Settles(s, LoopOf(s, top).0)
    decreases 3 * |s.queue| + 3
  {
    if top.Some? && Continues(top.value) {
      var f := FlushOf(s, top.value.writer);
      FlushSettles(s, top.value.writer);
      if !f.1 && f.0.queue != [] {
        var next := f.0.(queue := f.0.queue[1..]);
        assert Settles(f.0, next);
        LoopSettles(next, Some(f.0.queue[0]));
        SettlesTransitive(f.0, next, LoopOf(next, Some(f.0.queue[0])).0);
        SettlesTransitive(s, f.0, LoopOf(next, Some(f.0.queue[0])).0);
      }
    }
  }

  /** Flushing the head writes its buffers in order and takes it off; when the next writer is
      missing, or not both buffering and ended, nothing else happens (but the close check). */
  lemma FlushHead(s: Line, w: ChannelWriter)
    requires s.queue != [] && s.queue[0].writer == w
    requires |s.queue| == 1 || !Continues(s.queue[1])
    ensures FlushOf(s, w) ==
      (CloseIfDone(s.(written := s.written + s.queue[0].buffers, queue := s.queue[1..])), false)
  {
    var taken := s.(written := s.written + s.queue[0].buffers, queue := s.queue[1..]);
    assert FlushOf(s, w) == FlushCompletedOf(taken);
  }

  /** The second `take` of the loop: when the second writer is buffering and ended but the third
      is not, flushing the head writes the first two writers' buffers and also takes the third
      writer off the queue, so its output never reaches the channel. */
  lemma DoubleTakeDropsWriter(s: Line, w: ChannelWriter, e1: Entry, e2: Entry, e3: Entry, rest: seq<Entry>)
    requires s.queue == [e1, e2, e3] + rest && e1.writer == w
    requires Continues(e2) && !Continues(e3)
    ensures FlushOf(s, w) ==
      (CloseIfDone(s.(written := s.written + e1.buffers + e2.buffers, queue := rest)), false)
  {
    var taken1 := s.(written := s.written + e1.buffers, queue := [e2, e3] + rest);
    var taken2 := taken1.(written := taken1.written + e2.buffers, queue := [e3] + rest);
    assert s.queue[1..] == [e2, e3] + rest;
    assert FlushOf(s, w) == FlushCompletedOf(taken1);
    assert taken1.queue[1..] == [e3] + rest;
    FlushHead(taken1, e2.writer);
    assert FlushOf(taken1, e2.writer) == (taken2, false);
    assert taken2.queue[1..] == rest;
    assert LoopOf(taken1, Some(e2)) == LoopOf(taken2.(queue := rest), Some(e3));
  }

  /** When the writer behind the head is the last one and is buffering and ended, flushing the
      head writes both writers' buffers, empties the queue, and the call ends waiting in a
      `take` on the empty queue. */
  lemma LastWriterLeavesWaiting(s: Line, w: ChannelWriter, e1: Entry, e2: Entry)
    requires s.queue == [e1, e2] && e1.writer == w && Continues(e2)
    ensures FlushOf(s, w) ==
      (CloseIfDone(s.(written := s.written + e1.buffers + e2.buffers, queue := [])), true)
  {
    var taken1 := s.(written := s.written + e1.buffers, queue := [e2]);
    assert s.queue[1..] == [e2];
    assert FlushOf(s, w) == FlushCompletedOf(taken1);
    FlushHead(taken1, e2.writer);
  }
}
