/** The response pipeline of `common/WritablePipeline.java`: a FIFO queue of pending messages in
    which only the message at the head writes to the channel, while writes of any other message
    are buffered. The buffer list and the `ended` flag belong to the pipeline, so every message
    shares them, and nothing ever clears them. */
module WritablePipelines {
  import opened Text

  /** A message in the queue, known only by its identity. */
  type MessageId = nat

  /** The pipeline's state: the queue, the shared buffers and flags, and what the channel has
      been given (one entry per channel write) and whether it has been closed. */
  datatype Pipe = Pipe(queue: seq<MessageId>, buffers: seq<seq<byte>>, ended: bool, closeWhenDone: bool,
                       written: seq<seq<byte>>, closed: bool)

  /** `flush(m)`: nothing unless `m` is at the head; otherwise every buffer is written, the head
      is taken off and `flushCompleted` runs. The flag says whether the call ends up waiting in a
      `take` on an empty queue, which it never returns from. */
  function FlushOf(p: Pipe, m: MessageId): (r: (Pipe, bool))
    ensures |r.0.queue| <= |p.queue|
    decreases 3 * |p.queue| + 2
  {
    if p.queue == [] || p.queue[0] != m then (p, false)
    else FlushCompletedOf(p.(written := p.written + p.buffers, queue := p.queue[1..]))
  }

  /** `flushCompleted`: the loop over the top of the queue, then, if the call got that far, the
      channel is closed when the queue is empty and close-when-done is set. */
  function FlushCompletedOf(p: Pipe): (r: (Pipe, bool))
    ensures |r.0.queue| <= |p.queue|
    decreases 3 * |p.queue| + 4
  {
    var r := LoopOf(p, Peek(p.queue));
    if r.1 then r else (CloseIfDone(r.0), false)
  }

  /** The `while` loop of `flushCompleted`, from the top `top`: while it is present and the
      (shared) buffers are non-empty and `ended` is set, flush it and take the next top off the
      queue; a take from an empty queue waits forever. */
  function LoopOf(p: Pipe, top: Option<MessageId>): (r: (Pipe, bool))
    ensures |r.0.queue| <= |p.queue|
    decreases 3 * |p.queue| + 3
  {
    if top.None? || p.buffers == [] || !p.ended then (p, false)
    else
      var f := FlushOf(p, top.value);
      if f.1 then f
      else if f.0.queue == [] then (f.0, true)
      else LoopOf(f.0.(queue := f.0.queue[1..]), Some(f.0.queue[0]))
  }

  /** `pipeline.peek()`. */
  function Peek(q: seq<MessageId>): (r: Option<MessageId>)
    ensures r.Some? <==> q != []
    ensures r.Some? ==> r.value == q[0]
  {
    if q == [] then None else Some(q[0])
  }

  function CloseIfDone(p: Pipe): Pipe
  {
    if p.queue == [] && p.closeWhenDone then p.(closed := true) else p
  }

  /** `end(m)`: set the shared `ended` flag and flush `m`. */
  function EndOf(p: Pipe, m: MessageId): (r: (Pipe, bool))
  {
    FlushOf(p.(ended := true), m)
  }

  /** `write(m, bytes, handler)`: the head writes to the channel; any other message appends to
      the shared buffers. The second result is what a supplied handler is told at once: 0 bytes
      for a buffered write, nothing (the channel reports later) for a direct one. */
  function WriteOf(p: Pipe, m: MessageId, bytes: seq<byte>, hasHandler: bool): (r: (Pipe, Option<int>))
  {
    if p.queue != [] && p.queue[0] == m then (p.(written := p.written + [bytes]), None)
    else (p.(buffers := p.buffers + [bytes]), if hasHandler then Some(0) else None)
  }

  class WritablePipeline {
    var queue: seq<MessageId>
    var buffers: seq<seq<byte>>
    var ended: bool
    var closeWhenDone: bool
    var written: seq<seq<byte>>
    var closed: bool

    function State(): Pipe
      reads this
    {
      Pipe(queue, buffers, ended, closeWhenDone, written, closed)
    }

    /** A pipeline over a fresh channel: empty queue, no buffers, no flags. */
    constructor()
      ensures State() == Pipe([], [], false, false, [], false)
    {
      queue, buffers, written := [], [], [];
      ended, closeWhenDone, closed := false, false, false;
    }

    /** `push`: the message joins the tail of the queue. */
    method Push(m: MessageId)
      modifies this`queue
      ensures queue == old(queue) + [m]
    {
      queue := queue + [m];
    }

    /** `poll`, the queue's own operation used by the request pipeline: the head is removed and
        given, or nothing when the queue is empty. */
    method Poll() returns (m: Option<MessageId>)
      modifies this`queue
      ensures m == Peek(old(queue))
      ensures queue == if old(queue) == [] then [] else old(queue)[1..]
    {
      m := Peek(queue);
      if queue != [] {
        queue := queue[1..];
      }
    }

    method Write(m: MessageId, bytes: seq<byte>, hasHandler: bool) returns (told: Option<int>)
      modifies this`written, this`buffers
      ensures (State(), told) == WriteOf(old(State()), m, bytes, hasHandler)
    {
      told := None;
      if queue != [] && queue[0] == m {
        written := written + [bytes];
      } else {
        buffers := buffers + [bytes];
        if hasHandler {
          told := Some(0);
        }
      }
    }

    /** `closeWhenDone`: only the flag is set. */
    method CloseWhenDone()
      modifies this`closeWhenDone
      ensures closeWhenDone
    {
      closeWhenDone := true;
    }

    method End(m: MessageId) returns (hung: bool)
      modifies this`ended, this`queue, this`written, this`closed
      ensures (State(), hung) == EndOf(old(State()), m)
    {
      ended := true;
      hung := Flush(m);
    }

    method Flush(m: MessageId) returns (hung: bool)
      modifies this`queue, this`written, this`closed
      ensures (State(), hung) == FlushOf(old(State()), m)
      decreases 3 * |queue| + 2
    {
      hung := false;
      if queue != [] && queue[0] == m {
        var i := 0;
        while i < |buffers|
          invariant 0 <= i <= |buffers|
          invariant written == old(written) + buffers[..i]
          invariant queue == old(queue) && closed == old(closed)
        {
          written := written + [buffers[i]];
          i := i + 1;
        }
        assert buffers[..i] == buffers;
        queue := queue[1..];
        ghost var taken := State();
        assert taken == old(State()).(written := old(written) + buffers, queue := old(queue)[1..]);
        assert FlushOf(old(State()), m) == FlushCompletedOf(taken);
        hung := FlushCompleted();
      }
    }

    method FlushCompleted() returns (hung: bool)
      modifies this`queue, this`written, this`closed
      ensures (State(), hung) == FlushCompletedOf(old(State()))
      decreases 3 * |queue| + 4
    {
      ghost var s0 := State();
      var top := Peek(queue);
      ghost var goal := LoopOf(s0, top);
      assert FlushCompletedOf(s0) == if goal.1 then goal else (CloseIfDone(goal.0), false);
      while top.Some? && |buffers| > 0 && ended
        invariant State() == s0.(queue := queue, written := written, closed := closed)
        invariant |queue| <= |s0.queue|
        invariant LoopOf(State(), top) == goal
        decreases |queue|
      {
        ghost var before := State();
        hung := Flush(top.value);
        ghost var f := FlushOf(before, top.value);
        assert (State(), hung) == f;
        if hung {
          assert goal == f;
          return;
        }
        if queue == [] {
          hung := true;
          assert goal == (f.0, true);
          return;
        }
        top := Some(queue[0]);
        queue := queue[1..];
        assert State() == f.0.(queue := f.0.queue[1..]);
      }
      assert goal == (State(), false);
      hung := false;
      if queue == [] && closeWhenDone {
        closed := true;
      }
      assert State() == CloseIfDone(goal.0);
    }
  }
  // ---------------------------------------------------------------------------------------
  // Properties

  /** What a flush may do to the pipeline: take messages off the front of the queue only, add
      channel writes after the earlier ones, and close the channel only once the queue is empty
      and close-when-done is set; buffers and flags stay as they are. */
  ghost predicate Settles(p: Pipe, q: Pipe)
  {
    q == p.(queue := q.queue, written := q.written, closed := q.closed)
    && |q.queue| <= |p.queue| && q.queue == p.queue[|p.queue| - |q.queue|..]
    && p.written <= q.written
    && (q.closed ==> p.closed || (q.queue == [] && p.closeWhenDone))
  }

  lemma SettlesTransitive(p: Pipe, q: Pipe, r: Pipe)
    requires Settles(p, q) && Settles(q, r)
    ensures Settles(p, r)
  {
    var n, k := |p.queue|, |q.queue|;
    assert r.queue == p.queue[n - k..][k - |r.queue|..];
  }

  lemma {:induction false} FlushSettles(p: Pipe, m: MessageId)
    ensures Settles(p, FlushOf(p, m).0)
    decreases 3 * |p.queue| + 2
  {
    if p.queue != [] && p.queue[0] == m {
      var taken := p.(written := p.written + p.buffers, queue := p.queue[1..]);
      FlushCompletedSettles(taken);
      assert Settles(p, taken) by {
        assert taken.queue == p.queue[|p.queue| - |taken.queue|..];
      }
      SettlesTransitive(p, taken, FlushOf(p, m).0);
    }
  }

  lemma {:induction false} FlushCompletedSettles(p: Pipe)
    ensures Settles(p, FlushCompletedOf(p).0)
    decreases 3 * |p.queue| + 4
  {
    var r := LoopOf(p, Peek(p.queue));
    LoopSettles(p, Peek(p.queue));
    if !r.1 {
      SettlesTransitive(p, r.0, CloseIfDone(r.0));
    }
  }

  lemma {:induction false} LoopSettles(p: Pipe, top: Option<MessageId>)
    ensures Settles(p, LoopOf(p, top).0)
    decreases 3 * |p.queue| + 3
  {
    if top.Some? && p.buffers != [] && p.ended {
      var f := FlushOf(p, top.value);
      FlushSettles(p, top.value);
      if !f.1 && f.0.queue != [] {
        var next := f.0.(queue := f.0.queue[1..]);
        assert Settles(f.0, next);
        LoopSettles(next, Some(f.0.queue[0]));
        SettlesTransitive(f.0, next, LoopOf(next, Some(f.0.queue[0])).0);
        SettlesTransitive(p, f.0, LoopOf(next, Some(f.0.queue[0])).0);
      }
    }
  }

  /** Flushing the head while nothing is buffered, or before `ended` is set, takes the head off
      the queue and writes nothing; the channel is closed if that empties the queue and
      close-when-done is set. */
  lemma FlushWithoutBuffers(p: Pipe, m: MessageId)
    requires p.queue != [] && p.queue[0] == m
    requires p.buffers == [] || !p.ended
    ensures FlushOf(p, m) == (CloseIfDone(p.(written := p.written + p.buffers, queue := p.queue[1..])), false)
  {
    var taken := p.(written := p.written + p.buffers, queue := p.queue[1..]);
    assert FlushOf(p, m) == FlushCompletedOf(taken);
    assert LoopOf(taken, Peek(taken.queue)) == (taken, false);
  }

  /** `k` copies of the buffer list, one after another. */
  function Repeat(b: seq<seq<byte>>, k: nat): (r: seq<seq<byte>>)
    ensures |r| == k * |b|
  {
    if k == 0 then [] else b + Repeat(b, k - 1)
  }

  /** Once `ended` is set and something is buffered, flushing the head drains the whole queue:
      each of the `n` queued messages writes the shared buffers again, the channel is closed if
      close-when-done is set, and with two or more messages the call ends waiting in a `take`
      on the emptied queue. */
  lemma {:induction false} FlushDrains(p: Pipe, m: MessageId)
    requires p.queue != [] && p.queue[0] == m
    requires p.buffers != [] && p.ended
    ensures FlushOf(p, m) ==
      (p.(queue := [], written := p.written + Repeat(p.buffers, |p.queue|), closed := p.closed || p.closeWhenDone),
       |p.queue| >= 2)
    decreases |p.queue|
  {
    var taken := p.(written := p.written + p.buffers, queue := p.queue[1..]);
    assert FlushOf(p, m) == FlushCompletedOf(taken);
    if |p.queue| == 1 {
      assert taken.queue == [];
      assert Repeat(p.buffers, 1) == p.buffers;
    } else {
      var next := p.queue[1];
      assert Peek(taken.queue) == Some(next);
      FlushDrains(taken, next);
      var f := FlushOf(taken, next);
      assert LoopOf(taken, Some(next)) == (f.0, true);
      assert taken.written + Repeat(p.buffers, |p.queue| - 1) == p.written + Repeat(p.buffers, |p.queue|) by {
        AppendAssociates(p.written, p.buffers, Repeat(p.buffers, |p.queue| - 1));
      }
    }
  }

  /** With two messages queued and the second one's chunk buffered, ending the first writes that
      chunk twice, removes the second message before it has ended, and leaves the call waiting. */
  lemma BufferedChunkWrittenTwice(b: seq<byte>)
    ensures var w := WriteOf(Pipe([1, 2], [], false, false, [], false), 2, b, true);
      w.1 == Some(0) && w.0.written == [] &&
      EndOf(w.0, 1) == (Pipe([], [b], true, false, [b, b], false), true)
  {
    var w := WriteOf(Pipe([1, 2], [], false, false, [], false), 2, b, true);
    assert w.0 == Pipe([1, 2], [b], false, false, [], false);
    var e := w.0.(ended := true);
    FlushDrains(e, 1);
    assert Repeat([b], 2) == [b, b] by {
      assert Repeat([b], 1) == [b];
      assert Repeat([b], 2) == [b] + Repeat([b], 1);
    }
    assert e.written + Repeat(e.buffers, |e.queue|) == [b, b];
    assert EndOf(w.0, 1) == FlushOf(e, 1);
  }
}
