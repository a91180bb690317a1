/**
 * What a `websocket_t` does to its transport, as functions of whether the
 * session is open.  The class in module Session is proved against these
 * functions; the lemmas here state what any sequence of calls on a session
 * can and cannot do.
 */
module SessionSpec {
  import opened Wrappers
  import opened Message
  import opened Transport

  /** A call a user of `websocket_t` can make, the destructor included. */
  datatype Op =
    | SendOp(final: bool, opcode: Opcode, payload: Bytes)
    | CloseOp
    | DestroyOp

  /** A frame write: header buffer first, payload second, the header describing the payload's length. */
  predicate IsFrameWrite(bufs: seq<Buffer>)
  {
    |bufs| == 2 && bufs[0].FrameHeader? && bufs[1].Payload?
    && bufs[0].details.payloadLength == |bufs[1].bytes|
  }

  /** The buffers `send_message` hands to `write_data`. */
  function FrameBuffers(final: bool, opcode: Opcode, payload: Bytes): (bufs: seq<Buffer>)
    ensures IsFrameWrite(bufs)
    ensures bufs[0].details.final == final && bufs[0].details.opcode == opcode
    ensures bufs[1].bytes == payload
  {
    [FrameHeader(Details(final, opcode, |payload|)), Payload(payload)]
  }

  /** The transport calls one operation makes, from a session that is `open` or not. */
  function StepEvents(open: bool, op: Op): seq<Event>
  {
    if !open then []
    else match op
      case SendOp(final, opcode, payload) => [WriteCall(FrameBuffers(final, opcode, payload))]
      case CloseOp => [CloseCall]
      case DestroyOp => [CloseCall]
  }

  /** Whether the session is open after the operation. */
  function StepOpen(open: bool, op: Op): bool
  {
    open && op.SendOp?
  }

  /** What `send_message` reports when the transport accepts the write. */
  function SendOutcome(open: bool): (r: Outcome<Error>)
    ensures r.Fail? <==> !open
    ensures r.Fail? ==> r.error == WebSocketClosed
  {
    if open then Pass else Fail(WebSocketClosed)
  }

  /** All transport calls a sequence of operations makes, in order. */
  function Events(open: bool, ops: seq<Op>): seq<Event>
  {
    if ops == [] then [] else StepEvents(open, ops[0]) + Events(StepOpen(open, ops[0]), ops[1..])
  }

  /** Whether the session is open after a sequence of operations. */
  function OpenAfter(open: bool, ops: seq<Op>): bool
  {
    if ops == [] then open else OpenAfter(StepOpen(open, ops[0]), ops[1..])
  }

  /** How many close requests a sequence of transport calls holds. */
  function CloseCount(evs: seq<Event>): nat
  {
    if evs == [] then 0 else (if evs[0].CloseCall? then 1 else 0) + CloseCount(evs[1..])
  }

  /** Whether some operation of the sequence closes the session. */
  predicate HasClosing(ops: seq<Op>)
  {
    exists i :: 0 <= i < |ops| && !ops[i].SendOp?
  }

  lemma {:induction false} CloseCountAppend(a: seq<Event>, b: seq<Event>)
    ensures CloseCount(a + b) == CloseCount(a) + CloseCount(b)
  {
    if a != [] {
      assert (a + b)[1..] == a[1..] + b;
      CloseCountAppend(a[1..], b);
    } else {
      assert a + b == b;
    }
  }

  /** Running two sequences one after the other is running their concatenation. */
  lemma {:induction false} EventsAppend(open: bool, a: seq<Op>, b: seq<Op>)
    ensures Events(open, a + b) == Events(open, a) + Events(OpenAfter(open, a), b)
    ensures OpenAfter(open, a + b) == OpenAfter(OpenAfter(open, a), b)
  {
    if a != [] {
      assert (a + b)[0] == a[0];
      assert (a + b)[1..] == a[1..] + b;
      EventsAppend(StepOpen(open, a[0]), a[1..], b);
    } else {
      assert a + b == b;
    }
  }

  /** A closed session stays closed and makes no transport call whatever it is asked. */
  lemma {:induction false} ClosedIsInert(ops: seq<Op>)
    ensures Events(false, ops) == []
    ensures !OpenAfter(false, ops)
  {
    if ops != [] {
      ClosedIsInert(ops[1..]);
    }
  }

  /**
   * Over any sequence of `close`, destruction and sends, the transport gets
   * exactly one close request if the session was open and some operation
   * closes it, and none otherwise.
   */
  lemma {:induction false} CloseAtMostOnce(open: bool, ops: seq<Op>)
    ensures CloseCount(Events(open, ops)) == if open && HasClosing(ops) then 1 else 0
    ensures OpenAfter(open, ops) <==> open && !HasClosing(ops)
  {
    if ops == [] {
    } else {
      var op, rest := ops[0], ops[1..];
      CloseCountAppend(StepEvents(open, op), Events(StepOpen(open, op), rest));
      CloseAtMostOnce(StepOpen(open, op), rest);
      assert HasClosing(ops) <==> !op.SendOp? || HasClosing(rest) by {
        if HasClosing(rest) {
          var i :| 0 <= i < |rest| && !rest[i].SendOp?;
          assert ops[i + 1] == rest[i];
        }
        if HasClosing(ops) && op.SendOp? {
          var i :| 0 <= i < |ops| && !ops[i].SendOp?;
          assert rest[i - 1] == ops[i];
        }
      }
      if open && !op.SendOp? {
        ClosedIsInert(rest);
      }
    }
  }

  /** Once an operation has closed the session, nothing after it reaches the transport. */
  lemma NothingAfterClose(open: bool, ops: seq<Op>, k: nat)
    requires k < |ops| && !ops[k].SendOp?
    ensures Events(open, ops) == Events(open, ops[..k + 1])
    ensures !OpenAfter(open, ops)
  {
    assert ops == ops[..k + 1] + ops[k + 1..];
    EventsAppend(open, ops[..k + 1], ops[k + 1..]);
    EventsAppend(open, ops[..k], [ops[k]]);
    assert ops[..k + 1] == ops[..k] + [ops[k]];
    ClosedIsInert(ops[k + 1..]);
    ClosedIsInert([]);
  }

  /** Every write a session makes is a two-buffer frame write, and a session never re-arms reading. */
  lemma {:induction false} WritesAreFrames(open: bool, ops: seq<Op>)
    ensures forall i :: 0 <= i < |Events(open, ops)| ==>
      Events(open, ops)[i].CloseCall?
      || (Events(open, ops)[i].WriteCall? && IsFrameWrite(Events(open, ops)[i].bufs))
  {
    if ops != [] {
      WritesAreFrames(StepOpen(open, ops[0]), ops[1..]);
    }
  }

  /** On an open session, sends reach the transport one write each, in call order, with payloads unchanged. */
  lemma {:induction false} SendsInOrder(ops: seq<Op>)
    requires forall i :: 0 <= i < |ops| ==> ops[i].SendOp?
    ensures |Events(true, ops)| == |ops|
    ensures forall i :: 0 <= i < |ops| ==>
      Events(true, ops)[i] == WriteCall(FrameBuffers(ops[i].final, ops[i].opcode, ops[i].payload))
    ensures OpenAfter(true, ops)
  {
    if ops != [] {
      SendsInOrder(ops[1..]);
      forall i | 1 <= i < |ops| ensures Events(true, ops)[i] == Events(true, ops[1..])[i - 1] {
      }
    }
  }
}
