/** The recorder itself: the fields its goroutines update, step by step. Between two blocking points
    each method does what the delivery protocol's step says. */
module AuditRecorder {
  import opened ByteStrings
  import opened Options
  import opened AuditEvents
  import opened AuditDelivery

  /** What a caller reports; the recorder adds an id, and the time when there is none. */
  datatype Report = Report(
    tenantId: Bytes, occurTime: Option<int>, actorKind: Bytes, actorId: Bytes, onBehalfOf: Bytes, action: Bytes,
    targetType: Bytes, targetId: Bytes, outcome: Bytes, reason: Bytes, requestId: Bytes, details: map<Bytes, Bytes>)

  function EventOf(r: Report, id: Bytes, now: int): Event {
    Event(r.tenantId, id, if r.occurTime.None? then now else r.occurTime.value, r.actorKind, r.actorId, r.onBehalfOf, r.action,
          r.targetType, r.targetId, r.outcome, r.reason, r.requestId, r.details)
  }

  class Recorder {
    const g: Config
    var queue: seq<Event>
    var batch: seq<Event>
    var closed: bool
    var stopping: bool
    var phase: Phase
    var logged: set<Event>
    ghost var sent: seq<Request>
    ghost var entered: seq<Event>
    ghost var settled: nat
    ghost var acked: set<Event>

    /** The recorder's part of the protocol's state. */
    ghost function View(): State
      reads this
    {
      State(queue, batch, closed, stopping, phase, entered, settled, acked, logged, sent, {}, map[])
    }

    constructor (g: Config)
      ensures this.g == g && Init(View())
    {
      this.g := g;
      queue, batch, closed, stopping, phase, logged := [], [], false, false, Collecting, {};
      entered, settled, acked, sent := [], 0, {}, [];
    }

    /** Queues a report as an event under a new id, or logs it; it does not wait. */
    method Record(r: Report, id: Bytes, now: int)
      modifies this
      ensures View() == DoRecord(g, old(View()), EventOf(r, id, now))
      ensures old(closed) || |old(queue)| >= g.queueSize ==> queue == old(queue) && logged == old(logged) + {EventOf(r, id, now)}
      ensures !old(closed) && |old(queue)| < g.queueSize ==> queue == old(queue) + [EventOf(r, id, now)] && logged == old(logged)
    {
      var occur := now;
      if r.occurTime.Some? {
        occur := r.occurTime.value;
      }
      var e := Event(r.tenantId, id, occur, r.actorKind, r.actorId, r.onBehalfOf, r.action, r.targetType, r.targetId,
                     r.outcome, r.reason, r.requestId, r.details);
      if closed {
        logged := logged + {e};
        return;
      }
      if |queue| < g.queueSize {
        queue := queue + [e];
        entered := entered + [e];
      } else {
        logged := logged + {e};
      }
    }

    /** Stops accepting events. */
    method Close()
      modifies this`closed
      ensures View() == old(View()).(closed := true)
    {
      closed := true;
    }

    /** The select takes a queued event into the batch. */
    method Take()
      requires queue != []
      modifies this`batch, this`queue
      ensures View() == old(View()).(batch := old(batch) + [old(queue)[0]], queue := old(queue)[1..])
    {
      batch, queue := batch + [queue[0]], queue[1..];
    }

    /** After the select: takes what is queued when stopping, then sends the batch, returns, or goes round again. */
    method Proceed(seesStop: bool)
      modifies this
      ensures View() == DoProceed(g, old(View()), seesStop)
    {
      if seesStop {
        stopping := true;
      }
      if stopping {
        Drain();
      } else {
        assert batch + queue[..0] == batch && queue[0..] == queue;
      }
      SendBatch();
    }

    /** Sends the batch if there is one. */
    method SendBatch()
      modifies this`phase, this`sent
      ensures phase == if |batch| == 0 then if stopping then Done else Collecting else Calling
      ensures sent == if |batch| == 0 then old(sent) else old(sent) + [Request(settled, batch)]
    {
      if |batch| == 0 {
        phase := if stopping then Done else Collecting;
        return;
      }
      sent := sent + [Request(settled, batch)];
      phase := Calling;
    }

    /** Takes everything still queued, up to a full batch. */
    method Drain()
      modifies this`queue, this`batch
      ensures var n := if |old(batch)| < g.batchSize then Min(g.batchSize - |old(batch)|, |old(queue)|) else 0;
              batch == old(batch) + old(queue)[..n] && queue == old(queue)[n..]
    {
      var drained := false;
      ghost var n := 0;
      while !drained && |batch| < g.batchSize
        invariant 0 <= n <= |old(queue)| && batch == old(batch) + old(queue)[..n] && queue == old(queue)[n..]
        invariant drained ==> queue == []
        invariant n > 0 ==> |batch| <= g.batchSize
        decreases |queue|, !drained
      {
        if queue != [] {
          batch, queue := batch + [queue[0]], queue[1..];
          n := n + 1;
        } else {
          drained := true;
        }
      }
    }

    /** The reply to the call in progress: the batch, or one event of a refused batch. */
    method Return(reply: Reply)
      modifies this
      ensures View() == DoReturn(old(View()), reply)
    {
      match phase {
        case Calling =>
          match reply {
            case Ok =>
              acked, settled := acked + (set e | e in batch), settled + |batch|;
              batch := [];
              phase := Collecting;
            case Refused => SendAlone(0);
            case Failed => FailedSend();
          }
        case Splitting(k) =>
          if k < |batch| {
            match reply {
              case Ok =>
                acked := acked + {batch[k]};
                SendAlone(k + 1);
              case Refused =>
                logged := logged + {batch[k]};
                SendAlone(k + 1);
              case Failed => FailedSend();
            }
          }
        case _ =>
      }
    }

    /** The next event of a refused batch is sent by itself; after the last, the batch is done. */
    method SendAlone(k: nat)
      modifies this
      ensures View() == NextSingle(old(View()), k)
    {
      if k >= |batch| {
        settled := settled + |batch|;
        batch := [];
        phase := Collecting;
      } else {
        sent := sent + [Request(settled + k, [batch[k]])];
        phase := Splitting(k);
      }
    }

    /** A failed send: at shutdown everything left is logged, otherwise the loop waits to retry. */
    method FailedSend()
      modifies this
      ensures View() == Fail(old(View()))
    {
      if !stopping {
        phase := Waiting;
        return;
      }
      LogBatch();
      LogQueue();
      batch, settled, phase := [], |entered|, Done;
    }

    method LogBatch()
      modifies this`logged
      ensures logged == old(logged) + set e | e in batch
    {
      for i := 0 to |batch|
        invariant logged == old(logged) + set e | e in batch[..i]
      {
        assert batch[..i + 1] == batch[..i] + [batch[i]];
        logged := logged + {batch[i]};
      }
      assert batch[..|batch|] == batch;
    }

    method LogQueue()
      modifies this`logged, this`queue
      ensures queue == [] && logged == old(logged) + set e | e in old(queue)
    {
      ghost var n := 0;
      while queue != []
        invariant 0 <= n <= |old(queue)| && queue == old(queue)[n..]
        invariant logged == old(logged) + set e | e in old(queue)[..n]
        decreases |queue|
      {
        assert old(queue)[..n + 1] == old(queue)[..n] + [queue[0]];
        logged := logged + {queue[0]};
        queue := queue[1..];
        n := n + 1;
      }
      assert old(queue)[..n] == old(queue);
    }

    /** The backoff ends, by its timer or by a stop. */
    method Wake(seesStop: bool)
      modifies this`stopping, this`phase
      ensures View() == old(View()).(stopping := old(stopping) || seesStop, phase := Collecting)
    {
      if seesStop {
        stopping := true;
      }
      phase := Collecting;
    }
  }
}
