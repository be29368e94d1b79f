/** The device's outbound queue: drop-before-seal, the two lock regions, and the endpoint writer. */
module RecordWriters {
  import opened Bytes
  import opened SecureRecords
  import opened SecureWire
  import opened HostBridge

  const QUEUE_LIMIT := 4 * 1024 * 1024

  datatype Offer = Offer(message: Message, droppable: bool)

  /** What the queue mutex and the ordering mutex guard. */
  datatype Writer = Writer(queue: seq<Data>, queuedBytes: int, droppedBytes: nat, counter: Counter)

  predicate Sheds(w: Writer, o: Offer) {
    o.droppable && w.queuedBytes >= QUEUE_LIMIT
  }

  function Shed(w: Writer, o: Offer): Writer {
    w.(droppedBytes := w.droppedBytes + |o.message.payload|)
  }

  function Push(w: Writer, record: Data): Writer {
    w.(queue := w.queue + [record], queuedBytes := w.queuedBytes + |record|)
  }

  function Pop(w: Writer): Writer
    requires w.queue != []
  {
    w.(queue := w.queue[1..], queuedBytes := w.queuedBytes - |w.queue[0]|)
  }

  function Enqueued(d: Direction, w: Writer, o: Offer, lib: Library): (Writer, bool) {
    if Sheds(w, o) then (Shed(w, o), true)
    else
      var made := MakeRecord(d, w.counter, o.message, lib);
      var sealed := w.(counter := made.next);
      match made.result
      case Err(_) => (sealed, false)
      case Ok(record) => (Push(sealed, record), true)
  }

  // ---- the endpoint ----------------------------------------------------------------------

  /**
    An endpoint or socket that takes a nonempty prefix of what it is offered, is interrupted, or
    fails; the choice is the environment's. It may interrupt any finite number of times.
   */
  class Endpoint {
    var accepted: Data
    var interruptions: nat

    constructor (interruptions: nat)
      ensures accepted == []
    {
      accepted, this.interruptions := [], interruptions;
    }

    method Write(bytes: Data) returns (n: int, interrupted: bool)
      modifies this
      ensures n <= |bytes|
      ensures accepted == old(accepted) + if n > 0 then bytes[..n] else []
      ensures interrupted ==> n < 0
      ensures interruptions <= old(interruptions) && (interrupted ==> interruptions < old(interruptions))
    {
      var choice: int := *;
      if choice < 0 && interruptions > 0 {
        interruptions := interruptions - 1;
        return -1, true;
      }
      if choice <= 0 || bytes == [] {
        return Min(choice, 0), false;
      }
      n, interrupted := Min(choice, |bytes|), false;
      accepted := accepted + bytes[..n];
    }
  }

  /** Abortable only on an interruption; what was taken is always a prefix, all of it on success. */
  method EndpointWriteAll(fd: Endpoint, bytes: Data) returns (ok: bool, ghost taken: nat)
    modifies fd
    ensures taken <= |bytes| && fd.accepted == old(fd.accepted) + bytes[..taken]
    ensures ok ==> taken == |bytes|
  {
    var rest := bytes;
    taken := 0;
    while rest != []
      invariant taken <= |bytes| && rest == bytes[taken..]
      invariant fd.accepted == old(fd.accepted) + bytes[..taken]
      decreases |rest|, fd.interruptions
    {
      var n, interrupted := fd.Write(rest);
      if n < 0 && interrupted {
        var abort: bool := *;
        if abort {
          return false, taken;
        }
        continue;
      }
      if n <= 0 {
        return false, taken;
      }
      assert bytes[..taken] + rest[..n] == bytes[..taken + n];
      taken := taken + n;
      rest := rest[n..];
    }
    ok := true;
  }

  /** After part of a record has been written, what was accepted is still a prefix of all there was to write. */
  lemma {:induction false} WrittenPart(before: Data, record: Data, taken: nat, all: seq<Data>, rest: seq<Data>)
    requires taken <= |record| && all != [] && record == all[0] && rest == all[1..]
    ensures before <= before + record[..taken] <= before + Concat(all)
    ensures taken == |record| ==> before + record[..taken] + Concat(rest) == before + Concat(all)
  {
    assert record == record[..taken] + record[taken..];
    assert before + Concat(all) == before + record[..taken] + (record[taken..] + Concat(rest));
  }

  class RecordWriter {
    const encrypt: SecureRecord
    var queue: seq<Data>
    var queuedBytes: int
    var droppedBytes: nat
    var dead: bool

    ghost function State(): Writer
      reads this, encrypt
    {
      Writer(queue, queuedBytes, droppedBytes, encrypt.sequence)
    }

    constructor (dir: Direction)
      ensures fresh(encrypt) && encrypt.dir == dir && State() == Writer([], 0, 0, 0) && !dead
    {
      encrypt := new SecureRecord(dir);
      queue, queuedBytes, droppedBytes, dead := [], 0, 0, false;
    }

    /** First queue-lock region of an enqueue. */
    method CheckLimit(o: Offer) returns (dropped: bool)
      modifies this
      ensures dropped == Sheds(old(State()), o) && dead == old(dead)
      ensures State() == if dropped then Shed(old(State()), o) else old(State())
    {
      dropped := o.droppable && queuedBytes >= QUEUE_LIMIT;
      if dropped {
        droppedBytes := droppedBytes + |o.message.payload|;
      }
    }

    /** Second queue-lock region of an enqueue. */
    method PushRecord(record: Data)
      modifies this
      ensures State() == Push(old(State()), record) && dead == old(dead)
    {
      queuedBytes := queuedBytes + |record|;
      queue := queue + [record];
    }

    /** The writer thread's queue-lock region. */
    method PopRecord() returns (record: Data)
      requires queue != []
      modifies this
      ensures record == old(queue)[0] && State() == Pop(old(State())) && dead == old(dead)
    {
      record := queue[0];
      queue := queue[1..];
      queuedBytes := queuedBytes - |record|;
    }

    method Enqueue(channel: Channel, stream: Byte, data: Data, droppable: bool, lib: Library) returns (ok: bool)
      modifies this, encrypt
      ensures (State(), ok)
           == Enqueued(encrypt.dir, old(State()), Offer(Message(channel, stream, data), droppable), lib)
      ensures dead == old(dead)
      ensures droppable && old(queuedBytes) >= 4_194_304
          ==> ok && State() == old(State()).(droppedBytes := old(droppedBytes) + |data|)
      ensures !(droppable && old(queuedBytes) >= 4_194_304)
          ==> droppedBytes == old(droppedBytes)
              && (if ok then |queue| == |old(queue)| + 1 && old(queue) <= queue
                             && queuedBytes == old(queuedBytes) + |queue[|queue| - 1]|
                  else queue == old(queue) && queuedBytes == old(queuedBytes))
      ensures !ok ==> |data| > 65534 || lib != Works || encrypt.sequence != old(encrypt.sequence)
    {
      var o := Offer(Message(channel, stream, data), droppable);
      var dropped := CheckLimit(o);
      if dropped {
        return true;
      }
      var wire := MakeWireRecord(channel, stream, data, encrypt, lib);
      if wire.Err? {
        return false;
      }
      PushRecord(wire.value);
      return true;
    }

    /** The writer loop between arrivals: records leave whole and in queue order until one fails. */
    method Run(fd: Endpoint)
      modifies this, fd
      ensures fd.accepted <= old(fd.accepted) + Concat(old(queue)) && old(fd.accepted) <= fd.accepted
      ensures old(dead) ==> fd.accepted == old(fd.accepted) && dead
      ensures !dead ==> queue == [] && fd.accepted == old(fd.accepted) + Concat(old(queue))
      ensures |queue| <= |old(queue)| && old(queue)[|old(queue)| - |queue|..] == queue
      ensures encrypt.sequence == old(encrypt.sequence) && droppedBytes == old(droppedBytes)
    {
      ghost var goal := fd.accepted + Concat(queue);
      while !dead && queue != []
        invariant |queue| <= |old(queue)| && old(queue)[|old(queue)| - |queue|..] == queue
        invariant old(fd.accepted) <= fd.accepted <= goal
        invariant old(dead) ==> dead && fd.accepted == old(fd.accepted)
        invariant !dead ==> fd.accepted + Concat(queue) == goal
        invariant droppedBytes == old(droppedBytes)
        decreases !dead, |queue|
      {
        var shouldEnd: bool := *;
        if shouldEnd {
          dead := true;
          break;
        }
        ghost var before, all := fd.accepted, queue;
        var record := PopRecord();
        var ok, taken := EndpointWriteAll(fd, record);
        WrittenPart(before, record, taken, all, queue);
        if !ok {
          dead := true;
        }
      }
      assert goal == old(fd.accepted) + Concat(old(queue));
    }
  }
}
