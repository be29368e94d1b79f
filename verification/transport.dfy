/**
  The device-to-host transport as a whole: producers, the ordering lock, the writer thread, the
  link and the host, interleaved one lock region or one transfer at a time.
 */
module Transport {
  import opened Bytes
  import opened SecureRecords
  import opened SecureWire
  import opened HostBridge
  import opened RecordWriters

  /** Where the producer holding the ordering lock stands; every other producer is outside it. */
  datatype Hold = Free | Checked(offer: Offer) | Sealed(item: Item)

  /** A record together with what it seals and with which of the counters taken so far. */
  datatype Item = Item(offer: Offer, number: nat, record: Data)

  datatype Event = Accepted(offer: Offer) | Dropped(offer: Offer) | Refused(offer: Offer, lib: Library)

  datatype System = System(
    writer: Writer,
    hold: Hold,
    /** counters taken by `seal` so far, and how many of them no record came of */
    taken: nat,
    burned: nat,
    /** how many records had been sealed when a counter was first burned */
    clean: nat,
    /** every record queued, in order, and how many of them the writer thread has taken */
    items: seq<Item>,
    popped: nat,
    unsent: Data,
    sent: Data,
    received: nat,
    dead: bool,
    exited: bool,
    log: seq<Event>,
    host: Receiver)

  datatype Action =
    | Lock(offer: Offer)
    | Seal(lib: Library)
    | Queue
    | Take
    | Transfer(n: nat)
    | Interrupt
    | TransferFails
    | Die
    | Read(n: nat)
    | DrainOne

  const INIT := System(
    Writer([], 0, 0, 0), Free, 0, 0, 0, [], 0, [], [], 0, false, false, [], Receiver([], 0, [], false))

  /**
    One atomic step; an action that cannot happen in a state leaves it as it is. The writer may take
    a record after it was declared dead, having looked before; whoever declares it dead is another step.
   */
  function Next(d: Direction, s: System, a: Action): System {
    match a
    case Lock(o) =>
      if !s.hold.Free? then s
      else if Sheds(s.writer, o) then s.(writer := Shed(s.writer, o), log := s.log + [Dropped(o)])
      else s.(hold := Checked(o))
    case Seal(lib) =>
      if !s.hold.Checked? then s else AfterSeal(d, s, s.hold.offer, lib)
    case Queue =>
      if !s.hold.Sealed? then s
      else
        var item := s.hold.item;
        s.(writer := Push(s.writer, item.record), items := s.items + [item],
           clean := if s.burned == 0 then s.clean + 1 else s.clean,
           log := s.log + [Accepted(item.offer)], hold := Free)
    case Take =>
      if s.exited || s.unsent != [] || s.writer.queue == [] then s
      else s.(writer := Pop(s.writer), unsent := s.writer.queue[0], popped := s.popped + 1)
    case Transfer(n) =>
      if s.exited || n == 0 || n > |s.unsent| then s
      else s.(sent := s.sent + s.unsent[..n], unsent := s.unsent[n..])
    case Interrupt => if s.dead then s.(exited := true) else s
    case TransferFails => s.(dead := true, exited := true)
    case Die => s.(dead := true)
    case Read(n) =>
      if s.received + n > |s.sent| then s
      else s.(host := Append(s.host, s.sent[s.received..s.received + n]), received := s.received + n)
    case DrainOne =>
      if s.host.failed then s else s.(host := DrainRound(d, s.host).r)
  }

  function AfterSeal(d: Direction, s: System, o: Offer, lib: Library): System {
    var made := MakeRecord(d, s.writer.counter, o.message, lib);
    var took := made.next != s.writer.counter;
    var s' := s.(writer := s.writer.(counter := made.next), taken := if took then s.taken + 1 else s.taken);
    match made.result
    case Ok(record) => s'.(hold := Sealed(Item(o, s.taken, record)))
    case Err(_) =>
      s'.(hold := Free, burned := if took then s.burned + 1 else s.burned, log := s.log + [Refused(o, lib)])
  }

  function Run(d: Direction, actions: seq<Action>): System {
    if actions == [] then INIT else Next(d, Run(d, actions[..|actions| - 1]), actions[|actions| - 1])
  }

  /** The event an enqueue comes to. */
  function EventOf(d: Direction, w: Writer, o: Offer, lib: Library): Event {
    if o.droppable && w.queuedBytes >= 4_194_304 then Dropped(o)
    else if MakeRecord(d, w.counter, o.message, lib).result.Ok? then Accepted(o)
    else Refused(o, lib)
  }

  /** With nobody else under way, the regions of one enqueue are the three steps of a producer. */
  function EnqueueSteps(d: Direction, s: System, o: Offer, lib: Library): System {
    Next(d, Next(d, Next(d, s, Lock(o)), Seal(lib)), Queue)
  }

  /** The order of the steps: a drop comes before any counter is taken, a record is queued after its own. */
  lemma {:induction false} EnqueueIsSteps(d: Direction, s: System, o: Offer, lib: Library)
    requires s.hold.Free?
    ensures var t, (w, ok) := EnqueueSteps(d, s, o, lib), Enqueued(d, s.writer, o, lib);
            && t.writer == w && t.hold.Free? && t.log == s.log + [EventOf(d, s.writer, o, lib)]
            && (ok <==> !EventOf(d, s.writer, o, lib).Refused?)
            && (EventOf(d, s.writer, o, lib).Dropped? ==>
                  w == s.writer.(droppedBytes := s.writer.droppedBytes + |o.message.payload|))
  {
    hide MakeRecord, Drain, DrainRound;
  }

  // ---- invariants ------------------------------------------------------------------------

  function Records(items: seq<Item>): (ws: seq<Data>)
    ensures |ws| == |items|
    ensures forall i :: 0 <= i < |ws| ==> ws[i] == items[i].record
  {
    seq(|items|, i requires 0 <= i < |items| => items[i].record)
  }

  function Messages(items: seq<Item>): (ms: seq<Message>)
    ensures |ms| == |items|
    ensures forall i :: 0 <= i < |ms| ==> ms[i] == items[i].offer.message
  {
    seq(|items|, i requires 0 <= i < |items| => items[i].offer.message)
  }

  function TotalSize(items: seq<Item>): nat {
    if items == [] then 0 else TotalSize(items[..|items| - 1]) + |items[|items| - 1].record|
  }

  function DroppableSize(items: seq<Item>): nat {
    if items == [] then 0
    else
      var last := items[|items| - 1];
      DroppableSize(items[..|items| - 1]) + if last.offer.droppable then |last.record| else 0
  }

  function InHold(s: System): seq<Item> {
    if s.hold.Sealed? then [s.hold.item] else []
  }

  /** Every record was sealed with its own counter; the counters rise, with gaps only for burned ones. */
  ghost predicate Numbered(d: Direction, s: System) {
    var all := s.items + InHold(s);
    && s.writer.counter == CounterAt(s.taken)
    && s.taken == |all| + s.burned
    && s.clean <= |s.items|
    && (s.burned == 0 ==> s.clean == |s.items| && forall i :: 0 <= i < |all| ==> all[i].number == i)
    && (forall i :: 0 <= i < |all| ==>
          i <= all[i].number < s.taken
          && IsRecord(d, CounterAt(all[i].number), all[i].offer.message, all[i].record))
    && (forall i, j :: 0 <= i < j < |all| ==> all[i].number < all[j].number)
    && (forall i :: 0 <= i < s.clean ==> s.items[i].number == i)
    && (s.burned > 0 ==> forall i :: s.clean <= i < |all| ==> all[i].number > i)
  }

  ghost predicate QueueTied(s: System) {
    && s.popped <= |s.items|
    && s.writer.queue == Records(s.items[s.popped..])
    && s.writer.queuedBytes == TotalSize(s.items[s.popped..])
  }

  ghost predicate BytesTied(s: System) {
    && s.popped <= |s.items|
    && s.sent + s.unsent == Concat(Records(s.items[..s.popped]))
  }

  ghost predicate HostTied(d: Direction, s: System) {
    && s.received <= |s.sent|
    && Drain(d, s.host) == Drain(d, Receiver(s.sent[..s.received], 0, [], false))
  }

  lemma {:induction false} AdvanceMoves(n: Counter)
    ensures Advance(n) != n
  {
  }

  lemma {:induction false} SealNumbered(d: Direction, s: System, lib: Library)
    requires Numbered(d, s) && s.hold.Checked?
    ensures Numbered(d, AfterSeal(d, s, s.hold.offer, lib))
  {
    hide Numbered;
    var s', o := AfterSeal(d, s, s.hold.offer, lib), s.hold.offer;
    MadeOr(d, s.writer.counter, o.message, lib);
    hide MakeRecord, IsRecord;
    if s'.hold.Sealed? {
      ItemNumbered(d, s, s', s'.hold.item);
    } else if s'.writer.counter == s.writer.counter {
      NumberedFrame(d, s, s');
    } else {
      BurnNumbered(d, s, s');
    }
  }

  /** A seal takes no counter, burns one, or gives a record. */
  lemma {:induction false} MadeOr(d: Direction, n: Counter, m: Message, lib: Library)
    ensures var made := MakeRecord(d, n, m, lib);
            && (made.next == n || made.next == Advance(n)) && Advance(n) != n
            && (made.result.Ok? ==> made.next == Advance(n) && IsRecord(d, n, m, made.result.value))
  {
    hide NonceFor, Plaintext, Header;
    AdvanceMoves(n);
  }

  lemma {:induction false} ItemNumbered(d: Direction, s: System, s': System, item: Item)
    requires Numbered(d, s) && s.hold.Checked?
    requires item.number == s.taken && IsRecord(d, s.writer.counter, item.offer.message, item.record)
    requires s' == s.(writer := s.writer.(counter := Advance(s.writer.counter)), taken := s.taken + 1,
                      hold := Sealed(item))
    ensures Numbered(d, s')
  {
    hide IsRecord, CounterAt;
    CounterAdvances(s.taken);
    assert s'.items + InHold(s') == s.items + InHold(s) + [item];
  }

  lemma {:induction false} BurnNumbered(d: Direction, s: System, s': System)
    requires Numbered(d, s) && s.hold.Checked? && s'.hold.Free? && s'.items == s.items && s'.clean == s.clean
    requires s'.writer.counter == Advance(s.writer.counter)
    requires s'.taken == s.taken + 1 && s'.burned == s.burned + 1
    ensures Numbered(d, s')
  {
    hide IsRecord, CounterAt;
    CounterAdvances(s.taken);
  }

  lemma {:induction false} QueueNumbered(d: Direction, s: System)
    requires Numbered(d, s) && s.hold.Sealed?
    ensures Numbered(d, Next(d, s, Queue))
  {
    hide IsRecord, CounterAt;
    var s' := Next(d, s, Queue);
    assert s'.items + InHold(s') == s.items + InHold(s);
  }

  lemma {:induction false} NumberedFrame(d: Direction, s: System, s': System)
    requires Numbered(d, s)
    requires s'.items == s.items && InHold(s') == InHold(s) && s'.writer.counter == s.writer.counter
    requires s'.taken == s.taken && s'.burned == s.burned && s'.clean == s.clean
    ensures Numbered(d, s')
  {
    assert s'.items + InHold(s') == s.items + InHold(s);
  }

  lemma {:induction false} NumberedKept(d: Direction, s: System, a: Action)
    requires Numbered(d, s)
    ensures Numbered(d, Next(d, s, a))
  {
    hide Numbered, DrainRound;
    if a.Seal? && s.hold.Checked? {
      SealNumbered(d, s, a.lib);
    } else if a.Queue? && s.hold.Sealed? {
      QueueNumbered(d, s);
    } else {
      NumberedFrame(d, s, Next(d, s, a));
    }
  }

  lemma {:induction false} TotalSizeTail(items: seq<Item>)
    requires items != []
    ensures TotalSize(items) == |items[0].record| + TotalSize(items[1..])
  {
    if |items| > 1 {
      TotalSizeTail(items[..|items| - 1]);
      assert items[1..][..|items| - 2] == items[..|items| - 1][1..];
    }
  }

  lemma {:induction false} QueueGrows(items: seq<Item>, popped: nat, item: Item)
    requires popped <= |items|
    ensures (items + [item])[..popped] == items[..popped]
    ensures Records((items + [item])[popped..]) == Records(items[popped..]) + [item.record]
    ensures TotalSize((items + [item])[popped..]) == TotalSize(items[popped..]) + |item.record|
  {
    var queued := items[popped..];
    assert (items + [item])[popped..] == queued + [item];
    assert (queued + [item])[..|queued|] == queued;
  }

  lemma {:induction false} QueueShrinks(items: seq<Item>, popped: nat)
    requires popped < |items|
    ensures Records(items[popped..]) == [items[popped].record] + Records(items[popped + 1..])
    ensures TotalSize(items[popped..]) == |items[popped].record| + TotalSize(items[popped + 1..])
    ensures Concat(Records(items[..popped + 1])) == Concat(Records(items[..popped])) + items[popped].record
  {
    var queued, done, item := items[popped..], items[..popped], items[popped];
    assert items[popped + 1..] == queued[1..];
    TotalSizeTail(queued);
    assert Records(items[..popped + 1]) == Records(done) + [item.record];
    ConcatAppend(Records(done), [item.record]);
    assert Concat([item.record]) == item.record;
  }

  lemma {:induction false} QueueKept(d: Direction, s: System, a: Action)
    requires QueueTied(s)
    ensures QueueTied(Next(d, s, a))
  {
    hide QueueTied, MakeRecord, Drain, DrainRound;
    var s' := Next(d, s, a);
    match a
    case Queue =>
      if s.hold.Sealed? {
        QueuePushed(s, s', s.hold.item);
      } else {
        QueueFrame(s, s');
      }
    case Take =>
      if s.exited || s.unsent != [] || s.writer.queue == [] {
        QueueFrame(s, s');
      } else {
        QueueTaken(s, s');
      }
    case _ => QueueFrame(s, s');
  }

  lemma {:induction false} QueueFrame(s: System, s': System)
    requires QueueTied(s) && s'.items == s.items && s'.popped == s.popped
    requires s'.writer.queue == s.writer.queue && s'.writer.queuedBytes == s.writer.queuedBytes
    ensures QueueTied(s')
  {
  }

  lemma {:induction false} QueuePushed(s: System, s': System, item: Item)
    requires QueueTied(s) && s'.items == s.items + [item] && s'.popped == s.popped
    requires s'.writer == Push(s.writer, item.record)
    ensures QueueTied(s')
  {
    hide Records, TotalSize;
    QueueGrows(s.items, s.popped, item);
  }

  lemma {:induction false} QueueTaken(s: System, s': System)
    requires QueueTied(s) && s.writer.queue != [] && s'.items == s.items && s'.popped == s.popped + 1
    requires s'.writer == Pop(s.writer)
    ensures QueueTied(s')
  {
    assert |Records(s.items[s.popped..])| > 0;
    hide Records, TotalSize;
    QueueShrinks(s.items, s.popped);
  }

  lemma {:induction false} BytesKept(d: Direction, s: System, a: Action)
    requires QueueTied(s) && BytesTied(s)
    ensures BytesTied(Next(d, s, a))
  {
    hide MakeRecord, DrainRound, Records, TotalSize, Concat;
    match a
    case Queue =>
      if s.hold.Sealed? {
        QueueGrows(s.items, s.popped, s.hold.item);
      }
    case Take =>
      if Next(d, s, a) != s {
        QueueShrinks(s.items, s.popped);
        assert s.sent + s.unsent == s.sent;
      }
    case Transfer(n) =>
      if Next(d, s, a) != s {
        assert s.sent + s.unsent[..n] + s.unsent[n..] == s.sent + s.unsent;
      }
    case _ =>
  }

  lemma {:induction false} RoundThenDrain(d: Direction, r: Receiver)
    requires !r.failed
    ensures Drain(d, DrainRound(d, r).r) == Drain(d, r)
  {
    var u := r.(buffer := Unpadded(r.buffer));
    if NextFrame(u.buffer).NeedMore? {
      WaitingMore(d, r, u, []);
      assert Append(r, []) == r && Append(u, []) == u;
    }
  }

  lemma {:induction false} HostKept(d: Direction, s: System, a: Action)
    requires HostTied(d, s)
    ensures HostTied(d, Next(d, s, a))
  {
    hide MakeRecord, Drain, DrainRound;
    match a
    case Transfer(n) =>
      if Next(d, s, a) != s {
        assert (s.sent + s.unsent[..n])[..s.received] == s.sent[..s.received];
      }
    case Read(n) =>
      if s.received + n <= |s.sent| {
        var more := s.sent[s.received..s.received + n];
        var whole := Receiver(s.sent[..s.received], 0, [], false);
        assert s.sent[..s.received] + more == s.sent[..s.received + n];
        DrainThenMore(d, s.host, more);
        DrainThenMore(d, whole, more);
      }
    case DrainOne =>
      if !s.host.failed {
        RoundThenDrain(d, s.host);
      }
    case _ =>
  }

  // ---- what became of every offer ----------------------------------------------------------

  function OffersIn(log: seq<Event>, wanted: Event -> bool): seq<Offer> {
    if log == [] then []
    else
      var front, last := OffersIn(log[..|log| - 1], wanted), log[|log| - 1];
      if wanted(last) then front + [last.offer] else front
  }

  const IS_ACCEPTED := (e: Event) => e.Accepted?
  const IS_DROPPED := (e: Event) => e.Dropped?
  const IS_REFUSED := (e: Event) => e.Refused?
  const ANY := (e: Event) => true

  function PayloadTotal(offers: seq<Offer>): nat {
    if offers == [] then 0
    else PayloadTotal(offers[..|offers| - 1]) + |offers[|offers| - 1].message.payload|
  }

  function OffersOf(items: seq<Item>): (offers: seq<Offer>)
    ensures |offers| == |items|
    ensures forall i :: 0 <= i < |offers| ==> offers[i] == items[i].offer
  {
    seq(|items|, i requires 0 <= i < |items| => items[i].offer)
  }

  /** An offer misses the queue only if it may be dropped, is too large, or the cipher library failed. */
  ghost predicate Excused(e: Event) {
    match e
    case Accepted(_) => true
    case Dropped(o) => o.droppable
    case Refused(o, lib) => |o.message.payload| > MAX_MESSAGE || lib != Works
  }

  ghost predicate LogTied(s: System) {
    && OffersIn(s.log, IS_ACCEPTED) == OffersOf(s.items)
    && s.writer.droppedBytes == PayloadTotal(OffersIn(s.log, IS_DROPPED))
    && (forall e :: e in s.log ==> Excused(e))
  }

  lemma {:induction false} LogGrows(log: seq<Event>, e: Event, wanted: Event -> bool)
    ensures OffersIn(log + [e], wanted)
         == if wanted(e) then OffersIn(log, wanted) + [e.offer] else OffersIn(log, wanted)
    ensures forall x :: x in log + [e] <==> x in log || x == e
  {
    assert (log + [e])[..|log|] == log;
  }

  lemma {:induction false} PayloadGrows(offers: seq<Offer>, o: Offer)
    ensures PayloadTotal(offers + [o]) == PayloadTotal(offers) + |o.message.payload|
  {
    assert (offers + [o])[..|offers|] == offers;
  }

  lemma {:induction false} LogStep(s: System, s': System, e: Event)
    requires LogTied(s) && Excused(e) && s'.log == s.log + [e]
    requires OffersOf(s'.items) == OffersOf(s.items) + if e.Accepted? then [e.offer] else []
    requires s'.writer.droppedBytes
          == s.writer.droppedBytes + if e.Dropped? then |e.offer.message.payload| else 0
    ensures LogTied(s')
  {
    hide OffersIn, PayloadTotal;
    LogGrows(s.log, e, IS_ACCEPTED);
    LogGrows(s.log, e, IS_DROPPED);
    PayloadGrows(OffersIn(s.log, IS_DROPPED), e.offer);
  }

  lemma {:induction false} LogKept(d: Direction, s: System, a: Action)
    requires LogTied(s) && Ideal(d.cipher)
    ensures LogTied(Next(d, s, a))
  {
    hide LogTied, OffersIn, Sealing, Drain, DrainRound, Ideal, Plaintext;
    var s' := Next(d, s, a);
    match a
    case Lock(o) =>
      if s.hold.Free? && Sheds(s.writer, o) {
        LogStep(s, s', Dropped(o));
      } else {
        LogFrame(s, s');
      }
    case Seal(lib) =>
      if s.hold.Checked? && s'.hold.Free? {
        MakeRecordSucceeds(d, s.writer.counter, s.hold.offer.message);
        LogStep(s, s', Refused(s.hold.offer, lib));
      } else {
        LogFrame(s, s');
      }
    case Queue =>
      if s.hold.Sealed? {
        LogStep(s, s', Accepted(s.hold.item.offer));
      } else {
        LogFrame(s, s');
      }
    case _ => LogFrame(s, s');
  }

  lemma {:induction false} LogFrame(s: System, s': System)
    requires LogTied(s) && s'.log == s.log && s'.items == s.items
    requires s'.writer.droppedBytes == s.writer.droppedBytes
    ensures LogTied(s')
  {
  }

  /** Between the limit check and the push only the writer touches the queue, and only to shorten it. */
  ghost predicate Bounded(s: System) {
    && (s.hold.Checked? && s.hold.offer.droppable ==> s.writer.queuedBytes < QUEUE_LIMIT)
    && (s.hold.Sealed? && s.hold.item.offer.droppable ==> s.writer.queuedBytes < QUEUE_LIMIT)
    && s.popped <= |s.items|
    && DroppableSize(s.items[s.popped..]) < QUEUE_LIMIT + MAX_MESSAGE + 22
  }

  lemma {:induction false} DroppableAtMost(items: seq<Item>)
    ensures DroppableSize(items) <= TotalSize(items)
  {
    if items != [] {
      DroppableAtMost(items[..|items| - 1]);
    }
  }

  lemma {:induction false} DroppableTail(items: seq<Item>)
    requires items != []
    ensures DroppableSize(items[1..]) <= DroppableSize(items)
  {
    if |items| > 1 {
      DroppableTail(items[..|items| - 1]);
      assert items[1..][..|items| - 2] == items[..|items| - 1][1..];
    }
  }

  lemma {:induction false} HeldSize(d: Direction, s: System)
    requires Ideal(d.cipher) && Numbered(d, s) && s.hold.Sealed?
    ensures |s.hold.item.record| <= MAX_MESSAGE + 22
  {
    hide Ideal, IsRecord, CounterAt;
    var item := s.hold.item;
    assert (s.items + InHold(s))[|s.items|] == item;
    RecordShape(d, CounterAt(item.number), item.offer.message, item.record);
  }

  lemma {:induction false} PushBounded(d: Direction, s: System)
    requires Ideal(d.cipher) && Numbered(d, s) && QueueTied(s) && Bounded(s) && s.hold.Sealed?
    ensures Bounded(Next(d, s, Queue))
  {
    hide Numbered, TotalSize, IsRecord, Ideal, CounterAt;
    var queued, item := s.items[s.popped..], s.hold.item;
    HeldSize(d, s);
    DroppableAtMost(queued);
    assert (s.items + [item])[s.popped..] == queued + [item];
    assert (queued + [item])[..|queued|] == queued;
  }

  lemma {:induction false} BoundedKept(d: Direction, s: System, a: Action)
    requires Ideal(d.cipher) && Numbered(d, s) && QueueTied(s) && Bounded(s)
    ensures Bounded(Next(d, s, a))
  {
    hide MakeRecord, DrainRound, TotalSize, Numbered, Ideal, DroppableSize;
    match a
    case Queue =>
      if s.hold.Sealed? {
        PushBounded(d, s);
      }
    case Take =>
      if Next(d, s, a) != s {
        DroppableTail(s.items[s.popped..]);
        assert s.items[s.popped + 1..] == s.items[s.popped..][1..];
      }
    case _ =>
  }

  // ---- every reachable state -------------------------------------------------------------

  ghost predicate Invariant(d: Direction, s: System) {
    Numbered(d, s) && QueueTied(s) && BytesTied(s) && HostTied(d, s) && LogTied(s) && Bounded(s)
  }

  lemma {:induction false} InitInvariant(d: Direction)
    ensures Invariant(d, INIT)
  {
    CounterStarts();
  }

  lemma {:induction false} Reachable(d: Direction, actions: seq<Action>)
    requires Ideal(d.cipher)
    ensures Invariant(d, Run(d, actions))
  {
    hide Next, Numbered, QueueTied, BytesTied, HostTied, LogTied, Bounded;
    if actions == [] {
      InitInvariant(d);
    } else {
      var s, a := Run(d, actions[..|actions| - 1]), actions[|actions| - 1];
      Reachable(d, actions[..|actions| - 1]);
      NumberedKept(d, s, a);
      QueueKept(d, s, a);
      BytesKept(d, s, a);
      HostKept(d, s, a);
      LogKept(d, s, a);
      BoundedKept(d, s, a);
    }
  }

  lemma {:induction false} NumberAt(d: Direction, s: System, i: nat)
    requires Numbered(d, s) && i < |s.items|
    ensures IsRecord(d, CounterAt(s.items[i].number), s.items[i].offer.message, s.items[i].record)
    ensures i <= s.items[i].number < s.taken
    ensures s.burned > 0 && s.clean <= i ==> i < s.items[i].number
  {
    hide IsRecord, CounterAt;
    assert (s.items + InHold(s))[i] == s.items[i];
  }

  lemma {:induction false} NumbersRise(d: Direction, s: System, i: nat, j: nat)
    requires Numbered(d, s) && i < j < |s.items|
    ensures s.items[i].number < s.items[j].number < s.taken
  {
    hide IsRecord, CounterAt;
    var all := s.items + InHold(s);
    assert all[i] == s.items[i] && all[j] == s.items[j];
  }

  lemma {:induction false} CleanWhenNoneBurned(d: Direction, s: System)
    requires Numbered(d, s)
    ensures s.burned == 0 ==> s.clean == |s.items|
    ensures s.clean <= |s.items|
  {
    hide IsRecord, CounterAt;
  }

  lemma {:induction false} RecordsNonempty(d: Direction, s: System)
    requires Ideal(d.cipher) && Numbered(d, s)
    ensures forall w :: w in Records(s.items) ==> w != []
  {
    forall i | 0 <= i < |s.items|
      ensures s.items[i].record != []
    {
      NumberAt(d, s, i);
      RecordShape(d, CounterAt(s.items[i].number), s.items[i].offer.message, s.items[i].record);
    }
  }

  // ---- main results ----------------------------------------------------------------------

  lemma {:induction false} RecordsSplit(items: seq<Item>, k: nat)
    requires k <= |items|
    ensures Concat(Records(items)) == Concat(Records(items[..k])) + Concat(Records(items[k..]))
  {
    assert Records(items) == Records(items[..k]) + Records(items[k..]);
    ConcatAppend(Records(items[..k]), Records(items[k..]));
  }

  lemma {:induction false} ReceivedIsPrefix(d: Direction, s: System)
    requires BytesTied(s) && HostTied(d, s)
    ensures s.sent[..s.received] <= Concat(Records(s.items))
  {
    RecordsSplit(s.items, s.popped);
    assert s.sent[..s.received] <= s.sent <= s.sent + s.unsent;
  }

  lemma {:induction false} CleanIsSealed(d: Direction, s: System)
    requires Numbered(d, s)
    ensures SealedFrom(d, 0, Messages(s.items[..s.clean]), Records(s.items[..s.clean]))
  {
    forall i | 0 <= i < s.clean
      ensures IsRecord(d, CounterAt(0 + i), Messages(s.items[..s.clean])[i], Records(s.items[..s.clean])[i])
    {
      NumberAt(d, s, i);
    }
  }

  /** The messages sealed before any counter was burned: all of them when none was. */
  function Intact(s: System): seq<Message> {
    Messages(s.items[..Min(s.clean, |s.items|)])
  }

  /**
    End-to-end delivery, for every interleaving of producers, writer, link and host. The host has
    decoded, in acceptance order and unaltered, a prefix of the accepted messages; and no record is
    ever rejected, unless the cipher library failed after taking a counter, and then not before
    every message accepted until then has been delivered.
   */
  lemma {:induction false} EndToEnd(d: Direction, actions: seq<Action>)
    requires Ideal(d.cipher)
    ensures var s := Run(d, actions);
            && (s.burned == 0 ==> !s.host.failed && s.host.decoded <= Messages(s.items))
            && (s.host.decoded <= Intact(s) || Intact(s) <= s.host.decoded)
            && (s.host.failed ==> Intact(s) <= s.host.decoded)
  {
    hide Run, Drain, Ideal, SealedFrom, LogTied, Bounded;
    Reachable(d, actions);
    var s := Run(d, actions);
    var ms, ws := Messages(s.items[..s.clean]), Records(s.items[..s.clean]);
    var part := s.sent[..s.received];
    ReceivedIsPrefix(d, s);
    CleanIsSealed(d, s);
    RecordsSplit(s.items, s.clean);
    DrainOfStream(d, ms, ws, Concat(Records(s.items[s.clean..])), part);
    DrainExtends(d, s.host);
    FailedStays(d, s.host);
    if s.burned == 0 {
      assert s.items[..s.clean] == s.items;
      DrainOfPrefix(d, ms, ws, part);
    }
  }

  lemma {:induction false} FailedStays(d: Direction, r: Receiver)
    ensures r.failed ==> Drain(d, r) == r
  {
  }

  ghost predicate Quiet(d: Direction, s: System) {
    && s.writer.queue == [] && s.unsent == [] && s.received == |s.sent|
    && Drain(d, s.host) == s.host
  }

  /** Once nothing is under way any more, every accepted message has been delivered. */
  lemma {:induction false} AllDelivered(d: Direction, actions: seq<Action>)
    requires Ideal(d.cipher)
    requires Quiet(d, Run(d, actions)) && Run(d, actions).burned == 0
    ensures var s := Run(d, actions); s.host.decoded == Messages(s.items)
  {
    hide Run, Drain, SealedFrom, LogTied, Bounded;
    Reachable(d, actions);
    var s := Run(d, actions);
    var ms, ws := Messages(s.items), Records(s.items);
    assert s.items[..s.clean] == s.items;
    CleanIsSealed(d, s);
    assert s.items[s.popped..] == [] by {
      assert |s.writer.queue| == |s.items[s.popped..]|;
    }
    assert s.items[..s.popped] == s.items;
    assert s.sent[..s.received] == s.sent == Concat(ws);
    DrainOfPrefix(d, ms, ws, s.sent);
    RecordsNonempty(d, s);
    WholeAll(ws);
  }

  lemma {:induction false} WholeAll(ws: seq<Data>)
    requires forall w :: w in ws ==> w != []
    ensures Whole(ws, |Concat(ws)|) == |ws|
  {
    if ws != [] {
      assert forall w :: w in ws[1..] ==> w in ws;
      WholeAll(ws[1..]);
    }
  }

  lemma {:induction false} NothingBurned(d: Direction, actions: seq<Action>)
    requires forall a :: a in actions && a.Seal? ==> a.lib != Fails
    requires Ideal(d.cipher)
    ensures Run(d, actions).burned == 0
  {
    if actions != [] {
      var front, a := actions[..|actions| - 1], actions[|actions| - 1];
      assert a in actions && forall x :: x in front ==> x in actions;
      NothingBurned(d, front);
      var s := Run(d, front);
      if a.Seal? && s.hold.Checked? {
        MakeRecordSucceeds(d, s.writer.counter, s.hold.offer.message);
      }
    }
  }

  lemma {:induction false} OffersSplit(log: seq<Event>, keep: Offer -> bool)
    requires forall e :: e in log ==> keep(e.offer) ==> e.Accepted?
    ensures Kept(OffersIn(log, ANY), keep) == Kept(OffersIn(log, IS_ACCEPTED), keep)
  {
    if log != [] {
      var front, e := log[..|log| - 1], log[|log| - 1];
      assert e in log && forall x :: x in front ==> x in log;
      OffersSplit(front, keep);
      KeptGrows(OffersIn(front, ANY), e.offer, keep);
      KeptGrows(OffersIn(front, IS_ACCEPTED), e.offer, keep);
    }
  }

  function Kept(offers: seq<Offer>, keep: Offer -> bool): seq<Offer> {
    if offers == [] then []
    else
      var front, last := Kept(offers[..|offers| - 1], keep), offers[|offers| - 1];
      if keep(last) then front + [last] else front
  }

  lemma {:induction false} KeptGrows(offers: seq<Offer>, o: Offer, keep: Offer -> bool)
    ensures Kept(offers + [o], keep) == if keep(o) then Kept(offers, keep) + [o] else Kept(offers, keep)
  {
    assert (offers + [o])[..|offers|] == offers;
  }

  /** Control and update traffic: not droppable, and not larger than a record can carry. */
  const LOSSLESS := (o: Offer) => !o.droppable && |o.message.payload| <= MAX_MESSAGE

  /**
    With a working cipher library no lossless message is ever missing: among those offered and those
    queued for delivery the lossless ones are the same, in the same order.
   */
  lemma {:induction false} LosslessAccepted(d: Direction, actions: seq<Action>)
    requires Ideal(d.cipher)
    requires forall a :: a in actions && a.Seal? ==> a.lib == Works
    ensures var s := Run(d, actions);
            Kept(OffersIn(s.log, ANY), LOSSLESS) == Kept(OffersOf(s.items), LOSSLESS)
  {
    hide Run;
    Reachable(d, actions);
    var s := Run(d, actions);
    RefusedWorked(d, actions);
    forall e | e in s.log && LOSSLESS(e.offer)
      ensures e.Accepted?
    {
      assert Excused(e);
    }
    OffersSplit(s.log, LOSSLESS);
  }

  lemma {:induction false} RefusedWorked(d: Direction, actions: seq<Action>)
    requires forall a :: a in actions && a.Seal? ==> a.lib == Works
    ensures forall e :: e in Run(d, actions).log && e.Refused? ==> e.lib == Works
  {
    if actions != [] {
      var front, a := actions[..|actions| - 1], actions[|actions| - 1];
      assert a in actions && forall x :: x in front ==> x in actions;
      RefusedWorked(d, front);
    }
  }

  /** The queue never reached the limit at which droppable data is shed. */
  ghost predicate NeverFull(d: Direction, actions: seq<Action>) {
    forall k :: 0 <= k <= |actions| ==> Run(d, actions[..k]).writer.queuedBytes < QUEUE_LIMIT
  }

  /** Then nothing was ever dropped. */
  lemma {:induction false} NothingDropped(d: Direction, actions: seq<Action>)
    requires NeverFull(d, actions)
    ensures forall e :: e in Run(d, actions).log ==> !e.Dropped?
  {
    if actions != [] {
      var front, a := actions[..|actions| - 1], actions[|actions| - 1];
      forall k | 0 <= k <= |front|
        ensures Run(d, front[..k]).writer.queuedBytes < QUEUE_LIMIT
      {
        assert front[..k] == actions[..k];
      }
      NothingDropped(d, front);
      assert front[..|front|] == front;
      assert !Sheds(Run(d, front).writer, Offer(Message(Video, 0, []), true));
      assert forall o :: !Sheds(Run(d, front).writer, o);
    }
  }

  // ---- what one consumer gets ----------------------------------------------------------------

  function OfRoute(route: Route): Offer -> bool {
    (o: Offer) => Wants(route, o.message)
  }

  function MessagesOf(offers: seq<Offer>): (ms: seq<Message>)
    ensures |ms| == |offers|
  {
    seq(|offers|, i requires 0 <= i < |offers| => offers[i].message)
  }

  lemma {:induction false} RoutedOfKept(offers: seq<Offer>, route: Route)
    ensures Routed(MessagesOf(offers), route) == MessagesOf(Kept(offers, OfRoute(route)))
  {
    if offers != [] {
      var front, o := offers[..|offers| - 1], offers[|offers| - 1];
      RoutedOfKept(front, route);
      assert MessagesOf(offers)[..|offers| - 1] == MessagesOf(front);
    }
  }

  lemma {:induction false} RoutedPrefix(a: seq<Message>, b: seq<Message>, route: Route)
    requires a <= b
    ensures Routed(a, route) <= Routed(b, route)
    decreases |b|
  {
    if a != b {
      assert a <= b[..|b| - 1];
      RoutedPrefix(a, b[..|b| - 1], route);
    }
  }

  /** Where everything offered to a route was accepted, its consumer gets exactly that, in order. */
  lemma {:induction false} RouteDelivered(d: Direction, actions: seq<Action>, route: Route)
    requires Ideal(d.cipher) && Quiet(d, Run(d, actions)) && Run(d, actions).burned == 0
    requires forall e :: e in Run(d, actions).log && OfRoute(route)(e.offer) ==> e.Accepted?
    ensures var s := Run(d, actions);
            Routed(s.host.decoded, route) == MessagesOf(Kept(OffersIn(s.log, ANY), OfRoute(route)))
  {
    hide Run, Numbered, QueueTied, BytesTied, HostTied, Bounded, Quiet;
    Reachable(d, actions);
    AllDelivered(d, actions);
    var s := Run(d, actions);
    OffersSplit(s.log, OfRoute(route));
    assert MessagesOf(OffersOf(s.items)) == Messages(s.items);
    RoutedOfKept(OffersOf(s.items), route);
  }

  /**
    Control replies and update answers: whoever else queues in between, everything offered to such a
    route reaches its consumer on the host in the order it was offered.
   */
  lemma {:induction false} LosslessDelivered(d: Direction, actions: seq<Action>, route: Route)
    requires Ideal(d.cipher) && Quiet(d, Run(d, actions))
    requires forall a :: a in actions && a.Seal? ==> a.lib == Works
    requires forall e :: e in Run(d, actions).log && OfRoute(route)(e.offer) ==> LOSSLESS(e.offer)
    ensures var s := Run(d, actions);
            Routed(s.host.decoded, route) == MessagesOf(Kept(OffersIn(s.log, ANY), OfRoute(route)))
  {
    hide Run, Numbered, QueueTied, BytesTied, HostTied, Bounded, Quiet;
    Reachable(d, actions);
    NothingBurned(d, actions);
    RefusedWorked(d, actions);
    var s := Run(d, actions);
    forall e | e in s.log && OfRoute(route)(e.offer)
      ensures e.Accepted?
    {
      assert LOSSLESS(e.offer) && Excused(e);
    }
    RouteDelivered(d, actions, route);
  }

  // ---- a burned counter --------------------------------------------------------------------

  /** The authenticity the AEAD adds to `Ideal`: a text opens under no other nonce of its key. */
  ghost predicate Binding(c: Cipher) {
    forall k, m: Iv, n: Iv, p :: m != n ==> c.open(k, m, c.seal(k, n, p)) == None
  }

  lemma {:induction false} TaggingCipherIsBinding()
    ensures Binding(TaggingCipher())
  {
    var c := TaggingCipher();
    forall k: Data, m: Iv, n: Iv, p: Data | m != n
      ensures c.open(k, m, c.seal(k, n, p)) == None
    {
      var t := p + Tag(n);
      assert t[|t| - TAG_LENGTH..] == Tag(n) && Tag(n)[..NONCE_LENGTH] == n && Tag(m)[..NONCE_LENGTH] == m;
    }
  }

  lemma {:induction false} WrongNonce(d: Direction, right: Counter, used: Counter, p: Data)
    requires Binding(d.cipher) && right != used
    ensures d.cipher.open(d.key, NonceFor(d.iv, right), d.cipher.seal(d.key, NonceFor(d.iv, used), p)) == None
  {
    hide NonceFor;
    NoncesDistinct(d.iv, right, used);
  }

  lemma {:induction false} WrongOpening(d: Direction, right: Counter, used: Counter, m: Message, w: Data)
    requires Ideal(d.cipher) && Binding(d.cipher) && right != used && IsRecord(d, used, m, w)
    ensures |w| >= 4 && Opening(d, right, w[4..], Works) == Step(Err(AuthenticationFailed), Advance(right))
  {
    hide NonceFor, IsRecord, Ideal, Binding, Plaintext, Advance, U32, Header;
    RecordShape(d, used, m, w);
    WrongNonce(d, right, used, Plaintext(m));
  }

  lemma {:induction false} CountersDiffer(i: nat, j: nat)
    requires i < j < TWO_64
    ensures CounterAt(i) != CounterAt(j)
  {
  }

  lemma {:induction false} WrongCounterFails(d: Direction, right: nat, used: nat, m: Message, w: Data)
    requires Ideal(d.cipher) && Binding(d.cipher) && right < used < TWO_64
    requires IsRecord(d, CounterAt(used), m, w)
    ensures Received(d, CounterAt(right), w) == Opened(Err(Crypto(AuthenticationFailed)), CounterAt(right + 1))
  {
    CountersDiffer(right, used);
    hide NonceFor, IsRecord, U32, CounterAt, Ideal, Binding, Plaintext, Advance, Opening, LibraryAt, Header;
    LibraryWorks(d, CounterAt(right));
    RecordShape(d, CounterAt(used), m, w);
    WrongOpening(d, CounterAt(right), CounterAt(used), m, w);
    CounterAdvances(right);
  }

  lemma {:induction false} WrongCounterRejected(d: Direction, right: nat, used: nat, m: Message, w: Data, rest: Data,
                                                decoded: seq<Message>)
    requires Ideal(d.cipher) && Binding(d.cipher) && right < used < TWO_64
    requires IsRecord(d, CounterAt(used), m, w)
    ensures Drain(d, Receiver(w + rest, CounterAt(right), decoded, false))
         == Receiver(rest, CounterAt(right + 1), decoded, true)
  {
    hide Received, IsRecord, Ideal, Binding, NextFrame, CounterAt;
    HeaderNotPadding(d, CounterAt(used), m, w, rest);
    assert Unpadded(w + rest) == w + rest;
    RecordRoundTrip(d, CounterAt(used), m, w, rest);
    WrongCounterFails(d, right, used, m, w);
  }

  lemma {:induction false} SplitAround(items: seq<Item>, k: nat)
    requires k < |items|
    ensures Concat(Records(items))
         == Concat(Records(items[..k])) + (items[k].record + Concat(Records(items[k + 1..])))
  {
    RecordsSplit(items, k);
    assert Records(items[k..]) == [items[k].record] + Records(items[k + 1..]);
    ConcatAppend([items[k].record], Records(items[k + 1..]));
    assert Concat([items[k].record]) == items[k].record;
  }

  /** The first record after a burned counter, once it has arrived, ends the host's session. */
  lemma {:induction false} WrongRecordStops(d: Direction, s: System, part: Data)
    requires Ideal(d.cipher) && Binding(d.cipher) && Numbered(d, s)
    requires s.clean < |s.items| && s.taken <= TWO_64
    requires part <= Concat(Records(s.items))
    requires |Concat(Records(s.items[..s.clean]))| + |s.items[s.clean].record| <= |part|
    ensures var f := Drain(d, Receiver(part, 0, [], false)); f.failed && f.decoded == Messages(s.items[..s.clean])
  {
    hide Ideal, Binding, Drain, Records, Concat, SealedFrom, CounterAt;
    var item, ms, ws := s.items[s.clean], Messages(s.items[..s.clean]), Records(s.items[..s.clean]);
    var tail := Concat(Records(s.items[s.clean + 1..]));
    SplitAround(s.items, s.clean);
    PrefixOfSum(part, Concat(ws), item.record + tail);
    var rest := part[|Concat(ws)|..];
    PrefixOfSum(rest, item.record, tail);
    NumberAt(d, s, s.clean);
    CleanWhenNoneBurned(d, s);
    CleanIsSealed(d, s);
    hide Numbered;
    CounterStarts();
    DrainTakesAll(d, 0, ms, ws, rest, []);
    assert [] + ms == ms;
    WrongCounterRejected(d, s.clean, item.number, item.offer.message, item.record, rest[|item.record|..], ms);
  }

  /**
    The delivery guarantee ends exactly there: with a binding cipher the first record sealed after a
    burned counter is rejected as soon as it has arrived, and nothing after it is decoded.
   */
  lemma {:induction false} BurnIsFatal(d: Direction, actions: seq<Action>)
    requires Ideal(d.cipher) && Binding(d.cipher)
    requires var s := Run(d, actions);
             && s.clean < |s.items| && s.taken <= TWO_64
             && |Concat(Records(s.items[..s.clean]))| + |s.items[s.clean].record| <= s.received
             && Drain(d, s.host) == s.host
    ensures var s := Run(d, actions); s.host.failed && s.host.decoded == Intact(s)
  {
    hide Run, Ideal, Binding, Drain, Numbered, LogTied, Bounded, QueueTied;
    Reachable(d, actions);
    var s := Run(d, actions);
    ReceivedIsPrefix(d, s);
    WrongRecordStops(d, s, s.sent[..s.received]);
  }

  /** The first record sealed after a burned counter has wholly arrived at the host. */
  predicate BurnArrived(s: System) {
    && s.clean < |s.items|
    && |Concat(Records(s.items[..s.clean]))| + |s.items[s.clean].record| <= s.received
  }

  lemma {:induction false} PartRests(d: Direction, r: Receiver)
    requires NextFrame(r.buffer) == NeedMore && Padding(r.buffer) == 0
    ensures Drain(d, r) == r
  {
  }

  /** Until that record is there in full, what has arrived drains without a failure, to intact messages. */
  lemma {:induction false} IntactUntilBurn(d: Direction, s: System, part: Data)
    requires Ideal(d.cipher) && Numbered(d, s) && part <= Concat(Records(s.items))
    requires s.clean < |s.items|
         ==> |part| < |Concat(Records(s.items[..s.clean]))| + |s.items[s.clean].record|
    ensures var f := Drain(d, Receiver(part, 0, [], false)); !f.failed && f.decoded <= Messages(s.items[..s.clean])
  {
    hide Ideal, Drain, Records, Concat, SealedFrom, CounterAt, Whole, Remainder;
    CleanWhenNoneBurned(d, s);
    CleanIsSealed(d, s);
    RecordsSplit(s.items, s.clean);
    var ms, ws := Messages(s.items[..s.clean]), Records(s.items[..s.clean]);
    if |part| <= |Concat(ws)| {
      assert part <= Concat(ws);
      DrainOfPrefix(d, ms, ws, part);
    } else {
      EmptyAtEnd(s.items, s.clean);
      var item, tail := s.items[s.clean], Concat(Records(s.items[s.clean + 1..]));
      SplitAround(s.items, s.clean);
      PrefixOfSum(part, Concat(ws), item.record + tail);
      var rest := part[|Concat(ws)|..];
      assert rest == (item.record + tail)[..|rest|] == item.record[..|rest|];
      NumberAt(d, s, s.clean);
      hide Numbered;
      PartialRecordWaits(d, CounterAt(item.number), item.offer.message, item.record, rest);
      CounterStarts();
      DrainTakesAll(d, 0, ms, ws, rest, []);
      PartRests(d, Receiver(rest, CounterAt(s.clean), [] + ms, false));
    }
  }

  lemma {:induction false} EmptyAtEnd(items: seq<Item>, k: nat)
    requires k <= |items|
    ensures k == |items| ==> Concat(Records(items[k..])) == []
  {
  }

  /** The exact condition: a host that has drained all it received has failed if and only if that record arrived. */
  lemma {:induction false} FailsExactlyWhen(d: Direction, actions: seq<Action>)
    requires Ideal(d.cipher) && Binding(d.cipher) && Run(d, actions).taken <= TWO_64
    requires Drain(d, Run(d, actions).host) == Run(d, actions).host
    ensures Run(d, actions).host.failed <==> BurnArrived(Run(d, actions))
  {
    var s := Run(d, actions);
    if BurnArrived(s) {
      BurnIsFatal(d, actions);
    } else {
      hide Run, Ideal, Binding, Drain, Numbered, LogTied, Bounded, QueueTied, Records, Concat;
      Reachable(d, actions);
      ReceivedIsPrefix(d, s);
      IntactUntilBurn(d, s, s.sent[..s.received]);
    }
  }

  /**
    Over all interleavings, library failures included: all that a host ever decodes is a prefix of the
    messages accepted before the first burned counter, unaltered and in order.
   */
  lemma {:induction false} DecodedIsIntact(d: Direction, actions: seq<Action>)
    requires Ideal(d.cipher) && Binding(d.cipher) && Run(d, actions).taken <= TWO_64
    ensures var s := Run(d, actions); s.host.decoded <= Intact(s) <= Messages(s.items)
  {
    hide Run, Ideal, Binding, Drain, LogTied, Bounded, QueueTied, Records, Concat;
    Reachable(d, actions);
    var s := Run(d, actions);
    CleanWhenNoneBurned(d, s);
    hide Numbered;
    ReceivedIsPrefix(d, s);
    DrainExtends(d, s.host);
    var part := s.sent[..s.received];
    if BurnArrived(s) {
      WrongRecordStops(d, s, part);
    } else {
      IntactUntilBurn(d, s, part);
    }
    MessagesPrefix(s.items, s.clean);
  }

  lemma {:induction false} MessagesPrefix(items: seq<Item>, k: nat)
    requires k <= |items|
    ensures Messages(items[..k]) <= Messages(items)
  {
    assert Messages(items[..k]) == Messages(items)[..k];
  }

  lemma {:induction false} FirstTwo()
    ensures CounterAt(0) == 0 && CounterAt(1) == 1 && Advance(1) == 2
  {
  }

  lemma {:induction false} FirstCounters(d: Direction, m: Message) returns (w: Data)
    requires Ideal(d.cipher) && Binding(d.cipher) && |m.payload| <= MAX_MESSAGE
    ensures MakeRecord(d, 1, m, Works) == Made(Ok(w), 2)
    ensures w != [] && Drain(d, Receiver(w, 0, [], false)) == Receiver([], 1, [], true)
  {
    MakeRecordSucceeds(d, 1, m);
    w := MakeRecord(d, 1, m, Works).result.value;
    FirstTwo();
    hide CounterAt, MakeRecord, Ideal, Binding, Drain;
    RecordShape(d, 1, m, w);
    WrongCounterRejected(d, 0, 1, m, w, [], []);
    assert w + [] == w;
  }

  /** The state after the reply was refused, burning the first counter, and o was queued. */
  function AfterBurn(reply: Offer, o: Offer, w: Data): System {
    System(Writer([w], |w|, 0, 2), Free, 2, 1, 0, [Item(o, 1, w)], 0, [], [], 0, false, false,
           [Refused(reply, Fails), Accepted(o)], Receiver([], 0, [], false))
  }

  function Burned(reply: Offer): System {
    INIT.(writer := Writer([], 0, 0, 1), taken := 1, burned := 1, log := [Refused(reply, Fails)])
  }

  lemma {:induction false} BurnFirst(d: Direction, reply: Offer)
    requires MakeRecord(d, 0, reply.message, Fails) == Made(Err(Crypto(LibraryError)), 1)
    ensures Next(d, Next(d, INIT, Lock(reply)), Seal(Fails)) == Burned(reply)
  {
    hide MakeRecord;
  }

  lemma {:induction false} QueueNext(d: Direction, reply: Offer, o: Offer, w: Data)
    requires MakeRecord(d, 1, o.message, Works) == Made(Ok(w), 2)
    ensures Next(d, Next(d, Next(d, Burned(reply), Lock(o)), Seal(Works)), Queue) == AfterBurn(reply, o, w)
  {
    hide MakeRecord;
    assert Next(d, Burned(reply), Lock(o)) == Burned(reply).(hold := Checked(o));
    assert [Refused(reply, Fails)] + [Accepted(o)] == [Refused(reply, Fails), Accepted(o)];
    assert [] + [w] == [w] && [] + [Item(o, 1, w)] == [Item(o, 1, w)];
  }

  lemma {:induction false} BurnThenQueue(d: Direction, reply: Offer, o: Offer, w: Data) returns (actions: seq<Action>)
    requires MakeRecord(d, 0, reply.message, Fails) == Made(Err(Crypto(LibraryError)), 1)
    requires MakeRecord(d, 1, o.message, Works) == Made(Ok(w), 2)
    ensures Run(d, actions) == AfterBurn(reply, o, w)
  {
    assert Run(d, []) == INIT;
    BurnFirst(d, reply);
    QueueNext(d, reply, o, w);
    hide Run, Next, MakeRecord, Burned;
    var a1 := [] + [Lock(reply)];
    RunSnoc(d, [], Lock(reply));
    var a2 := a1 + [Seal(Fails)];
    RunSnoc(d, a1, Seal(Fails));
    var a3 := a2 + [Lock(o)];
    RunSnoc(d, a2, Lock(o));
    var a4 := a3 + [Seal(Works)];
    RunSnoc(d, a3, Seal(Works));
    actions := a4 + [Queue];
    RunSnoc(d, a4, Queue);
  }

  lemma {:induction false} SendOnly(d: Direction, reply: Offer, o: Offer, w: Data)
    requires w != []
    ensures Next(d, Next(d, Next(d, AfterBurn(reply, o, w), Take), Transfer(|w|)), Read(|w|))
         == AfterBurn(reply, o, w).(writer := Writer([], 0, 0, 2), popped := 1, sent := w, received := |w|,
                                host := Receiver(w, 0, [], false))
  {
    assert [w][1..] == [] && [] + w == w && w[..|w|] == w && w[|w|..] == [] && w[0..0 + |w|] == w;
  }

  /**
    It does happen where the producer does not end the session on a refused seal, as the one of control
    replies does not: after one failed call of the cipher library for a reply, the next accepted
    message, whatever it is, is lost.
   */
  lemma {:induction false} OneFailureLosesAMessage(d: Direction, reply: Offer, o: Offer) returns (actions: seq<Action>)
    requires Ideal(d.cipher) && Binding(d.cipher)
    requires reply.message.channel == Control && !reply.droppable && |reply.message.payload| <= MAX_MESSAGE
    requires |o.message.payload| <= MAX_MESSAGE
    ensures var s := Run(d, actions);
            && s.log == [Refused(reply, Fails), Accepted(o)] && !s.dead
            && OffersOf(s.items) == [o] && s.host.failed && s.host.decoded == []
  {
    var w := FirstCounters(d, o.message);
    assert MakeRecord(d, 0, reply.message, Fails) == Made(Err(Crypto(LibraryError)), 1);
    var queued := BurnThenQueue(d, reply, o, w);
    SendOnly(d, reply, o, w);
    hide Run, Next, MakeRecord, Ideal, Binding, Drain, DrainRound;
    RunSnoc(d, queued, Take);
    var taken := queued + [Take];
    RunSnoc(d, taken, Transfer(|w|));
    var moved := taken + [Transfer(|w|)];
    RunSnoc(d, moved, Read(|w|));
    var read := moved + [Read(|w|)];
    actions := LetHostDrain(d, read);
  }

  // ---- nonces, conservation and bounds over whole runs --------------------------------------

  /** No two records of a direction share a nonce for the first 2^64 counters, burned ones included. */
  lemma {:induction false} NoncesNeverRepeat(d: Direction, actions: seq<Action>, i: nat, j: nat)
    requires Ideal(d.cipher)
    requires Run(d, actions).taken <= TWO_64 && i < j < |Run(d, actions).items|
    ensures var items := Run(d, actions).items;
            NonceFor(d.iv, CounterAt(items[i].number)) != NonceFor(d.iv, CounterAt(items[j].number))
  {
    hide Run, Numbered, LogTied, Bounded, QueueTied, BytesTied, HostTied, Ideal;
    Reachable(d, actions);
    var s := Run(d, actions);
    NumbersRise(d, s, i, j);
    NoncesDistinct(d.iv, CounterAt(s.items[i].number), CounterAt(s.items[j].number));
  }

  /** Every offered byte is with the writer, queued, dropped or refused; nothing is counted twice. */
  lemma {:induction false} PayloadConserved(d: Direction, actions: seq<Action>)
    requires Ideal(d.cipher)
    ensures var s := Run(d, actions);
            && s.popped <= |s.items|
            && PayloadTotal(OffersIn(s.log, ANY))
            == PayloadTotal(OffersOf(s.items[..s.popped])) + PayloadTotal(OffersOf(s.items[s.popped..]))
               + s.writer.droppedBytes + PayloadTotal(OffersIn(s.log, IS_REFUSED))
  {
    hide Run, Numbered, Bounded, HostTied, OffersIn, PayloadTotal;
    Reachable(d, actions);
    var s := Run(d, actions);
    LogAddsUp(s.log);
    assert OffersOf(s.items) == OffersOf(s.items[..s.popped]) + OffersOf(s.items[s.popped..]);
    PayloadSplit(OffersOf(s.items[..s.popped]), OffersOf(s.items[s.popped..]));
  }

  lemma {:induction false} LogAddsUp(log: seq<Event>)
    ensures PayloadTotal(OffersIn(log, ANY))
         == PayloadTotal(OffersIn(log, IS_ACCEPTED)) + PayloadTotal(OffersIn(log, IS_DROPPED))
            + PayloadTotal(OffersIn(log, IS_REFUSED))
  {
    if log != [] {
      var front, e := log[..|log| - 1], log[|log| - 1];
      LogAddsUp(front);
      PayloadGrows(OffersIn(front, ANY), e.offer);
      PayloadGrows(OffersIn(front, IS_ACCEPTED), e.offer);
      PayloadGrows(OffersIn(front, IS_DROPPED), e.offer);
      PayloadGrows(OffersIn(front, IS_REFUSED), e.offer);
    }
  }

  lemma {:induction false} PayloadSplit(a: seq<Offer>, b: seq<Offer>)
    ensures PayloadTotal(a + b) == PayloadTotal(a) + PayloadTotal(b)
  {
    if b == [] {
      assert a + b == a;
    } else {
      var front, o := b[..|b| - 1], b[|b| - 1];
      assert a + b == (a + front) + [o] && b == front + [o];
      PayloadSplit(a, front);
      PayloadGrows(a + front, o);
      PayloadGrows(front, o);
    }
  }

  /**
    The queue counter is the sum of the queued sizes in every reachable state, drops take no counter,
    and queued droppable bytes stay below the limit plus one record although the check and the push
    are separate regions.
   */
  lemma {:induction false} QueueAccounts(d: Direction, actions: seq<Action>)
    requires Ideal(d.cipher)
    ensures var s := Run(d, actions);
            && s.popped <= |s.items|
            && s.writer.queue == Records(s.items[s.popped..])
            && s.writer.queuedBytes == TotalSize(s.items[s.popped..])
            && DroppableSize(s.items[s.popped..]) < QUEUE_LIMIT + 65556
            && s.writer.counter == (|s.items| + |InHold(s)| + s.burned) % TWO_64
  {
    hide Run, LogTied, BytesTied, HostTied;
    Reachable(d, actions);
  }

  // ---- nothing is ever stuck ---------------------------------------------------------------

  lemma {:induction false} RunSnoc(d: Direction, actions: seq<Action>, a: Action)
    ensures Run(d, actions + [a]) == Next(d, Run(d, actions), a)
  {
    assert (actions + [a])[..|actions|] == actions;
  }

  lemma {:induction false} LetHostDrain(d: Direction, actions: seq<Action>) returns (all: seq<Action>)
    ensures actions <= all
    ensures Run(d, all) == Run(d, actions).(host := Drain(d, Run(d, actions).host))
    decreases |Run(d, actions).host.buffer|
  {
    hide Run, DrainRound;
    var s := Run(d, actions);
    all := actions;
    if !s.host.failed {
      RunSnoc(d, actions, DrainOne);
      all := actions + [DrainOne];
      if DrainRound(d, s.host).Again? {
        all := LetHostDrain(d, all);
      }
    }
  }

  lemma {:induction false} LetWriterEmpty(d: Direction, actions: seq<Action>) returns (all: seq<Action>)
    requires var s := Run(d, actions); !s.dead && !s.exited
    ensures actions <= all
    ensures var s, t := Run(d, actions), Run(d, all);
            && t.writer.queue == [] && t.unsent == [] && !t.dead && !t.exited
            && t.items == s.items && t.burned == s.burned
    decreases |Run(d, actions).writer.queue|
  {
    hide Run, DrainRound, MakeRecord;
    var s := Run(d, actions);
    RunSnoc(d, actions, Transfer(|s.unsent|));
    all := actions + [Transfer(|s.unsent|)];
    if s.writer.queue != [] {
      RunSnoc(d, all, Take);
      all := LetWriterEmpty(d, all + [Take]);
    }
  }

  /** From every live state the writer and the host alone can still deliver all that was accepted. */
  lemma {:induction false} AlwaysDeliverable(d: Direction, actions: seq<Action>) returns (all: seq<Action>)
    requires Ideal(d.cipher)
    requires var s := Run(d, actions); !s.dead && !s.exited && s.burned == 0
    ensures actions <= all
    ensures Run(d, all).host.decoded == Messages(Run(d, actions).items)
  {
    hide Run, Drain, Ideal, Numbered, QueueTied, BytesTied, LogTied, Bounded;
    var emptied := LetWriterEmpty(d, actions);
    var s := Run(d, emptied);
    Reachable(d, emptied);
    assert s.received <= |s.sent|;
    RunSnoc(d, emptied, Read(|s.sent| - s.received));
    var read := emptied + [Read(|s.sent| - s.received)];
    var t := Run(d, read);
    assert t.received == |t.sent|;
    all := LetHostDrain(d, read);
    DrainTwice(d, t.host);
    var u := Run(d, all);
    assert u.host == Drain(d, t.host);
    assert Drain(d, u.host) == u.host;
    assert Quiet(d, u);
    AllDelivered(d, all);
  }

  lemma {:induction false} AppendNothing(r: Receiver)
    ensures Append(r, []) == r
  {
    assert r.buffer + [] == r.buffer;
  }

  lemma {:induction false} DrainTwice(d: Direction, r: Receiver)
    ensures Drain(d, Drain(d, r)) == Drain(d, r)
  {
    hide Drain;
    DrainThenMore(d, r, []);
    AppendNothing(r);
    AppendNothing(Drain(d, r));
  }
}
