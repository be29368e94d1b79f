/** The host end of the transport: reassembly, opening and demultiplexing of device records. */
module HostBridge {
  import opened Bytes
  import opened SecureRecords
  import opened SecureWire

  /** What the host holds: bytes not yet framed, its counter, the messages opened, a dead session. */
  datatype Receiver = Receiver(buffer: Data, counter: Counter, decoded: seq<Message>, failed: bool)

  datatype Round = Again(r: Receiver) | Settled(r: Receiver)

  /** One round of the drain loop: remove padding, take one record, open it. */
  function DrainRound(d: Direction, r: Receiver): (next: Round)
    ensures next.Again? ==> |next.r.buffer| < |r.buffer|
  {
    TakeOne(d, r.(buffer := Unpadded(r.buffer)))
  }

  function TakeOne(d: Direction, r: Receiver): (next: Round)
    ensures next.Again? ==> |next.r.buffer| < |r.buffer|
  {
    match NextFrame(r.buffer)
    case NeedMore => Settled(r)
    case Malformed => Settled(r.(failed := true))
    case Framed(wire, rest) =>
      var o := Received(d, r.counter, wire);
      match o.result
      case Err(_) => Settled(Receiver(rest, o.next, r.decoded, true))
      case Ok(m) => Again(Receiver(rest, o.next, r.decoded + [m], false))
  }

  function Drain(d: Direction, r: Receiver): Receiver
    decreases |r.buffer|
  {
    if r.failed then r
    else match DrainRound(d, r)
      case Again(next) => Drain(d, next)
      case Settled(next) => next
  }

  function Append(r: Receiver, data: Data): Receiver {
    r.(buffer := r.buffer + data)
  }

  // ---- chunking does not matter ----------------------------------------------------------

  lemma {:induction false} LeadingZerosAppend(x: Data, more: Data)
    ensures LeadingZeros(x + more)
         == if LeadingZeros(x) < |x| then LeadingZeros(x) else |x| + LeadingZeros(more)
  {
    if x == [] {
      assert x + more == more;
    } else {
      assert (x + more)[1..] == x[1..] + more;
      LeadingZerosAppend(x[1..], more);
    }
  }

  lemma {:induction false} DropOfSum<T>(x: seq<T>, more: seq<T>, k: nat)
    requires k <= |x|
    ensures (x + more)[k..] == x[k..] + more
  {
  }

  lemma {:induction false} DropDrop(s: Data, i: nat, j: nat)
    requires i + j <= |s|
    ensures s[i..][j..] == s[i + j..]
  {
  }

  lemma {:induction false} UnpaddedAppend(x: Data, more: Data)
    ensures Unpadded(x + more) == Unpadded(Unpadded(x) + more)
    ensures LeadingZeros(x) < |x| ==> Unpadded(x + more) == Unpadded(x) + more
  {
    var k, s := Padding(x), x + more;
    LeadingZerosAppend(x, more);
    DropOfSum(x, more, k);
    PaddingOfSuffix(s, k);
    DropDrop(s, k, Padding(s) - k);
  }

  lemma {:induction false} SettledPadding(x: Data)
    ensures Unpadded(Unpadded(x)) == Unpadded(x)
    ensures NextFrame(Unpadded(x)).NeedMore? || LeadingZeros(x) < |x|
  {
    PaddingOfSuffix(x, Padding(x));
  }

  lemma {:induction false} TakeOneMore(d: Direction, r: Receiver, more: Data)
    requires !r.failed && !NextFrame(r.buffer).NeedMore?
    ensures TakeOne(d, Append(r, more)) == match TakeOne(d, r)
                                           case Again(next) => Again(Append(next, more))
                                           case Settled(next) => Settled(Append(next, more))
  {
    NextFrameStable(r.buffer, more);
  }

  lemma {:induction false} WaitingMore(d: Direction, r: Receiver, u: Receiver, more: Data)
    requires !r.failed && u == r.(buffer := Unpadded(r.buffer)) && NextFrame(u.buffer).NeedMore?
    ensures DrainRound(d, r) == Settled(u)
    ensures DrainRound(d, Append(r, more)) == DrainRound(d, Append(u, more))
  {
    UnpaddedAppend(r.buffer, more);
  }

  lemma {:induction false} RoundMore(d: Direction, r: Receiver, u: Receiver, more: Data)
    requires !r.failed && u == r.(buffer := Unpadded(r.buffer)) && !NextFrame(u.buffer).NeedMore?
    ensures DrainRound(d, Append(r, more)) == match DrainRound(d, r)
                                              case Again(next) => Again(Append(next, more))
                                              case Settled(next) => Settled(Append(next, more))
  {
    UnpaddedAppend(r.buffer, more);
    SettledPadding(r.buffer);
    TakeOneMore(d, u, more);
  }

  /**
    Draining, receiving more and draining again is draining everything at once, whatever the bytes
    are: how the link cut the stream into transfers is invisible, errors included.
   */
  lemma {:induction false} DrainThenMore(d: Direction, r: Receiver, more: Data)
    ensures Drain(d, Append(Drain(d, r), more)) == Drain(d, Append(r, more))
    decreases |r.buffer|
  {
    if !r.failed {
      var u := r.(buffer := Unpadded(r.buffer));
      if NextFrame(u.buffer).NeedMore? {
        WaitingMore(d, r, u, more);
      } else {
        RoundMore(d, r, u, more);
      }
      if DrainRound(d, r).Again? {
        DrainThenMore(d, DrainRound(d, r).r, more);
      }
    }
  }

  /** What is left after a drain that did not fail is less than a record, with a length that can be one's. */
  lemma {:induction false} DrainLeaves(d: Direction, r: Receiver)
    ensures var f := Drain(d, r);
            !f.failed ==> |f.buffer| < 4 || (17 <= U32(f.buffer) <= 65553 && |f.buffer| < 4 + U32(f.buffer))
    decreases |r.buffer|
  {
    hide Received, U32;
    if !r.failed {
      FramesExactly(Unpadded(r.buffer));
      if DrainRound(d, r).Again? {
        DrainLeaves(d, DrainRound(d, r).r);
      }
    }
  }

  // ---- what a stream of records decodes to ------------------------------------------------

  function CounterAt(i: nat): Counter {
    i % TWO_64
  }

  lemma {:induction false} CounterStarts()
    ensures CounterAt(0) == 0
  {
  }

  lemma {:induction false} CounterAdvances(i: nat)
    ensures Advance(CounterAt(i)) == CounterAt(i + 1)
  {
  }

  /** ws[i] is the record sealing ms[i] with counter n + i. */
  ghost predicate SealedFrom(d: Direction, n: nat, ms: seq<Message>, ws: seq<Data>) {
    && |ms| == |ws|
    && forall i :: 0 <= i < |ms| ==> IsRecord(d, CounterAt(n + i), ms[i], ws[i])
  }

  function Concat(ws: seq<Data>): Data {
    if ws == [] then [] else ws[0] + Concat(ws[1..])
  }

  lemma {:induction false} ConcatAppend(a: seq<Data>, b: seq<Data>)
    ensures Concat(a + b) == Concat(a) + Concat(b)
  {
    if a == [] {
      assert a + b == b;
    } else {
      assert (a + b)[1..] == a[1..] + b;
      ConcatAppend(a[1..], b);
    }
  }

  lemma {:induction false} SealedTail(d: Direction, n: nat, ms: seq<Message>, ws: seq<Data>)
    requires SealedFrom(d, n, ms, ws) && ms != []
    ensures SealedFrom(d, n + 1, ms[1..], ws[1..]) && IsRecord(d, CounterAt(n), ms[0], ws[0])
  {
    assert IsRecord(d, CounterAt(n + 0), ms[0], ws[0]);
    forall i | 0 <= i < |ms[1..]|
      ensures IsRecord(d, CounterAt(n + 1 + i), ms[1..][i], ws[1..][i])
    {
      assert IsRecord(d, CounterAt(n + (i + 1)), ms[i + 1], ws[i + 1]);
    }
  }

  lemma {:induction false} SealedSplit(d: Direction, n: nat, ms: seq<Message>, ws: seq<Data>, k: nat)
    requires SealedFrom(d, n, ms, ws) && k <= |ws|
    ensures |ms| == |ws| && SealedFrom(d, n, ms[..k], ws[..k])
    ensures k < |ws| ==> IsRecord(d, CounterAt(n + k), ms[k], ws[k])
  {
  }

  lemma {:induction false} DrainTakes(d: Direction, n: nat, m: Message, w: Data, tail: Data, decoded: seq<Message>)
    requires Ideal(d.cipher) && IsRecord(d, CounterAt(n), m, w)
    ensures Drain(d, Receiver(w + tail, CounterAt(n), decoded, false))
         == Drain(d, Receiver(tail, CounterAt(n + 1), decoded + [m], false))
  {
    HeaderNotPadding(d, CounterAt(n), m, w, tail);
    assert Unpadded(w + tail) == w + tail;
    RecordRoundTrip(d, CounterAt(n), m, w, tail);
    CounterAdvances(n);
  }

  lemma {:induction false} ConcatHead(ws: seq<Data>, tail: Data)
    requires ws != []
    ensures Concat(ws) + tail == ws[0] + (Concat(ws[1..]) + tail)
  {
  }

  /** Complete records decode to their messages, in order, and leave exactly what follows them. */
  lemma {:induction false} DrainTakesAll(d: Direction, n: nat, ms: seq<Message>, ws: seq<Data>, tail: Data,
                                         decoded: seq<Message>)
    requires Ideal(d.cipher) && SealedFrom(d, n, ms, ws)
    ensures Drain(d, Receiver(Concat(ws) + tail, CounterAt(n), decoded, false))
         == Drain(d, Receiver(tail, CounterAt(n + |ms|), decoded + ms, false))
    decreases |ms|
  {
    hide Drain, IsRecord, CounterAt, Ideal;
    if ms == [] {
      assert Concat(ws) + tail == tail;
      assert decoded + ms == decoded;
    } else {
      var tail' := Concat(ws[1..]) + tail;
      var decoded' := decoded + [ms[0]];
      ConcatHead(ws, tail);
      assert decoded' + ms[1..] == decoded + ms;
      SealedTail(d, n, ms, ws);
      DrainTakes(d, n, ms[0], ws[0], tail', decoded);
      DrainTakesAll(d, n + 1, ms[1..], ws[1..], tail, decoded');
    }
  }

  /** How many whole records the first `size` bytes of the stream hold. */
  function Whole(ws: seq<Data>, size: nat): (k: nat)
    ensures k <= |ws|
    ensures |Concat(ws[..k])| <= size
    ensures k < |ws| ==> size < |Concat(ws[..k])| + |ws[k]|
  {
    if ws == [] || size < |ws[0]| then
      assert ws[..0] == [];
      0
    else
      var k := Whole(ws[1..], size - |ws[0]|);
      assert ws[..k + 1] == [ws[0]] + ws[1..][..k];
      k + 1
  }

  function Remainder(ws: seq<Data>, part: Data): Data {
    part[|Concat(ws[..Whole(ws, |part|)])|..]
  }

  lemma {:induction false} PrefixOfSum(part: Data, a: Data, b: Data)
    requires part <= a + b && |a| <= |part|
    ensures part == a + part[|a|..] && part[|a|..] <= b
  {
    assert part == (a + b)[..|part|];
    assert part[..|a|] == a;
    assert part[|a|..] == b[..|part| - |a|];
  }

  lemma {:induction false} ConcatAt(ws: seq<Data>, k: nat)
    requires k <= |ws|
    ensures Concat(ws) == Concat(ws[..k]) + Concat(ws[k..])
    ensures k < |ws| ==> ws[k] <= Concat(ws[k..])
    ensures k == |ws| ==> Concat(ws[k..]) == []
  {
    assert ws == ws[..k] + ws[k..];
    ConcatAppend(ws[..k], ws[k..]);
  }

  lemma {:induction false} PrefixSplits(ws: seq<Data>, part: Data)
    requires part <= Concat(ws)
    ensures part == Concat(ws[..Whole(ws, |part|)]) + Remainder(ws, part)
    ensures Whole(ws, |part|) < |ws| ==> Remainder(ws, part) < ws[Whole(ws, |part|)]
    ensures Whole(ws, |part|) == |ws| ==> Remainder(ws, part) == []
  {
    var k := Whole(ws, |part|);
    ConcatAt(ws, k);
    PrefixOfSum(part, Concat(ws[..k]), Concat(ws[k..]));
  }

  lemma {:induction false} DrainWaits(d: Direction, n: nat, m: Message, w: Data, part: Data, decoded: seq<Message>)
    requires Ideal(d.cipher) && IsRecord(d, CounterAt(n), m, w) && part < w
    ensures var r := Receiver(part, CounterAt(n), decoded, false); Drain(d, r) == r
  {
    PartialRecordWaits(d, CounterAt(n), m, w, part);
    assert Unpadded(part) == part;
  }

  /** With no complete record left, nothing happens. */
  lemma {:induction false} DrainRests(d: Direction, ms: seq<Message>, ws: seq<Data>, k: nat, left: Data,
                                      decoded: seq<Message>)
    requires Ideal(d.cipher) && SealedFrom(d, 0, ms, ws) && k <= |ws|
    requires if k < |ws| then left < ws[k] else left == []
    ensures Drain(d, Receiver(left, CounterAt(k), decoded, false)) == Receiver(left, CounterAt(k), decoded, false)
  {
    if k < |ws| {
      assert IsRecord(d, CounterAt(0 + k), ms[k], ws[k]);
      DrainWaits(d, k, ms[k], ws[k], left, decoded);
    }
  }

  /**
    However much of a stream of sealed records has arrived, the host has decoded exactly the
    messages of the complete ones, failed nothing, and waits with the start of the next.
   */
  lemma {:induction false} DrainOfPrefix(d: Direction, ms: seq<Message>, ws: seq<Data>, part: Data)
    requires Ideal(d.cipher) && SealedFrom(d, 0, ms, ws)
    requires part <= Concat(ws)
    ensures Drain(d, Receiver(part, 0, [], false))
         == Receiver(Remainder(ws, part), CounterAt(Whole(ws, |part|)), ms[..Whole(ws, |part|)], false)
  {
    hide Drain, SealedFrom, Ideal, Concat, Whole, Remainder, CounterAt;
    var k, left := Whole(ws, |part|), Remainder(ws, part);
    PrefixSplits(ws, part);
    SealedSplit(d, 0, ms, ws, k);
    CounterStarts();
    DrainTakesAll(d, 0, ms[..k], ws[..k], left, []);
    DrainRests(d, ms, ws, k, left, ms[..k]);
    assert [] + ms[..k] == ms[..k];
  }

  lemma {:induction false} DrainExtends(d: Direction, r: Receiver)
    ensures r.decoded <= Drain(d, r).decoded
    decreases |r.buffer|
  {
    if !r.failed && DrainRound(d, r).Again? {
      DrainExtends(d, DrainRound(d, r).r);
    }
  }

  /** If other bytes follow the records, the records still come first and nothing fails before them. */
  lemma {:induction false} DrainOfStream(d: Direction, ms: seq<Message>, ws: seq<Data>, rest: Data, part: Data)
    requires Ideal(d.cipher) && SealedFrom(d, 0, ms, ws)
    requires part <= Concat(ws) + rest
    ensures var f := Drain(d, Receiver(part, 0, [], false));
            (f.decoded <= ms && !f.failed) || ms <= f.decoded
  {
    hide Drain, SealedFrom, Ideal, Concat, Whole, Remainder, CounterAt;
    if |part| <= |Concat(ws)| {
      assert part <= Concat(ws);
      DrainOfPrefix(d, ms, ws, part);
    } else {
      PrefixOfSum(part, Concat(ws), rest);
      var left := part[|Concat(ws)|..];
      CounterStarts();
      DrainTakesAll(d, 0, ms, ws, left, []);
      assert [] + ms == ms;
      DrainExtends(d, Receiver(left, CounterAt(0 + |ms|), ms, false));
    }
  }

  // ---- the bridge ------------------------------------------------------------------------

  const CAMERAS := 2

  /** The local consumers: a decoder per camera, and one client per other channel. */
  datatype Route = ForCamera(camera: nat) | ForChannel(channel: Channel)

  const ROUTES := [ForCamera(0), ForCamera(1), ForChannel(Meta), ForChannel(Control), ForChannel(Update)]

  predicate Wants(route: Route, m: Message) {
    match route
    case ForCamera(camera) => m.channel == Video && m.stream == camera
    case ForChannel(channel) => m.channel == channel
  }

  /** The messages of one route, in order. */
  function Routed(ms: seq<Message>, route: Route): seq<Message> {
    if ms == [] then []
    else
      var front, last := Routed(ms[..|ms| - 1], route), ms[|ms| - 1];
      if Wants(route, last) then front + [last] else front
  }

  /** Who gets one message: the decoder of its camera, or the one client of its channel. */
  lemma {:induction false} RoutedOne(m: Message, k: nat)
    ensures Routed([m], ForCamera(k)) == (if m.channel == Video && m.stream == k then [m] else [])
    ensures forall channel :: Routed([m], ForChannel(channel)) == (if m.channel == channel then [m] else [])
  {
    assert [m][..0] == [];
  }

  /** And of several, each gets its own in order. */
  lemma {:induction false} RoutedJoin(a: seq<Message>, b: seq<Message>, route: Route)
    ensures Routed(a + b, route) == Routed(a, route) + Routed(b, route)
  {
    if b == [] {
      assert a + b == a;
    } else {
      assert (a + b)[..|a + b| - 1] == a + b[..|b| - 1];
      RoutedJoin(a, b[..|b| - 1], route);
    }
  }

  /** A consumer that may be missing, and what it has taken; a write that fails closes it. */
  datatype Consumer = Consumer(open: bool, got: seq<Message>)

  function Handed(c: Consumer, m: Message, taken: bool): Consumer {
    if !c.open then c else if taken then c.(got := c.got + [m]) else c.(open := false)
  }

  function Reached(c: Consumer, route: Route, m: Message, taken: bool): Consumer {
    if Wants(route, m) then Handed(c, m, taken) else c
  }

  /** From one state to the other a consumer took a prefix of ms: nothing if missing, all if still open. */
  ghost predicate Fed(before: Consumer, after: Consumer, ms: seq<Message>) {
    && before.got <= after.got <= before.got + ms
    && (!before.open ==> after == before)
    && (after.open ==> after.got == before.got + ms)
  }

  lemma {:induction false} FedOn(a: Consumer, b: Consumer, route: Route, ms: seq<Message>, m: Message, taken: bool)
    requires Fed(a, b, Routed(ms, route))
    ensures Fed(a, Reached(b, route, m, taken), Routed(ms + [m], route))
  {
    assert (ms + [m])[..|ms|] == ms;
    var before := Routed(ms, route);
    assert a.got + before <= a.got + (before + [m]) == a.got + before + [m];
  }

  /** Every consumer has been fed the messages of its route. */
  ghost predicate AllFed(before: seq<Consumer>, after: seq<Consumer>, ms: seq<Message>) {
    && |before| == |after| == |ROUTES|
    && forall i :: 0 <= i < |ROUTES| ==> Fed(before[i], after[i], Routed(ms, ROUTES[i]))
  }

  /** One message has gone to the consumer that wants it, and the others are as they were. */
  ghost predicate AllReached(before: seq<Consumer>, after: seq<Consumer>, m: Message, taken: bool) {
    && |before| == |after| == |ROUTES|
    && forall i :: 0 <= i < |ROUTES| ==> after[i] == Reached(before[i], ROUTES[i], m, taken)
  }

  lemma {:induction false} NothingFed(cs: seq<Consumer>)
    requires |cs| == |ROUTES|
    ensures AllFed(cs, cs, [])
  {
  }

  lemma {:induction false} AllFedOn(a: seq<Consumer>, b: seq<Consumer>, c: seq<Consumer>, ms: seq<Message>,
                                    m: Message, taken: bool)
    requires AllFed(a, b, ms) && AllReached(b, c, m, taken)
    ensures AllFed(a, c, ms + [m])
  {
    hide Fed, Routed, Reached;
    forall i | 0 <= i < |ROUTES|
      ensures Fed(a[i], c[i], Routed(ms + [m], ROUTES[i]))
    {
      FedOn(a[i], b[i], ROUTES[i], ms, m, taken);
    }
  }

  class SecureUsbBridge {
    const inbound: WireBuffer
    const decrypt: SecureRecord
    var ended: bool
    var decoders: seq<Consumer>
    var meta: Consumer
    var clients: seq<Consumer>
    ghost var decoded: seq<Message>

    ghost predicate Valid()
      reads this
    {
      |decoders| == CAMERAS && |clients| == 2
    }

    /** The consumers in the order of ROUTES. */
    ghost function Consumers(): (cs: seq<Consumer>)
      reads this
      requires Valid()
      ensures |cs| == |ROUTES|
    {
      [decoders[0], decoders[1], meta, clients[0], clients[1]]
    }

    ghost function State(): Receiver
      reads this, inbound, decrypt
    {
      Receiver(inbound.buffer, decrypt.sequence, decoded, ended)
    }

    /** Decoders start on demand; the metadata handler and the proxy clients come later, if at all. */
    constructor (dir: Direction)
      ensures Valid() && fresh(inbound) && fresh(decrypt) && decrypt.dir == dir
      ensures State() == Receiver([], 0, [], false)
      ensures forall i :: 0 <= i < |ROUTES| ==> Consumers()[i] == Consumer(i < CAMERAS, [])
    {
      inbound := new WireBuffer();
      decrypt := new SecureRecord(dir);
      ended, decoded, meta := false, [], Consumer(false, []);
      decoders, clients := [Consumer(true, []), Consumer(true, [])], [Consumer(false, []), Consumer(false, [])];
    }

    /** The reader thread's region: one bulk transfer's bytes, however they were cut. */
    method ReaderAppend(transferred: Data)
      requires Valid()
      modifies inbound
      ensures Valid() && State() == Append(old(State()), transferred)
    {
      inbound.Append(transferred);
    }

    /** A message goes to the one consumer that wants it; a client that cannot be written to is closed. */
    method Deliver(m: Message, taken: bool)
      requires Valid()
      modifies this`decoders, this`meta, this`clients, this`decoded
      ensures Valid() && decoded == old(decoded) + [m]
      ensures AllReached(old(Consumers()), Consumers(), m, taken)
      ensures forall k :: 0 <= k < CAMERAS ==>
                decoders[k] == if m.channel == Video && m.stream == k then Handed(old(decoders)[k], m, taken)
                               else old(decoders)[k]
      ensures meta == if m.channel == Meta then Handed(old(meta), m, taken) else old(meta)
      ensures clients[0] == if m.channel == Control then Handed(old(clients)[0], m, taken) else old(clients)[0]
      ensures clients[1] == if m.channel == Update then Handed(old(clients)[1], m, taken) else old(clients)[1]
    {
      decoded := decoded + [m];
      match m.channel
      case Video =>
        if m.stream < CAMERAS {
          decoders := decoders[m.stream := Handed(decoders[m.stream], m, taken)];
        }
      case Meta => meta := Handed(meta, m, taken);
      case Control => clients := clients[0 := Handed(clients[0], m, taken)];
      case Update => clients := clients[1 := Handed(clients[1], m, taken)];
    }

    /**
      Frames, opens and hands out records until more bytes are needed; false ends the session. No
      consumer can end it, and a missing or failing one costs only messages of its own route.
     */
    method DrainInbound(taken: nat -> bool) returns (ok: bool)
      requires Valid() && !ended
      modifies this, inbound, decrypt
      ensures Valid() && State() == Drain(decrypt.dir, old(State()))
      ensures ok == !ended && old(decoded) <= decoded
      ensures AllFed(old(Consumers()), Consumers(), decoded[|old(decoded)|..])
    {
      NothingFed(Consumers());
      hide AllFed, AllReached, Fed, OpenRecord, LibraryAt, ROUTES;
      ghost var goal, from, start := Drain(decrypt.dir, State()), Consumers(), decoded;
      var records := 0;
      while true
        invariant Valid() && !ended && start <= decoded
        invariant Drain(decrypt.dir, State()) == goal
        invariant AllFed(from, Consumers(), decoded[|start|..])
        decreases |inbound.buffer|
      {
        ghost var before, held := State(), Consumers();
        var skipped := inbound.SkipZeroPadding();
        var framed := inbound.Next();
        if framed.Err? {
          ended := true;
          return false;
        }
        if framed.value == None {
          return true;
        }
        var message := OpenWireRecord(framed.value.value, decrypt, LibraryAt(decrypt.dir, decrypt.sequence));
        if message.Err? {
          ended := true;
          return false;
        }
        ghost var m := message.value;
        Deliver(message.value, taken(records));
        assert DrainRound(decrypt.dir, before) == Again(State());
        DropOfSum(before.decoded, [m], |start|);
        AllFedOn(from, held, Consumers(), before.decoded[|start|..], m, taken(records));
        records := records + 1;
      }
    }
  }
}
