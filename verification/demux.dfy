/** The device end: handshakes and records share one inbound stream, and a handshake restarts the session. */
module Demux {
  import opened Bytes
  import opened SecureRecords
  import opened SecureWire
  import HostBridge

  const MAGIC: Data := [67, 83, 85, 49]
  const HELLO_SIZE := 101

  /** What answering one hello led to: rejection, an answer the endpoint did not take, or a session. */
  datatype Reply = Rejected | Unsent | Established(decrypt: Direction, encrypt: Direction)

  /** The outcome of each answer, by its number and the hello's bytes. */
  type Responder = (nat, Data) -> Reply

  datatype Opener = Opener(dir: Direction, counter: Counter)
  datatype Session = Session(number: nat, encrypt: Direction)
  datatype Worker = VideoLoop(owner: Session, camera: nat) | TunnelPump(owner: Session) | WriterLoop(owner: Session)

  datatype Event =
    | Accepted(number: nat, hello: Data, dir: Direction)
    | Declined(number: nat, hello: Data)
    | Delivered(wire: Data, message: Message)
    | Ended
    | Discarded(bytes: Data)

  datatype State = Device(
    buffer: Data, decrypt: Option<Opener>, session: Option<Session>, workers: seq<Worker>,
    hellos: nat, endpointFailed: bool, log: seq<Event>)

  const IDLE := Device([], None, None, [], 0, false, [])

  function Log(s: State, e: Event): State {
    s.(log := s.log + [e])
  }

  function EndSession(s: State): State {
    if s.session.None? then s
    else Log(s.(decrypt := None, session := None, workers := []), Ended)
  }

  function WorkersOf(owner: Session): seq<Worker> {
    seq(HostBridge.CAMERAS, camera requires 0 <= camera < HostBridge.CAMERAS => VideoLoop(owner, camera))
    + [TunnelPump(owner), WriterLoop(owner)]
  }

  function Begin(s: State, number: nat, hello: Data, decrypt: Direction, encrypt: Direction): State {
    var owner := Session(number, encrypt);
    Log(s.(decrypt := Some(Opener(decrypt, 0)), session := Some(owner), workers := WorkersOf(owner)),
        Accepted(number, hello, decrypt))
  }

  datatype Turn = Again(s: State) | Settled(s: State)

  function TakeHello(env: Responder, s: State): Turn
    requires |s.buffer| >= HELLO_SIZE
  {
    var hello, k := s.buffer[..HELLO_SIZE], s.hellos;
    var ended := EndSession(s.(buffer := s.buffer[HELLO_SIZE..], hellos := k + 1));
    match env(k, hello)
    case Rejected => Again(Log(ended, Declined(k, hello)))
    case Unsent => Settled(Log(ended.(endpointFailed := true), Declined(k, hello)))
    case Established(decrypt, encrypt) => Again(Begin(ended, k, hello, decrypt, encrypt))
  }

  function TakeRecord(s: State): Turn
    requires s.decrypt.Some?
  {
    match NextFrame(s.buffer)
    case NeedMore => Settled(s)
    case Malformed => Settled(EndSession(s).(buffer := []))
    case Framed(wire, rest) =>
      var o := Received(s.decrypt.value.dir, s.decrypt.value.counter, wire);
      match o.result
      case Err(_) => Settled(EndSession(s).(buffer := []))
      case Ok(m) =>
        var opener := s.decrypt.value.(counter := o.next);
        Again(Log(s.(buffer := rest, decrypt := Some(opener)), Delivered(wire, m)))
  }

  /** One round of the inner loop. */
  function Take(env: Responder, s: State): (t: Turn)
    ensures t.Again? ==> |t.s.buffer| < |s.buffer|
  {
    if MAGIC <= s.buffer then
      if |s.buffer| < HELLO_SIZE then Settled(s) else TakeHello(env, s)
    else if s.decrypt.None? then
      Settled(if s.buffer == [] then s else Log(s.(buffer := []), Discarded(s.buffer)))
    else TakeRecord(s)
  }

  function Drain(env: Responder, s: State): State
    decreases |s.buffer|
  {
    if s.endpointFailed then s
    else match Take(env, s)
      case Again(t) => Drain(env, t)
      case Settled(t) => t
  }

  function Arrive(s: State, data: Data): State {
    s.(buffer := s.buffer + data)
  }

  /** The outer loop over what successive reads of the endpoint returned. */
  function Feed(env: Responder, s: State, chunks: seq<Data>): State {
    if chunks == [] then s
    else
      var t := Feed(env, s, chunks[..|chunks| - 1]);
      if t.endpointFailed then t else Drain(env, Arrive(t, chunks[|chunks| - 1]))
  }

  // ---- session lifecycle -----------------------------------------------------------------

  /** The key, IV and counter the log says are in force: those of the last acceptance, unless ended. */
  function InForce(log: seq<Event>): Option<Opener> {
    if log == [] then None
    else
      var front := InForce(log[..|log| - 1]);
      match log[|log| - 1]
      case Accepted(_, _, dir) => Some(Opener(dir, 0))
      case Delivered(_, _) => if front.Some? then Some(front.value.(counter := Advance(front.value.counter))) else None
      case Ended => None
      case _ => front
  }

  /** The session the log says is live: that of the last acceptance, sealing with what its answer gave. */
  function SessionIn(env: Responder, log: seq<Event>): Option<Session> {
    if log == [] then None
    else match log[|log| - 1]
      case Accepted(k, hello, _) =>
        if env(k, hello).Established? then Some(Session(k, env(k, hello).encrypt)) else None
      case Ended => None
      case _ => SessionIn(env, log[..|log| - 1])
  }

  /** How many hellos the log tells of. */
  function Hellos(log: seq<Event>): nat {
    if log == [] then 0
    else Hellos(log[..|log| - 1]) + if log[|log| - 1].Accepted? || log[|log| - 1].Declined? then 1 else 0
  }

  /** The last thing that happened is an answer that could not be written. */
  ghost predicate Broken(env: Responder, log: seq<Event>) {
    log != [] && log[|log| - 1].Declined? && env(log[|log| - 1].number, log[|log| - 1].hello).Unsent?
  }

  /**
    What may follow what: nothing follows an answer that could not be written; every hello gets the
    answer of its number when no session is live any more; every delivered message came from its
    record under the keys then in force; bytes are only discarded, and only end a session, in their turn.
   */
  ghost predicate Legal(env: Responder, log: seq<Event>, e: Event) {
    && !Broken(env, log)
    && match e
       case Accepted(k, hello, dir) =>
         && InForce(log) == None && k == Hellos(log) && MAGIC <= hello && |hello| == HELLO_SIZE
         && env(k, hello).Established? && env(k, hello).decrypt == dir
       case Declined(k, hello) =>
         && InForce(log) == None && k == Hellos(log) && MAGIC <= hello && |hello| == HELLO_SIZE
         && !env(k, hello).Established?
       case Delivered(wire, m) =>
         var o := InForce(log);
         o.Some? && Received(o.value.dir, o.value.counter, wire).result == Ok(m)
       case Ended => InForce(log).Some?
       case Discarded(bytes) => InForce(log) == None && bytes != [] && !(MAGIC <= bytes)
  }

  ghost predicate Faithful(env: Responder, log: seq<Event>) {
    forall i :: 0 <= i < |log| ==> Legal(env, log[..i], log[i])
  }

  /**
    Decryption state, session and its four workers exist together or not at all, and are those of the
    last accepted hello; the endpoint has failed exactly if its last answer could not be written.
   */
  ghost predicate Lifecycle(env: Responder, s: State) {
    && s.decrypt == InForce(s.log) && s.session == SessionIn(env, s.log)
    && (s.decrypt.Some? <==> s.session.Some?)
    && s.workers == (if s.session.None? then []
                     else var owner := s.session.value;
                          [VideoLoop(owner, 0), VideoLoop(owner, 1), TunnelPump(owner), WriterLoop(owner)])
    && s.hellos == Hellos(s.log) && (s.endpointFailed <==> Broken(env, s.log))
    && Faithful(env, s.log)
  }

  lemma {:induction false} LogGrows(env: Responder, log: seq<Event>, e: Event)
    requires Faithful(env, log) && Legal(env, log, e)
    ensures Faithful(env, log + [e])
    ensures InForce(log + [e])
         == match e
            case Accepted(_, _, dir) => Some(Opener(dir, 0))
            case Delivered(_, _) => Some(InForce(log).value.(counter := Advance(InForce(log).value.counter)))
            case Ended => None
            case _ => InForce(log)
    ensures SessionIn(env, log + [e])
         == match e
            case Accepted(k, hello, _) => Some(Session(k, env(k, hello).encrypt))
            case Ended => None
            case _ => SessionIn(env, log)
    ensures Hellos(log + [e]) == Hellos(log) + if e.Accepted? || e.Declined? then 1 else 0
    ensures Broken(env, log + [e]) <==> e.Declined? && env(e.number, e.hello).Unsent?
  {
    hide Received;
    var more := log + [e];
    assert more[..|log|] == log;
    hide Legal;
    assert forall i :: 0 <= i < |log| ==> more[i] == log[i] && more[..i] == log[..i];
  }

  lemma {:induction false} WorkersAre(owner: Session)
    ensures WorkersOf(owner) == [VideoLoop(owner, 0), VideoLoop(owner, 1), TunnelPump(owner), WriterLoop(owner)]
  {
  }

  lemma {:induction false} LiveNotBroken(env: Responder, log: seq<Event>)
    requires Faithful(env, log) && InForce(log).Some?
    ensures !Broken(env, log)
  {
    hide Received;
    if log != [] {
      assert Legal(env, log[..|log| - 1], log[|log| - 1]);
    }
  }

  lemma {:induction false} OpenAdvances(d: Direction, n: Counter, wire: Data)
    ensures Received(d, n, wire).result.Ok? ==> Received(d, n, wire).next == Advance(n)
  {
  }

  lemma {:induction false} EndKeepsLifecycle(env: Responder, s: State)
    requires Lifecycle(env, s)
    ensures Lifecycle(env, EndSession(s)) && EndSession(s).decrypt == None
  {
    hide Received, Faithful, InForce, SessionIn, Hellos, Broken;
    if s.session.Some? {
      LiveNotBroken(env, s.log);
      LogGrows(env, s.log, Ended);
    }
  }

  lemma {:induction false} HelloKeepsLifecycle(env: Responder, s: State)
    requires Lifecycle(env, s) && !s.endpointFailed && MAGIC <= s.buffer && |s.buffer| >= HELLO_SIZE
    ensures Lifecycle(env, TakeHello(env, s).s)
  {
    hide Received, Faithful, InForce, SessionIn, Hellos, Broken, WorkersOf;
    var hello, k := s.buffer[..HELLO_SIZE], s.hellos;
    assert hello[..4] == s.buffer[..4];
    EndKeepsLifecycle(env, s);
    var log, answer := EndSession(s).log, env(k, hello);
    EndNotBroken(env, s);
    if answer.Established? {
      LogGrows(env, log, Accepted(k, hello, answer.decrypt));
      WorkersAre(Session(k, answer.encrypt));
    } else {
      LogGrows(env, log, Declined(k, hello));
    }
  }

  lemma {:induction false} EndNotBroken(env: Responder, s: State)
    requires Lifecycle(env, s) && !s.endpointFailed
    ensures !Broken(env, EndSession(s).log) && Hellos(EndSession(s).log) == s.hellos
  {
    hide Received, Faithful, InForce, SessionIn;
    if s.session.Some? {
      assert (s.log + [Ended])[..|s.log|] == s.log;
    }
  }

  lemma {:induction false} RecordKeepsLifecycle(env: Responder, s: State)
    requires Lifecycle(env, s) && s.decrypt.Some?
    ensures Lifecycle(env, TakeRecord(s).s)
  {
    hide Received, Faithful, InForce, SessionIn, Hellos, Broken;
    EndKeepsLifecycle(env, s);
    LiveNotBroken(env, s.log);
    var t := TakeRecord(s);
    if t.Again? {
      var e := t.s.log[|s.log|];
      OpenAdvances(s.decrypt.value.dir, s.decrypt.value.counter, e.wire);
      LogGrows(env, s.log, e);
    }
  }

  lemma {:induction false} TakeKeepsLifecycle(env: Responder, s: State)
    requires Lifecycle(env, s) && !s.endpointFailed
    ensures Lifecycle(env, Take(env, s).s)
  {
    if MAGIC <= s.buffer && |s.buffer| >= HELLO_SIZE {
      hide Lifecycle, TakeHello, TakeRecord;
      HelloKeepsLifecycle(env, s);
    } else if s.decrypt.Some? {
      hide Lifecycle, TakeHello, TakeRecord;
      RecordKeepsLifecycle(env, s);
    } else if s.buffer != [] && !(MAGIC <= s.buffer) {
      hide Received, Faithful, InForce, SessionIn, Hellos, Broken, TakeHello, TakeRecord;
      LogGrows(env, s.log, Discarded(s.buffer));
    }
  }

  lemma {:induction false} DrainKeepsLifecycle(env: Responder, s: State)
    requires Lifecycle(env, s)
    ensures Lifecycle(env, Drain(env, s))
    decreases |s.buffer|
  {
    hide Take, Lifecycle;
    if !s.endpointFailed {
      TakeKeepsLifecycle(env, s);
      if Take(env, s).Again? {
        DrainKeepsLifecycle(env, Take(env, s).s);
      }
    }
  }

  lemma {:induction false} IdleLifecycle(env: Responder)
    ensures Lifecycle(env, IDLE)
  {
  }

  /** Whatever bytes arrive, however cut, the lifecycle holds at every point between reads. */
  lemma {:induction false} AlwaysLifecycle(env: Responder, chunks: seq<Data>)
    ensures Lifecycle(env, Feed(env, IDLE, chunks))
  {
    IdleLifecycle(env);
    hide Drain, Lifecycle;
    if chunks != [] {
      var t := Feed(env, IDLE, chunks[..|chunks| - 1]);
      AlwaysLifecycle(env, chunks[..|chunks| - 1]);
      if !t.endpointFailed {
        LifecycleArrives(env, t, chunks[|chunks| - 1]);
        DrainKeepsLifecycle(env, Arrive(t, chunks[|chunks| - 1]));
      }
    }
  }

  /** The state after at most n rounds of the inner loop. */
  function Rounds(env: Responder, s: State, n: nat): State
    decreases n
  {
    if n == 0 || s.endpointFailed then s
    else match Take(env, s)
      case Again(t) => Rounds(env, t, n - 1)
      case Settled(t) => t
  }

  lemma {:induction false} RoundsEnd(env: Responder, s: State, n: nat)
    requires n > |s.buffer|
    ensures Rounds(env, s, n) == Drain(env, s)
    decreases n
  {
    hide Take;
    if !s.endpointFailed && Take(env, s).Again? {
      RoundsEnd(env, Take(env, s).s, n - 1);
    }
  }

  lemma {:induction false} RoundsKeepLifecycle(env: Responder, s: State, n: nat)
    requires Lifecycle(env, s)
    ensures Lifecycle(env, Rounds(env, s, n))
    decreases n
  {
    hide Take, Lifecycle;
    if n > 0 && !s.endpointFailed {
      TakeKeepsLifecycle(env, s);
      if Take(env, s).Again? {
        RoundsKeepLifecycle(env, Take(env, s).s, n - 1);
      }
    }
  }

  /** Nor is there a state inside the inner loop, while the bytes of a read are worked through, without it. */
  lemma {:induction false} EveryRoundLifecycle(env: Responder, chunks: seq<Data>, data: Data, n: nat)
    ensures var s := Arrive(Feed(env, IDLE, chunks), data);
            Lifecycle(env, Rounds(env, s, n)) && (n > |s.buffer| ==> Rounds(env, s, n) == Drain(env, s))
  {
    hide Drain, Lifecycle, Rounds;
    var t := Feed(env, IDLE, chunks);
    AlwaysLifecycle(env, chunks);
    LifecycleArrives(env, t, data);
    RoundsKeepLifecycle(env, Arrive(t, data), n);
    if n > |Arrive(t, data).buffer| {
      RoundsEnd(env, Arrive(t, data), n);
    }
  }

  // ---- how the stream was cut does not matter ------------------------------------------------

  predicate Live(s: State) {
    !s.endpointFailed && s.decrypt.Some? && s.session.Some?
  }

  /** Nothing was discarded and nothing broke: what is buffered is still to be interpreted. */
  predicate Waiting(s: State) {
    Live(s) || (!s.endpointFailed && MAGIC <= s.buffer)
  }

  lemma {:induction false} PrefixOfMore(p: Data, s: Data, more: Data)
    requires |p| <= |s|
    ensures p <= s + more <==> p <= s
  {
    assert (s + more)[..|p|] == s[..|p|];
  }

  lemma {:induction false} ShortNeedsMore(s: Data)
    requires |s| < |MAGIC|
    ensures NextFrame(s) == NeedMore && !(MAGIC <= s)
  {
  }

  /** A round that consumes something, or waits, is the same round with more bytes behind it. */
  lemma {:induction false} TakeMore(env: Responder, s: State, more: Data)
    requires !s.endpointFailed
    ensures var t := Take(env, s);
            && (t.Again? ==> Take(env, Arrive(s, more)) == Again(Arrive(t.s, more)))
            && (t.Settled? && Waiting(t.s) ==> t.s == s)
  {
    hide Received, WorkersOf;
    if |s.buffer| < |MAGIC| {
      ShortNeedsMore(s.buffer);
    } else {
      PrefixOfMore(MAGIC, s.buffer, more);
      NextFrameStable(s.buffer, more);
      if MAGIC <= s.buffer && |s.buffer| >= HELLO_SIZE {
        assert (s.buffer + more)[..HELLO_SIZE] == s.buffer[..HELLO_SIZE];
        assert (s.buffer + more)[HELLO_SIZE..] == s.buffer[HELLO_SIZE..] + more;
      }
    }
  }

  /** As long as the device is waiting for more, draining in pieces is draining at once. */
  lemma {:induction false} DrainThenMore(env: Responder, s: State, more: Data)
    requires Waiting(Drain(env, s))
    ensures Drain(env, Arrive(Drain(env, s), more)) == Drain(env, Arrive(s, more))
    decreases |s.buffer|
  {
    hide Take;
    TakeMore(env, s, more);
    if Take(env, s).Again? {
      DrainThenMore(env, Take(env, s).s, more);
    }
  }

  // ---- unique decoding -----------------------------------------------------------------------

  datatype Item = Record(message: Message, wire: Data) | Hello(hello: Data)

  function Wire(item: Item): Data {
    match item
    case Record(_, wire) => wire
    case Hello(hello) => hello
  }

  function Wires(items: seq<Item>): (ws: seq<Data>)
    ensures |ws| == |items|
  {
    seq(|items|, i requires 0 <= i < |items| => Wire(items[i]))
  }

  function Stream(items: seq<Item>): Data {
    HostBridge.Concat(Wires(items))
  }

  /** The items whose bytes lie wholly within the first `size` bytes of their stream. */
  function Complete(items: seq<Item>, size: nat): seq<Item> {
    items[..HostBridge.Whole(Wires(items), size)]
  }

  /** A stream of records sealed in step with the opener, and of hellos the device accepts. */
  ghost predicate Valid(env: Responder, opener: Option<Opener>, hellos: nat, items: seq<Item>)
    decreases |items|
  {
    items == []
    || match items[0]
       case Record(m, wire) =>
         opener.Some? && Ideal(opener.value.dir.cipher)
         && IsRecord(opener.value.dir, opener.value.counter, m, wire)
         && Valid(env, Some(opener.value.(counter := Advance(opener.value.counter))), hellos, items[1..])
       case Hello(hello) =>
         MAGIC <= hello && |hello| == HELLO_SIZE && env(hellos, hello).Established?
         && Valid(env, Some(Opener(env(hellos, hello).decrypt, 0)), hellos + 1, items[1..])
  }

  /** The records and hellos the device has acted on, in order, as its log tells them. */
  function Items(log: seq<Event>): seq<Item> {
    if log == [] then []
    else
      var front := Items(log[..|log| - 1]);
      match log[|log| - 1]
      case Delivered(wire, m) => front + [Record(m, wire)]
      case Accepted(_, hello, _) => front + [Hello(hello)]
      case _ => front
  }

  lemma {:induction false} ItemsGrow(log: seq<Event>, e: Event)
    ensures Items(log + [e]) == match e
                                case Delivered(wire, m) => Items(log) + [Record(m, wire)]
                                case Accepted(_, hello, _) => Items(log) + [Hello(hello)]
                                case _ => Items(log)
  {
    assert (log + [e])[..|log|] == log;
  }

  /** No legal record begins with the magic of a hello: read as a length it is far too large. */
  lemma {:induction false} MagicIsNoLength(buffer: Data)
    requires MAGIC <= buffer
    ensures NextFrame(buffer) == Malformed
  {
    assert buffer[..4] == MAGIC;
    assert buffer[0] == 67;
  }

  lemma {:induction false} TakesRecord(env: Responder, s: State, m: Message, wire: Data, rest: Data)
    requires Live(s) && s.buffer == wire + rest
    requires Ideal(s.decrypt.value.dir.cipher) && IsRecord(s.decrypt.value.dir, s.decrypt.value.counter, m, wire)
    ensures Take(env, s).Again?
    ensures var t := Take(env, s).s;
            && t.buffer == rest && Live(t) && t.hellos == s.hellos
            && t.decrypt == Some(s.decrypt.value.(counter := Advance(s.decrypt.value.counter)))
            && Items(t.log) == Items(s.log) + [Record(m, wire)]
  {
    hide Received, IsRecord;
    RecordRoundTrip(s.decrypt.value.dir, s.decrypt.value.counter, m, wire, rest);
    if MAGIC <= s.buffer {
      MagicIsNoLength(s.buffer);
    }
    ItemsGrow(s.log, Delivered(wire, m));
  }

  lemma {:induction false} TakesHello(env: Responder, s: State, hello: Data, rest: Data)
    requires !s.endpointFailed && s.buffer == hello + rest && MAGIC <= hello && |hello| == HELLO_SIZE
    requires env(s.hellos, hello).Established?
    ensures Take(env, s).Again?
    ensures var t := Take(env, s).s;
            && t.buffer == rest && Live(t) && t.hellos == s.hellos + 1
            && t.decrypt == Some(Opener(env(s.hellos, hello).decrypt, 0))
            && Items(t.log) == Items(s.log) + [Hello(hello)]
  {
    PrefixOfMore(MAGIC, hello, rest);
    assert s.buffer[..HELLO_SIZE] == hello && s.buffer[HELLO_SIZE..] == rest;
    ItemsGrow(s.log, Ended);
    ItemsGrow(EndSession(s).log, Accepted(s.hellos, hello, env(s.hellos, hello).decrypt));
  }

  /** The head of a valid stream is taken whole, and the rest of the stream is valid after it. */
  lemma {:induction false} TakesHead(env: Responder, s: State, items: seq<Item>, rest: Data)
    requires !s.endpointFailed && (s.decrypt.Some? ==> Live(s))
    requires Valid(env, s.decrypt, s.hellos, items) && items != []
    requires s.buffer == Wire(items[0]) + rest
    ensures Take(env, s).Again?
    ensures var t := Take(env, s).s;
            && t.buffer == rest && Live(t)
            && Valid(env, t.decrypt, t.hellos, items[1..])
            && Items(t.log) == Items(s.log) + [items[0]]
  {
    hide Take, Items;
    match items[0]
    case Record(m, wire) => TakesRecord(env, s, m, wire, rest);
    case Hello(hello) => TakesHello(env, s, hello, rest);
  }

  /** With only part of the head there, and a session or the whole magic, the device waits. */
  lemma {:induction false} WaitsForHead(env: Responder, s: State, items: seq<Item>)
    requires !s.endpointFailed && (s.decrypt.Some? ==> Live(s))
    requires Valid(env, s.decrypt, s.hellos, items) && items != []
    requires s.buffer < Wire(items[0]) && (Live(s) || |s.buffer| >= |MAGIC|)
    ensures Take(env, s) == Settled(s) && Waiting(s)
  {
    var w := Wire(items[0]);
    assert s.buffer == w[..|s.buffer|];
    if items[0].Record? {
      PartialRecordWaits(s.decrypt.value.dir, s.decrypt.value.counter, items[0].message, w, s.buffer);
      if MAGIC <= s.buffer {
        MagicIsNoLength(s.buffer);
      }
    } else if |s.buffer| < |MAGIC| {
      ShortNeedsMore(s.buffer);
    } else {
      assert s.buffer[..|MAGIC|] == w[..|MAGIC|] == MAGIC;
    }
  }

  lemma {:induction false} RestsEmpty(env: Responder, s: State)
    requires Live(s) && s.buffer == []
    ensures Take(env, s) == Settled(s)
  {
    ShortNeedsMore(s.buffer);
  }

  predicate Ready(s: State, part: Data) {
    s.buffer == [] && (Live(s) || (!s.endpointFailed && s.decrypt.None? && |part| >= |MAGIC|))
  }

  lemma {:induction false} DrainStep(env: Responder, s: State)
    requires !s.endpointFailed
    ensures Drain(env, s) == if Take(env, s).Again? then Drain(env, Take(env, s).s) else Take(env, s).s
  {
  }

  lemma {:induction false} StreamCons(items: seq<Item>)
    requires items != []
    ensures Stream(items) == Wire(items[0]) + Stream(items[1..])
  {
    assert Wires(items)[1..] == Wires(items[1..]);
  }

  lemma {:induction false} CompleteCons(items: seq<Item>, size: nat)
    ensures items == [] || size < |Wire(items[0])| ==> Complete(items, size) == []
    ensures items != [] && size >= |Wire(items[0])|
        ==> Complete(items, size) == [items[0]] + Complete(items[1..], size - |Wire(items[0])|)
  {
    if items != [] && size >= |Wire(items[0])| {
      assert Wires(items)[1..] == Wires(items[1..]);
      var k := HostBridge.Whole(Wires(items[1..]), size - |Wire(items[0])|);
      assert items[..k + 1] == [items[0]] + items[1..][..k];
    }
  }

  lemma {:induction false} PartOfFirst(part: Data, w: Data, tail: Data)
    requires part <= w + tail && |part| < |w|
    ensures part < w
  {
    assert part == (w + tail)[..|part|];
  }

  lemma {:induction false} ArriveAll(s: State)
    ensures Arrive(s.(buffer := []), s.buffer) == s
  {
    assert [] + s.buffer == s.buffer;
  }

  lemma {:induction false} ItemsJoin(a: seq<Item>, x: Item, b: seq<Item>)
    ensures a + [x] + b == a + ([x] + b)
  {
  }

  /** Exactly the complete items have been acted on, and the device waits for the rest of the next one. */
  ghost predicate Decodes(env: Responder, s: State, items: seq<Item>, part: Data) {
    var t := Drain(env, Arrive(s, part));
    && Waiting(t) && (|part| == |Stream(items)| ==> Live(t) && t.buffer == [])
    && Items(t.log) == Items(s.log) + Complete(items, |part|)
  }

  lemma {:induction false} DecodesAtRest(env: Responder, s: State, items: seq<Item>, part: Data)
    requires Ready(s, part) && Valid(env, s.decrypt, s.hellos, items) && part <= Stream(items)
    requires items == [] || |part| < |Wire(items[0])|
    ensures Decodes(env, s, items, part)
  {
    assert Stream([]) == [];
    hide Take, Items, Valid, Drain, Stream, Complete;
    var a := Arrive(s, part);
    assert [] + part == part;
    DrainStep(env, a);
    CompleteCons(items, |part|);
    if items == [] {
      ArriveAll(s);
      RestsEmpty(env, s);
    } else {
      StreamCons(items);
      PartOfFirst(part, Wire(items[0]), Stream(items[1..]));
      WaitsForHead(env, a, items);
    }
  }

  lemma {:induction false} DecodesOn(env: Responder, s: State, t: State, x: Item, items: seq<Item>, part: Data,
                                     rest: Data)
    requires Drain(env, Arrive(s, part)) == Drain(env, t) && t.buffer == rest
    requires Items(t.log) == Items(s.log) + [x]
    requires Stream([x] + items) == Wire(x) + Stream(items) && |part| == |Wire(x)| + |rest|
    requires Complete([x] + items, |part|) == [x] + Complete(items, |rest|)
    requires Decodes(env, t.(buffer := []), items, rest)
    ensures Decodes(env, s, [x] + items, part)
  {
    hide Take, Items, Drain, Stream, Complete;
    ArriveAll(t);
    ItemsJoin(Items(s.log), x, Complete(items, |rest|));
  }

  /** However much of a valid stream has arrived. */
  lemma {:induction false} DrainOfPrefix(env: Responder, s: State, items: seq<Item>, part: Data)
    requires Ready(s, part) && Valid(env, s.decrypt, s.hellos, items) && part <= Stream(items)
    ensures Decodes(env, s, items, part)
    decreases |items|
  {
    hide Take, Items, Valid, Drain, Stream, Complete, Decodes;
    if items == [] || |part| < |Wire(items[0])| {
      DecodesAtRest(env, s, items, part);
    } else {
      var x, tail, a := items[0], items[1..], Arrive(s, part);
      StreamCons(items);
      CompleteCons(items, |part|);
      HostBridge.PrefixOfSum(part, Wire(x), Stream(tail));
      var rest := part[|Wire(x)|..];
      assert [] + part == part && items == [x] + tail;
      DrainStep(env, a);
      TakesHead(env, a, items, rest);
      var t := Take(env, a).s;
      DrainOfPrefix(env, t.(buffer := []), tail, rest);
      DecodesOn(env, s, t, x, tail, part, rest);
    }
  }

  lemma {:induction false} ConcatSnoc(chunks: seq<Data>)
    requires chunks != []
    ensures HostBridge.Concat(chunks)
         == HostBridge.Concat(chunks[..|chunks| - 1]) + chunks[|chunks| - 1]
    ensures chunks[0] <= HostBridge.Concat(chunks)
  {
    var front, c := chunks[..|chunks| - 1], chunks[|chunks| - 1];
    assert chunks == front + [c];
    HostBridge.ConcatAppend(front, [c]);
    assert HostBridge.Concat([c]) == c;
  }

  lemma {:induction false} ArriveTwice(s: State, a: Data, b: Data)
    ensures Arrive(Arrive(s, a), b) == Arrive(s, a + b)
  {
    assert s.buffer + a + b == s.buffer + (a + b);
  }

  /** Reading a valid stream chunk by chunk is reading it at once. */
  lemma {:induction false} FeedIsDrain(env: Responder, s: State, items: seq<Item>, chunks: seq<Data>)
    requires chunks != [] && Ready(s, chunks[0]) && Valid(env, s.decrypt, s.hellos, items)
    requires HostBridge.Concat(chunks) <= Stream(items)
    ensures Feed(env, s, chunks) == Drain(env, Arrive(s, HostBridge.Concat(chunks)))
    ensures Waiting(Feed(env, s, chunks))
  {
    assert HostBridge.Concat([]) == [];
    hide Drain, Valid, Items, Stream, Complete, HostBridge.Concat;
    var front, c := chunks[..|chunks| - 1], chunks[|chunks| - 1];
    ConcatSnoc(chunks);
    if |chunks| == 1 {
      assert front == [];
      assert HostBridge.Concat(chunks) == c;
    } else {
      var part := HostBridge.Concat(front);
      FeedIsDrain(env, s, items, front);
      DrainThenMore(env, Arrive(s, part), c);
      ArriveTwice(s, part, c);
    }
    DrainOfPrefix(env, s, items, HostBridge.Concat(chunks));
  }

  lemma {:induction false} ItemsMonotone(a: seq<Event>, b: seq<Event>)
    requires a <= b
    ensures Items(a) <= Items(b)
    decreases |b|
  {
    if a != b {
      assert a <= b[..|b| - 1];
      ItemsMonotone(a, b[..|b| - 1]);
    } else {
      assert a == b;
    }
  }

  lemma {:induction false} DrainExtends(env: Responder, s: State)
    ensures s.log <= Drain(env, s).log
    decreases |s.buffer|
  {
    hide Received, NextFrame, WorkersOf;
    if !s.endpointFailed && Take(env, s).Again? {
      DrainExtends(env, Take(env, s).s);
    }
  }

  /**
    Unique decoding: for every split into chunks, what the device has acted on is exactly the items
    that have wholly arrived, in order; from rest only the magic must arrive in one piece.
   */
  lemma {:induction false} UniqueDecoding(env: Responder, s: State, items: seq<Item>, chunks: seq<Data>)
    requires chunks != [] && Ready(s, chunks[0]) && Valid(env, s.decrypt, s.hellos, items)
    requires HostBridge.Concat(chunks) <= Stream(items)
    ensures var t := Feed(env, s, chunks);
            Items(t.log) == Items(s.log) + Complete(items, |HostBridge.Concat(chunks)|)
  {
    hide Drain, Valid, Items, Stream, Complete, HostBridge.Concat, Feed;
    ConcatSnoc(chunks);
    FeedIsDrain(env, s, items, chunks);
    DrainOfPrefix(env, s, items, HostBridge.Concat(chunks));
  }

  /** The same when anything at all follows: every item is acted on before whatever comes after them. */
  lemma {:induction false} DecodedUpToError(env: Responder, s: State, items: seq<Item>, rest: Data, chunks: seq<Data>)
    requires chunks != [] && Ready(s, chunks[0]) && Valid(env, s.decrypt, s.hellos, items) && items != []
    requires HostBridge.Concat(chunks) <= Stream(items) + rest
    requires |HostBridge.Concat(chunks)| >= |Stream(items)|
    ensures Items(s.log) + items <= Items(Feed(env, s, chunks).log)
  {
    hide Drain, Items, Valid, Stream, Complete, IsRecord, NextFrame, Received;
    var front, c, total := chunks[..|chunks| - 1], chunks[|chunks| - 1], Stream(items);
    var t := Feed(env, s, front);
    ConcatSnoc(chunks);
    var before := HostBridge.Concat(front);
    hide HostBridge.Concat;
    if front != [] && |before| >= |total| {
      DecodedUpToError(env, s, items, rest, front);
      DrainExtends(env, Arrive(t, c));
      ItemsMonotone(t.log, Feed(env, s, chunks).log);
    } else {
      var k := |total| - |before|;
      assert before + c[..k] == (before + c)[..|total|] == (total + rest)[..|total|] == total;
      assert c == c[..k] + c[k..] && chunks == front + [c];
      if front == [] && s.decrypt.None? {
        HelloLong(env, s, items);
      }
      FeedCrossing(env, s, items, front, c[..k], c[k..]);
    }
  }

  lemma {:induction false} HelloLong(env: Responder, s: State, items: seq<Item>)
    requires Valid(env, s.decrypt, s.hellos, items) && items != [] && s.decrypt.None?
    ensures |Stream(items)| >= HELLO_SIZE
  {
  }

  lemma {:induction false} WholeAll(env: Responder, opener: Option<Opener>, hellos: nat, items: seq<Item>)
    requires Valid(env, opener, hellos, items)
    ensures Complete(items, |Stream(items)|) == items
    decreases |items|
  {
    assert Stream([]) == [];
    hide IsRecord, Stream, Complete;
    CompleteCons(items, |Stream(items)|);
    if items != [] {
      StreamCons(items);
      assert items == [items[0]] + items[1..];
      match items[0]
      case Record(_, _) =>
        WholeAll(env, Some(opener.value.(counter := Advance(opener.value.counter))), hellos, items[1..]);
      case Hello(hello) =>
        WholeAll(env, Some(Opener(env(hellos, hello).decrypt, 0)), hellos + 1, items[1..]);
    }
  }

  /** The chunk that carries the last valid byte, and whatever follows it in the same read. */
  lemma {:induction false} FeedCrossing(env: Responder, s: State, items: seq<Item>, front: seq<Data>,
                                        c1: Data, c2: Data)
    requires Ready(s, (front + [c1])[0]) && Valid(env, s.decrypt, s.hellos, items)
    requires HostBridge.Concat(front) + c1 == Stream(items)
    ensures Items(s.log) + items <= Items(Feed(env, s, front + [c1 + c2]).log)
  {
    hide Drain, Items, Valid, Stream, Complete, HostBridge.Concat, Ready;
    var all := front + [c1];
    assert (front + [c1 + c2])[..|front|] == front && all[..|front|] == front;
    ConcatSnoc(all);
    FeedIsDrain(env, s, items, all);
    UniqueDecoding(env, s, items, all);
    WholeAll(env, s.decrypt, s.hellos, items);
    var t, u := Feed(env, s, front), Feed(env, s, all);
    if !t.endpointFailed {
      DrainThenMore(env, Arrive(t, c1), c2);
      ArriveTwice(t, c1, c2);
      DrainExtends(env, Arrive(u, c2));
      ItemsMonotone(u.log, Feed(env, s, front + [c1 + c2]).log);
    }
  }

  /** From rest, a hello cut in two is answered if and only if its first piece holds the whole magic. */
  lemma {:induction false} SplitHello(env: Responder, s: State, a: Data, b: Data)
    requires s.buffer == [] && s.decrypt.None? && s.session.None? && !s.endpointFailed
    requires a != [] && MAGIC <= a + b && |a + b| == HELLO_SIZE && env(s.hellos, a + b).Established?
    ensures Feed(env, s, [a, b]).session.Some? <==> |a| >= |MAGIC|
  {
    var items, chunks := [Hello(a + b)], [a, b];
    assert chunks[..1] == [a] && [a][..0] == [];
    if |a| >= |MAGIC| {
      ConcatSnoc(chunks);
      assert HostBridge.Concat([a]) == a && HostBridge.Concat([a + b]) == a + b;
      assert Wires(items) == [a + b];
      FeedIsDrain(env, s, items, chunks);
      DrainOfPrefix(env, s, items, a + b);
    } else {
      assert b[0] == (a + b)[|a|] == MAGIC[|a|];
      var t := Drain(env, Arrive(s, a));
      assert Take(env, Arrive(s, a)) == Settled(t);
      assert Feed(env, s, [a]) == t;
      assert Feed(env, s, chunks) == Drain(env, Arrive(t, b));
    }
  }

  lemma {:induction false} ShortKeepsHellos(env: Responder, s: State)
    requires |s.buffer| < HELLO_SIZE
    ensures Drain(env, s).hellos == s.hellos
    decreases |s.buffer|
  {
    hide Received, NextFrame;
    if !s.endpointFailed && Take(env, s).Again? {
      ShortKeepsHellos(env, Take(env, s).s);
    }
  }

  /** A record that is malformed or does not open ends the session, and nothing that was buffered survives. */
  lemma {:induction false} BadRecordEnds(env: Responder, s: State)
    requires Live(s) && !(MAGIC <= s.buffer)
    requires match NextFrame(s.buffer)
             case NeedMore => false
             case Malformed => true
             case Framed(w, _) => Received(s.decrypt.value.dir, s.decrypt.value.counter, w).result.Err?
    ensures var t := Drain(env, s);
            && t.session == None && t.decrypt == None && t.workers == [] && t.buffer == []
            && t.log == s.log + [Ended] && !t.endpointFailed
  {
    hide Received, NextFrame;
  }

  /** What a drain leaves is nothing, or the start of a hello or of a record that is yet to come. */
  lemma {:induction false} DrainLeaves(env: Responder, s: State)
    requires s.decrypt.Some? <==> s.session.Some?
    ensures var t := Drain(env, s);
            || t.endpointFailed
            || (t.decrypt == None && t.buffer == [])
            || (MAGIC <= t.buffer && |t.buffer| < HELLO_SIZE)
            || (t.decrypt.Some? && (|t.buffer| < 4 || (17 <= U32(t.buffer) <= 65553 && |t.buffer| < 4 + U32(t.buffer))))
    decreases |s.buffer|
  {
    hide Received, U32, WorkersOf;
    if !s.endpointFailed {
      FramesExactly(s.buffer);
      if Take(env, s).Again? {
        DrainLeaves(env, Take(env, s).s);
      }
    }
  }

  /** What the start of a record and a hello behind it are read as. */
  lemma {:induction false} HelloSwallowed(d: Direction, n: Counter, m: Message, wire: Data, part: Data, hello: Data)
    requires Ideal(d.cipher) && IsRecord(d, n, m, wire) && part < wire && part != []
    requires MAGIC <= hello && |hello| == HELLO_SIZE
    ensures !(MAGIC <= part + hello)
    ensures var f := NextFrame(part + hello); f.Framed? ==> |f.rest| < HELLO_SIZE
  {
    hide IsRecord, Ideal, Plaintext, Header;
    RecordShape(d, n, m, wire);
    assert (part + hello)[0] == part[0] == wire[0] == 0;
    if |part| >= 4 {
      assert U32(part + hello) == U32(part) == U32(wire);
    }
  }

  lemma {:induction false} HelloAtOnce(env: Responder, s: State, hello: Data)
    requires !s.endpointFailed && s.buffer == hello && MAGIC <= hello && |hello| == HELLO_SIZE
    ensures Drain(env, s).hellos == s.hellos + 1
  {
    hide WorkersOf;
    DrainStep(env, s);
    assert hello[HELLO_SIZE..] == [];
    var t := Take(env, s);
    assert t.s.hellos == s.hellos + 1 && t.s.buffer == [];
    if t.Again? {
      ShortKeepsHellos(env, t.s);
    }
  }

  /**
    A host that restarts while the device holds part of a record: its hello is acted on if and only if
    that part is empty. Otherwise the hello is taken for the rest of the record: the device waits for
    more, or the forged record ends the session and everything buffered is dropped, and only from then
    on is it ready for another hello.
   */
  lemma {:induction false} HelloBehindPartial(env: Responder, s: State, m: Message, wire: Data, hello: Data)
    requires Live(s) && Ideal(s.decrypt.value.dir.cipher) && s.buffer < wire
    requires IsRecord(s.decrypt.value.dir, s.decrypt.value.counter, m, wire)
    requires MAGIC <= hello && |hello| == HELLO_SIZE
    ensures var t := Drain(env, Arrive(s, hello));
            && t.hellos == s.hellos + (if s.buffer == [] then 1 else 0)
            && (s.buffer != [] ==>
                  match NextFrame(s.buffer + hello)
                  case NeedMore => t == Arrive(s, hello)
                  case Malformed => t == EndSession(s).(buffer := []) && Ready(t, hello)
                  case Framed(w, _) =>
                    Received(s.decrypt.value.dir, s.decrypt.value.counter, w).result.Err?
                    ==> t == EndSession(s).(buffer := []) && Ready(t, hello))
  {
    hide Received, NextFrame, IsRecord, Ideal;
    var a := Arrive(s, hello);
    if s.buffer == [] {
      assert [] + hello == hello;
      HelloAtOnce(env, a, hello);
    } else {
      HelloSwallowed(s.decrypt.value.dir, s.decrypt.value.counter, m, wire, s.buffer, hello);
      DrainStep(env, a);
      hide Drain;
      if Take(env, a).Again? {
        ShortKeepsHellos(env, Take(env, a).s);
      }
    }
  }

  // ---- whose session is live -----------------------------------------------------------------

  /** The hello that the session which the log says is live began with. */
  function LastAccepted(log: seq<Event>): Option<Data> {
    if log == [] then None
    else match log[|log| - 1]
      case Accepted(_, hello, _) => Some(hello)
      case Ended => None
      case _ => LastAccepted(log[..|log| - 1])
  }

  /** A live session opens and seals with what its hello's own answer gave, under that answer's number. */
  lemma {:induction false} SessionOfHello(env: Responder, log: seq<Event>)
    requires Faithful(env, log)
    ensures InForce(log).Some? <==> LastAccepted(log).Some?
    ensures SessionIn(env, log).Some? <==> LastAccepted(log).Some?
    ensures LastAccepted(log).Some? ==>
              var answer := env(SessionIn(env, log).value.number, LastAccepted(log).value);
              && answer.Established? && SessionIn(env, log).value.encrypt == answer.encrypt
              && InForce(log).value.dir == answer.decrypt
  {
    hide Received;
    if log != [] {
      var front, e := log[..|log| - 1], log[|log| - 1];
      assert Legal(env, front, e);
      FaithfulFront(env, log);
      SessionOfHello(env, front);
    }
  }

  lemma {:induction false} FaithfulFront(env: Responder, log: seq<Event>)
    requires Faithful(env, log) && log != []
    ensures Faithful(env, log[..|log| - 1])
  {
    hide Legal;
    var front := log[..|log| - 1];
    forall i | 0 <= i < |front|
      ensures Legal(env, front[..i], front[i])
    {
      assert front[..i] == log[..i];
    }
  }

  function LastHello(items: seq<Item>): Option<Data> {
    if items == [] then None
    else match items[|items| - 1]
      case Hello(hello) => Some(hello)
      case Record(_, _) => LastHello(items[..|items| - 1])
  }

  lemma {:induction false} LiveSinceLastHello(log: seq<Event>)
    ensures LastAccepted(log).Some? ==> LastHello(Items(log)) == LastAccepted(log)
  {
    if log != [] {
      var front := log[..|log| - 1];
      LiveSinceLastHello(front);
      match log[|log| - 1]
      case Delivered(wire, m) => assert Items(log)[..|Items(front)|] == Items(front);
      case _ =>
    }
  }

  lemma {:induction false} LastHelloOfRecords(a: seq<Item>, hello: Data, b: seq<Item>)
    requires forall x :: x in b ==> x.Record?
    ensures LastHello(a + [Hello(hello)] + b) == Some(hello)
  {
    if b == [] {
      assert a + [Hello(hello)] + b == a + [Hello(hello)];
    } else {
      var front := b[..|b| - 1];
      assert b[|b| - 1] in b && forall x :: x in front ==> x in b;
      assert (a + [Hello(hello)] + b)[..|a| + |b|] == a + [Hello(hello)] + front;
      LastHelloOfRecords(a, hello, front);
    }
  }

  lemma {:induction false} FeedKeepsLifecycle(env: Responder, s: State, chunks: seq<Data>)
    requires Lifecycle(env, s)
    ensures Lifecycle(env, Feed(env, s, chunks))
  {
    hide Drain, Lifecycle;
    if chunks != [] {
      var t := Feed(env, s, chunks[..|chunks| - 1]);
      FeedKeepsLifecycle(env, s, chunks[..|chunks| - 1]);
      if !t.endpointFailed {
        LifecycleArrives(env, t, chunks[|chunks| - 1]);
        DrainKeepsLifecycle(env, Arrive(t, chunks[|chunks| - 1]));
      }
    }
  }

  /** When a whole valid stream has been read, a session is live, and it is that of the stream's last hello. */
  lemma {:induction false} StreamLeavesSession(env: Responder, s: State, items: seq<Item>, chunks: seq<Data>)
    requires Lifecycle(env, s)
    requires chunks != [] && Ready(s, chunks[0]) && Valid(env, s.decrypt, s.hellos, items)
    requires HostBridge.Concat(chunks) == Stream(items)
    ensures var t := Feed(env, s, chunks);
            Lifecycle(env, t) && t.session.Some? && LastAccepted(t.log) == LastHello(Items(s.log) + items)
  {
    hide Drain, Valid, Items, Stream, Complete, HostBridge.Concat, Feed;
    var t := Feed(env, s, chunks);
    ConcatSnoc(chunks);
    FeedKeepsLifecycle(env, s, chunks);
    FeedIsDrain(env, s, items, chunks);
    DrainOfPrefix(env, s, items, HostBridge.Concat(chunks));
    UniqueDecoding(env, s, items, chunks);
    WholeAll(env, s.decrypt, s.hellos, items);
    hide Waiting;
    SessionOfHello(env, t.log);
    LiveSinceLastHello(t.log);
  }

  lemma {:induction false} HelloLeavesSession(env: Responder, s: State, hello: Data, items: seq<Item>,
                                              chunks: seq<Data>)
    requires Lifecycle(env, s)
    requires chunks != [] && Ready(s, chunks[0]) && Valid(env, s.decrypt, s.hellos, [Hello(hello)] + items)
    requires HostBridge.Concat(chunks) == Stream([Hello(hello)] + items)
    requires forall x :: x in items ==> x.Record?
    ensures var t := Feed(env, s, chunks);
            Lifecycle(env, t) && t.session.Some? && LastAccepted(t.log) == Some(hello)
  {
    hide *;
    StreamLeavesSession(env, s, [Hello(hello)] + items, chunks);
    assert Items(s.log) + ([Hello(hello)] + items) == Items(s.log) + [Hello(hello)] + items;
    LastHelloOfRecords(Items(s.log), hello, items);
  }

  // ---- the loop itself -------------------------------------------------------------------------

  lemma {:induction false} PairedWhenValid(env: Responder, s: State)
    requires Lifecycle(env, s)
    ensures s.decrypt.Some? <==> s.session.Some?
    ensures s.session.None? ==> s.workers == []
  {
  }

  lemma {:induction false} LifecycleArrives(env: Responder, s: State, data: Data)
    requires Lifecycle(env, s)
    ensures Lifecycle(env, Arrive(s, data))
  {
  }

  /** Why the outer loop stops: the endpoint failed, or the live session has been marked dead. */
  predicate Over(s: State, dead: bool) {
    s.endpointFailed || (s.session.Some? && dead)
  }

  /** `serve_session`: the objects it creates and destroys as handshakes and records arrive. */
  class Demultiplexer {
    const respond: Responder
    const stream: WireBuffer
    var decrypt: SecureRecord?
    var session: Option<Session>
    var workers: seq<Worker>
    var hellos: nat
    var endpointFailed: bool
    ghost var log: seq<Event>

    ghost function State(): State
      reads this, stream, decrypt
    {
      Device(stream.buffer, if decrypt == null then None else Some(Opener(decrypt.dir, decrypt.sequence)),
                        session, workers, hellos, endpointFailed, log)
    }

    ghost predicate Valid()
      reads this, stream, decrypt
    {
      Lifecycle(respond, State())
    }

    constructor (respond: Responder)
      ensures Valid() && fresh(stream) && State() == IDLE && this.respond == respond
    {
      this.respond := respond;
      stream := new WireBuffer();
      decrypt, session, workers, hellos, endpointFailed, log := null, None, [], 0, false, [];
    }

    ghost predicate Paired()
      reads this
    {
      decrypt == null <==> session.None?
    }

    method End()
      requires Paired()
      modifies this
      ensures State() == EndSession(old(State())) && decrypt == null
    {
      if session.None? {
        return;
      }
      workers, session, decrypt := [], None, null;
      log := log + [Ended];
    }

    method StartWorkers(owner: Session)
      requires workers == []
      modifies this`workers
      ensures workers == WorkersOf(owner)
    {
      for camera := 0 to HostBridge.CAMERAS
        invariant workers == WorkersOf(owner)[..camera]
      {
        workers := workers + [VideoLoop(owner, camera)];
      }
      workers := workers + [TunnelPump(owner)];
      workers := workers + [WriterLoop(owner)];
    }

    /** Takes the hello, ends any live session, answers, and starts the new session with its workers. */
    method Handshake() returns (again: bool)
      requires Valid() && MAGIC <= stream.buffer && |stream.buffer| >= HELLO_SIZE && !endpointFailed
      modifies this, stream
      ensures (if again then Again(State()) else Settled(State())) == TakeHello(respond, old(State()))
      ensures again == !endpointFailed && |stream.buffer| < |old(stream.buffer)|
      ensures decrypt == old(decrypt) || decrypt == null || fresh(decrypt)
      ensures match respond(old(hellos), old(stream.buffer)[..HELLO_SIZE])
              case Established(opener, sealer) => decrypt != null && decrypt.dir == opener && decrypt.sequence == 0
                                                  && session == Some(Session(old(hellos), sealer))
              case _ => decrypt == null && session == None
    {
      hide Lifecycle, WorkersOf;
      PairedWhenValid(respond, State());
      var hello := stream.buffer[..HELLO_SIZE];
      stream.Consume(HELLO_SIZE);
      End();
      var number := hellos;
      hellos := hellos + 1;
      match respond(number, hello)
      case Rejected =>
        log := log + [Declined(number, hello)];
        again := true;
      case Unsent =>
        endpointFailed := true;
        log := log + [Declined(number, hello)];
        again := false;
      case Established(opener, sealer) =>
        var owner := Session(number, sealer);
        decrypt := new SecureRecord(opener);
        session := Some(owner);
        StartWorkers(owner);
        log := log + [Accepted(number, hello, opener)];
        again := true;
    }

    /** Frames and opens one record; any error ends the session and drops what is buffered. */
    method ReceiveRecord() returns (again: bool)
      requires Valid() && decrypt != null
      modifies this, stream, decrypt
      ensures (if again then Again(State()) else Settled(State())) == TakeRecord(old(State()))
      ensures again ==> |stream.buffer| < |old(stream.buffer)|
      ensures endpointFailed == old(endpointFailed) && (decrypt == old(decrypt) || decrypt == null)
    {
      hide Lifecycle, OpenRecord, LibraryAt, WorkersOf;
      PairedWhenValid(respond, State());
      again := false;
      var framed := stream.Next();
      if framed.Err? {
        End();
        stream.Clear();
      } else if framed.value != None {
        var message := OpenWireRecord(framed.value.value, decrypt, LibraryAt(decrypt.dir, decrypt.sequence));
        if message.Err? {
          End();
          stream.Clear();
        } else {
          log := log + [Delivered(framed.value.value, message.value)];
          again := true;
        }
      }
    }

    /** One read: the bytes are appended and everything they complete is acted on. */
    method Receive(received: Data)
      requires Valid() && !endpointFailed
      modifies this, stream, decrypt
      ensures Valid() && State() == Drain(respond, Arrive(old(State()), received))
      ensures decrypt == old(decrypt) || decrypt == null || fresh(decrypt)
    {
      hide Lifecycle, Drain, TakeHello, TakeRecord;
      LifecycleArrives(respond, State(), received);
      stream.Append(received);
      ghost var goal := Drain(respond, State());
      var again := true;
      while again
        invariant Valid() && (again ==> !endpointFailed)
        invariant goal == if again then Drain(respond, State()) else State()
        invariant decrypt == old(decrypt) || decrypt == null || fresh(decrypt)
        decreases again, |stream.buffer|
      {
        DrainStep(respond, State());
        TakeKeepsLifecycle(respond, State());
        var greeting := stream.StartsWith(MAGIC);
        if greeting && |stream.buffer| >= HELLO_SIZE {
          again := Handshake();
        } else if greeting {
          again := false;
        } else if decrypt != null {
          again := ReceiveRecord();
        } else {
          if stream.buffer != [] {
            log := log + [Discarded(stream.buffer)];
            stream.Clear();
          }
          again := false;
        }
      }
    }

    /**
      Reads until the endpoint ends, an answer cannot be written, or a read finds its session marked
      dead by a worker (`dead`, asked after each read); then ends the session.
     */
    method Serve(chunks: seq<Data>, dead: nat -> bool) returns (served: nat)
      requires Valid() && !endpointFailed
      modifies this, stream, decrypt
      ensures Valid() && session.None? && decrypt == null && workers == []
      ensures served <= |chunks| && State() == EndSession(Feed(respond, old(State()), chunks[..served]))
      ensures forall k :: 0 < k < served ==>
                var s := Feed(respond, old(State()), chunks[..k]); !s.endpointFailed && (s.session.Some? ==> !dead(k))
      ensures served < |chunks| ==>
                var s := Feed(respond, old(State()), chunks[..served]);
                served > 0 && (s.endpointFailed || (s.session.Some? && dead(served)))
    {
      hide Lifecycle, Drain;
      ghost var start := State();
      served := 0;
      var over := false;
      assert chunks[..0] == [];
      while served < |chunks| && !over
        invariant 0 <= served <= |chunks| && Valid()
        invariant State() == Feed(respond, start, chunks[..served])
        invariant over == (served > 0 && Over(State(), dead(served)))
        invariant !over ==> !endpointFailed
        invariant forall k :: 0 < k < served ==> !Over(Feed(respond, start, chunks[..k]), dead(k))
        invariant decrypt == old(decrypt) || decrypt == null || fresh(decrypt)
      {
        assert chunks[..served + 1][..served] == chunks[..served];
        Receive(chunks[served]);
        served := served + 1;
        over := endpointFailed || (session.Some? && dead(served));
      }
      PairedWhenValid(respond, State());
      EndKeepsLifecycle(respond, State());
      End();
    }
  }
}
