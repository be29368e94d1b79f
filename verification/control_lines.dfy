/** Control requests: newline-delimited lines reassembled from whatever records carried them. */
module ControlLines {
  import opened Bytes
  import opened SecureRecords
  import opened SecureWire
  import opened HostBridge
  import opened RecordWriters

  const NEWLINE: Byte := 10

  /** The position of the first newline, or the length if there is none. */
  function Find(s: Data): (i: nat)
    ensures i <= |s| && NEWLINE !in s[..i]
    ensures i < |s| ==> s[i] == NEWLINE
  {
    if s == [] || s[0] == NEWLINE then 0
    else
      var i := Find(s[1..]);
      assert s[..i + 1] == [s[0]] + s[1..][..i];
      i + 1
  }

  /** The complete lines, in order, and what is left after the last newline. */
  function Lines(s: Data): seq<Data>
    decreases |s|
  {
    if Find(s) == |s| then [] else [s[..Find(s)]] + Lines(s[Find(s) + 1..])
  }

  function Leftover(s: Data): Data
    decreases |s|
  {
    if Find(s) == |s| then s else Leftover(s[Find(s) + 1..])
  }

  function Joined(lines: seq<Data>): Data {
    if lines == [] then [] else lines[0] + [NEWLINE] + Joined(lines[1..])
  }

  ghost predicate Whole(lines: seq<Data>, leftover: Data) {
    (forall line :: line in lines ==> NEWLINE !in line) && NEWLINE !in leftover
  }

  lemma {:induction false} JoinedCons(line: Data, lines: seq<Data>, tail: Data)
    ensures Joined([line] + lines) + tail == line + [NEWLINE] + (Joined(lines) + tail)
  {
    assert ([line] + lines)[1..] == lines;
  }

  lemma {:induction false} CutAt(s: Data, i: nat)
    requires i < |s|
    ensures s == s[..i] + [s[i]] + s[i + 1..]
  {
  }

  /** The lines with their newlines, then the leftover, are the input; neither contains a newline. */
  lemma {:induction false} LinesRejoin(s: Data)
    ensures Joined(Lines(s)) + Leftover(s) == s
    ensures Whole(Lines(s), Leftover(s))
    decreases |s|
  {
    assert Joined([]) == [];
    hide Find, Joined;
    var i := Find(s);
    if i < |s| {
      var line, rest := s[..i], s[i + 1..];
      LinesRejoin(rest);
      CutAt(s, i);
      JoinedCons(line, Lines(rest), Leftover(rest));
    }
  }

  lemma {:induction false} FindsNone(s: Data)
    requires NEWLINE !in s
    ensures Find(s) == |s|
  {
    if s != [] {
      assert s[0] in s && forall x :: x in s[1..] ==> x in s;
      FindsNone(s[1..]);
    }
  }

  lemma {:induction false} FindIs(line: Data, rest: Data)
    requires NEWLINE !in line
    ensures Find(line + [NEWLINE] + rest) == |line|
  {
    var s := line + [NEWLINE] + rest;
    if line != [] {
      assert line[0] in line && forall x :: x in line[1..] ==> x in line;
      assert s[1..] == line[1..] + [NEWLINE] + rest;
      FindIs(line[1..], rest);
    }
  }

  /** There is no other way to read the input as lines and a leftover. */
  lemma {:induction false} LinesUnique(lines: seq<Data>, leftover: Data)
    requires Whole(lines, leftover)
    ensures Lines(Joined(lines) + leftover) == lines && Leftover(Joined(lines) + leftover) == leftover
  {
    hide Find;
    if lines == [] {
      assert Joined(lines) + leftover == leftover;
      FindsNone(leftover);
    } else {
      var line, rest := lines[0], Joined(lines[1..]) + leftover;
      var s := line + [NEWLINE] + rest;
      assert lines == [line] + lines[1..];
      JoinedCons(line, lines[1..], leftover);
      FindIs(line, rest);
      assert s[..|line|] == line && s[|line| + 1..] == rest;
      assert forall x :: x in lines[1..] ==> x in lines;
      LinesUnique(lines[1..], leftover);
    }
  }

  lemma {:induction false} JoinedAppend(a: seq<Data>, b: seq<Data>)
    ensures Joined(a + b) == Joined(a) + Joined(b)
  {
    if a == [] {
      assert a + b == b;
    } else {
      assert (a + b)[1..] == a[1..] + b;
      JoinedAppend(a[1..], b);
    }
  }

  /** Cutting the bytes differently changes neither the lines nor the leftover. */
  lemma {:induction false} LinesOfParts(a: Data, b: Data)
    ensures Lines(a) + Lines(Leftover(a) + b) == Lines(a + b)
    ensures Leftover(Leftover(a) + b) == Leftover(a + b)
  {
    hide Lines, Leftover, Joined;
    var x, y, c := Lines(a), Leftover(a), Leftover(a) + b;
    LinesRejoin(a);
    LinesRejoin(c);
    JoinedAppend(x, Lines(c));
    Associates(Joined(x), y, b);
    Associates(Joined(x), Joined(Lines(c)), Leftover(c));
    LinesUnique(x + Lines(c), Leftover(c));
  }

  lemma {:induction false} Associates(a: Data, b: Data, c: Data)
    ensures a + b + c == a + (b + c)
  {
  }

  // ---- dispatch and replies --------------------------------------------------------------

  /**
    The dispatcher's reply to the last of the lines it has been given (it may keep state between
    them), and how the cipher library behaves when that reply is sealed.
   */
  type Dispatch = seq<Data> -> Answer

  datatype Answer = Answer(reply: Data, lib: Library)

  /** What the tunnel has done: lines dispatched so far, bytes left over, the writer it replies through. */
  datatype Tunnel = Tunnel(dispatched: seq<Data>, left: Data, writer: Writer)

  function ReplyOffer(reply: Data): Offer {
    Offer(Message(Control, 0, reply), false)
  }

  function Replied(d: Direction, w: Writer, a: Answer): Writer {
    if a.reply == [] then w else Enqueued(d, w, ReplyOffer(a.reply), a.lib).0
  }

  function DispatchLine(d: Direction, dispatch: Dispatch, t: Tunnel, line: Data): Tunnel {
    var dispatched := t.dispatched + [line];
    Tunnel(dispatched, t.left, Replied(d, t.writer, dispatch(dispatched)))
  }

  function DispatchAll(d: Direction, dispatch: Dispatch, t: Tunnel, lines: seq<Data>): Tunnel
    decreases |lines|
  {
    if lines == [] then t else DispatchAll(d, dispatch, DispatchLine(d, dispatch, t, lines[0]), lines[1..])
  }

  function Delivered(d: Direction, dispatch: Dispatch, t: Tunnel, payload: Data): Tunnel {
    DispatchAll(d, dispatch, t, Lines(t.left + payload)).(left := Leftover(t.left + payload))
  }

  function DeliveredAll(d: Direction, dispatch: Dispatch, t: Tunnel, payloads: seq<Data>): Tunnel
    decreases |payloads|
  {
    if payloads == [] then t else DeliveredAll(d, dispatch, Delivered(d, dispatch, t, payloads[0]), payloads[1..])
  }

  lemma {:induction false} DispatchIgnoresLeft(d: Direction, dispatch: Dispatch, t: Tunnel, lines: seq<Data>,
                                               left: Data)
    ensures DispatchAll(d, dispatch, t.(left := left), lines) == DispatchAll(d, dispatch, t, lines).(left := left)
    decreases |lines|
  {
    hide Enqueued;
    if lines != [] {
      DispatchIgnoresLeft(d, dispatch, DispatchLine(d, dispatch, t, lines[0]), lines[1..], left);
    }
  }

  lemma {:induction false} DispatchInTwo(d: Direction, dispatch: Dispatch, t: Tunnel, a: seq<Data>, b: seq<Data>)
    ensures DispatchAll(d, dispatch, t, a + b) == DispatchAll(d, dispatch, DispatchAll(d, dispatch, t, a), b)
    decreases |a|
  {
    hide DispatchLine;
    if a == [] {
      assert a + b == b;
    } else {
      assert (a + b)[1..] == a[1..] + b;
      DispatchInTwo(d, dispatch, DispatchLine(d, dispatch, t, a[0]), a[1..], b);
    }
  }

  lemma {:induction false} DeliveredTwice(d: Direction, dispatch: Dispatch, t: Tunnel, a: Data, b: Data)
    ensures Delivered(d, dispatch, Delivered(d, dispatch, t, a), b) == Delivered(d, dispatch, t, a + b)
  {
    hide DispatchAll, Lines, Leftover;
    var x := t.left + a;
    LinesOfParts(x, b);
    assert t.left + (a + b) == x + b;
    DispatchInTwo(d, dispatch, t, Lines(x), Lines(Leftover(x) + b));
    DispatchIgnoresLeft(d, dispatch, DispatchAll(d, dispatch, t, Lines(x)), Lines(Leftover(x) + b), Leftover(x));
  }

  /** Lines, replies and what is left over depend only on the concatenation of the payloads. */
  lemma {:induction false} OnlyConcatenationMatters(d: Direction, dispatch: Dispatch, t: Tunnel, payloads: seq<Data>)
    requires NEWLINE !in t.left
    ensures DeliveredAll(d, dispatch, t, payloads) == Delivered(d, dispatch, t, Concat(payloads))
    decreases |payloads|
  {
    hide Delivered;
    if payloads == [] {
      DeliveredNothing(d, dispatch, t);
    } else {
      LeftHasNoNewline(d, dispatch, t, payloads[0]);
      OnlyConcatenationMatters(d, dispatch, Delivered(d, dispatch, t, payloads[0]), payloads[1..]);
      DeliveredTwice(d, dispatch, t, payloads[0], Concat(payloads[1..]));
    }
  }

  lemma {:induction false} DeliveredNothing(d: Direction, dispatch: Dispatch, t: Tunnel)
    requires NEWLINE !in t.left
    ensures Delivered(d, dispatch, t, []) == t
  {
    assert t.left + [] == t.left == Joined([]) + t.left;
    LinesUnique([], t.left);
  }

  lemma {:induction false} LeftHasNoNewline(d: Direction, dispatch: Dispatch, t: Tunnel, payload: Data)
    ensures NEWLINE !in Delivered(d, dispatch, t, payload).left
  {
    LinesRejoin(t.left + payload);
  }

  /** The dispatcher's answers to these lines, in order. */
  function Answers(dispatch: Dispatch, before: seq<Data>, lines: seq<Data>): seq<Answer>
    decreases |lines|
  {
    if lines == [] then []
    else [dispatch(before + [lines[0]])] + Answers(dispatch, before + [lines[0]], lines[1..])
  }

  /** A reply is sent if a record can carry it (neither empty nor over 65534 bytes) and can be sealed. */
  predicate Sendable(a: Answer) {
    0 < |a.reply| <= MAX_MESSAGE && a.lib == Works
  }

  /** A reply that fails in the cipher after its nonce was taken uses up a counter. */
  predicate Burns(a: Answer) {
    0 < |a.reply| <= MAX_MESSAGE && a.lib == Fails
  }

  datatype Reply = Reply(message: Message, number: nat)

  /** What one answer adds to the replies sent, and the number of the counter after it. */
  function Sent(a: Answer, n: nat): seq<Reply> {
    if Sendable(a) then [Reply(Message(Control, 0, a.reply), n)] else []
  }

  function Counted(a: Answer, n: nat): nat {
    if Sendable(a) || Burns(a) then n + 1 else n
  }

  /** The replies sent for these answers, in order, each with the number of its counter. */
  function Replies(answers: seq<Answer>, n: nat): seq<Reply>
    decreases |answers|
  {
    if answers == [] then [] else Sent(answers[0], n) + Replies(answers[1..], Counted(answers[0], n))
  }

  predicate Rising(rs: seq<Reply>, n: nat) {
    && (forall i :: 0 <= i < |rs| ==> n <= rs[i].number)
    && (forall i, j :: 0 <= i < j < |rs| ==> rs[i].number < rs[j].number)
  }

  predicate Consecutive(rs: seq<Reply>, n: nat) {
    forall i :: 0 <= i < |rs| ==> rs[i].number == n + i
  }

  lemma {:induction false} OneBefore(r: Reply, rs: seq<Reply>)
    ensures Rising(rs, r.number + 1) ==> Rising([r] + rs, r.number)
    ensures Consecutive(rs, r.number + 1) ==> Consecutive([r] + rs, r.number)
  {
    assert forall i :: 0 < i < |rs| + 1 ==> ([r] + rs)[i] == rs[i - 1];
  }

  lemma {:induction false} RisingFromLess(rs: seq<Reply>, n: nat)
    ensures Rising(rs, n + 1) ==> Rising(rs, n)
  {
  }

  lemma {:induction false} OneMore(a: Answer, rs: seq<Reply>, n: nat)
    ensures Rising(rs, Counted(a, n)) ==> Rising(Sent(a, n) + rs, n)
    ensures a.lib == Works && Consecutive(rs, Counted(a, n)) ==> Consecutive(Sent(a, n) + rs, n)
  {
    hide Rising, Consecutive;
    if Sendable(a) {
      OneBefore(Reply(Message(Control, 0, a.reply), n), rs);
    } else {
      assert Sent(a, n) + rs == rs;
      RisingFromLess(rs, n);
    }
  }

  /** The counters rise, and without a failing library they are consecutive. */
  lemma {:induction false} RepliesNumbered(answers: seq<Answer>, n: nat)
    ensures Rising(Replies(answers, n), n)
    ensures (forall a :: a in answers ==> a.lib == Works) ==> Consecutive(Replies(answers, n), n)
    decreases |answers|
  {
    if answers != [] {
      var n' := Counted(answers[0], n);
      assert forall a :: a in answers[1..] ==> a in answers;
      RepliesNumbered(answers[1..], n');
      OneMore(answers[0], Replies(answers[1..], n'), n);
      hide Rising, Consecutive, Sent, Counted;
    } else {
      assert Replies(answers, n) == [];
    }
  }

  /** records[i] is the i-th reply, sealed with the counter of its number. */
  ghost predicate SealedReplies(d: Direction, replies: seq<Reply>, records: seq<Data>) {
    && |replies| == |records|
    && forall i :: 0 <= i < |replies| ==> IsRecord(d, CounterAt(replies[i].number), replies[i].message, records[i])
  }

  lemma {:induction false} SealedJoin(d: Direction, a: seq<Reply>, b: seq<Reply>, x: seq<Data>, y: seq<Data>)
    requires SealedReplies(d, a, x) && SealedReplies(d, b, y)
    ensures SealedReplies(d, a + b, x + y)
  {
    hide IsRecord, CounterAt;
  }

  function RepliedAll(d: Direction, w: Writer, answers: seq<Answer>): Writer
    decreases |answers|
  {
    if answers == [] then w else RepliedAll(d, Replied(d, w, answers[0]), answers[1..])
  }

  lemma {:induction false} DispatchAnswers(d: Direction, dispatch: Dispatch, t: Tunnel, lines: seq<Data>)
    ensures var u := DispatchAll(d, dispatch, t, lines);
            && u.dispatched == t.dispatched + lines
            && u.writer == RepliedAll(d, t.writer, Answers(dispatch, t.dispatched, lines))
    decreases |lines|
  {
    hide Replied;
    if lines != [] {
      var next := DispatchLine(d, dispatch, t, lines[0]);
      DispatchAnswers(d, dispatch, next, lines[1..]);
      assert next.dispatched + lines[1..] == t.dispatched + lines;
      var rest := Answers(dispatch, next.dispatched, lines[1..]);
      assert ([dispatch(next.dispatched)] + rest)[1..] == rest;
    }
  }

  /** One answer's reply: queued with its counter, or passed over. */
  lemma {:induction false} ReplyQueued(d: Direction, w: Writer, a: Answer, n: nat) returns (records: seq<Data>)
    requires Ideal(d.cipher) && w.counter == CounterAt(n)
    ensures Replied(d, w, a).queue == w.queue + records && Replied(d, w, a).counter == CounterAt(Counted(a, n))
    ensures SealedReplies(d, Sent(a, n), records)
  {
    MakeRecordSucceeds(d, w.counter, Message(Control, 0, a.reply));
    CounterAdvances(n);
    hide CounterAt, Ideal, Plaintext, Header, NonceFor, Advance;
    records := if Sendable(a) then [MakeRecord(d, w.counter, Message(Control, 0, a.reply), a.lib).result.value] else [];
  }

  lemma {:induction false} AllQueued(d: Direction, w: Writer, answers: seq<Answer>, n: nat) returns (records: seq<Data>)
    requires Ideal(d.cipher) && w.counter == CounterAt(n)
    ensures RepliedAll(d, w, answers).queue == w.queue + records
    ensures SealedReplies(d, Replies(answers, n), records)
    decreases |answers|
  {
    hide Replied, IsRecord, CounterAt, Ideal, Sent, Counted;
    if answers == [] {
      return [];
    }
    hide SealedReplies;
    var n' := Counted(answers[0], n);
    var first := ReplyQueued(d, w, answers[0], n);
    var more := AllQueued(d, Replied(d, w, answers[0]), answers[1..], n');
    SealedJoin(d, Sent(answers[0], n), Replies(answers[1..], n'), first, more);
    records := first + more;
  }

  /**
    Every reply that fits in a record is queued, in the order of its line and sealed with its
    counter; an empty reply, one over 65534 bytes and one the cipher failed on are passed over
    without a trace.
   */
  lemma {:induction false} RepliesQueued(d: Direction, dispatch: Dispatch, t: Tunnel, lines: seq<Data>, n: nat)
      returns (records: seq<Data>)
    requires Ideal(d.cipher) && t.writer.counter == CounterAt(n)
    ensures DispatchAll(d, dispatch, t, lines).writer.queue == t.writer.queue + records
    ensures SealedReplies(d, Replies(Answers(dispatch, t.dispatched, lines), n), records)
    ensures DispatchAll(d, dispatch, t, lines).dispatched == t.dispatched + lines
  {
    hide *;
    DispatchAnswers(d, dispatch, t, lines);
    records := AllQueued(d, t.writer, Answers(dispatch, t.dispatched, lines), n);
  }

  class LocalTunnel {
    const writer: RecordWriter
    const dispatch: Dispatch
    var controlBuffer: Data
    var dispatched: seq<Data>

    ghost function State(): Tunnel
      reads this, writer, writer.encrypt
    {
      Tunnel(dispatched, controlBuffer, writer.State())
    }

    constructor (writer: RecordWriter, dispatch: Dispatch)
      ensures this.writer == writer && this.dispatch == dispatch
      ensures State() == Tunnel([], [], writer.State())
    {
      this.writer, this.dispatch, controlBuffer, dispatched := writer, dispatch, [], [];
    }

    method FindNewline() returns (nl: nat)
      ensures nl == Find(controlBuffer)
    {
      nl := 0;
      assert controlBuffer[0..] == controlBuffer;
      while nl < |controlBuffer| && controlBuffer[nl] != NEWLINE
        invariant nl <= |controlBuffer|
        invariant nl + Find(controlBuffer[nl..]) == Find(controlBuffer)
      {
        nl := nl + 1;
      }
    }

    /** A Control payload: the loop dispatches every line it completes and queues the replies. */
    method Deliver(payload: Data)
      modifies this, writer, writer.encrypt
      ensures State() == Delivered(writer.encrypt.dir, dispatch, old(State()), payload)
    {
      hide Enqueued;
      ghost var d, goal := writer.encrypt.dir, Delivered(writer.encrypt.dir, dispatch, State(), payload);
      controlBuffer := controlBuffer + payload;
      var nl := FindNewline();
      DispatchIgnoresLeft(d, dispatch, old(State()), Lines(controlBuffer), controlBuffer);
      while nl < |controlBuffer|
        invariant nl == Find(controlBuffer)
        invariant DispatchAll(d, dispatch, State(), Lines(controlBuffer)).(left := Leftover(controlBuffer)) == goal
        decreases |controlBuffer|
      {
        var line := controlBuffer[..nl];
        ghost var before, lines := State(), Lines(controlBuffer);
        controlBuffer := controlBuffer[nl + 1..];
        dispatched := dispatched + [line];
        var answer := dispatch(dispatched);
        if answer.reply != [] {
          var ok := writer.Enqueue(Control, 0, answer.reply, false, answer.lib);
        }
        assert State() == DispatchLine(d, dispatch, before, line).(left := controlBuffer);
        assert lines == [line] + Lines(controlBuffer) && lines[1..] == Lines(controlBuffer);
        DispatchIgnoresLeft(d, dispatch, DispatchLine(d, dispatch, before, line), lines[1..], controlBuffer);
        nl := FindNewline();
      }
    }
  }
}
