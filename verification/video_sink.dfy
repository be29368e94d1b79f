/** Encoded frames cut into records, and what of them reaches the host's decoder. */
module VideoSinks {
  import opened Bytes
  import opened SecureRecords
  import opened SecureWire
  import opened HostBridge
  import opened RecordWriters
  import opened Transport

  const CHUNK := MAX_PAYLOAD - 2

  function Pieces(frame: Data): seq<Data> {
    if frame == [] then [] else [frame[..Min(CHUNK, |frame|)]] + Pieces(frame[Min(CHUNK, |frame|)..])
  }

  /** The pieces are the frame cut in order; each but the last fills a record, and none overfills it. */
  lemma {:induction false} PiecesRejoin(frame: Data)
    ensures Concat(Pieces(frame)) == frame
    ensures forall p :: p in Pieces(frame) ==> 0 < |p| <= MAX_MESSAGE
    ensures forall i :: 0 <= i < |Pieces(frame)| - 1 ==> |Pieces(frame)[i]| == 65534
  {
    if frame != [] {
      PiecesRejoin(frame[Min(CHUNK, |frame|)..]);
    }
  }

  /** Queueing the pieces in order until one cannot be sealed; `libs` is the library's behaviour. */
  function EnqueueAll(d: Direction, w: Writer, camera: Byte, pieces: seq<Data>, libs: nat -> Library, k: nat):
      (Writer, bool)
    decreases |pieces|
  {
    if pieces == [] then (w, true)
    else
      var (next, ok) := Enqueued(d, w, Offer(Message(Video, camera, pieces[0]), true), libs(k));
      if ok then EnqueueAll(d, next, camera, pieces[1..], libs, k + 1) else (next, false)
  }

  class VideoSink {
    const writer: RecordWriter
    const camera: Byte

    constructor (writer: RecordWriter, camera: Byte)
      ensures this.writer == writer && this.camera == camera
    {
      this.writer, this.camera := writer, camera;
    }

    method OnFrame(frame: Data, libs: nat -> Library)
      modifies writer, writer.encrypt
      ensures var (w, ok) := EnqueueAll(writer.encrypt.dir, old(writer.State()), camera, Pieces(frame), libs, 0);
              writer.State() == w && writer.dead == (old(writer.dead) || !ok)
    {
      ghost var d, goal := writer.encrypt.dir,
        EnqueueAll(writer.encrypt.dir, writer.State(), camera, Pieces(frame), libs, 0);
      var offset, calls, ok := 0, 0, true;
      while offset < |frame| && ok
        invariant offset <= |frame| || offset - CHUNK < |frame|
        invariant writer.dead == old(writer.dead)
        invariant ok ==>
                    EnqueueAll(d, writer.State(), camera, Pieces(frame[Min(offset, |frame|)..]), libs, calls) == goal
        invariant !ok ==> (writer.State(), false) == goal
        decreases |frame| - offset, ok
      {
        var rest := frame[offset..];
        var piece := Min(CHUNK, |frame| - offset);
        assert frame[offset..offset + piece] == rest[..piece];
        assert rest[piece..] == frame[Min(offset + CHUNK, |frame|)..];
        ok := writer.Enqueue(Video, camera, frame[offset..offset + piece], true, libs(calls));
        offset, calls := offset + CHUNK, calls + 1;
      }
      if !ok {
        writer.dead := true;
      }
    }
  }

  /** The steps of a frame's pieces: the sink stops behind the first that is refused. */
  function FrameSteps(d: Direction, s: System, camera: Byte, pieces: seq<Data>, libs: nat -> Library, k: nat): System
    decreases |pieces|
  {
    if pieces == [] then s
    else
      var t := EnqueueSteps(d, s, Offer(Message(Video, camera, pieces[0]), true), libs(k));
      if t.log != [] && t.log[|t.log| - 1].Refused? then t
      else FrameSteps(d, t, camera, pieces[1..], libs, k + 1)
  }

  /**
    A frame's loop is a run of those steps: what it logs is one event for each piece in order, all of
    them if it ends well, and otherwise up to the one refusal, which is the last.
   */
  lemma {:induction false} FrameIsSteps(d: Direction, s: System, camera: Byte, pieces: seq<Data>,
                                        libs: nat -> Library, k: nat) returns (events: seq<Event>)
    requires s.hold.Free?
    ensures var t := FrameSteps(d, s, camera, pieces, libs, k);
            var (w, ok) := EnqueueAll(d, s.writer, camera, pieces, libs, k);
            && t.writer == w && t.hold.Free? && t.log == s.log + events
            && |events| <= |pieces| && (ok ==> |events| == |pieces|) && (!ok ==> events != [])
            && (forall i :: 0 <= i < |events| ==>
                  events[i].offer == Offer(Message(Video, camera, pieces[i]), true)
                  && (events[i].Refused? <==> !ok && i == |events| - 1))
    decreases |pieces|
  {
    hide EnqueueSteps, EventOf, Enqueued;
    if pieces == [] {
      return [];
    }
    var o := Offer(Message(Video, camera, pieces[0]), true);
    var t, e := EnqueueSteps(d, s, o, libs(k)), EventOf(d, s.writer, o, libs(k));
    EnqueueIsSteps(d, s, o, libs(k));
    EventOffer(d, s.writer, o, libs(k));
    events := [e];
    if !e.Refused? {
      var more := FrameIsSteps(d, t, camera, pieces[1..], libs, k + 1);
      assert s.log + [e] + more == s.log + ([e] + more);
      events := [e] + more;
    }
  }

  lemma {:induction false} EventOffer(d: Direction, w: Writer, o: Offer, lib: Library)
    ensures EventOf(d, w, o, lib).offer == o
  {
  }

  // ---- over whole runs ---------------------------------------------------------------------

  function OfCamera(camera: Byte): Offer -> bool {
    OfRoute(ForCamera(camera))
  }

  function PayloadsOf(ms: seq<Message>): (ps: seq<Data>)
    ensures |ps| == |ms|
  {
    seq(|ms|, i requires 0 <= i < |ms| => ms[i].payload)
  }

  function FrameMessages(camera: Byte, pieces: seq<Data>): (ms: seq<Message>)
    ensures |ms| == |pieces|
  {
    seq(|pieces|, i requires 0 <= i < |pieces| => Message(Video, camera, pieces[i]))
  }

  function AllPieces(frames: seq<Data>): seq<Data> {
    if frames == [] then [] else Pieces(frames[0]) + AllPieces(frames[1..])
  }

  ghost predicate Subsequence<T>(a: seq<T>, b: seq<T>) {
    if a == [] then true
    else if b == [] then false
    else (a[|a| - 1] == b[|b| - 1] && Subsequence(a[..|a| - 1], b[..|b| - 1]))
         || Subsequence(a, b[..|b| - 1])
  }

  lemma {:induction false} SubsequenceSkips<T>(a: seq<T>, b: seq<T>, x: T)
    requires Subsequence(a, b)
    ensures Subsequence(a, b + [x]) && Subsequence(a + [x], b + [x])
  {
    assert (b + [x])[..|b|] == b && (a + [x])[..|a|] == a;
  }

  lemma {:induction false} AcceptedIsSubsequence(log: seq<Event>, keep: Offer -> bool)
    ensures Subsequence(Kept(OffersIn(log, IS_ACCEPTED), keep), Kept(OffersIn(log, ANY), keep))
  {
    if log != [] {
      var front, e := log[..|log| - 1], log[|log| - 1];
      AcceptedIsSubsequence(front, keep);
      KeptGrows(OffersIn(front, ANY), e.offer, keep);
      KeptGrows(OffersIn(front, IS_ACCEPTED), e.offer, keep);
      if keep(e.offer) {
        SubsequenceSkips(Kept(OffersIn(front, IS_ACCEPTED), keep), Kept(OffersIn(front, ANY), keep), e.offer);
      }
    }
  }

  /**
    What reaches a camera's decoder is, piece by piece and in order, a subsequence of what its
    pipeline produced, after library failures too if the cipher is binding.
   */
  lemma {:induction false} CameraOrder(d: Direction, actions: seq<Action>, camera: Byte)
    requires Ideal(d.cipher)
    requires Run(d, actions).burned == 0 || (Binding(d.cipher) && Run(d, actions).taken <= TWO_64)
    ensures var s := Run(d, actions);
            exists kept :: Subsequence(kept, Kept(OffersIn(s.log, ANY), OfCamera(camera)))
                           && Routed(s.host.decoded, ForCamera(camera)) <= MessagesOf(kept)
  {
    hide Run, Numbered, QueueTied, BytesTied, HostTied, Bounded;
    Reachable(d, actions);
    var s := Run(d, actions);
    if s.burned == 0 {
      EndToEnd(d, actions);
    } else {
      DecodedIsIntact(d, actions);
    }
    var kept := Kept(OffersOf(s.items), OfCamera(camera));
    AcceptedIsSubsequence(s.log, OfCamera(camera));
    assert MessagesOf(OffersOf(s.items)) == Messages(s.items);
    RoutedPrefix(s.host.decoded, Messages(s.items), ForCamera(camera));
    RoutedOfKept(OffersOf(s.items), ForCamera(camera));
  }

  lemma {:induction false} PayloadsOfFrames(camera: Byte, pieces: seq<Data>)
    ensures PayloadsOf(FrameMessages(camera, pieces)) == pieces
  {
  }

  lemma {:induction false} AllPiecesRejoin(frames: seq<Data>)
    ensures Concat(AllPieces(frames)) == Concat(frames)
  {
    if frames != [] {
      PiecesRejoin(frames[0]);
      AllPiecesRejoin(frames[1..]);
      ConcatAppend(Pieces(frames[0]), AllPieces(frames[1..]));
    }
  }

  lemma {:induction false} AllPiecesFit(frames: seq<Data>)
    ensures forall p :: p in AllPieces(frames) ==> |p| <= MAX_MESSAGE
  {
    if frames != [] {
      PiecesRejoin(frames[0]);
      AllPiecesFit(frames[1..]);
    }
  }

  lemma {:induction false} KeptHas(log: seq<Event>, e: Event, keep: Offer -> bool)
    requires e in log && keep(e.offer)
    ensures e.offer in Kept(OffersIn(log, ANY), keep)
  {
    var front, last := log[..|log| - 1], log[|log| - 1];
    KeptGrows(OffersIn(front, ANY), last.offer, keep);
    if e in front {
      KeptHas(front, e, keep);
    }
  }

  /** With a working library and a queue that never fills, every piece of the camera was accepted. */
  lemma {:induction false} PiecesAccepted(d: Direction, actions: seq<Action>, camera: Byte, frames: seq<Data>, e: Event)
    requires Ideal(d.cipher) && NeverFull(d, actions)
    requires forall a :: a in actions && a.Seal? ==> a.lib == Works
    requires MessagesOf(Kept(OffersIn(Run(d, actions).log, ANY), OfCamera(camera)))
          == FrameMessages(camera, AllPieces(frames))
    requires e in Run(d, actions).log && OfCamera(camera)(e.offer)
    ensures e.Accepted?
  {
    hide Run, Numbered, QueueTied, BytesTied, HostTied, Bounded, NeverFull;
    Reachable(d, actions);
    NothingDropped(d, actions);
    RefusedWorked(d, actions);
    var log := Run(d, actions).log;
    var kept := Kept(OffersIn(log, ANY), OfCamera(camera));
    KeptHas(log, e, OfCamera(camera));
    var i :| 0 <= i < |kept| && kept[i] == e.offer;
    assert MessagesOf(kept)[i] == e.offer.message;
    assert FrameMessages(camera, AllPieces(frames))[i].payload == AllPieces(frames)[i];
    AllPiecesFit(frames);
    assert Excused(e);
  }

  /**
    With a working cipher library and a queue that never reached its limit, once everything is
    delivered a camera's decoder has been fed exactly the bytes of its frames, one after the other.
   */
  lemma {:induction false} StreamIntact(d: Direction, actions: seq<Action>, camera: Byte, frames: seq<Data>)
    requires Ideal(d.cipher) && NeverFull(d, actions)
    requires forall a :: a in actions && a.Seal? ==> a.lib == Works
    requires Quiet(d, Run(d, actions))
    requires MessagesOf(Kept(OffersIn(Run(d, actions).log, ANY), OfCamera(camera)))
          == FrameMessages(camera, AllPieces(frames))
    ensures Concat(PayloadsOf(Routed(Run(d, actions).host.decoded, ForCamera(camera)))) == Concat(frames)
  {
    hide Run, Numbered, QueueTied, BytesTied, HostTied, Bounded, NeverFull;
    NothingBurned(d, actions);
    var s := Run(d, actions);
    forall e | e in s.log && OfCamera(camera)(e.offer)
      ensures e.Accepted?
    {
      PiecesAccepted(d, actions, camera, frames, e);
    }
    RouteDelivered(d, actions, ForCamera(camera));
    PayloadsOfFrames(camera, AllPieces(frames));
    AllPiecesRejoin(frames);
  }
}
