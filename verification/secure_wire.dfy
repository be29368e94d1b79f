/** Records on the byte stream: construction, opening, reassembly and padding removal. */
module SecureWire {
  import opened Bytes
  import opened SecureRecords

  const MAX_PAYLOAD := 65536
  const MAX_WIRE_RECORD := MAX_PAYLOAD + 1 + 16
  const MIN_WIRE_RECORD := 16 + 1
  const MAX_MESSAGE := MAX_PAYLOAD - 2

  datatype Channel = Video | Control | Update | Meta

  function Code(channel: Channel): (b: Byte)
    ensures ChannelOf(b) == Some(channel)
  {
    match channel
    case Video => 1
    case Control => 2
    case Update => 3
    case Meta => 4
  }

  function ChannelOf(b: Byte): Option<Channel> {
    if b == 1 then Some(Video)
    else if b == 2 then Some(Control)
    else if b == 3 then Some(Update)
    else if b == 4 then Some(Meta)
    else None
  }

  datatype Message = Message(channel: Channel, stream: Byte, payload: Data)

  datatype WireError =
    | PayloadTooLarge | RecordTooLarge | Truncated | InvalidLength | NoHeader | UnknownChannel
    | Crypto(error: RecordError)

  datatype Made = Made(result: Result<Data, WireError>, next: Counter)
  datatype Opened = Opened(result: Result<Message, WireError>, next: Counter)

  // ---- specification of one record -------------------------------------------------------

  function Plaintext(m: Message): Data {
    [Code(m.channel), m.stream] + m.payload
  }

  function MakeRecord(d: Direction, n: Counter, m: Message, lib: Library): Made {
    if |m.payload| + 2 > MAX_PAYLOAD then Made(Err(PayloadTooLarge), n)
    else
      var sealed := Sealing(d, n, Plaintext(m), lib);
      match sealed.result
      case Err(e) => Made(Err(Crypto(e)), sealed.next)
      case Ok(t) =>
        if |t| > MAX_WIRE_RECORD then Made(Err(RecordTooLarge), sealed.next)
        else Made(Ok(Header(|t|) + t), sealed.next)
  }

  function OpenRecord(d: Direction, n: Counter, wire: Data, lib: Library): Opened {
    if |wire| < 4 + 16 + 1 then Opened(Err(Truncated), n)
    else if U32(wire) > MAX_WIRE_RECORD || |wire| != 4 + U32(wire) then Opened(Err(InvalidLength), n)
    else
      var plain := Opening(d, n, wire[4..], lib);
      match plain.result
      case Err(e) => Opened(Err(Crypto(e)), plain.next)
      case Ok(p) =>
        if |p| < 2 then Opened(Err(NoHeader), plain.next)
        else match ChannelOf(p[0])
          case None => Opened(Err(UnknownChannel), plain.next)
          case Some(channel) => Opened(Ok(Message(channel, p[1], p[2..])), plain.next)
  }

  /** What the receiving library does at counter n of a direction. */
  function LibraryAt(d: Direction, n: Counter): Library {
    d.cipher.opening(d.key, NonceFor(d.iv, n))
  }

  function Received(d: Direction, n: Counter, wire: Data): Opened {
    OpenRecord(d, n, wire, LibraryAt(d, n))
  }

  method MakeWireRecord(channel: Channel, stream: Byte, payload: Data, record: SecureRecord, lib: Library)
      returns (r: Result<Data, WireError>)
    modifies record`sequence
    ensures Made(r, record.sequence)
         == MakeRecord(record.dir, old(record.sequence),
                       Message(channel, stream, payload), lib)
  {
    if |payload| + 2 > MAX_PAYLOAD {
      return Err(PayloadTooLarge);
    }
    var plaintext := [Code(channel)];
    plaintext := plaintext + [stream];
    plaintext := plaintext + payload;
    assert plaintext == Plaintext(Message(channel, stream, payload));
    var encrypted := record.Seal(plaintext, lib);
    match encrypted
    case Err(e) => return Err(Crypto(e));
    case Ok(t) =>
      if |t| > MAX_WIRE_RECORD {
        return Err(RecordTooLarge);
      }
      return Ok(Header(|t|) + t);
  }

  method OpenWireRecord(wire: Data, record: SecureRecord, lib: Library) returns (r: Result<Message, WireError>)
    modifies record`sequence
    ensures Opened(r, record.sequence)
         == OpenRecord(record.dir, old(record.sequence), wire, lib)
  {
    if |wire| < 4 + 16 + 1 {
      return Err(Truncated);
    }
    var length := U32(wire);
    if length > MAX_WIRE_RECORD || |wire| != 4 + length {
      return Err(InvalidLength);
    }
    var plaintext := record.Open(wire[4..], lib);
    match plaintext
    case Err(e) => return Err(Crypto(e));
    case Ok(p) =>
      if |p| < 2 {
        return Err(NoHeader);
      }
      match ChannelOf(p[0])
      case None => return Err(UnknownChannel);
      case Some(known) => return Ok(Message(known, p[1], p[2..]));
  }

  // ---- framing ---------------------------------------------------------------------------

  datatype Frame = NeedMore | Malformed | Framed(record: Data, rest: Data)

  function NextFrame(buf: Data): (f: Frame)
    ensures f.Framed? ==> buf == f.record + f.rest && |f.record| >= 4 + MIN_WIRE_RECORD
  {
    if |buf| < 4 then NeedMore
    else if U32(buf) > MAX_WIRE_RECORD || U32(buf) < MIN_WIRE_RECORD then Malformed
    else if |buf| < 4 + U32(buf) then NeedMore
    else Framed(buf[..4 + U32(buf)], buf[4 + U32(buf)..])
  }

  /** More bytes never change a decision already taken. */
  lemma {:induction false} NextFrameStable(buf: Data, more: Data)
    ensures NextFrame(buf).Framed?
        ==> NextFrame(buf + more) == Framed(NextFrame(buf).record, NextFrame(buf).rest + more)
    ensures NextFrame(buf).Malformed? ==> NextFrame(buf + more).Malformed?
  {
    if |buf| >= 4 {
      assert U32(buf + more) == U32(buf);
    }
    if NextFrame(buf).Framed? {
      var k := 4 + U32(buf);
      assert (buf + more)[..k] == buf[..k] && (buf + more)[k..] == buf[k..] + more;
    }
  }

  function LeadingZeros(s: Data): (z: nat)
    ensures z <= |s|
    ensures forall i :: 0 <= i < z ==> s[i] == 0
    ensures z < |s| ==> s[z] != 0
  {
    if s == [] || s[0] != 0 then 0 else 1 + LeadingZeros(s[1..])
  }

  /** How many bytes padding removal takes: all leading zeros but three. */
  function Padding(s: Data): nat {
    Max(0, LeadingZeros(s) - 3)
  }

  function Unpadded(s: Data): Data {
    s[Padding(s)..]
  }

  lemma {:induction false} LeadingZerosAre(s: Data, z: nat)
    requires z <= |s| && (forall i :: 0 <= i < z ==> s[i] == 0) && (z < |s| ==> s[z] != 0)
    ensures LeadingZeros(s) == z
  {
    if z > 0 {
      LeadingZerosAre(s[1..], z - 1);
    }
  }

  lemma {:induction false} PaddingIsFourZeros(s: Data)
    ensures Padding(s) > 0 <==> |s| >= 4 && s[0] == s[1] == s[2] == s[3] == 0
  {
    assert |s| >= 4 && s[0] == s[1] == s[2] == s[3] == 0 ==> LeadingZeros(s) >= 4 by {
      var z := LeadingZeros(s);
      assert z < |s| ==> s[z] != 0;
    }
  }

  /** Removing padding bytes one at a time: a suffix still has the rest of it to lose. */
  lemma {:induction false} PaddingOfSuffix(s: Data, k: nat)
    requires k <= Padding(s)
    ensures Padding(s[k..]) == Padding(s) - k
  {
    if k > 0 {
      LeadingZerosAre(s[k..], LeadingZeros(s) - k);
    }
  }

  class WireBuffer {
    var buffer: Data

    constructor ()
      ensures buffer == []
    {
      buffer := [];
    }

    method Append(data: Data)
      modifies this
      ensures buffer == old(buffer) + data
    {
      buffer := buffer + data;
    }

    method StartsWith(prefix: Data) returns (r: bool)
      ensures r <==> prefix <= buffer
    {
      if |buffer| < |prefix| {
        return false;
      }
      return prefix == buffer[..|prefix|];
    }

    method SkipZeroPadding() returns (skipped: nat)
      modifies this
      ensures skipped == Padding(old(buffer)) && buffer == Unpadded(old(buffer))
    {
      skipped := 0;
      ghost var all := buffer;
      while |buffer| >= 4 && buffer[0] == 0 && buffer[1] == 0 && buffer[2] == 0 && buffer[3] == 0
        invariant skipped <= Padding(all)
        invariant buffer == all[skipped..]
        decreases |buffer|
      {
        PaddingOfSuffix(all, skipped);
        PaddingIsFourZeros(buffer);
        buffer := buffer[1..];
        skipped := skipped + 1;
      }
      PaddingOfSuffix(all, skipped);
      PaddingIsFourZeros(buffer);
    }

    method Consume(count: nat)
      modifies this
      ensures buffer == old(buffer)[Min(count, |old(buffer)|)..]
    {
      buffer := buffer[Min(count, |buffer|)..];
    }

    method Clear()
      modifies this
      ensures buffer == []
    {
      buffer := [];
    }

    /** The C++ `Expected<bool>`: an error, more bytes needed (None), or a record taken off. */
    method Next() returns (r: Result<Option<Data>, WireError>)
      modifies this
      ensures match NextFrame(old(buffer))
              case NeedMore => r == Ok(None) && buffer == old(buffer)
              case Malformed => r == Err(InvalidLength) && buffer == old(buffer)
              case Framed(record, rest) => r == Ok(Some(record)) && buffer == rest
    {
      if |buffer| < 4 {
        return Ok(None);
      }
      var length := U32(buffer);
      if length > MAX_WIRE_RECORD || length < MIN_WIRE_RECORD {
        return Err(InvalidLength);
      }
      if |buffer| < 4 + length {
        return Ok(None);
      }
      var record := buffer[..4 + length];
      buffer := buffer[4 + length..];
      return Ok(Some(record));
    }
  }

  // ---- what one record guarantees --------------------------------------------------------

  /**
    Barring a cipher-library failure a record is made exactly for payloads of at most 65534 bytes,
    a rejected payload burns no counter, and the size check after sealing never fires.
   */
  lemma {:induction false} MakeRecordSucceeds(d: Direction, n: Counter, m: Message)
    requires Ideal(d.cipher)
    ensures MakeRecord(d, n, m, Works).result.Ok? <==> |m.payload| <= MAX_MESSAGE
    ensures MakeRecord(d, n, m, Works).next
         == if |m.payload| <= MAX_MESSAGE then Advance(n) else n
    ensures forall lib :: MakeRecord(d, n, m, lib).result != Err(RecordTooLarge)
  {
    if |m.payload| <= MAX_MESSAGE {
      SealedOpens(d, n, Plaintext(m));
    }
  }

  ghost predicate IsRecord(d: Direction, n: Counter, m: Message, wire: Data) {
    MakeRecord(d, n, m, Works).result == Ok(wire)
  }

  lemma {:induction false} RecordShape(d: Direction, n: Counter, m: Message, wire: Data)
    requires Ideal(d.cipher) && IsRecord(d, n, m, wire)
    ensures |wire| == |m.payload| + 22 && |m.payload| <= MAX_MESSAGE
    ensures U32(wire) == |wire| - 4
    ensures wire[4..] == d.cipher.seal(d.key, NonceFor(d.iv, n), Plaintext(m))
    ensures wire[..4] == Header(|wire| - 4) && wire[0] == 0
  {
    MakeRecordSucceeds(d, n, m);
    SealedOpens(d, n, Plaintext(m));
    var t := d.cipher.seal(d.key, NonceFor(d.iv, n), Plaintext(m));
    assert wire == Header(|t|) + t;
    assert wire[..4] == Header(|t|);
    HeaderRoundTrip(|t|);
    assert U32(wire) == U32(wire[..4]);
  }

  lemma {:induction false} LibraryWorks(d: Direction, n: Counter)
    requires Ideal(d.cipher)
    ensures LibraryAt(d, n) == Works
  {
  }

  /** A record passes both receive-side checks and opens to its message when the counters agree. */
  lemma {:induction false} RecordRoundTrip(d: Direction, n: Counter, m: Message, wire: Data, rest: Data)
    requires Ideal(d.cipher) && IsRecord(d, n, m, wire)
    ensures NextFrame(wire + rest) == Framed(wire, rest)
    ensures Received(d, n, wire) == Opened(Ok(m), Advance(n))
  {
    LibraryWorks(d, n);
    RecordShape(d, n, m, wire);
    SealedOpens(d, n, Plaintext(m));
    assert U32(wire + rest) == U32(wire);
    assert (wire + rest)[..|wire|] == wire && (wire + rest)[|wire|..] == rest;
    var p := Plaintext(m);
    assert p[0] == Code(m.channel) && p[1] == m.stream && p[2..] == m.payload;
  }

  /** The byte a channel goes by on the wire. */
  predicate Names(b: Byte, channel: Channel) {
    match channel
    case Video => b == 1
    case Control => b == 2
    case Update => b == 3
    case Meta => b == 4
  }

  /** The bytes of a record: its length, most significant byte first, then channel, stream and payload sealed. */
  lemma {:induction false} RecordLayout(d: Direction, n: Counter, m: Message, wire: Data) returns (code: Byte)
    requires Ideal(d.cipher) && IsRecord(d, n, m, wire)
    ensures Names(code, m.channel)
    ensures |wire| >= 4
         && ((wire[0] as int * 256 + wire[1]) * 256 + wire[2]) * 256 + wire[3] == |wire| - 4 == |m.payload| + 18
    ensures wire[4..] == d.cipher.seal(d.key, NonceFor(d.iv, n), [code] + [m.stream] + m.payload)
  {
    RecordShape(d, n, m, wire);
    code := Code(m.channel);
    assert [code, m.stream] == [code] + [m.stream];
    hide NonceFor, Ideal, IsRecord, Header;
  }

  /** A wire record is opened exactly if its length is right, its text authentic, and its channel known. */
  lemma {:induction false} OpensExactly(d: Direction, n: Counter, wire: Data, m: Message)
    ensures OpenRecord(d, n, wire, Works).result == Ok(m)
       <==> && 21 <= |wire| <= 65556 && U32(wire) == |wire| - 4
            && exists p :: d.cipher.open(d.key, NonceFor(d.iv, n), wire[4..]) == Some(p) && |p| >= 2
                           && Names(p[0], m.channel) && p[1] == m.stream && p[2..] == m.payload
    ensures |wire| < 21 || U32(wire) != |wire| - 4 ==> OpenRecord(d, n, wire, Works).next == n
  {
    hide NonceFor, U32;
  }

  /** Framing, in numbers: when to wait, what to reject, what to take. */
  lemma {:induction false} FramesExactly(buf: Data)
    ensures var f, enough := NextFrame(buf), |buf| >= 4;
            && (f.NeedMore? <==> !enough || (17 <= U32(buf) <= 65553 && |buf| < 4 + U32(buf)))
            && (f.Malformed? <==> enough && !(17 <= U32(buf) <= 65553))
            && (f.Framed? ==> |f.record| == 4 + U32(buf) && f.record + f.rest == buf)
  {
    hide U32;
  }

  /** While a record is still arriving the reader waits and padding removal takes nothing. */
  lemma {:induction false} PartialRecordWaits(d: Direction, n: Counter, m: Message, wire: Data, part: Data)
    requires Ideal(d.cipher) && IsRecord(d, n, m, wire)
    requires part < wire
    ensures NextFrame(part) == NeedMore && Padding(part) == 0
  {
    RecordShape(d, n, m, wire);
    assert forall i :: 0 <= i < |part| ==> part[i] == wire[i];
    if |part| >= 4 {
      assert U32(part) == U32(wire);
    }
    PaddingIsFourZeros(part);
  }

  lemma {:induction false} HeaderNotPadding(d: Direction, n: Counter, m: Message, wire: Data, rest: Data)
    requires Ideal(d.cipher) && IsRecord(d, n, m, wire)
    ensures Padding(wire + rest) == 0
  {
    RecordShape(d, n, m, wire);
    var s := wire + rest;
    assert U32(s) == U32(wire);
    PaddingIsFourZeros(s);
  }

  /**
    Zero padding before a record is removed exactly if and only if there is none or the record's
    length is at most 255. Before a longer record the loop eats into the header's own zeros' place:
    it stops three zeros short of the first nonzero byte and leaves padding behind.
   */
  lemma {:induction false} PaddingRemovedExactly(d: Direction, n: Counter, m: Message, wire: Data,
                              k: nat, rest: Data)
    requires Ideal(d.cipher) && IsRecord(d, n, m, wire)
    ensures Unpadded(seq(k, i => 0) + (wire + rest)) == wire + rest <==> k == 0 || |wire| - 4 <= 255
  {
    RecordShape(d, n, m, wire);
    var zeros: Data := seq(k, i => 0);
    var s := zeros + (wire + rest);
    var h := if wire[1] != 0 then 1 else if wire[2] != 0 then 2 else 3;
    assert h == 3 ==> wire[3] != 0;
    assert h == 3 <==> |wire| - 4 <= 255;
    assert forall i :: 0 <= i < |wire| ==> s[k + i] == wire[i];
    LeadingZerosAre(s, k + h);
    if Padding(s) == k {
      assert s[k..] == wire + rest;
    } else {
      assert |Unpadded(s)| == |s| - Padding(s) != |wire + rest|;
    }
  }
}
