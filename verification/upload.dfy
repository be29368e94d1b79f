/** The upload pump: a header line, then N bytes forwarded from the client to swupdate as they come. */
module Uploads {
  import opened Bytes
  import opened ControlLines
  import Swupdate

  const HEADER_LIMIT := 4096
  const MAX_UPDATE_SIZE := 0x8000_0000
  const BUFFER := 65536

  datatype Reply = InvalidSize | BusyOrUnavailable | Ready | Incomplete | Complete

  /** The client's connection: what it still has to say before it ends or breaks, and what it was told. */
  class ClientStream {
    var incoming: Data
    var ended: bool
    var told: seq<Reply>

    constructor (incoming: Data)
      ensures this.incoming == incoming && !ended && told == []
    {
      this.incoming, ended, told := incoming, false, [];
    }

    /** A short read of at least one byte, or none once the stream has ended or broken. */
    method Read(count: nat) returns (chunk: Data)
      requires count > 0
      modifies this`incoming, this`ended
      ensures |chunk| <= count && old(incoming) == chunk + incoming
      ensures ended <==> chunk == []
      ensures old(ended) ==> ended
    {
      var choice: int := *;
      if ended || choice <= 0 || incoming == [] {
        ended := true;
        return [];
      }
      var n := Min(choice, Min(count, |incoming|));
      chunk, incoming := incoming[..n], incoming[n..];
    }

    method Tell(reply: Reply)
      modifies this`told
      ensures told == old(told) + [reply]
    {
      told := told + [reply];
    }
  }

  /** A blocking socket: it takes a nonempty prefix, is interrupted finitely often, or fails. */
  class Socket {
    var accepted: Data
    var interruptions: nat

    constructor (interruptions: nat)
      ensures accepted == []
    {
      accepted, this.interruptions := [], interruptions;
    }

    method Send(bytes: Data) returns (n: int, interrupted: bool)
      requires bytes != []
      modifies this
      ensures n != 0 && n <= |bytes|
      ensures accepted == old(accepted) + if n > 0 then bytes[..n] else []
      ensures interrupted ==> n < 0
      ensures interruptions <= old(interruptions) && (interrupted ==> interruptions < old(interruptions))
    {
      var choice: int := *;
      if choice <= 0 {
        interrupted := choice < 0 && interruptions > 0;
        interruptions := if interrupted then interruptions - 1 else interruptions;
        return -1, interrupted;
      }
      n, interrupted := Min(choice, |bytes|), false;
      accepted := accepted + bytes[..n];
    }
  }

  /** All of it, in order and once; or failure after strictly less than all of it. */
  method WriteFullNoSigpipe(fd: Socket, bytes: Data) returns (result: int)
    modifies fd
    ensures result == |bytes| || result == -1
    ensures result == |bytes| ==> fd.accepted == old(fd.accepted) + bytes
    ensures result == -1 ==> old(fd.accepted) <= fd.accepted < old(fd.accepted) + bytes
  {
    var sent := 0;
    while sent < |bytes|
      invariant 0 <= sent <= |bytes| && fd.accepted == old(fd.accepted) + bytes[..sent]
      decreases |bytes| - sent, fd.interruptions
    {
      var n, interrupted := fd.Send(bytes[sent..]);
      if n < 0 {
        if interrupted {
          continue;
        }
        assert bytes == bytes[..sent] + bytes[sent..];
        return -1;
      }
      assert bytes[..sent] + bytes[sent..][..n] == bytes[..sent + n];
      sent := sent + n;
    }
    assert bytes[..sent] == bytes;
    return |bytes|;
  }

  /**
    What reading one line took from s: a newline is taken but not kept; a line of more than 4096
    bytes is cut after 4097; a stream that breaks leaves what came before.
   */
  ghost predicate LineTaken(s: Data, line: Data, rest: Data, broke: bool) {
    if broke then s == line + rest && |line| <= Min(HEADER_LIMIT, Find(s))
    else if Find(s) < |s| && Find(s) <= HEADER_LIMIT then line == s[..Find(s)] && rest == s[Find(s) + 1..]
    else s == line + rest && |line| == HEADER_LIMIT + 1 <= Find(s)
  }

  lemma {:induction false} FindAt(s: Data, k: nat)
    requires k < |s| && NEWLINE !in s[..k]
    ensures s[k] == NEWLINE ==> Find(s) == k
    ensures s[k] != NEWLINE ==> Find(s) > k && NEWLINE !in s[..k + 1]
  {
    assert s[..k + 1] == s[..k] + [s[k]];
    if k == 0 {
    } else {
      assert s[0] in s[..k] && s[..k][1..] == s[1..][..k - 1];
      assert forall x :: x in s[1..][..k - 1] ==> x in s[..k];
      FindAt(s[1..], k - 1);
    }
  }

  lemma {:induction false} NextByte(s: Data, line: Data, read: Data, rest: Data)
    requires s == line + (read + rest) && |read| == 1 && NEWLINE !in line
    ensures read[0] == NEWLINE ==> Find(s) == |line| < |s| && s[..Find(s)] == line && s[Find(s) + 1..] == rest
    ensures read[0] != NEWLINE
        ==> s == line + [read[0]] + rest && NEWLINE !in line + [read[0]] && |line + [read[0]]| <= Find(s)
  {
    hide Find;
    assert s[..|line|] == line && s[|line|] == read[0] && s[|line| + 1..] == rest;
    FindAt(s, |line|);
    assert read == [read[0]];
  }

  method ReadLine(io: ClientStream) returns (line: Data, ghost broke: bool)
    modifies io`incoming, io`ended
    ensures LineTaken(old(io.incoming), line, io.incoming, broke)
    ensures broke ==> io.ended
  {
    hide Find;
    ghost var s := io.incoming;
    line := [];
    assert s == [] + s;
    while true
      invariant s == line + io.incoming && NEWLINE !in line && |line| <= HEADER_LIMIT && |line| <= Find(s)
      decreases |io.incoming|
    {
      var read := io.Read(1);
      if read == [] {
        return line, true;
      }
      NextByte(s, line, read, io.incoming);
      if read[0] == NEWLINE {
        return line, false;
      }
      line := line + [read[0]];
      if |line| > HEADER_LIMIT {
        return line, false;
      }
    }
  }

  /** The announced size as the code reads it: a 64-bit value taken as unsigned. */
  function AnnouncedSize(size: Option<int>): Option<nat> {
    if size.None? then None
    else
      var n := size.value % TWO_64;
      if 0 < n <= MAX_UPDATE_SIZE then Some(n) else None
  }

  /** Exactly the sizes from 1 to 2 GiB are accepted, a negative number being read as one far above. */
  lemma {:induction false} SizesAccepted(size: Option<int>, n: nat)
    requires size.Some? ==> -0x8000_0000_0000_0000 <= size.value < 0x8000_0000_0000_0000
    ensures AnnouncedSize(size) == Some(n) <==> size == Some(n) && 0 < n <= 0x8000_0000
  {
  }

  lemma {:induction false} Forwarded(before: Data, body: Data, received: nat, chunk: Data, rest: Data)
    requires received <= |body| && body[received..] == chunk + rest
    ensures received + |chunk| <= |body| && body[received + |chunk|..] == rest
    ensures before + body[..received] + chunk == before + body[..received + |chunk|]
  {
    var done := received + |chunk|;
    assert body[..done] == body[..received] + body[received..][..|chunk|];
    assert body[done..] == body[received..][|chunk|..];
    assert before + body[..received] + chunk == before + (body[..received] + chunk);
  }

  /** Forwards the body; false as soon as a read or a write fails. */
  method Pump(io: ClientStream, fd: Socket, size: nat) returns (ok: bool)
    modifies io`incoming, io`ended, fd
    ensures old(fd.accepted) <= fd.accepted
    ensures old(io.ended) ==> fd.accepted == old(fd.accepted)
    ensures var forwarded := fd.accepted[|old(fd.accepted)|..];
            forwarded <= old(io.incoming) && |forwarded| <= size && (ok <==> |forwarded| == size)
  {
    ghost var body, before := io.incoming, fd.accepted;
    var received := 0;
    ok := true;
    while received < size
      invariant 0 <= received <= size && received <= |body| && ok
      invariant old(io.ended) ==> io.ended && received == 0
      invariant io.incoming == body[received..] && fd.accepted == before + body[..received]
      decreases size - received
    {
      var chunk := io.Read(Min(BUFFER, size - received));
      if chunk == [] {
        ok := false;
        break;
      }
      var done := received + |chunk|;
      Forwarded(before, body, received, chunk, io.incoming);
      var written := WriteFullNoSigpipe(fd, chunk);
      if written < 0 {
        ok := false;
        assert fd.accepted == (before + body[..done])[..|fd.accepted|];
        break;
      }
      received := done;
    }
  }

  /** What a connection comes to, by what its stream held and how much of it reached swupdate. */
  ghost predicate Served(parse: Data -> Option<int>, incoming: Data, told: seq<Reply>, forwarded: Data) {
    exists header: Data, body: Data, broke: bool ::
      LineTaken(incoming, header, body, broke) && (broke ==> forwarded == [])
      && ServedBody(AnnouncedSize(parse(header)), header, body, told, forwarded)
  }

  /** The final answer is positive exactly when the first N bytes of the body, and nothing else, were forwarded. */
  ghost predicate ServedBody(size: Option<nat>, header: Data, body: Data, told: seq<Reply>, forwarded: Data) {
    if header == [] then told == [] && forwarded == []
    else if size.None? then told == [InvalidSize] && forwarded == []
    else if told == [BusyOrUnavailable] then forwarded == []
    else
      && size.value > 0 && forwarded <= body && |forwarded| <= size.value
      && told == [Ready, if |forwarded| == size.value then Complete else Incomplete]
  }

  method HandleConnection(io: ClientStream, client: Swupdate.SwupdateClient, ipc: Socket, connects: bool,
                          parse: Data -> Option<int>)
    requires io.told == [] && ipc.accepted == []
    modifies io, client, ipc
    ensures Served(parse, old(io.incoming), io.told, ipc.accepted)
    ensures Ready in io.told
       <==> io.told != [] && io.told != [InvalidSize] && !Swupdate.Busy(old(client.status)) && connects
    ensures Ready in io.told ==> client.status == Swupdate.Fresh(Swupdate.Installing)
    ensures Swupdate.Busy(old(client.status)) || io.told == [] || io.told == [InvalidSize]
        ==> client.status == old(client.status)
    ensures io.told == [BusyOrUnavailable] && !Swupdate.Busy(old(client.status))
        ==> client.status.state == Swupdate.Failure && client.status.error == Swupdate.NoIpc
  {
    var header, broke := ReadLine(io);
    ghost var body := io.incoming;
    if header == [] {
      return;
    }
    var size := AnnouncedSize(parse(header));
    if size.None? {
      io.Tell(InvalidSize);
      return;
    }
    Swupdate.AppliedFew(Swupdate.Fresh(Swupdate.Uploading), []);
    var accepted, usable := client.BeginStreamInstall(connects);
    if !usable {
      io.Tell(BusyOrUnavailable);
      assert ServedBody(size, header, body, io.told, ipc.accepted);
      return;
    }
    io.Tell(Ready);
    var ok := Pump(io, ipc, size.value);
    assert ipc.accepted[0..] == ipc.accepted;
    client.EndStreamInstall();
    io.Tell(if ok then Complete else Incomplete);
    assert ServedBody(size, header, body, io.told, ipc.accepted);
  }

  // ---- what that promises --------------------------------------------------------------------

  /** The header reader takes the line and its newline and no byte of the body, or the stream broke. */
  lemma {:induction false} HeaderLeavesBody(header: Data, body: Data, line: Data, rest: Data, broke: bool)
    requires NEWLINE !in header && LineTaken(header + [NEWLINE] + body, line, rest, broke)
    ensures !broke && |header| <= HEADER_LIMIT ==> line == header && rest == body
    ensures !broke && |header| > HEADER_LIMIT ==> line == header[..HEADER_LIMIT + 1] && rest != body
    ensures broke ==> line <= header
  {
    var s := header + [NEWLINE] + body;
    FindIs(header, body);
    assert s[..|header|] == header && s[|header| + 1..] == body;
    assert broke ==> line == s[..|line|] == header[..|line|];
    assert !broke && |header| > HEADER_LIMIT ==> line == s[..|line|] == header[..|line|];
    assert !broke && |header| > HEADER_LIMIT ==> |rest| == |s| - HEADER_LIMIT - 1;
  }

  /**
    For a client whose header line has at most 4096 bytes, announces N and is followed by the body:
    what reaches swupdate is a prefix of the body, and the final answer is positive exactly when that
    prefix is the first N bytes, each once and in order.
   */
  lemma {:induction false} UploadConserved(parse: Data -> Option<int>, header: Data, body: Data, told: seq<Reply>,
                                           forwarded: Data)
    requires header != [] && 10 !in header && |header| <= 4096
    requires Served(parse, header + [10] + body, told, forwarded)
    requires parse(header).Some? && 0 < parse(header).value <= 0x8000_0000
    ensures forwarded <= body && |forwarded| <= parse(header).value
    ensures Complete in told <==> |forwarded| == parse(header).value
    ensures Complete in told ==> told == [Ready, Complete]
  {
    SizesAccepted(parse(header), parse(header).value);
    var line: Data, rest: Data, broke: bool :|
      LineTaken(header + [NEWLINE] + body, line, rest, broke) && (broke ==> forwarded == [])
      && ServedBody(AnnouncedSize(parse(line)), line, rest, told, forwarded);
    HeaderLeavesBody(header, body, line, rest, broke);
  }
}
