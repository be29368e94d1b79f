/** The stall watchdog: every five seconds each mounted camera is checked, and a dead one unmounted. */
module Watchdog {
  import opened Bytes

  const PERIOD := 5
  const STALL_CHECKS := 3

  type FrameCount = n: nat | n < TWO_64

  /** What a tick finds of one mount: whether a pipeline is live and playing, and its frame counter. */
  datatype Sample = Sample(live: bool, playing: bool, frames: FrameCount)

  /** The bookkeeping of one mount; `media` and `source` are its weak references to the pipeline. */
  datatype Mount = Mount(
    factory: bool, dead: bool, media: bool, source: bool, stalledChecks: nat, lastFrames: FrameCount, fps: real)

  function Installed(): Mount {
    Mount(true, false, false, false, 0, 0, 0.0)
  }

  /** A mount at start-up: cameras that are not enabled get no factory. */
  function Initially(enabled: bool): Mount {
    Installed().(factory := enabled)
  }

  predicate Mounted(m: Mount) {
    m.factory && !m.dead
  }

  /** The rate since the last check, on a 64-bit counter that wraps. */
  function Rate(frames: FrameCount, last: FrameCount): real {
    ((frames - last) % TWO_64) as real / PERIOD as real
  }

  function Configure(m: Mount, s: Sample): Mount {
    if m.dead then m else m.(media := s.live, source := s.live)
  }

  function Checked(m: Mount, s: Sample): Mount {
    if !s.live then m.(stalledChecks := 0, lastFrames := s.frames, fps := 0.0)
    else if !s.playing || s.frames != m.lastFrames then
      m.(stalledChecks := 0, lastFrames := s.frames, fps := Rate(s.frames, m.lastFrames))
    else m.(stalledChecks := m.stalledChecks + 1, fps := 0.0)
  }

  function Disabled(m: Mount): Mount {
    m.(dead := true, media := false, source := false, fps := 0.0)
  }

  /** One tick of one mount. */
  function Tick(m: Mount, s: Sample): Mount {
    if !Mounted(m) then m
    else
      var c := Checked(Configure(m, s), s);
      if c.stalledChecks >= STALL_CHECKS then Disabled(c) else c
  }

  function Ticks(m: Mount, h: seq<Sample>): Mount {
    if h == [] then m else Tick(Ticks(m, h[..|h| - 1]), h[|h| - 1])
  }

  // ---- in terms of what the ticks saw --------------------------------------------------------

  function FramesBefore(h: seq<Sample>, i: nat): FrameCount
    requires i <= |h|
  {
    if i == 0 then 0 else h[i - 1].frames
  }

  /** Tick i found a live, playing pipeline that had produced nothing since the tick before. */
  predicate Stuck(h: seq<Sample>, i: int) {
    0 <= i < |h| && h[i].live && h[i].playing && h[i].frames == FramesBefore(h, i)
  }

  predicate StuckThrice(h: seq<Sample>, i: int) {
    Stuck(h, i - 2) && Stuck(h, i - 1) && Stuck(h, i)
  }

  /** How many ticks in a row were stuck at the end. */
  function StuckRun(h: seq<Sample>): nat {
    if h == [] || !Stuck(h, |h| - 1) then 0 else StuckRun(h[..|h| - 1]) + 1
  }

  lemma {:induction false} StuckOfPrefix(h: seq<Sample>, s: Sample, i: int)
    requires i < |h|
    ensures Stuck(h + [s], i) <==> Stuck(h, i)
  {
  }

  lemma {:induction false} StuckRunMeans(h: seq<Sample>, k: nat)
    ensures StuckRun(h) >= k <==> k <= |h| && forall i :: |h| - k <= i < |h| ==> Stuck(h, i)
  {
    if h != [] {
      var front, s := h[..|h| - 1], h[|h| - 1];
      assert h == front + [s];
      forall i | 0 <= i < |front|
        ensures Stuck(h, i) <==> Stuck(front, i)
      {
        StuckOfPrefix(front, s, i);
      }
      if k > 0 {
        StuckRunMeans(front, k - 1);
      }
    }
  }

  ghost predicate EverStuckThrice(h: seq<Sample>) {
    exists i :: StuckThrice(h, i)
  }

  lemma {:induction false} EverGrows(h: seq<Sample>, s: Sample)
    ensures EverStuckThrice(h + [s]) <==> EverStuckThrice(h) || StuckThrice(h + [s], |h|)
  {
    forall i | i < |h|
      ensures StuckThrice(h + [s], i) <==> StuckThrice(h, i)
    {
      StuckOfPrefix(h, s, i);
      StuckOfPrefix(h, s, i - 1);
      StuckOfPrefix(h, s, i - 2);
    }
    if EverStuckThrice(h) {
      var i :| StuckThrice(h, i);
      assert StuckThrice(h + [s], i);
    }
  }

  lemma {:induction false} StuckNow(h: seq<Sample>)
    ensures StuckThrice(h, |h| - 1) <==> StuckRun(h) >= STALL_CHECKS
  {
    StuckRunMeans(h, STALL_CHECKS);
  }

  /**
    A mount is dead exactly when some three consecutive ticks were stuck. While it is alive its
    counters are what the history says, and its weak references follow the pipeline.
   */
  lemma {:induction false} DeadExactlyWhen(h: seq<Sample>)
    ensures var m := Ticks(Installed(), h);
            && (!m.dead && h != [] ==> m.media == m.source == h[|h| - 1].live)
            && m.factory && (m.dead <==> EverStuckThrice(h))
            && (!m.dead ==> m.lastFrames == FramesBefore(h, |h|) && m.stalledChecks == StuckRun(h) < STALL_CHECKS)
            && (m.dead ==> !m.media && !m.source && m.fps == 0.0)
            && (!m.dead && h != [] ==>
                  m.fps == if h[|h| - 1].live then Rate(h[|h| - 1].frames, FramesBefore(h, |h| - 1)) else 0.0)
  {
    if h != [] {
      var front, s := h[..|h| - 1], h[|h| - 1];
      assert h == front + [s];
      DeadExactlyWhen(front);
      EverGrows(front, s);
      StuckNow(h);
    }
  }

  /** Five times the rate is the number of frames counted since the last tick, the counter's wrap included. */
  lemma {:induction false} RateCounts(last: FrameCount, counted: nat)
    requires counted < 0x1_0000_0000_0000_0000
    ensures Rate((last + counted) % 0x1_0000_0000_0000_0000, last) * 5.0 == counted as real
  {
    var now := (last + counted) % TWO_64;
    assert (now - last) % TWO_64 == counted;
  }

  predicate Advanced(h: seq<Sample>, i: nat)
    requires i < |h|
  {
    h[i].frames != FramesBefore(h, i)
  }

  /** A camera that delivers a frame at least once in any three ticks is never disabled. */
  lemma {:induction false} ProgressKeepsMounted(h: seq<Sample>)
    requires forall i :: 2 <= i < |h| ==> Advanced(h, i - 2) || Advanced(h, i - 1) || Advanced(h, i)
    ensures Mounted(Ticks(Installed(), h))
  {
    DeadExactlyWhen(h);
    forall i
      ensures !StuckThrice(h, i)
    {
      assert 2 <= i < |h| ==> Advanced(h, i - 2) || Advanced(h, i - 1) || Advanced(h, i);
    }
  }

  /** Disabling is permanent: later ticks leave a mount that is dead, or was never enabled, as it is. */
  lemma {:induction false} DeadForever(m: Mount, more: seq<Sample>)
    requires !Mounted(m)
    ensures Ticks(m, more) == m
  {
    if more != [] {
      DeadForever(m, more[..|more| - 1]);
    }
  }

  // ---- the server ------------------------------------------------------------------------------

  /** One reading of every mount, in mount order. */
  type Row = seq<Sample>

  /** The mounts and how often the stall handler has been called. */
  datatype Server = Server(mounts: seq<Mount>, stalls: nat)

  ghost predicate AnyMounted(mounts: seq<Mount>) {
    exists k :: 0 <= k < |mounts| && Mounted(mounts[k])
  }

  ghost function TickAll(s: Server, handler: bool, row: Row): Server
    requires |row| == |s.mounts|
  {
    var mounts := seq(|row|, k requires 0 <= k < |row| => Tick(s.mounts[k], row[k]));
    Server(mounts, if handler && !AnyMounted(mounts) then s.stalls + 1 else s.stalls)
  }

  ghost predicate Rows(rows: seq<Row>, n: nat) {
    forall row :: row in rows ==> |row| == n
  }

  ghost function Served(s: Server, handler: bool, rows: seq<Row>): (t: Server)
    requires Rows(rows, |s.mounts|)
    ensures |t.mounts| == |s.mounts|
  {
    if rows == [] then s
    else
      assert forall row :: row in rows[..|rows| - 1] ==> row in rows;
      TickAll(Served(s, handler, rows[..|rows| - 1]), handler, rows[|rows| - 1])
  }

  function Column(rows: seq<Row>, k: nat): (h: seq<Sample>)
    requires forall row :: row in rows ==> k < |row|
    ensures |h| == |rows|
  {
    seq(|rows|, i requires 0 <= i < |rows| => rows[i][k])
  }

  /** Each mount's fate depends on its own readings alone. */
  lemma {:induction false} MountsIndependent(s: Server, handler: bool, rows: seq<Row>, k: nat)
    requires Rows(rows, |s.mounts|) && k < |s.mounts|
    ensures Served(s, handler, rows).mounts[k] == Ticks(s.mounts[k], Column(rows, k))
  {
    hide Tick;
    if rows != [] {
      var front := rows[..|rows| - 1];
      assert forall row :: row in front ==> row in rows;
      MountsIndependent(s, handler, front, k);
      assert Column(rows, k)[..|rows| - 1] == Column(front, k);
    }
  }

  /** Without a handler there is nothing to fire. */
  lemma {:induction false} NoHandlerNoStall(s: Server, rows: seq<Row>)
    requires Rows(rows, |s.mounts|)
    ensures Served(s, false, rows).stalls == s.stalls
  {
    hide Tick;
    if rows != [] {
      assert forall row :: row in rows[..|rows| - 1] ==> row in rows;
      NoHandlerNoStall(s, rows[..|rows| - 1]);
    }
  }

  ghost predicate AllStuckThrice(enabled: seq<bool>, rows: seq<Row>)
    requires Rows(rows, |enabled|)
  {
    forall k :: 0 <= k < |enabled| && enabled[k] ==> EverStuckThrice(Column(rows, k))
  }

  /**
    Whatever the readings: the handler fires on exactly the ticks by which every enabled camera has
    had its three stuck ticks in a row, and on each of them once.
   */
  lemma {:induction false} HandlerFiresWhenAllDead(enabled: seq<bool>, rows: seq<Row>, row: Row)
    requires Rows(rows, |enabled|) && Rows(rows + [row], |enabled|)
    ensures var s := Server(seq(|enabled|, k requires 0 <= k < |enabled| => Initially(enabled[k])), 0);
            Served(s, true, rows + [row]).stalls
            == Served(s, true, rows).stalls + if AllStuckThrice(enabled, rows + [row]) then 1 else 0
  {
    hide Ticks, EverStuckThrice;
    var s := Server(seq(|enabled|, k requires 0 <= k < |enabled| => Initially(enabled[k])), 0);
    var all := rows + [row];
    assert all[..|rows|] == rows;
    forall k | 0 <= k < |enabled|
      ensures Mounted(Served(s, true, all).mounts[k]) <==> enabled[k] && !EverStuckThrice(Column(all, k))
    {
      MountsIndependent(s, true, all, k);
      if enabled[k] {
        DeadExactlyWhen(Column(all, k));
      } else {
        DeadForever(s.mounts[k], Column(all, k));
      }
    }
  }

  class MountController {
    var mount: Mount

    constructor (enabled: bool)
      ensures mount == Initially(enabled)
    {
      mount := Initially(enabled);
    }

    method SetReferences(live: bool)
      modifies this
      ensures mount == old(mount).(media := live, source := live)
    {
      mount := mount.(media := live, source := live);
    }

    method Disable()
      modifies this
      ensures mount == Disabled(old(mount))
    {
      mount := mount.(dead := true);
      SetReferences(false);
      mount := mount.(fps := 0.0);
    }

    method CheckStall(s: Sample) returns (stalled: bool)
      modifies this
      ensures !Mounted(old(mount)) ==> !stalled && mount == old(mount)
      ensures Mounted(old(mount)) ==> mount == Checked(Configure(old(mount), s), s)
      ensures stalled <==> Mounted(old(mount)) && mount.stalledChecks >= STALL_CHECKS
    {
      if !Mounted(mount) {
        return false;
      }
      SetReferences(s.live);
      var frames := s.frames;
      if !mount.media {
        mount := mount.(stalledChecks := 0, lastFrames := frames, fps := 0.0);
        return mount.stalledChecks >= STALL_CHECKS;
      }
      if !s.playing || frames != mount.lastFrames {
        mount := mount.(fps := Rate(frames, mount.lastFrames));
        mount := mount.(stalledChecks := 0, lastFrames := frames);
        return false;
      }
      mount := mount.(fps := 0.0);
      mount := mount.(stalledChecks := mount.stalledChecks + 1);
      return mount.stalledChecks >= STALL_CHECKS;
    }
  }

  class RtspServer {
    const mounts: seq<MountController>
    const handler: bool
    var stalls: nat
    /** The mounts new clients can still open. */
    var paths: set<nat>

    ghost function State(): Server
      reads this, mounts
    {
      Server(seq(|mounts|, k requires 0 <= k < |mounts| reads mounts => mounts[k].mount), stalls)
    }

    ghost predicate Valid()
      reads this, mounts
    {
      && (forall i, k :: 0 <= i < k < |mounts| ==> mounts[i] != mounts[k])
      && (forall k :: k in paths <==> 0 <= k < |mounts| && Mounted(mounts[k].mount))
    }

    constructor (mounts: seq<MountController>, handler: bool)
      requires forall i, k :: 0 <= i < k < |mounts| ==> mounts[i] != mounts[k]
      ensures Valid() && this.mounts == mounts && this.handler == handler && stalls == 0
    {
      this.mounts, this.handler, stalls := mounts, handler, 0;
      paths := {};
      new;
      for i := 0 to |mounts|
        invariant forall k :: k in paths <==> 0 <= k < i && Mounted(mounts[k].mount)
        invariant this.mounts == mounts && this.handler == handler && stalls == 0
      {
        if Mounted(mounts[i].mount) {
          paths := paths + {i};
        }
      }
    }

    method DisableMount(cam: nat)
      requires cam < |mounts|
      modifies this`paths, mounts[cam]
      ensures paths == old(paths) - {cam} && mounts[cam].mount == Disabled(old(mounts[cam].mount))
    {
      paths := paths - {cam};
      mounts[cam].Disable();
    }

    /** One mount's turn in a tick; true if it is still mounted after it. */
    method Visit(i: nat, s: Sample) returns (kept: bool)
      requires Valid() && i < |mounts|
      modifies this`paths, mounts[i]
      ensures Valid() && mounts[i].mount == Tick(old(mounts[i].mount), s)
      ensures kept <==> Mounted(mounts[i].mount)
    {
      if !Mounted(mounts[i].mount) {
        return false;
      }
      var stalled := mounts[i].CheckStall(s);
      if stalled {
        DisableMount(i);
      }
      return !stalled;
    }

    /** One tick: stalled mounts are disabled one by one, and the handler fires if none is left. */
    method OnWatchdog(row: Row)
      requires Valid() && |row| == |mounts|
      modifies this, mounts
      ensures Valid() && State() == TickAll(old(State()), handler, row)
    {
      hide Tick;
      var anyMounted := false;
      ghost var before, after := State().mounts, TickAll(State(), handler, row).mounts;
      for i := 0 to |mounts|
        invariant stalls == old(stalls) && Valid()
        invariant forall k :: 0 <= k < i ==> mounts[k].mount == after[k]
        invariant forall k :: i <= k < |mounts| ==> mounts[k].mount == before[k]
        invariant anyMounted <==> exists k :: 0 <= k < i && Mounted(after[k])
      {
        var kept := Visit(i, row[i]);
        anyMounted := anyMounted || kept;
      }
      assert State().mounts == after;
      if !anyMounted && handler {
        stalls := stalls + 1;
      }
      assert State().mounts == after;
    }
  }
}
