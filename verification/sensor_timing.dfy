/** Exposure and frame timing of the sensor driver: floors, clamps and 32-bit registers. */
module SensorTiming {
  import opened Bytes

  type U32 = n: nat | n < TWO_32

  /** Assignment to a 32-bit unsigned variable. */
  function Cut(n: int): U32 {
    n % TWO_32
  }

  datatype Mode = Mode(
    lanes: nat, format: nat, binning: nat, hmax: U32, vmaxMin: U32, vmaxMax: U32, vmaxDef: U32, retriggerMin: U32)

  datatype Flag =
    | ExposureSony | ExposureNormal | ExposureOmnivision | IncreaseFrameRate | UseBinningIndex
    | TriggerExternal | TriggerPulsewidth | TriggerSelf | TriggerSelfV2 | TriggerSingle | TriggerSync | TriggerSlave
    | TriggerStreamEdge | TriggerStreamLevel | TriggerOverlap

  /** What the module tables and the module's own ROM fix for one camera. */
  datatype Control = Control(
    modes: seq<Mode>,
    flags: set<Flag>,
    height: U32,
    vFactors: seq<nat>,
    maxBinning: nat,
    clkExtTrigger: U32,
    clkPixel: U32,
    exposureMin: U32,
    exposureMaxInit: U32,
    descModes: seq<(nat, nat)>)

  datatype Trigger = Disable | External | Pulsewidth | Self | Single | Sync | StreamEdge | StreamLevel | Overlap

  const FRAMERATE_MAX_INIT: U32 := 1_000_000

  datatype State = State(
    lanes: nat, format: nat, binning: nat, trigger: Trigger, height: U32, framerate: U32, exposure: U32,
    exposureMax: U32, framerateMax: U32,
    vmax: U32, shs: U32, exposureCnt: U32, retriggerCnt: U32)

  // ---- lookups and limits ------------------------------------------------------------------

  function BinningIndex(c: Control, binning: nat): nat {
    if UseBinningIndex in c.flags then binning else 0
  }

  predicate Matches(m: Mode, lanes: nat, format: nat, index: nat) {
    m.lanes == lanes && m.format == format && m.binning == index
  }

  function FindMode(modes: seq<Mode>, lanes: nat, format: nat, index: nat): (m: Option<Mode>)
    ensures m.Some? ==> m.value in modes && Matches(m.value, lanes, format, index)
    ensures m.None? ==> forall x :: x in modes ==> !Matches(x, lanes, format, index)
  {
    if modes == [] then None
    else if Matches(modes[0], lanes, format, index) then Some(modes[0])
    else FindMode(modes[1..], lanes, format, index)
  }

  function Lookup(c: Control, s: State): Option<Mode> {
    FindMode(c.modes, s.lanes, s.format, BinningIndex(c, s.binning))
  }

  lemma {:induction false} QuotientInRange(a: nat, d: nat)
    requires 0 < d <= a < TWO_32 * d
    ensures 0 < Quotient(a, d) < TWO_32
  {
    QuotientAtMost(a, d, 0);
    QuotientAtMost(a, d, TWO_32 - 1);
  }

  /** A division rounding down, as every division here does. */
  function Quotient(a: nat, d: nat): nat
    requires d > 0
  {
    a / d
  }

  /** The lookup finds a mode, and the pixel clock makes its line last from 1 ns to a 32-bit count of them. */
  predicate Found(c: Control, s: State) {
    && Lookup(c, s).Some?
    && 0 < c.clkPixel <= Lookup(c, s).value.hmax * 1_000_000_000 < TWO_32 * c.clkPixel
    && c.clkExtTrigger > 0
    && s.binning < |c.vFactors|
  }

  function ModeOf(c: Control, s: State): Mode
    requires Found(c, s)
  {
    Lookup(c, s).value
  }

  function Period1H(c: Control, m: Mode): U32
    requires c.clkPixel > 0
  {
    Cut(Quotient(m.hmax * 1_000_000_000, c.clkPixel))
  }

  function Line(c: Control, s: State): (p: U32)
    requires Found(c, s)
    ensures p > 0
  {
    assert Quotient(ModeOf(c, s).hmax * 1_000_000_000, c.clkPixel) > 0 && Period1H(c, ModeOf(c, s)) > 0 by {
      QuotientInRange(ModeOf(c, s).hmax * 1_000_000_000, c.clkPixel);
    }
    Period1H(c, ModeOf(c, s))
  }

  predicate Triggered(t: Trigger) {
    t.External? || t.Pulsewidth? || t.Self? || t.Single? || t.Overlap?
  }

  function MaxExposure(c: Control, s: State): U32
    requires Found(c, s)
  {
    if Triggered(s.trigger) then Cut(Quotient(0xffff_ffff * 1_000_000, c.clkExtTrigger))
    else Cut(Quotient(Line(c, s) * Cut(ModeOf(c, s).vmaxMax - ModeOf(c, s).vmaxMin), 1000))
  }

  function FullHeight(c: Control, s: State): nat
    requires s.binning < |c.vFactors|
  {
    if c.vFactors[s.binning] > 0 then Quotient(c.height, c.vFactors[s.binning]) else c.height
  }

  function OptimizedVmax(c: Control, s: State): U32
    requires Found(c, s)
  {
    var def := ModeOf(c, s).vmaxDef;
    if def == 0 then def
    else if IncreaseFrameRate in c.flags && s.height < FullHeight(c, s) then Cut(def - (FullHeight(c, s) - s.height))
    else def
  }

  function MaxFrameRate(c: Control, s: State): U32
    requires Found(c, s) && Line(c, s) * OptimizedVmax(c, s) / 1000 > 0
  {
    Cut(Quotient(1_000_000_000, Line(c, s) * OptimizedVmax(c, s) / 1000))
  }

  /** The division in the frame-rate limit is defined: a frame lasts at least a microsecond. */
  predicate Rated(c: Control, s: State) {
    Found(c, s) && (IncreaseFrameRate in c.flags ==> Line(c, s) * OptimizedVmax(c, s) / 1000 > 0)
  }

  function Updated(c: Control, s: State): State
    requires Rated(c, s)
  {
    if IncreaseFrameRate in c.flags then s.(exposureMax := MaxExposure(c, s), framerateMax := MaxFrameRate(c, s)) else s
  }

  /** A camera as set up: first listed lanes and format, no binning, no trigger, full height. */
  function SetUp(c: Control, exposure: U32): State
    requires c.descModes != []
  {
    State(c.descModes[0].0, c.descModes[0].1, 0, Disable, c.height, 0, exposure, c.exposureMaxInit, FRAMERATE_MAX_INIT,
          0, 0, 0, 0)
  }

  // ---- programming an exposure ---------------------------------------------------------------

  function FrameLines(c: Control, s: State): nat
    requires Found(c, s) && s.framerate > 0
  {
    Quotient(Quotient(1_000_000_000_000, s.framerate), Line(c, s))
  }

  function ProgrammedVmax(c: Control, s: State): U32
    requires Found(c, s)
  {
    var vmax := OptimizedVmax(c, s);
    if s.framerate > 0 && FrameLines(c, s) > vmax then Cut(FrameLines(c, s)) else vmax
  }

  function SonyExposure(vmax: U32, shsMin: U32, e: nat, sync: bool): (U32, U32) {
    var (v, shs) := if e < Cut(vmax - shsMin) then (vmax, Cut(vmax - e)) else (Cut(shsMin + e), shsMin);
    (if sync then Cut(v as int - 1) else v, shs)
  }

  function NormalExposure(vmax: U32, shsMin: U32, e: nat): (U32, U32) {
    if shsMin <= e < vmax then (vmax, Cut(e))
    else if e < shsMin then (vmax, shsMin)
    else (Cut(e), Cut(e))
  }

  function ExposureLines(c: Control, s: State, us: U32): nat
    requires Found(c, s)
  {
    Quotient(us * 1000, Line(c, s))
  }

  function LineExposure(c: Control, s: State, us: U32): State
    requires Found(c, s)
  {
    var e, vmax, shsMin := ExposureLines(c, s, us), ProgrammedVmax(c, s), ModeOf(c, s).vmaxMin;
    if ExposureSony in c.flags then
      var (v, shs) := SonyExposure(vmax, shsMin, e, s.trigger.Sync?);
      s.(vmax := v, shs := shs)
    else if ExposureNormal in c.flags || ExposureOmnivision in c.flags then
      var (v, shs) := NormalExposure(vmax, shsMin, e);
      s.(vmax := v, shs := shs)
    else s.(vmax := vmax)
  }

  function Ticks(c: Control, us: U32): nat {
    Quotient(us * c.clkExtTrigger, 1_000_000)
  }

  function MinFrameTime(c: Control, s: State): U32
    requires Found(c, s)
  {
    Cut(Quotient(ModeOf(c, s).retriggerMin * 1_000_000, c.clkExtTrigger))
  }

  function SelfFrameTime(c: Control, s: State): U32
    requires Found(c, s)
  {
    var asked := if s.framerate > 0 then Quotient(1_000_000_000, s.framerate) else MinFrameTime(c, s);
    if asked < MinFrameTime(c, s) then MinFrameTime(c, s) else asked
  }

  function FrameTime(c: Control, s: State, us: U32): U32
    requires Found(c, s)
  {
    if !s.trigger.Self? then MinFrameTime(c, s)
    else if TriggerSelf in c.flags || TriggerSelfV2 !in c.flags then SelfFrameTime(c, s)
    else if SelfFrameTime(c, s) >= us then SelfFrameTime(c, s) - us
    else 1
  }

  function TriggerExposure(c: Control, s: State, us: U32): State
    requires Found(c, s)
  {
    s.(retriggerCnt := Cut(Ticks(c, FrameTime(c, s, us))), exposureCnt := Cut(Ticks(c, us)))
  }

  function Clamp(us: U32, low: U32, high: U32): U32 {
    var up := if us < low then low else us;
    if up > high then high else up
  }

  /** What the exposure type and the trigger mode make of it; pulse width leaves the timing to the pulse. */
  function Programmed(c: Control, s: State, us: U32): State
    requires Found(c, s)
  {
    if ExposureSony in c.flags || ExposureNormal in c.flags then
      if s.trigger.Pulsewidth? then s
      else if Triggered(s.trigger) then TriggerExposure(c, s, us)
      else LineExposure(c, s, us)
    else if ExposureOmnivision in c.flags then LineExposure(c, s, us)
    else s
  }

  /** `written`: every register write succeeded, so the request is remembered. */
  function Exposed(c: Control, s: State, asked: U32, written: bool): State
    requires Found(c, s)
  {
    var us := Clamp(asked, c.exposureMin, s.exposureMax);
    var blank := s.(vmax := 0, shs := 0, exposureCnt := 0, retriggerCnt := 0);
    var t := Programmed(c, blank, us);
    if written then t.(exposure := us) else t
  }

  // ---- what the registers mean -----------------------------------------------------------------

  lemma {:induction false} DivisionBounds(a: nat, d: nat)
    requires d > 0
    ensures Quotient(a, d) * d <= a < Quotient(a, d) * d + d
  {
  }

  lemma {:induction false} QuotientAtMost(a: nat, d: nat, n: nat)
    requires d > 0
    ensures Quotient(a, d) <= n <==> a < (n + 1) * d
  {
    hide Quotient;
    DivisionBounds(a, d);
    var q := Quotient(a, d);
    if q <= n {
      Scale(q + 1, n + 1, d);
    } else {
      Scale(n + 1, q, d);
    }
  }

  lemma {:induction false} Scale(a: nat, b: nat, d: nat)
    requires a <= b
    ensures a * d <= b * d
  {
  }

  lemma {:induction false} CutAtMost(n: nat)
    ensures Cut(n) <= n && (n < TWO_32 ==> Cut(n) == n)
  {
  }

  /** Clamping in one unit bounds the count in the other: floors never push it over. */
  lemma {:induction false} ThereAndBack(a: nat, b: nat, n: nat, x: nat)
    requires a > 0 && b > 0 && x <= Quotient(a * n, b)
    ensures Quotient(x * b, a) <= n
  {
    hide Quotient;
    DivisionBounds(a * n, b);
    Scale(x, Quotient(a * n, b), b);
    assert (n + 1) * a == a * n + a;
    QuotientAtMost(x * b, a, n);
  }

  /** The limits were computed for the mode and trigger now in force. */
  predicate Current(c: Control, s: State) {
    Found(c, s) && IncreaseFrameRate in c.flags && s.exposureMax == MaxExposure(c, s)
  }

  /** The same for a limit cut to 32 bits and a request clamped to it. */
  lemma {:induction false} ClampedCount(p: nat, n: nat, asked: U32, low: U32, limit: U32)
    requires p > 0 && limit == Cut(Quotient(p * n, 1000))
    ensures Quotient(Clamp(asked, low, limit) * 1000, p) <= n
  {
    hide Quotient;
    CutAtMost(Quotient(p * n, 1000));
    ThereAndBack(p, 1000, n, Clamp(asked, low, limit));
  }

  /** What the limit is, when the line's count of nanoseconds is not the question. */
  lemma {:induction false} LimitIs(c: Control, s: State)
    requires Found(c, s) && !Triggered(s.trigger) && ModeOf(c, s).vmaxMin <= ModeOf(c, s).vmaxMax
    ensures MaxExposure(c, s) == Cut(Quotient(Line(c, s) * (ModeOf(c, s).vmaxMax - ModeOf(c, s).vmaxMin), 1000))
  {
    hide Quotient, Lookup, Line;
    CutAtMost(ModeOf(c, s).vmaxMax - ModeOf(c, s).vmaxMin);
  }

  /** Clamping to current limits bounds the exposure in lines, whatever the limit lost to 32 bits. */
  lemma {:induction false} ExposureFits(c: Control, s: State, asked: U32)
    requires Current(c, s) && !Triggered(s.trigger)
    requires ModeOf(c, s).vmaxMin <= ModeOf(c, s).vmaxMax
    ensures ExposureLines(c, s, Clamp(asked, c.exposureMin, s.exposureMax))
         <= ModeOf(c, s).vmaxMax - ModeOf(c, s).vmaxMin
  {
    LimitIs(c, s);
    hide Quotient, Lookup, Line, MaxExposure, Clamp, Cut;
    ClampedCount(Line(c, s), ModeOf(c, s).vmaxMax - ModeOf(c, s).vmaxMin, asked, c.exposureMin, s.exposureMax);
  }

  /** The table's geometry: no reduction of the height takes the frame below one line or the minimum delay. */
  predicate Fits(c: Control, s: State) {
    && Found(c, s)
    && var m := ModeOf(c, s);
       && m.vmaxMin <= m.vmaxMax && m.vmaxDef <= m.vmaxMax
       && FullHeight(c, s) + Max(m.vmaxMin, 1) <= m.vmaxDef
  }

  lemma {:induction false} OptimizedInRange(c: Control, s: State)
    requires Fits(c, s)
    ensures Max(ModeOf(c, s).vmaxMin, 1) <= OptimizedVmax(c, s) <= ModeOf(c, s).vmaxDef
  {
    CutAtMost(ModeOf(c, s).vmaxDef - (if s.height < FullHeight(c, s) then FullHeight(c, s) - s.height else 0));
  }

  /** The frame with its blanking kept: rows that are not read shorten it by as many lines, where enabled. */
  function ShortestFrame(c: Control, s: State): int
    requires Found(c, s)
  {
    if IncreaseFrameRate in c.flags then Min(s.height, FullHeight(c, s)) + (ModeOf(c, s).vmaxDef - FullHeight(c, s))
    else ModeOf(c, s).vmaxDef
  }

  lemma {:induction false} BlankingKept(c: Control, s: State)
    requires Fits(c, s)
    ensures OptimizedVmax(c, s) == ShortestFrame(c, s)
  {
    CutAtMost(ModeOf(c, s).vmaxDef - (if s.height < FullHeight(c, s) then FullHeight(c, s) - s.height else 0));
  }

  /** Frame lines the request asks for; none when no rate is set. */
  function AskedLines(c: Control, s: State): nat
    requires Found(c, s)
  {
    if s.framerate > 0 then FrameLines(c, s) else 0
  }

  /** The line by which a slave's frame is made shorter: the decrement of SYNC. */
  function SyncLine(s: State): nat {
    if s.trigger.Sync? then 1 else 0
  }

  /** The frame a Sony exposure of e lines needs: the largest of the shortest, the asked for and the exposed. */
  function SonyFrame(c: Control, s: State, e: nat): nat
    requires Found(c, s)
  {
    Max(Max(ShortestFrame(c, s), AskedLines(c, s)), ModeOf(c, s).vmaxMin + e)
  }

  /**
    The Sony path, for every request whose line counts fit 32 bits: VMAX is the largest of the
    optimized frame, the requested frame and the exposure with its minimal delay; SHS is what is left
    of it before the exposure and never less than the minimum. In SYNC VMAX is one line shorter, and
    the decrement never wraps.
   */
  lemma {:induction false} SonyClosedForm(c: Control, s: State, us: U32)
    requires Fits(c, s) && ExposureSony in c.flags
    requires AskedLines(c, s) < TWO_32 && ModeOf(c, s).vmaxMin + ExposureLines(c, s, us) < TWO_32
    ensures var t, e, shsMin := LineExposure(c, s, us), ExposureLines(c, s, us), ModeOf(c, s).vmaxMin;
            t.vmax + SyncLine(s) == SonyFrame(c, s, e) && t.shs == SonyFrame(c, s, e) - e >= shsMin
  {
    OptimizedInRange(c, s);
    BlankingKept(c, s);
    CutAtMost(AskedLines(c, s));
    var vmax, e := ProgrammedVmax(c, s), ExposureLines(c, s, us);
    assert vmax == Max(OptimizedVmax(c, s), AskedLines(c, s));
    hide OptimizedVmax, ShortestFrame, ProgrammedVmax, ExposureLines, AskedLines;
    SonyArithmetic(vmax, ModeOf(c, s).vmaxMin, e);
  }

  lemma {:induction false} SonyArithmetic(vmax: U32, shsMin: U32, e: nat)
    requires 0 < vmax && shsMin <= vmax && shsMin + e < TWO_32
    ensures SonyExposure(vmax, shsMin, e, false) == (Max(vmax, shsMin + e), Max(vmax, shsMin + e) - e)
    ensures SonyExposure(vmax, shsMin, e, true) == (Max(vmax, shsMin + e) - 1, Max(vmax, shsMin + e) - e)
  {
    CutAtMost(vmax - shsMin);
    CutAtMost(shsMin + e);
    if e <= vmax {
      CutAtMost(vmax - e);
    }
    CutAtMost(Max(vmax, shsMin + e) - 1);
  }

  /** Exposure and frame time as realised are within one line of what was asked, SYNC's own line aside. */
  lemma {:induction false} SonyRealised(c: Control, s: State, us: U32)
    requires Fits(c, s) && ExposureSony in c.flags
    requires AskedLines(c, s) < TWO_32 && ModeOf(c, s).vmaxMin + ExposureLines(c, s, us) < TWO_32
    ensures var t, p := LineExposure(c, s, us), Line(c, s);
            var vmax := t.vmax + SyncLine(s);
            && (vmax - t.shs) * p <= us * 1000 < (vmax - t.shs) * p + p
            && (s.framerate > 0 ==> Quotient(1_000_000_000_000, s.framerate) < vmax * p + p)
            && (s.framerate > 0 && vmax == AskedLines(c, s) ==>
                  vmax * p <= Quotient(1_000_000_000_000, s.framerate))
  {
    SonyClosedForm(c, s, us);
    var t, p := LineExposure(c, s, us), Line(c, s);
    DivisionBounds(us * 1000, p);
    if s.framerate > 0 {
      var ft := Quotient(1_000_000_000_000, s.framerate);
      DivisionBounds(ft, p);
      Scale(Quotient(ft, p), t.vmax + SyncLine(s), p);
    }
  }

  /**
    When VMAX stays within its register: exactly when both the requested frame and the exposure do,
    each with the line to spare that SYNC takes off.
   */
  lemma {:induction false} SonyWithinExactly(c: Control, s: State, us: U32)
    requires Fits(c, s) && ExposureSony in c.flags
    requires AskedLines(c, s) < TWO_32 && ModeOf(c, s).vmaxMin + ExposureLines(c, s, us) < TWO_32
    ensures LineExposure(c, s, us).vmax <= ModeOf(c, s).vmaxMax
       <==> AskedLines(c, s) <= ModeOf(c, s).vmaxMax + SyncLine(s)
            && ModeOf(c, s).vmaxMin + ExposureLines(c, s, us) <= ModeOf(c, s).vmaxMax + SyncLine(s)
  {
    SonyClosedForm(c, s, us);
    BlankingKept(c, s);
    OptimizedInRange(c, s);
  }

  /** Lookups, line and frame lengths do not depend on what is in the registers. */
  lemma {:induction false} RegistersDoNotMatter(c: Control, s: State, t: State)
    requires Found(c, s)
    requires t == s.(vmax := t.vmax, shs := t.shs, exposureCnt := t.exposureCnt, retriggerCnt := t.retriggerCnt)
    ensures Found(c, t) && ModeOf(c, t) == ModeOf(c, s) && (Fits(c, t) <==> Fits(c, s))
    ensures OptimizedVmax(c, t) == OptimizedVmax(c, s) && AskedLines(c, t) == AskedLines(c, s)
    ensures ShortestFrame(c, t) == ShortestFrame(c, s)
    ensures forall us :: ExposureLines(c, t, us) == ExposureLines(c, s, us)
  {
    hide Quotient;
  }

  /** What the registers hold after a Sony exposure, and when VMAX is in range. */
  predicate SonyOutcome(c: Control, s: State, asked: U32, t: State)
    requires Found(c, s)
  {
    var e := ExposureLines(c, s, Clamp(asked, c.exposureMin, s.exposureMax));
    && t.vmax + SyncLine(s) == SonyFrame(c, s, e)
    && t.shs == SonyFrame(c, s, e) - e >= ModeOf(c, s).vmaxMin
    && (t.vmax <= ModeOf(c, s).vmaxMax <==> AskedLines(c, s) <= ModeOf(c, s).vmaxMax + SyncLine(s))
  }

  /**
    With current limits the Sony path keeps VMAX within the register exactly when the requested frame
    rate does, SYNC included: the exposure can never be the cause.
   */
  lemma {:induction false} VmaxWithinRegister(c: Control, s: State, asked: U32, written: bool)
    requires Current(c, s) && Fits(c, s) && ExposureSony in c.flags
    requires !Triggered(s.trigger) && AskedLines(c, s) < TWO_32
    ensures SonyOutcome(c, s, asked, Exposed(c, s, asked, written))
  {
    var us := Clamp(asked, c.exposureMin, s.exposureMax);
    var blank := s.(vmax := 0, shs := 0, exposureCnt := 0, retriggerCnt := 0);
    ExposureFits(c, s, asked);
    RegistersDoNotMatter(c, s, blank);
    hide Fits, OptimizedVmax, ShortestFrame, ProgrammedVmax, ExposureLines, AskedLines, LineExposure, Current;
    hide Quotient, Clamp;
    SonyClosedForm(c, blank, us);
    SonyWithinExactly(c, blank, us);
  }

  /** The other sensors: VMAX covers frame and exposure, and SHS is the exposure, at least the minimum. */
  lemma {:induction false} NormalClosedForm(c: Control, s: State, us: U32)
    requires Fits(c, s) && ExposureSony !in c.flags && (ExposureNormal in c.flags || ExposureOmnivision in c.flags)
    requires AskedLines(c, s) < TWO_32 && ExposureLines(c, s, us) < TWO_32
    ensures var t, e := LineExposure(c, s, us), ExposureLines(c, s, us);
            && t.vmax == Max(Max(ShortestFrame(c, s), AskedLines(c, s)), e)
            && t.shs == Max(ModeOf(c, s).vmaxMin, e) <= t.vmax
  {
    OptimizedInRange(c, s);
    BlankingKept(c, s);
    CutAtMost(AskedLines(c, s));
    CutAtMost(ExposureLines(c, s, us));
    hide OptimizedVmax, ShortestFrame, ExposureLines;
  }

  lemma {:induction false} NormalWithinExactly(c: Control, s: State, us: U32)
    requires Fits(c, s) && ExposureSony !in c.flags && (ExposureNormal in c.flags || ExposureOmnivision in c.flags)
    requires AskedLines(c, s) < TWO_32 && ExposureLines(c, s, us) < TWO_32
    ensures LineExposure(c, s, us).vmax <= ModeOf(c, s).vmaxMax
       <==> AskedLines(c, s) <= ModeOf(c, s).vmaxMax && ExposureLines(c, s, us) <= ModeOf(c, s).vmaxMax
  {
    NormalClosedForm(c, s, us);
    BlankingKept(c, s);
    OptimizedInRange(c, s);
  }

  /** When an exposure is programmed in lines: every mode but the triggered ones, which Omnivision ignores. */
  predicate CountsLines(c: Control, s: State) {
    if ExposureSony in c.flags || ExposureNormal in c.flags then !Triggered(s.trigger)
    else ExposureOmnivision in c.flags
  }

  /** What the registers hold after an exposure on the other path, and when VMAX is in range. */
  predicate NormalOutcome(c: Control, s: State, asked: U32, t: State)
    requires Found(c, s)
  {
    var e := ExposureLines(c, s, Clamp(asked, c.exposureMin, s.exposureMax));
    && t.vmax == Max(Max(ShortestFrame(c, s), AskedLines(c, s)), e)
    && t.shs == Max(ModeOf(c, s).vmaxMin, e)
    && (t.vmax <= ModeOf(c, s).vmaxMax
        <==> AskedLines(c, s) <= ModeOf(c, s).vmaxMax && e <= ModeOf(c, s).vmaxMax)
  }

  lemma {:induction false} NormalExposed(c: Control, s: State, asked: U32, written: bool)
    requires Fits(c, s) && CountsLines(c, s) && ExposureSony !in c.flags && AskedLines(c, s) < TWO_32
    requires ExposureLines(c, s, Clamp(asked, c.exposureMin, s.exposureMax)) < TWO_32
    ensures NormalOutcome(c, s, asked, Exposed(c, s, asked, written))
  {
    var us := Clamp(asked, c.exposureMin, s.exposureMax);
    var blank := s.(vmax := 0, shs := 0, exposureCnt := 0, retriggerCnt := 0);
    RegistersDoNotMatter(c, s, blank);
    hide Fits, OptimizedVmax, ShortestFrame, ProgrammedVmax, ExposureLines, AskedLines, LineExposure, Quotient, Clamp;
    NormalClosedForm(c, blank, us);
    NormalWithinExactly(c, blank, us);
  }

  /** For any limit, current or not: the registers are right and VMAX in range exactly under these conditions. */
  predicate SonyExact(c: Control, s: State, asked: U32, t: State)
    requires Found(c, s)
  {
    var e := ExposureLines(c, s, Clamp(asked, c.exposureMin, s.exposureMax));
    && t.vmax + SyncLine(s) == SonyFrame(c, s, e) && t.shs == SonyFrame(c, s, e) - e
    && t.vmax <= ModeOf(c, s).vmaxMax
    <==> AskedLines(c, s) <= ModeOf(c, s).vmaxMax + SyncLine(s)
         && ModeOf(c, s).vmaxMin + e <= ModeOf(c, s).vmaxMax + SyncLine(s)
  }

  lemma {:induction false} SonyExposedExactly(c: Control, s: State, asked: U32, written: bool)
    requires Fits(c, s) && ExposureSony in c.flags && !Triggered(s.trigger)
    requires AskedLines(c, s) < TWO_32 && ModeOf(c, s).vmaxMax + 1 < TWO_32
    ensures SonyExact(c, s, asked, Exposed(c, s, asked, written))
    ensures var t, e := Exposed(c, s, asked, written), ExposureLines(c, s, Clamp(asked, c.exposureMin, s.exposureMax));
            ModeOf(c, s).vmaxMin + e < TWO_32 ==> t.vmax + SyncLine(s) == SonyFrame(c, s, e)
  {
    var us := Clamp(asked, c.exposureMin, s.exposureMax);
    var blank := s.(vmax := 0, shs := 0, exposureCnt := 0, retriggerCnt := 0);
    RegistersDoNotMatter(c, s, blank);
    hide Fits, OptimizedVmax, ShortestFrame, ProgrammedVmax, ExposureLines, AskedLines, LineExposure, Quotient, Clamp;
    if ModeOf(c, s).vmaxMin + ExposureLines(c, s, us) < TWO_32 {
      SonyClosedForm(c, blank, us);
      SonyWithinExactly(c, blank, us);
    }
  }

  // ---- trigger modes -----------------------------------------------------------------------------

  /** With current limits the exposure counter of the trigger modes is never cut, at any clock. */
  lemma {:induction false} TriggerCountFits(c: Control, s: State, asked: U32)
    requires Current(c, s) && Triggered(s.trigger)
    ensures Ticks(c, Clamp(asked, c.exposureMin, s.exposureMax)) <= 0xffff_ffff
  {
    CutAtMost(Quotient(0xffff_ffff * 1_000_000, c.clkExtTrigger));
    hide Quotient, Lookup, OptimizedVmax;
    ThereAndBack(1_000_000, c.clkExtTrigger, 0xffff_ffff, Clamp(asked, c.exposureMin, s.exposureMax));
  }

  lemma {:induction false} FloorsAddUp(a: nat, b: nat, d: nat)
    requires d > 0
    ensures Quotient(a + b, d) - 1 <= Quotient(a, d) + Quotient(b, d) <= Quotient(a + b, d)
  {
    hide Quotient;
    var x, y := Quotient(a, d), Quotient(b, d);
    DivisionBounds(a, d);
    DivisionBounds(b, d);
    Distributes(x, y, d);
    Distributes(x + y, 2, d);
    QuotientAtLeast(a + b, d, x + y);
    QuotientAtMost(a + b, d, x + y + 1);
  }

  lemma {:induction false} Distributes(x: nat, y: nat, d: nat)
    ensures (x + y) * d == x * d + y * d
  {
  }

  lemma {:induction false} QuotientAtLeast(a: nat, d: nat, n: nat)
    requires d > 0 && n * d <= a
    ensures n <= Quotient(a, d)
  {
    hide Quotient;
    if n > 0 {
      QuotientAtMost(a, d, n - 1);
    }
  }

  /** The exposure is programmed by the self-trigger's counters. */
  predicate SelfTimed(c: Control, s: State) {
    s.trigger == Self && (ExposureSony in c.flags || ExposureNormal in c.flags)
  }

  predicate SelfV2(c: Control) {
    TriggerSelfV2 in c.flags && TriggerSelf !in c.flags
  }

  lemma {:induction false} CutLoses(n: nat)
    ensures n >= TWO_32 ==> Cut(n) <= n - TWO_32
  {
  }

  /**
    Self-triggered with retrigger version 2 and an exposure no longer than the frame: exposure and
    retrigger counts add up to the frame time within one tick if and only if 32 bits can count both.
   */
  lemma {:induction false} SelfV2AddsUp(c: Control, s: State, us: U32)
    requires Found(c, s) && s.trigger == Self && SelfV2(c) && us <= SelfFrameTime(c, s)
    ensures var t, frame := TriggerExposure(c, s, us), Ticks(c, SelfFrameTime(c, s));
            (frame - 1 <= t.exposureCnt + t.retriggerCnt <= frame
             <==> Ticks(c, us) < TWO_32 && Ticks(c, SelfFrameTime(c, s) - us) < TWO_32)
  {
    hide Quotient;
    var frame, clk := SelfFrameTime(c, s), c.clkExtTrigger;
    Distributes(us, frame - us, clk);
    FloorsAddUp(us * clk, (frame - us) * clk, 1_000_000);
    CutAtMost(Ticks(c, us));
    CutAtMost(Ticks(c, frame - us));
    CutLoses(Ticks(c, us));
    CutLoses(Ticks(c, frame - us));
  }

  /** One microsecond, what version 2 waits when the exposure is longer than the frame, always fits. */
  lemma {:induction false} OneTick(c: Control)
    ensures Ticks(c, 1) < TWO_32
  {
    QuotientAtMost(c.clkExtTrigger, 1_000_000, TWO_32 - 1);
  }

  /**
    The counters of a self-triggered exposure: the exposure count is true if and only if it fits 32
    bits, and so is the retrigger count, the whole frame in version 1; in version 2 it is what the
    exposure leaves of the frame, so that both add up, and a microsecond if that is nothing.
   */
  predicate SelfOutcome(c: Control, s: State, asked: U32, t: State)
    requires Found(c, s)
  {
    var us, frame := Clamp(asked, c.exposureMin, s.exposureMax), SelfFrameTime(c, s);
    && (t.exposureCnt == Ticks(c, us) <==> Ticks(c, us) < TWO_32)
    && (if !SelfV2(c) then t.retriggerCnt == Ticks(c, frame) <==> Ticks(c, frame) < TWO_32
        else if us <= frame then
          Ticks(c, frame) - 1 <= t.exposureCnt + t.retriggerCnt <= Ticks(c, frame)
          <==> Ticks(c, us) < TWO_32 && Ticks(c, frame - us) < TWO_32
        else t.retriggerCnt == Ticks(c, 1))
  }

  lemma {:induction false} SelfExposed(c: Control, s: State, asked: U32, written: bool)
    requires Found(c, s) && SelfTimed(c, s)
    ensures SelfOutcome(c, s, asked, Exposed(c, s, asked, written))
  {
    hide Quotient;
    var us, frame := Clamp(asked, c.exposureMin, s.exposureMax), SelfFrameTime(c, s);
    var blank := s.(vmax := 0, shs := 0, exposureCnt := 0, retriggerCnt := 0);
    assert Found(c, blank) && SelfFrameTime(c, blank) == frame;
    hide SelfFrameTime, Ticks, Found, Clamp;
    CutAtMost(Ticks(c, us));
    CutAtMost(Ticks(c, frame));
    if SelfV2(c) {
      if us <= frame {
        SelfV2AddsUp(c, blank, us);
      } else {
        OneTick(c);
        CutAtMost(Ticks(c, 1));
      }
    }
  }

  /** With current limits the exposure count is true, so the frame time alone decides. */
  lemma {:induction false} SelfWithCurrentLimits(c: Control, s: State, asked: U32, written: bool)
    requires Current(c, s) && SelfTimed(c, s)
    ensures SelfOutcome(c, s, asked, Exposed(c, s, asked, written))
    ensures Ticks(c, Clamp(asked, c.exposureMin, s.exposureMax)) < TWO_32
  {
    SelfExposed(c, s, asked, written);
    TriggerCountFits(c, s, asked);
  }

  /**
    Outside self-trigger the retrigger count is the table's minimum taken through microseconds: never
    above it, and below it by less than one microsecond's ticks and one, if and only if the minimum
    lasts less than 2^32 microseconds.
   */
  lemma {:induction false} RetriggerNearMinimum(c: Control, s: State, us: U32)
    requires Found(c, s) && s.trigger != Self
    ensures var t, least := TriggerExposure(c, s, us), ModeOf(c, s).retriggerMin;
            && t.retriggerCnt <= least
            && (least * 1_000_000 < (t.retriggerCnt + 1) * 1_000_000 + c.clkExtTrigger
                <==> Quotient(least * 1_000_000, c.clkExtTrigger) < TWO_32)
  {
    var least: nat, clk: nat := ModeOf(c, s).retriggerMin, c.clkExtTrigger;
    var whole := Quotient(least * 1_000_000, clk);
    var frame := Cut(whole);
    CutAtMost(whole);
    CutLoses(whole);
    CutAtMost(Ticks(c, frame));
    hide Quotient, Found;
    ThereAndBack(1_000_000, clk, least, frame);
    DivisionBounds(least * 1_000_000, clk);
    DivisionBounds(frame * clk, 1_000_000);
    if whole >= TWO_32 {
      Scale(frame + TWO_32, whole, clk);
      Distributes(frame, TWO_32, clk);
      Scale(1, clk, TWO_32);
    }
  }

  lemma {:induction false} RateGivesFrame(rate: nat, frame: nat)
    requires rate > 0 && frame > 0 && rate <= Quotient(1_000_000_000, frame)
    ensures Quotient(1_000_000_000_000, rate) >= 1000 * frame
  {
    hide Quotient;
    DivisionBounds(1_000_000_000, frame);
    Scale(rate, Quotient(1_000_000_000, frame), frame);
    DivisionBounds(1_000_000_000_000, rate);
    var ft := Quotient(1_000_000_000_000, rate);
    assert (ft + 1) * rate == ft * rate + rate && 1000 * frame * rate == 1000 * (rate * frame);
    if ft + 1 <= 1000 * frame {
      Scale(ft + 1, 1000 * frame, rate);
    }
  }

  lemma {:induction false} LinesAtLeast(ft: nat, p: nat, vmax: nat)
    requires p > 0 && ft >= 1000 * (p * vmax / 1000)
    ensures (Quotient(ft, p) + 1) * p + 999 > vmax * p
    ensures p >= 1000 ==> Quotient(ft, p) + 1 >= vmax
  {
    hide Quotient;
    DivisionBounds(ft, p);
    var lines := Quotient(ft, p);
    assert (lines + 2) * p == lines * p + p + p && (lines + 1) * p == lines * p + p;
    if lines + 2 <= vmax {
      Scale(lines + 2, vmax, p);
    }
  }

  /**
    A rate clamped to a current limit asks for a frame less than one line and a microsecond short of
    the shortest one, so where a line lasts a microsecond no more than one line short.
   */
  lemma {:induction false} ClampedRateReachable(c: Control, s: State)
    requires Rated(c, s) && IncreaseFrameRate in c.flags
    requires 0 < s.framerate <= MaxFrameRate(c, s)
    ensures (AskedLines(c, s) + 1) * Line(c, s) + 999 > OptimizedVmax(c, s) * Line(c, s)
    ensures Line(c, s) >= 1000 ==> AskedLines(c, s) + 1 >= OptimizedVmax(c, s)
  {
    var p: nat, v: nat := Line(c, s), OptimizedVmax(c, s);
    CutAtMost(Quotient(1_000_000_000, p * v / 1000));
    hide Quotient, Found, OptimizedVmax, Line;
    RateGivesFrame(s.framerate, p * v / 1000);
    LinesAtLeast(Quotient(1_000_000_000_000, s.framerate), p, v);
  }

  // ---- the quantities themselves, in units of the clocks ------------------------------------------

  /** A line is the pixel clock's ticks in whole nanoseconds. */
  lemma {:induction false} LineExact(c: Control, s: State)
    requires Found(c, s)
    ensures Line(c, s) * c.clkPixel <= ModeOf(c, s).hmax * 1_000_000_000 < (Line(c, s) + 1) * c.clkPixel
  {
    var a: nat, clk: nat := ModeOf(c, s).hmax * 1_000_000_000, c.clkPixel;
    QuotientInRange(a, clk);
    CutAtMost(Quotient(a, clk));
    DivisionBounds(a, clk);
    Distributes(Quotient(a, clk), 1, clk);
    hide Quotient, Cut;
  }

  lemma {:induction false} TicksExact(c: Control, us: U32)
    ensures Ticks(c, us) * 1_000_000 <= us * c.clkExtTrigger < (Ticks(c, us) + 1) * 1_000_000
  {
    hide Quotient;
    DivisionBounds(us * c.clkExtTrigger, 1_000_000);
  }

  lemma {:induction false} ClampIs(us: U32, low: U32, high: U32)
    ensures Clamp(us, low, high) == Min(Max(us, low), high)
  {
  }

  /** The limit in microseconds of what a counter can count: no more, no less, unless 32 bits cut the limit itself. */
  lemma {:induction false} ExposureLimitExact(c: Control, s: State)
    requires Found(c, s) && ModeOf(c, s).vmaxMin <= ModeOf(c, s).vmaxMax
    ensures var limit, lines := MaxExposure(c, s), Line(c, s) * (ModeOf(c, s).vmaxMax - ModeOf(c, s).vmaxMin);
            && (s.trigger in {Disable, Sync, StreamEdge, StreamLevel} ==>
                  limit * 1000 <= lines && (lines < TWO_32 * 1000 ==> lines < (limit + 1) * 1000))
            && (s.trigger in {External, Pulsewidth, Self, Single, Overlap} ==>
                  && limit * c.clkExtTrigger <= 0xffff_ffff * 1_000_000
                  && (0xffff_ffff * 1_000_000 < TWO_32 * c.clkExtTrigger ==>
                        0xffff_ffff * 1_000_000 < (limit + 1) * c.clkExtTrigger))
  {
    if Triggered(s.trigger) {
      hide Lookup, Line;
      CutOfQuotient(0xffff_ffff * 1_000_000, c.clkExtTrigger);
    } else {
      LimitIs(c, s);
      hide MaxExposure, Lookup, Line;
      var n: nat := ModeOf(c, s).vmaxMax - ModeOf(c, s).vmaxMin;
      CutOfQuotient(Line(c, s) * n, 1000);
    }
  }

  lemma {:induction false} CutOfQuotient(a: nat, d: nat)
    requires d > 0
    ensures Cut(Quotient(a, d)) * d <= a && (a < TWO_32 * d ==> a < (Cut(Quotient(a, d)) + 1) * d)
  {
    hide Quotient, Cut;
    var q := Quotient(a, d);
    CutAtMost(q);
    DivisionBounds(a, d);
    Scale(Cut(q), q, d);
    QuotientAtMost(a, d, TWO_32 - 1);
    Distributes(q, 1, d);
  }

  /** The frame-rate limit is exact in the whole microseconds of the shortest frame: one more mHz would be too fast. */
  lemma {:induction false} RateLimitExact(c: Control, s: State)
    requires Fits(c, s) && Rated(c, s) && IncreaseFrameRate in c.flags
    ensures ShortestFrame(c, s) > 0
    ensures var frame := Line(c, s) * ShortestFrame(c, s) / 1000;
            frame > 0 && MaxFrameRate(c, s) * frame <= 1_000_000_000 < (MaxFrameRate(c, s) + 1) * frame
  {
    BlankingKept(c, s);
    OptimizedInRange(c, s);
    hide Quotient, ShortestFrame, OptimizedVmax, Line, Fits, Found;
    var frame: nat := Line(c, s) * OptimizedVmax(c, s) / 1000;
    assert MaxFrameRate(c, s) == Cut(Quotient(1_000_000_000, frame));
    Scale(1, frame, TWO_32);
    CutOfQuotient(1_000_000_000, frame);
  }

  /** Which registers a mode uses: counters when triggered, none for pulse width, frame and shutter otherwise. */
  lemma {:induction false} ModesUse(c: Control, s: State, asked: U32, written: bool)
    requires Found(c, s)
    ensures var t := Exposed(c, s, asked, written);
            && (ExposureSony in c.flags || ExposureNormal in c.flags ==>
                  && (s.trigger in {External, Single, Self, Overlap} ==>
                        && t.vmax == t.shs == 0
                        && t.exposureCnt == Cut(Ticks(c, Clamp(asked, c.exposureMin, s.exposureMax))))
                  && (s.trigger == Pulsewidth ==> t.vmax == t.shs == t.exposureCnt == t.retriggerCnt == 0)
                  && (s.trigger in {Disable, Sync, StreamEdge, StreamLevel} ==> t.exposureCnt == t.retriggerCnt == 0))
            && (ExposureSony !in c.flags && ExposureNormal !in c.flags ==> t.exposureCnt == t.retriggerCnt == 0)
            && t.exposure == (if written then Min(Max(asked, c.exposureMin), s.exposureMax) else s.exposure)
            && t == s.(vmax := t.vmax, shs := t.shs, exposureCnt := t.exposureCnt, retriggerCnt := t.retriggerCnt,
                       exposure := t.exposure)
  {
    ClampIs(asked, c.exposureMin, s.exposureMax);
    hide Quotient, Lookup, ProgrammedVmax, ExposureLines, FrameTime, SonyExposure, NormalExposure;
  }

  /** A self-triggered frame is the requested one, or the shortest the table allows if that is longer. */
  lemma {:induction false} SelfFrameExact(c: Control, s: State)
    requires Found(c, s)
    ensures var frame, least := SelfFrameTime(c, s), MinFrameTime(c, s);
            && least <= frame && least * c.clkExtTrigger <= ModeOf(c, s).retriggerMin * 1_000_000
            && (s.framerate == 0 ==> frame == least)
            && (s.framerate > 0 ==> 1_000_000_000 < (frame + 1) * s.framerate)
            && (s.framerate > 0 && frame > least ==> frame * s.framerate <= 1_000_000_000)
  {
    CutOfQuotient(ModeOf(c, s).retriggerMin * 1_000_000, c.clkExtTrigger);
    hide Cut, Quotient, Lookup;
    if s.framerate > 0 {
      DivisionBounds(1_000_000_000, s.framerate);
      Distributes(Quotient(1_000_000_000, s.framerate), 1, s.framerate);
      Scale(Quotient(1_000_000_000, s.framerate) + 1, SelfFrameTime(c, s) + 1, s.framerate);
    }
  }

  // ---- settings and their limits -----------------------------------------------------------------

  datatype Setting =
    | SetFormat(format: nat)
    | SetLanes(lanes: nat)
    | SetTrigger(trigger: Trigger)
    | SetBinning(mode: nat)
    | SetHeight(height: U32)
    | SetFramerate(framerate: U32, written: bool)
    | SetExposure(us: U32, written: bool)

  predicate Supported(c: Control, t: Trigger) {
    match t
    case Disable => true
    case External => TriggerExternal in c.flags
    case Pulsewidth => TriggerPulsewidth in c.flags
    case Self => TriggerSelf in c.flags || TriggerSelfV2 in c.flags
    case Single => TriggerSingle in c.flags
    case Sync => TriggerSync in c.flags || TriggerSlave in c.flags
    case StreamEdge => TriggerStreamEdge in c.flags
    case StreamLevel => TriggerStreamLevel in c.flags
    case Overlap => TriggerOverlap in c.flags
  }

  predicate OffersFormat(c: Control, format: nat) {
    exists m :: m in c.descModes && m.1 == format
  }

  predicate OffersLanes(c: Control, lanes: nat) {
    exists m :: m in c.descModes && m.0 == lanes
  }

  /** The state a setting selects, before any limit is recomputed. */
  function Selected(c: Control, s: State, op: Setting): State
    requires c.descModes != []
  {
    match op
    case SetFormat(f) => s.(format := if OffersFormat(c, f) then f else c.descModes[0].1)
    case SetLanes(n) => if OffersLanes(c, n) then s.(lanes := n) else s
    case SetTrigger(t) => if Supported(c, t) then s.(trigger := t) else s
    case SetBinning(b) => if b > c.maxBinning then s else s.(binning := b)
    case SetHeight(h) => s.(height := h)
    case SetFramerate(rate, _) => s.(framerate := if rate > s.framerateMax then s.framerateMax else rate)
    case SetExposure(_, _) => s
  }

  /** The settings after which the driver recomputes the limits. */
  predicate Updates(c: Control, op: Setting) {
    match op
    case SetFormat(_) => true
    case SetLanes(n) => OffersLanes(c, n)
    case SetTrigger(t) => Supported(c, t)
    case _ => false
  }

  /** The selected mode is in the table, which the driver relies on without checking. */
  predicate Allowed(c: Control, s: State, op: Setting) {
    && c.descModes != []
    && (Updates(c, op) ==> Rated(c, Selected(c, s, op)))
    && (op.SetFramerate? || op.SetExposure? ==> Found(c, Selected(c, s, op)))
  }

  function Applied(c: Control, s: State, op: Setting): State
    requires Allowed(c, s, op)
  {
    var t := Selected(c, s, op);
    if Updates(c, op) then Updated(c, t)
    else match op
      case SetFramerate(_, written) => Exposed(c, t, t.exposure, written)
      case SetExposure(us, written) => Exposed(c, t, us, written)
      case _ => t
  }

  /** What each setting comes to; whatever is not offered changes nothing or falls back to the first format. */
  lemma {:induction false} SelectedExactly(c: Control, s: State, op: Setting)
    requires c.descModes != []
    ensures var t := Selected(c, s, op);
            match op
            case SetFormat(f) => && t == s.(format := t.format)
                                 && (t.format == f || t.format == c.descModes[0].1)
                                 && (OffersFormat(c, f) ==> t.format == f)
                                 && OffersFormat(c, t.format)
            case SetLanes(n) => t == s.(lanes := t.lanes) && t.lanes == (if OffersLanes(c, n) then n else s.lanes)
            case SetTrigger(x) => t == s.(trigger := if Supported(c, x) then x else s.trigger)
            case SetBinning(b) => t == s.(binning := if b <= c.maxBinning then b else s.binning)
            case SetHeight(h) => t == s.(height := h)
            case SetFramerate(rate, _) => t == s.(framerate := t.framerate) && t.framerate == Min(rate, s.framerateMax)
            case SetExposure(_, _) => t == s
  {
    assert c.descModes[0] in c.descModes;
  }

  /** A state all of whose settings the camera offers. */
  predicate Offered(c: Control, s: State) {
    OffersFormat(c, s.format) && OffersLanes(c, s.lanes) && Supported(c, s.trigger) && s.binning <= c.maxBinning
  }

  predicate Sequence(c: Control, s: State, ops: seq<Setting>)
    decreases |ops|, 0
  {
    ops == [] || (Sequence(c, s, ops[..|ops| - 1]) && Allowed(c, After(c, s, ops[..|ops| - 1]), ops[|ops| - 1]))
  }

  function After(c: Control, s: State, ops: seq<Setting>): State
    requires Sequence(c, s, ops)
    decreases |ops|, 1
  {
    if ops == [] then s else Applied(c, After(c, s, ops[..|ops| - 1]), ops[|ops| - 1])
  }

  /** No binning change since the limits were last recomputed. */
  predicate Undisturbed(c: Control, ops: seq<Setting>) {
    ops == [] || Updates(c, ops[|ops| - 1])
    || (!ops[|ops| - 1].SetBinning? && Undisturbed(c, ops[..|ops| - 1]))
  }

  lemma {:induction false} MaxExposureSame(c: Control, s: State, t: State)
    requires Found(c, s)
    requires s.lanes == t.lanes && s.format == t.format && s.binning == t.binning && s.trigger == t.trigger
    ensures Found(c, t) && MaxExposure(c, t) == MaxExposure(c, s)
  {
  }

  lemma {:induction false} ExposedKeepsMode(c: Control, s: State, us: U32, written: bool)
    requires Found(c, s)
    ensures var t := Exposed(c, s, us, written);
            && t.lanes == s.lanes && t.format == s.format && t.binning == s.binning && t.trigger == s.trigger
            && t.exposureMax == s.exposureMax && t.framerate == s.framerate && t.framerateMax == s.framerateMax
  {
  }

  lemma {:induction false} AppliedKeepsCurrent(c: Control, s: State, op: Setting)
    requires Allowed(c, s, op) && IncreaseFrameRate in c.flags
    requires Updates(c, op) || (Current(c, s) && !op.SetBinning?)
    ensures Current(c, Applied(c, s, op))
  {
    hide Exposed;
    var t := Selected(c, s, op);
    if Updates(c, op) {
      MaxExposureSame(c, t, Updated(c, t));
    } else {
      MaxExposureSame(c, s, t);
      if op.SetFramerate? {
        ExposedKeepsMode(c, t, t.exposure, op.written);
      } else if op.SetExposure? {
        ExposedKeepsMode(c, t, op.us, op.written);
      }
      MaxExposureSame(c, t, Applied(c, s, op));
    }
  }

  /** Over any sequence of settings the exposure limit belongs to the mode and trigger in force. */
  lemma {:induction false} LimitsStayCurrent(c: Control, s: State, ops: seq<Setting>)
    requires Current(c, s) && Sequence(c, s, ops) && Undisturbed(c, ops)
    ensures Current(c, After(c, s, ops))
  {
    assert IncreaseFrameRate in c.flags;
    hide Applied, Current, Allowed;
    if ops != [] {
      var front, op := ops[..|ops| - 1], ops[|ops| - 1];
      if !Updates(c, op) {
        LimitsStayCurrent(c, s, front);
      }
      AppliedKeepsCurrent(c, After(c, s, front), op);
    }
  }

  lemma {:induction false} AppliedStaysOffered(c: Control, s: State, op: Setting)
    requires Offered(c, s) && Allowed(c, s, op)
    ensures Offered(c, Applied(c, s, op))
  {
    var t := Selected(c, s, op);
    SelectedExactly(c, s, op);
    hide Exposed, OffersFormat, OffersLanes, Supported;
    if op.SetFramerate? {
      ExposedKeepsMode(c, t, t.exposure, op.written);
    } else if op.SetExposure? {
      ExposedKeepsMode(c, t, op.us, op.written);
    }
  }

  /** No sequence of settings, offered or not, leads to a state the camera does not offer. */
  lemma {:induction false} AlwaysOffered(c: Control, s: State, ops: seq<Setting>)
    requires Offered(c, s) && Sequence(c, s, ops)
    ensures Offered(c, After(c, s, ops))
  {
    hide Applied, Allowed, Offered;
    if ops != [] {
      AlwaysOffered(c, s, ops[..|ops| - 1]);
      AppliedStaysOffered(c, After(c, s, ops[..|ops| - 1]), ops[|ops| - 1]);
    }
  }

  /** A camera as set up offers what it is set to, with the first mode its module lists. */
  lemma {:induction false} SetUpIsOffered(c: Control, exposure: U32)
    requires c.descModes != []
    ensures var s := SetUp(c, exposure);
            && Offered(c, s) && (s.lanes, s.format) == c.descModes[0] && s.trigger == Disable
            && s.height == c.height && s.exposure == exposure
  {
    assert c.descModes[0] in c.descModes;
  }

  /**
    Right after the limits were recomputed a requested rate is cut to what the shortest frame takes, and
    kept if it is no faster.
   */
  lemma {:induction false} RateIsLimited(c: Control, s: State, rate: U32, written: bool)
    requires c.descModes != [] && Fits(c, s) && Rated(c, s) && IncreaseFrameRate in c.flags
    ensures ShortestFrame(c, s) > 0
    ensures var frame := Line(c, s) * ShortestFrame(c, s) / 1000;
            var t := Selected(c, Updated(c, s), SetFramerate(rate, written));
            && t.framerate * frame <= 1_000_000_000 && t.framerate <= rate
            && (rate * frame <= 1_000_000_000 ==> t.framerate == rate)
  {
    RateLimitExact(c, s);
    hide Rated, Fits, ShortestFrame, Line, Found, MaxFrameRate, MaxExposure;
    var frame, limit: nat := Line(c, s) * ShortestFrame(c, s) / 1000, MaxFrameRate(c, s);
    assert Updated(c, s).framerateMax == limit;
    if rate <= limit {
      Scale(rate, limit, frame);
    } else {
      Scale(limit + 1, rate, frame);
    }
  }

  /** Which settings recompute both limits, for the state they select, and which leave both as they were. */
  lemma {:induction false} LimitsRecomputed(c: Control, s: State, op: Setting)
    requires Allowed(c, s, op)
    ensures var t, u := Applied(c, s, op), Selected(c, s, op);
            if IncreaseFrameRate in c.flags
               && (op.SetFormat? || (op.SetLanes? && OffersLanes(c, op.lanes))
                   || (op.SetTrigger? && Supported(c, op.trigger)))
            then Rated(c, u) && t.exposureMax == MaxExposure(c, u) && t.framerateMax == MaxFrameRate(c, u)
            else t.exposureMax == s.exposureMax && t.framerateMax == s.framerateMax
  {
    SelectedExactly(c, s, op);
    var u := Selected(c, s, op);
    hide Exposed, Selected, MaxExposure, MaxFrameRate, Supported, OffersLanes, OffersFormat, OptimizedVmax, Line;
    if op.SetFramerate? {
      ExposedKeepsMode(c, u, u.exposure, op.written);
    } else if op.SetExposure? {
      ExposedKeepsMode(c, u, op.us, op.written);
    }
  }

  /** Setting a rate reprograms the last exposure under it. */
  lemma {:induction false} RateReprograms(c: Control, s: State, rate: U32, written: bool)
    requires Allowed(c, s, SetFramerate(rate, written))
    requires var t := Selected(c, s, SetFramerate(rate, written));
             Current(c, t) && Fits(c, t) && ExposureSony in c.flags && !Triggered(t.trigger)
             && AskedLines(c, t) < TWO_32
    ensures var op := SetFramerate(rate, written);
            SonyOutcome(c, Selected(c, s, op), s.exposure, Applied(c, s, op))
  {
    var t := Selected(c, s, SetFramerate(rate, written));
    hide Current, Fits, Exposed, SonyOutcome, AskedLines;
    VmaxWithinRegister(c, t, t.exposure, written);
  }

  /** So whatever was set before, a Sony exposure leaves VMAX in range exactly if the frame rate allows it. */
  lemma {:induction false} AnyRunWithinRegister(c: Control, s: State, ops: seq<Setting>, us: U32, written: bool)
    requires c.descModes != [] && Current(c, s) && Sequence(c, s, ops) && Undisturbed(c, ops)
    requires var t := After(c, s, ops);
             Fits(c, t) && ExposureSony in c.flags && !Triggered(t.trigger) && AskedLines(c, t) < TWO_32
    ensures var t := After(c, s, ops); SonyOutcome(c, t, us, Applied(c, t, SetExposure(us, written)))
  {
    hide After, Exposed;
    LimitsStayCurrent(c, s, ops);
    VmaxWithinRegister(c, After(c, s, ops), us, written);
  }
}
