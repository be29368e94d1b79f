/** The driver's entry points, field by field, against the timing they have to program. */
module SensorDriver {
  import opened Bytes
  import opened SensorTiming

  lemma {:induction false} OnlyModeMatters(c: Control, s: State, t: State)
    requires Found(c, s) && t == s.(exposureMax := t.exposureMax)
    ensures Found(c, t) && Line(c, t) == Line(c, s) && OptimizedVmax(c, t) == OptimizedVmax(c, s)
  {
  }

  /** The limits are current and the table fits: an exposure counted in lines has its closed form. */
  predicate InStep(c: Control, s: State) {
    && Current(c, s) && Fits(c, s) && ExposureSony in c.flags && !Triggered(s.trigger)
    && AskedLines(c, s) < TWO_32
  }

  lemma {:induction false} Outcomes(c: Control, s: State, asked: U32, written: bool)
    requires Found(c, s)
    ensures InStep(c, s) ==> SonyOutcome(c, s, asked, Exposed(c, s, asked, written))
    ensures SelfTimed(c, s) ==> SelfOutcome(c, s, asked, Exposed(c, s, asked, written))
  {
    hide SonyOutcome, SelfOutcome, Exposed;
    if SelfTimed(c, s) {
      SelfExposed(c, s, asked, written);
    }
    if InStep(c, s) {
      VmaxWithinRegister(c, s, asked, written);
    }
  }

  class Camera {
    const ctrl: Control
    var lanes: nat
    var format: nat
    var binning: nat
    var trigger: Trigger
    var height: U32
    var framerate: U32
    var exposure: U32
    var exposureMax: U32
    var framerateMax: U32
    var vmax: U32
    var shs: U32
    var exposureCnt: U32
    var retriggerCnt: U32

    ghost function Cam(): State
      reads this
    {
      State(lanes, format, binning, trigger, height, framerate, exposure, exposureMax, framerateMax,
            vmax, shs, exposureCnt, retriggerCnt)
    }

    /** The state right after set-up, its limits computed once. */
    constructor (ctrl: Control, exposure: U32)
      requires ctrl.descModes != []
      requires Rated(ctrl, SetUp(ctrl, exposure))
      ensures this.ctrl == ctrl && Cam() == Updated(ctrl, SetUp(ctrl, exposure))
    {
      this.ctrl := ctrl;
      lanes, format, binning, trigger := ctrl.descModes[0].0, ctrl.descModes[0].1, 0, Disable;
      height, framerate, this.exposure := ctrl.height, 0, exposure;
      exposureMax, framerateMax := ctrl.exposureMaxInit, FRAMERATE_MAX_INIT;
      vmax, shs, exposureCnt, retriggerCnt := 0, 0, 0, 0;
      new;
      UpdateControls();
    }

    /** The first table entry with these lanes, format and binning index. */
    method GetMode() returns (m: Option<Mode>)
      ensures m == Lookup(ctrl, Cam())
    {
      var wanted := if UseBinningIndex in ctrl.flags then binning else 0;
      var index := 0;
      while index < |ctrl.modes|
        invariant 0 <= index <= |ctrl.modes|
        invariant FindMode(ctrl.modes, lanes, format, wanted) == FindMode(ctrl.modes[index..], lanes, format, wanted)
      {
        var mode := ctrl.modes[index];
        if lanes == mode.lanes && format == mode.format && wanted == mode.binning {
          return Some(mode);
        }
        index := index + 1;
      }
      return None;
    }

    method CalculatePeriod1H() returns (p: U32)
      requires Found(ctrl, Cam())
      ensures p == Line(ctrl, Cam())
    {
      var mode := GetMode();
      p := Cut(mode.value.hmax * 1_000_000_000 / ctrl.clkPixel);
    }

    method CalculateMaxExposure() returns (us: U32)
      requires Found(ctrl, Cam())
      ensures us == MaxExposure(ctrl, Cam())
    {
      var mode := GetMode();
      match trigger
      case External | Pulsewidth | Self | Single | Overlap =>
        us := Cut(0xffff_ffff * 1_000_000 / ctrl.clkExtTrigger);
      case _ =>
        var p := CalculatePeriod1H();
        us := Cut(p * Cut(mode.value.vmaxMax - mode.value.vmaxMin) / 1000);
    }

    method GetOptimizedVmax() returns (v: U32)
      requires Found(ctrl, Cam())
      ensures v == OptimizedVmax(ctrl, Cam())
      ensures Fits(ctrl, Cam()) ==> v == ShortestFrame(ctrl, Cam())
    {
      if Fits(ctrl, Cam()) {
        BlankingKept(ctrl, Cam());
      }
      hide Fits, ShortestFrame;
      var mode := GetMode();
      var full := ctrl.height;
      if mode.value.vmaxDef == 0 {
        return 0;
      }
      if ctrl.vFactors[binning] > 0 {
        full := full / ctrl.vFactors[binning];
      }
      if IncreaseFrameRate in ctrl.flags && height < full {
        return Cut(mode.value.vmaxDef - (full - height));
      }
      return mode.value.vmaxDef;
    }

    method UpdateControls()
      requires Rated(ctrl, Cam())
      modifies this`exposureMax, this`framerateMax
      ensures Cam() == Updated(ctrl, old(Cam()))
    {
      hide Quotient, FindMode, OptimizedVmax, MaxExposure;
      ghost var s := Cam();
      if IncreaseFrameRate in ctrl.flags {
        exposureMax := CalculateMaxExposure();
        OnlyModeMatters(ctrl, s, Cam());
        var p := CalculatePeriod1H();
        var v := GetOptimizedVmax();
        framerateMax := Cut(Quotient(1_000_000_000, (p as nat) * (v as nat) / 1000));
      }
    }

    method CalculateVmax(p: U32)
      requires Found(ctrl, Cam()) && p == Line(ctrl, Cam())
      modifies this`vmax
      ensures vmax == ProgrammedVmax(ctrl, old(Cam()))
    {
      ghost var s := Cam();
      vmax := GetOptimizedVmax();
      if framerate > 0 {
        var frame := 1_000_000_000_000 / framerate;
        var lines := frame / p;
        assert lines == FrameLines(ctrl, s);
        if lines > vmax {
          vmax := Cut(lines);
        }
      }
    }

    method CalculateExposureSony(e: nat, shsMin: U32)
      modifies this`vmax, this`shs
      ensures (vmax, shs) == SonyExposure(old(vmax), shsMin, e, trigger.Sync?)
      ensures 0 < old(vmax) && shsMin <= old(vmax) && shsMin + e < TWO_32 ==>
                var frame := Max(old(vmax), shsMin + e);
                vmax + SyncLine(Cam()) == frame && shs == frame - e >= shsMin
    {
      if 0 < vmax && shsMin <= vmax && shsMin + e < TWO_32 {
        SonyArithmetic(vmax, shsMin, e);
      }
      if e < Cut(vmax as int - shsMin) {
        shs := Cut(vmax as int - e);
      } else {
        vmax := Cut(shsMin + e);
        shs := shsMin;
      }
      if trigger == Sync {
        vmax := Cut(vmax as int - 1);
      }
    }

    method CalculateExposureNormal(e: nat, shsMin: U32)
      modifies this`vmax, this`shs
      ensures (vmax, shs) == NormalExposure(old(vmax), shsMin, e)
      ensures shsMin <= old(vmax) && e < TWO_32 ==> vmax == Max(old(vmax), e) && shs == Max(shsMin, e)
    {
      if shsMin <= e && e < vmax {
        shs := Cut(e);
      } else if e < shsMin {
        shs := shsMin;
      } else {
        vmax := Cut(e);
        shs := Cut(e);
      }
    }

    method CalculateExposure(us: U32)
      requires Found(ctrl, Cam())
      modifies this`vmax, this`shs
      ensures Cam() == LineExposure(ctrl, old(Cam()), us)
    {
      var mode := GetMode();
      var p := CalculatePeriod1H();
      CalculateVmax(p);
      var e := us * 1000 / p;
      if ExposureSony in ctrl.flags {
        CalculateExposureSony(e, mode.value.vmaxMin);
      } else if ExposureNormal in ctrl.flags || ExposureOmnivision in ctrl.flags {
        CalculateExposureNormal(e, mode.value.vmaxMin);
      }
    }

    method CalculateTrigExposure(us: U32)
      requires Found(ctrl, Cam())
      modifies this`exposureCnt, this`retriggerCnt
      ensures Cam() == TriggerExposure(ctrl, old(Cam()), us)
    {
      var mode := GetMode();
      var least := Cut(mode.value.retriggerMin * 1_000_000 / ctrl.clkExtTrigger);
      var frame := least;
      if trigger == Self {
        if framerate > 0 {
          frame := 1_000_000_000 / framerate;
        }
        if frame < least {
          frame := least;
        }
        if TriggerSelf !in ctrl.flags && TriggerSelfV2 in ctrl.flags {
          frame := if frame >= us then frame - us else 1;
        }
      }
      retriggerCnt := Cut(frame * ctrl.clkExtTrigger / 1_000_000);
      exposureCnt := Cut(us * ctrl.clkExtTrigger / 1_000_000);
    }

    method Program(us: U32)
      requires Found(ctrl, Cam())
      modifies this`vmax, this`shs, this`exposureCnt, this`retriggerCnt
      ensures Cam() == Programmed(ctrl, old(Cam()), us)
    {
      hide LineExposure, TriggerExposure, FindMode, Quotient;
      if ExposureSony in ctrl.flags || ExposureNormal in ctrl.flags {
        match trigger {
          case External | Single | Self | Overlap => CalculateTrigExposure(us);
          case Pulsewidth =>
          case Disable | Sync | StreamEdge | StreamLevel => CalculateExposure(us);
        }
      } else if ExposureOmnivision in ctrl.flags {
        CalculateExposure(us);
      }
    }

    method Expose(asked: U32, written: bool)
      requires Found(ctrl, Cam())
      modifies this`vmax, this`shs, this`exposureCnt, this`retriggerCnt, this`exposure
      ensures Cam() == Exposed(ctrl, old(Cam()), asked, written)
      ensures InStep(ctrl, old(Cam())) ==> SonyOutcome(ctrl, old(Cam()), asked, Cam())
      ensures SelfTimed(ctrl, old(Cam())) ==> SelfOutcome(ctrl, old(Cam()), asked, Cam())
    {
      Outcomes(ctrl, Cam(), asked, written);
      hide Programmed, FindMode, Quotient, SelfOutcome, SonyOutcome, SelfTimed, InStep;
      var us := asked;
      if us < ctrl.exposureMin {
        us := ctrl.exposureMin;
      }
      if us > exposureMax {
        us := exposureMax;
      }
      vmax, shs, exposureCnt, retriggerCnt := 0, 0, 0, 0;
      Program(us);
      if written {
        exposure := us;
      }
    }

    /** One request from user space. */
    method Set(op: Setting)
      requires Allowed(ctrl, Cam(), op)
      modifies this
      ensures Cam() == Applied(ctrl, old(Cam()), op)
      ensures IncreaseFrameRate in ctrl.flags && (Updates(ctrl, op) || (Current(ctrl, old(Cam())) && !op.SetBinning?))
          ==> Current(ctrl, Cam())
      ensures InStep(ctrl, old(Cam())) && op.SetExposure? ==> SonyOutcome(ctrl, old(Cam()), op.us, Cam())
    {
      if IncreaseFrameRate in ctrl.flags && (Updates(ctrl, op) || (Current(ctrl, Cam()) && !op.SetBinning?)) {
        AppliedKeepsCurrent(ctrl, Cam(), op);
      }
      hide InStep, Current, SonyOutcome;
      match op
      case SetFormat(code) =>
        format := if OffersFormat(ctrl, code) then code else ctrl.descModes[0].1;
        UpdateControls();
      case SetLanes(number) =>
        if OffersLanes(ctrl, number) {
          lanes := number;
          UpdateControls();
        }
      case SetTrigger(mode) =>
        if Supported(ctrl, mode) {
          trigger := mode;
          UpdateControls();
        }
      case SetBinning(mode) =>
        if mode <= ctrl.maxBinning {
          binning := mode;
        }
      case SetHeight(h) =>
        height := h;
      case SetFramerate(rate, written) =>
        framerate := if rate > framerateMax then framerateMax else rate;
        Expose(exposure, written);
      case SetExposure(us, written) =>
        Expose(us, written);
    }
  }
}
