/** The 26 sensors' tables, and what the timing arithmetic makes of them. */
module SensorTables {
  import opened Bytes
  import opened SensorTiming

  datatype Sensor =
    | IMX178 | IMX183 | IMX226 | IMX250 | IMX252 | IMX264 | IMX265 | IMX273 | IMX290
    | IMX296 | IMX297 | IMX327 | IMX335 | IMX392 | IMX412 | IMX415 | IMX462 | IMX540
    | IMX565 | IMX566 | IMX567 | IMX568 | IMX585 | IMX900 | OV7251 | OV9281

  const RAW08 := 0x2a
  const RAW10 := 0x2b
  const RAW12 := 0x2c
  const RAW14 := 0x2d

  /** Lanes, format, binning, hmax, vmax (minimum, maximum, default), minimal retrigger count. */
  function Table(sensor: Sensor): seq<Mode> {
    match sensor
    case IMX178 => [
      Mode(2, RAW08, 0, 680, 9, 0x1ffff, 2126, 2698560),
      Mode(2, RAW10, 0, 840, 9, 0x1ffff, 2126, 2698560),
      Mode(2, RAW12, 0, 984, 9, 0x1ffff, 2126, 2698560),
      Mode(2, RAW14, 0, 1156, 9, 0x1ffff, 2126, 2698560),
      Mode(4, RAW08, 0, 600, 9, 0x1ffff, 2126, 2698560),
      Mode(4, RAW10, 0, 600, 9, 0x1ffff, 2126, 2698560),
      Mode(4, RAW12, 0, 680, 9, 0x1ffff, 2126, 2698560),
      Mode(4, RAW14, 0, 1156, 9, 0x1ffff, 2126, 2698560)]
    case IMX183 => [
      Mode(2, RAW08, 0, 1440, 5, 0x1ffff, 3728, 3599997),
      Mode(2, RAW10, 0, 1440, 5, 0x1ffff, 3728, 3599997),
      Mode(2, RAW12, 0, 1724, 5, 0x1ffff, 3728, 3599997),
      Mode(4, RAW08, 0, 720, 5, 0x1ffff, 3728, 3599997),
      Mode(4, RAW10, 0, 720, 5, 0x1ffff, 3728, 3599997),
      Mode(4, RAW12, 0, 862, 5, 0x1ffff, 3728, 3599997)]
    case IMX226 => [
      Mode(2, RAW08, 0, 1072, 5, 0x1ffff, 3079, 2698560),
      Mode(2, RAW10, 0, 1072, 5, 0x1ffff, 3079, 2698560),
      Mode(2, RAW12, 0, 1288, 5, 0x1ffff, 3079, 2698560),
      Mode(4, RAW08, 0, 536, 5, 0x1ffff, 3079, 2698560),
      Mode(4, RAW10, 0, 536, 5, 0x1ffff, 3079, 2698560),
      Mode(4, RAW12, 0, 644, 5, 0x1ffff, 3079, 2698560)]
    case IMX250 => [
      Mode(2, RAW08, 0, 540, 10, 0xfffff, 2094, 1580040),
      Mode(2, RAW10, 0, 660, 10, 0xfffff, 2094, 1580040),
      Mode(2, RAW12, 0, 780, 10, 0xfffff, 2094, 1580040),
      Mode(4, RAW08, 0, 350, 10, 0xfffff, 2094, 1580040),
      Mode(4, RAW10, 0, 430, 10, 0xfffff, 2094, 1580040),
      Mode(4, RAW12, 0, 510, 10, 0xfffff, 2094, 1580040)]
    case IMX252 => [
      Mode(2, RAW08, 0, 460, 10, 0xfffff, 1582, 1063754),
      Mode(2, RAW10, 0, 560, 10, 0xfffff, 1582, 1063754),
      Mode(2, RAW12, 0, 672, 10, 0xfffff, 1582, 1063754),
      Mode(4, RAW08, 0, 310, 10, 0xfffff, 1582, 1063754),
      Mode(4, RAW10, 0, 380, 10, 0xfffff, 1582, 1063754),
      Mode(4, RAW12, 0, 444, 10, 0xfffff, 1582, 1063754)]
    case IMX264 => [
      Mode(2, RAW08, 0, 996, 10, 0xfffff, 2100, 1580040),
      Mode(2, RAW10, 0, 996, 10, 0xfffff, 2100, 1580040),
      Mode(2, RAW12, 0, 996, 10, 0xfffff, 2100, 1580040)]
    case IMX265 => [
      Mode(2, RAW08, 0, 846, 10, 0xfffff, 1587, 1580040),
      Mode(2, RAW10, 0, 846, 10, 0xfffff, 1587, 1580040),
      Mode(2, RAW12, 0, 846, 10, 0xfffff, 1587, 1580040)]
    case IMX273 => [
      Mode(2, RAW08, 0, 336, 15, 0xfffff, 1130, 519230),
      Mode(2, RAW10, 0, 420, 15, 0xfffff, 1130, 519230),
      Mode(2, RAW12, 0, 480, 15, 0xfffff, 1130, 519230),
      Mode(4, RAW08, 0, 238, 15, 0xfffff, 1130, 519230),
      Mode(4, RAW10, 0, 290, 15, 0xfffff, 1130, 519230),
      Mode(4, RAW12, 0, 396, 15, 0xfffff, 1130, 519230),
      Mode(2, RAW08, 1, 336, 15, 0xfffff, 586, 519230),
      Mode(2, RAW10, 1, 420, 15, 0xfffff, 586, 519230),
      Mode(2, RAW12, 1, 480, 15, 0xfffff, 586, 519230),
      Mode(4, RAW08, 1, 218, 15, 0xfffff, 586, 519230),
      Mode(4, RAW10, 1, 250, 15, 0xfffff, 586, 519230),
      Mode(4, RAW12, 1, 396, 15, 0xfffff, 586, 519230)]
    case IMX290 => [
      Mode(2, RAW10, 0, 550, 1, 0x3ffff, 0x465, 0),
      Mode(2, RAW12, 0, 550, 1, 0x3ffff, 0x465, 0),
      Mode(4, RAW10, 0, 550, 1, 0x3ffff, 0x465, 0),
      Mode(4, RAW12, 0, 550, 1, 0x3ffff, 0x465, 0)]
    case IMX296 => [
      Mode(1, RAW10, 0, 0x44c, 5, 0xfffff, 0x45e, 883008),
      Mode(1, RAW10, 1, 0x44c, 5, 0xfffff, 0x22f, 883008)]
    case IMX297 => [
      Mode(1, RAW10, 0, 0x42e, 5, 0xfffff, 0x23e, 883008)]
    case IMX327 => [
      Mode(2, RAW10, 0, 1100, 1, 0x3ffff, 0x465, 0),
      Mode(2, RAW12, 0, 1100, 1, 0x3ffff, 0x465, 0),
      Mode(4, RAW10, 0, 1100, 1, 0x3ffff, 0x465, 0),
      Mode(4, RAW12, 0, 1100, 1, 0x3ffff, 0x465, 0)]
    case IMX335 => [
      Mode(2, RAW10, 0, 0x226, 9, 0xfffff, 4500, 0),
      Mode(2, RAW12, 0, 0x226, 9, 0xfffff, 4500, 0),
      Mode(4, RAW10, 0, 0x113, 9, 0xfffff, 4500, 0),
      Mode(4, RAW12, 0, 0x113, 9, 0xfffff, 4500, 0)]
    case IMX392 => [
      Mode(2, RAW08, 0, 448, 10, 0xfffff, 1252, 1063754),
      Mode(2, RAW10, 0, 530, 10, 0xfffff, 1252, 1063754),
      Mode(2, RAW12, 0, 624, 10, 0xfffff, 1252, 1063754),
      Mode(4, RAW08, 0, 294, 10, 0xfffff, 1252, 1063754),
      Mode(4, RAW10, 0, 355, 10, 0xfffff, 1252, 1063754),
      Mode(4, RAW12, 0, 441, 10, 0xfffff, 1252, 1063754)]
    case IMX412 => [
      Mode(2, RAW10, 0, 436, 10, 0xffff, 0x0c14, 0),
      Mode(4, RAW10, 0, 218, 10, 0xffff, 0x0c14, 0),
      Mode(2, RAW10, 1, 436, 10, 0xffff, 0x0624, 0),
      Mode(4, RAW10, 1, 218, 10, 0xffff, 0x0624, 0),
      Mode(2, RAW10, 2, 436, 10, 0xffff, 0x0624, 0),
      Mode(4, RAW10, 2, 218, 10, 0xffff, 0x0624, 0),
      Mode(2, RAW10, 3, 436, 10, 0xffff, 0x0624, 0),
      Mode(4, RAW10, 3, 218, 10, 0xffff, 0x0624, 0),
      Mode(2, RAW10, 4, 436, 10, 0xffff, 0x0624, 0),
      Mode(4, RAW10, 4, 218, 10, 0xffff, 0x0624, 0),
      Mode(2, RAW10, 5, 436, 10, 0xffff, 0x0624, 0),
      Mode(4, RAW10, 5, 218, 10, 0xffff, 0x0624, 0)]
    case IMX415 => [
      Mode(2, RAW10, 0, 1042, 8, 0xfffff, 0x8ca, 0),
      Mode(4, RAW10, 0, 551, 8, 0xfffff, 0x8ca, 0)]
    case IMX462 => [
      Mode(2, RAW10, 0, 1100, 1, 0x3ffff, 0x465, 0),
      Mode(4, RAW10, 0, 550, 1, 0x3ffff, 0x465, 0)]
    case IMX540 => [
      Mode(2, RAW08, 0, 1120, 8, 0xffffff, 4708, 0),
      Mode(2, RAW10, 0, 1388, 8, 0xffffff, 4706, 0),
      Mode(2, RAW12, 0, 1648, 6, 0xffffff, 4704, 0),
      Mode(4, RAW08, 0, 716, 10, 0xffffff, 4714, 0),
      Mode(4, RAW10, 0, 892, 10, 0xffffff, 4714, 0),
      Mode(4, RAW12, 0, 1067, 8, 0xffffff, 4708, 0)]
    case IMX565 => [
      Mode(2, RAW08, 0, 1070, 18, 0xffffff, 0xc2c, 2410776),
      Mode(2, RAW10, 0, 1328, 16, 0xffffff, 0xc2a, 2990142),
      Mode(2, RAW12, 0, 1586, 14, 0xffffff, 0xc26, 3568752),
      Mode(4, RAW08, 0, 555, 30, 0xffffff, 0xc40, 1256094),
      Mode(4, RAW10, 0, 684, 26, 0xffffff, 0xc3a, 1546074),
      Mode(4, RAW12, 0, 812, 22, 0xffffff, 0xc34, 1833030),
      Mode(2, RAW08, 1, 554, 32, 0xffffff, 0x644, 638982),
      Mode(2, RAW10, 1, 683, 28, 0xffffff, 0x640, 785808),
      Mode(2, RAW12, 1, 812, 24, 0xffffff, 0x638, 931878),
      Mode(4, RAW08, 1, 297, 52, 0xffffff, 0x668, 347760),
      Mode(4, RAW10, 1, 361, 44, 0xffffff, 0x65c, 420552),
      Mode(4, RAW12, 1, 425, 40, 0xffffff, 0x654, 493884)]
    case IMX566 => [
      Mode(2, RAW08, 0, 752, 24, 0xffffff, 0xb98, 1612278),
      Mode(2, RAW10, 0, 930, 20, 0xffffff, 0xb92, 1991196),
      Mode(2, RAW12, 0, 1109, 18, 0xffffff, 0xb8c, 2371194),
      Mode(4, RAW08, 0, 396, 40, 0xffffff, 0xbb0, 854172),
      Mode(4, RAW10, 0, 485, 34, 0xffffff, 0xba6, 1043334),
      Mode(4, RAW12, 0, 574, 30, 0xffffff, 0xba0, 1233144),
      Mode(2, RAW08, 1, 396, 40, 0xffffff, 0x604, 430812),
      Mode(2, RAW10, 1, 485, 36, 0xffffff, 0x5fc, 524826),
      Mode(2, RAW12, 1, 575, 32, 0xffffff, 0x5f4, 620568),
      Mode(4, RAW08, 1, 218, 72, 0xffffff, 0x634, 242892),
      Mode(4, RAW10, 1, 262, 60, 0xffffff, 0x620, 288846),
      Mode(4, RAW12, 1, 307, 52, 0xffffff, 0x614, 336690)]
    case IMX567 | IMX568 => [
      Mode(2, RAW08, 0, 656, 26, 0xffffff, 0x88a, 1058562),
      Mode(2, RAW10, 0, 810, 22, 0xffffff, 0x884, 1273590),
      Mode(2, RAW12, 0, 965, 20, 0xffffff, 0x880, 1514484),
      Mode(4, RAW08, 0, 348, 46, 0xffffff, 0x8a8, 553716),
      Mode(4, RAW10, 0, 425, 38, 0xffffff, 0x89e, 673812),
      Mode(4, RAW12, 0, 502, 34, 0xffffff, 0x896, 793692),
      Mode(2, RAW08, 1, 348, 48, 0xffffff, 0x488, 285444),
      Mode(2, RAW10, 1, 425, 40, 0xffffff, 0x47c, 346140),
      Mode(2, RAW12, 1, 503, 36, 0xffffff, 0x474, 406782),
      Mode(4, RAW08, 1, 194, 80, 0xffffff, 0x4b8, 164214),
      Mode(4, RAW10, 1, 232, 68, 0xffffff, 0x4a8, 194346),
      Mode(4, RAW12, 1, 271, 60, 0xffffff, 0x498, 224640)]
    case IMX585 => [
      Mode(2, RAW10, 0, 1100, 8, 0x1ffff, 0x08ca, 0),
      Mode(2, RAW12, 0, 1320, 8, 0x1ffff, 0x08ca, 0),
      Mode(4, RAW10, 0, 550, 8, 0x1ffff, 0x08ca, 0),
      Mode(4, RAW12, 0, 660, 8, 0x1ffff, 0x08ca, 0)]
    case IMX900 => [
      Mode(2, RAW08, 0, 460, 99, 0xffffff, 1816, 563060),
      Mode(2, RAW10, 0, 564, 99, 0xffffff, 1816, 688284),
      Mode(2, RAW12, 0, 667, 99, 0xffffff, 1816, 795528),
      Mode(4, RAW08, 0, 338, 99, 0xffffff, 1816, 413694),
      Mode(4, RAW10, 0, 364, 99, 0xffffff, 1816, 444204),
      Mode(4, RAW12, 0, 610, 99, 0xffffff, 1816, 727542)]
    case OV7251 => [
      Mode(1, RAW08, 0, 772, 0, 0xffff, 598, 0),
      Mode(1, RAW10, 0, 772, 0, 0xffff, 598, 0)]
    case OV9281 => [
      Mode(2, RAW08, 0, 227, 16, 0xffff, 910, 0),
      Mode(2, RAW10, 0, 227, 16, 0xffff, 910, 0)]
  }

  function Flags(sensor: Sensor): set<Flag> {
    match sensor
    case IMX178 | IMX183 =>
      {ExposureSony, TriggerExternal, TriggerSelf, TriggerSingle, TriggerSync, IncreaseFrameRate}
    case IMX226 =>
      {ExposureSony, TriggerExternal, TriggerSelf, TriggerSingle, TriggerSync, TriggerStreamEdge, TriggerStreamLevel}
    case IMX250 | IMX264 | IMX265 | IMX392 | IMX540 | IMX900 =>
      {ExposureSony, IncreaseFrameRate, TriggerExternal, TriggerPulsewidth, TriggerSelf, TriggerSingle}
    case IMX252 =>
      {ExposureSony, IncreaseFrameRate, TriggerExternal, TriggerPulsewidth, TriggerSelf, TriggerSingle, TriggerOverlap}
    case IMX273 | IMX565 | IMX566 | IMX567 | IMX568 =>
      {ExposureSony, IncreaseFrameRate, TriggerExternal, TriggerPulsewidth, TriggerSelf, TriggerSingle, UseBinningIndex}
    case IMX290 | IMX327 | IMX335 | IMX415 | IMX462 | IMX585 =>
      {ExposureSony, IncreaseFrameRate}
    case IMX296 =>
      {ExposureSony, IncreaseFrameRate, TriggerExternal, TriggerPulsewidth, TriggerSelfV2, UseBinningIndex}
    case IMX297 =>
      {ExposureSony, IncreaseFrameRate, TriggerExternal, TriggerPulsewidth, TriggerSelfV2}
    case IMX412 =>
      {ExposureNormal, IncreaseFrameRate, TriggerSlave, UseBinningIndex}
    case OV7251 =>
      {ExposureOmnivision}
    case OV9281 =>
      {ExposureOmnivision, TriggerExternal}
  }

  function Height(sensor: Sensor): U32 {
    match sensor
    case IMX178 | IMX250 | IMX264 => 2048
    case IMX183 => 3648
    case IMX226 | IMX565 => 3000
    case IMX252 | IMX265 | IMX900 => 1536
    case IMX273 | IMX290 | IMX296 | IMX327 | IMX462 => 1080
    case IMX297 => 540
    case IMX335 => 1944
    case IMX392 => 1200
    case IMX412 => 3040
    case IMX415 | IMX585 => 2160
    case IMX540 => 4600
    case IMX566 => 2848
    case IMX567 | IMX568 => 2064
    case OV7251 => 480
    case OV9281 => 800
  }

  /** Vertical binning factors of the eight binning modes; 0 where a mode is not set up. */
  function VFactors(sensor: Sensor): (v: seq<nat>)
    ensures |v| == 8
  {
    match sensor
    case IMX412 => [0, 2, 2, 2, 2, 2, 0, 0]
    case IMX273 | IMX296 | IMX565 | IMX566 | IMX567 | IMX568 => [0, 2, 0, 0, 0, 0, 0, 0]
    case _ => [0, 0, 0, 0, 0, 0, 0, 0]
  }

  function MaxBinning(sensor: Sensor): nat {
    match sensor
    case IMX412 => 5
    case IMX273 | IMX296 | IMX565 | IMX566 | IMX567 | IMX568 => 1
    case _ => 0
  }

  /** The pixel clock, where the table overrides the module ROM. */
  function PixelClock(sensor: Sensor, rom: U32): U32 {
    match sensor
    case IMX226 => 72_000_000
    case IMX290 | IMX327 | IMX415 | IMX462 => 74_250_000
    case IMX412 => 27_000_000
    case OV9281 => 25_000_000
    case _ => rom
  }

  /** The trigger clock, where the table overrides the module ROM. */
  function TriggerClock(sensor: Sensor, rom: U32): U32 {
    match sensor
    case IMX290 | IMX327 | IMX462 => 74_250_000
    case IMX412 => 27_000_000
    case OV9281 => 25_000_000
    case _ => rom
  }

  function ExposureLimits(sensor: Sensor): (U32, U32) {
    match sensor
    case OV7251 => (1, 1_000_000)
    case OV9281 => (146, 595_000)
    case _ => (1, 100_000_000)
  }

  /** A camera's control data: its table, and what its module ROM says of clocks, lanes and formats. */
  function ControlOf(sensor: Sensor, romPixel: U32, romTrigger: U32, descModes: seq<(nat, nat)>): Control {
    Control(Table(sensor), Flags(sensor), Height(sensor), VFactors(sensor), MaxBinning(sensor),
            TriggerClock(sensor, romTrigger), PixelClock(sensor, romPixel),
            ExposureLimits(sensor).0, ExposureLimits(sensor).1, descModes)
  }

  function TableHeight(sensor: Sensor, binning: nat): nat
    requires binning < 8
  {
    if VFactors(sensor)[binning] > 0 then Quotient(Height(sensor), VFactors(sensor)[binning]) else Height(sensor)
  }

  /** What every row of a table satisfies. */
  predicate RowFits(sensor: Sensor, m: Mode) {
    && m.binning <= MaxBinning(sensor) < 8
    && 194 <= m.hmax <= 1724
    && m.vmaxMin <= m.vmaxMax <= 0xff_ffff
    && TableHeight(sensor, m.binning) + Max(m.vmaxMin, 19) <= m.vmaxDef <= m.vmaxMax
  }

  lemma {:induction false} RowsFitStarvis(sensor: Sensor, m: Mode)
    requires m in Table(sensor) && (sensor.IMX178? || sensor.IMX183? || sensor.IMX226?)
    ensures RowFits(sensor, m)
  {
  }

  lemma {:induction false} RowsFitPregius(sensor: Sensor, m: Mode)
    requires m in Table(sensor) && (sensor.IMX250? || sensor.IMX252? || sensor.IMX264? || sensor.IMX265?)
    ensures RowFits(sensor, m)
  {
  }

  lemma {:induction false} RowsFitImx273(sensor: Sensor, m: Mode)
    requires m in Table(sensor) && (sensor.IMX273?)
    ensures RowFits(sensor, m)
  {
  }

  lemma {:induction false} RowsFitSmall(sensor: Sensor, m: Mode)
    requires m in Table(sensor)
    requires sensor in {IMX290, IMX296, IMX297, IMX327, IMX335, IMX392}
    ensures RowFits(sensor, m)
  {
  }

  lemma {:induction false} RowsFitImx412(sensor: Sensor, m: Mode)
    requires m in Table(sensor) && (sensor.IMX412? || sensor.IMX415? || sensor.IMX462?)
    ensures RowFits(sensor, m)
  {
  }

  lemma {:induction false} RowsFitImx565(sensor: Sensor, m: Mode)
    requires m in Table(sensor) && (sensor.IMX540? || sensor.IMX565?)
    ensures RowFits(sensor, m)
  {
  }

  lemma {:induction false} RowsFitImx566(sensor: Sensor, m: Mode)
    requires m in Table(sensor) && (sensor.IMX566?)
    ensures RowFits(sensor, m)
  {
  }

  lemma {:induction false} RowsFitImx567(sensor: Sensor, m: Mode)
    requires m in Table(sensor) && (sensor.IMX567? || sensor.IMX568?)
    ensures RowFits(sensor, m)
  {
  }

  lemma {:induction false} RowsFitLast(sensor: Sensor, m: Mode)
    requires m in Table(sensor) && (sensor.IMX585? || sensor.IMX900? || sensor.OV7251? || sensor.OV9281?)
    ensures RowFits(sensor, m)
  {
  }

  lemma {:induction false} RowsFit(sensor: Sensor, m: Mode)
    requires m in Table(sensor)
    ensures RowFits(sensor, m)
  {
    hide RowFits, Table;
    match sensor
    case IMX178 | IMX183 | IMX226 => RowsFitStarvis(sensor, m);
    case IMX250 | IMX252 | IMX264 | IMX265 => RowsFitPregius(sensor, m);
    case IMX273 => RowsFitImx273(sensor, m);
    case IMX290 | IMX296 | IMX297 | IMX327 | IMX335 | IMX392 => RowsFitSmall(sensor, m);
    case IMX412 | IMX415 | IMX462 => RowsFitImx412(sensor, m);
    case IMX540 | IMX565 => RowsFitImx565(sensor, m);
    case IMX566 => RowsFitImx566(sensor, m);
    case IMX567 | IMX568 => RowsFitImx567(sensor, m);
    case IMX585 | IMX900 | OV7251 | OV9281 => RowsFitLast(sensor, m);
  }

  // ---- every sensor ------------------------------------------------------------------------------

  /** A camera of this sensor whose module ROM gives clocks in a plausible range. */
  predicate Runs(sensor: Sensor, c: Control) {
    && c == ControlOf(sensor, c.clkPixel, c.clkExtTrigger, c.descModes)
    && 1_000_000 <= c.clkPixel <= 500_000_000 && c.clkExtTrigger > 0
  }

  lemma {:induction false} PeriodInRange(hmax: U32, clk: U32)
    requires 194 <= hmax <= 1724 && 1_000_000 <= clk <= 500_000_000
    ensures 388 <= Quotient(hmax * 1_000_000_000, clk) <= 1_724_000
  {
    hide Quotient;
    var a := hmax * 1_000_000_000;
    DivisionBounds(a, clk);
    QuotientAtMost(a, clk, 387);
    Scale(388, 388, clk);
    assert 388 * clk <= 388 * 500_000_000;
    assert 1_724_001 * clk >= 1_724_001 * 1_000_000;
    QuotientAtMost(a, clk, 1_724_000);
  }

  /**
    For all 26 sensors, every lookup that succeeds and every image height: the frame never shrinks
    below the minimal exposure delay, every line and limit is well defined, and VMAX fits 24 bits.
   */
  lemma {:induction false} EveryTableFits(sensor: Sensor, c: Control, s: State)
    requires Runs(sensor, c) && s.binning <= c.maxBinning && Lookup(c, s).Some?
    ensures Fits(c, s) && Rated(c, s)
    ensures ModeOf(c, s).vmaxMin <= OptimizedVmax(c, s) <= ModeOf(c, s).vmaxMax <= 0xff_ffff
    ensures AskedLines(c, s) < TWO_32 && 388 <= Line(c, s)
  {
    hide Table, Flags, VFactors, Height, PixelClock, TriggerClock, ExposureLimits, FindMode, Quotient, TableHeight;
    GeometryFits(sensor, c, s);
    OptimizedAtLeast(c, s, 19);
    OptimizedInRange(c, s);
    hide OptimizedVmax, Runs, RowFits;
    Scale(388, Line(c, s), 19);
    Scale(19, OptimizedVmax(c, s), Line(c, s));
    assert Line(c, s) * OptimizedVmax(c, s) >= 388 * 19;
    if s.framerate > 0 {
      FewLines(s.framerate, Line(c, s));
    }
  }

  lemma {:induction false} GeometryFits(sensor: Sensor, c: Control, s: State)
    requires Runs(sensor, c) && s.binning <= c.maxBinning && Lookup(c, s).Some?
    ensures Fits(c, s) && FullHeight(c, s) + 19 <= ModeOf(c, s).vmaxDef
    ensures 388 <= Line(c, s) <= 1_724_000 && ModeOf(c, s).vmaxMax <= 0xff_ffff
  {
    hide Table, Flags, VFactors, Height, PixelClock, TriggerClock, ExposureLimits, FindMode, Quotient;
    var m := Lookup(c, s).value;
    RowsFit(sensor, m);
    PeriodInRange(m.hmax, c.clkPixel);
    NoBinningWithoutIndex(sensor);
    assert s.binning == m.binning;
  }

  lemma {:induction false} OptimizedAtLeast(c: Control, s: State, n: nat)
    requires Fits(c, s) && FullHeight(c, s) + n <= ModeOf(c, s).vmaxDef
    ensures OptimizedVmax(c, s) >= n
  {
    CutAtMost(ModeOf(c, s).vmaxDef - (if s.height < FullHeight(c, s) then FullHeight(c, s) - s.height else 0));
  }

  lemma {:induction false} FewLines(framerate: U32, line: U32)
    requires framerate > 0 && line >= 388
    ensures Quotient(Quotient(1_000_000_000_000, framerate), line) < TWO_32
  {
    hide Quotient;
    var frame := Quotient(1_000_000_000_000, framerate);
    DivisionBounds(1_000_000_000_000, framerate);
    Scale(1, framerate, frame);
    QuotientAtMost(frame, line, TWO_32 - 1);
    Scale(388, line, TWO_32);
  }

  lemma {:induction false} NoBinningWithoutIndex(sensor: Sensor)
    ensures UseBinningIndex in Flags(sensor) || MaxBinning(sensor) == 0
  {
  }

  /**
    Every Sony sensor whose limits are recomputed, in every mode that counts lines, SYNC included: with
    current limits no exposure request drives VMAX out of its register; only a frame rate too low for it
    does, and then always.
   */
  lemma {:induction false} EverySonySensorInRange(sensor: Sensor, c: Control, s: State, asked: U32, written: bool)
    requires Runs(sensor, c) && s.binning <= c.maxBinning && Current(c, s)
    requires ExposureSony in c.flags && !Triggered(s.trigger)
    ensures SonyOutcome(c, s, asked, Exposed(c, s, asked, written))
  {
    hide Runs, Exposed;
    EveryTableFits(sensor, c, s);
    VmaxWithinRegister(c, s, asked, written);
  }

  /** Whatever the limit in force, fixed or stale: the exact condition, for every Sony sensor. */
  lemma {:induction false} EverySonySensorExactly(sensor: Sensor, c: Control, s: State, asked: U32, written: bool)
    requires Runs(sensor, c) && s.binning <= c.maxBinning && Lookup(c, s).Some?
    requires ExposureSony in c.flags && !Triggered(s.trigger)
    ensures Found(c, s) && SonyExact(c, s, asked, Exposed(c, s, asked, written))
  {
    hide Runs, Exposed;
    EveryTableFits(sensor, c, s);
    SonyExposedExactly(c, s, asked, written);
  }

  /** Right after set-up the limits are current, so every result above starts to apply there. */
  lemma {:induction false} SetUpIsCurrent(sensor: Sensor, c: Control, exposure: U32)
    requires Runs(sensor, c) && IncreaseFrameRate in c.flags && c.descModes != []
    requires Lookup(c, SetUp(c, exposure)).Some?
    ensures Rated(c, SetUp(c, exposure)) && Current(c, Updated(c, SetUp(c, exposure)))
  {
    var s := SetUp(c, exposure);
    EveryTableFits(sensor, c, s);
    hide Runs, Fits, Quotient, OptimizedVmax;
    MaxExposureSame(c, s, Updated(c, s));
  }

  lemma {:induction false} BinningStaysOffered(c: Control, s: State, ops: seq<Setting>)
    requires s.binning <= c.maxBinning && Sequence(c, s, ops)
    ensures After(c, s, ops).binning <= c.maxBinning
  {
    hide Exposed, Updated;
    if ops != [] {
      var front, op := ops[..|ops| - 1], ops[|ops| - 1];
      BinningStaysOffered(c, s, front);
      var t := Selected(c, After(c, s, front), op);
      AppliedKeepsBinning(c, After(c, s, front), op);
    }
  }

  lemma {:induction false} AppliedKeepsBinning(c: Control, s: State, op: Setting)
    requires Allowed(c, s, op)
    ensures Applied(c, s, op).binning == Selected(c, s, op).binning
  {
    var t := Selected(c, s, op);
    hide Exposed;
    if op.SetFramerate? {
      ExposedKeepsMode(c, t, t.exposure, op.written);
    } else if op.SetExposure? {
      ExposedKeepsMode(c, t, op.us, op.written);
    }
  }

  /**
    From set-up on, whatever is set in whatever order: as long as no binning change came after the last
    recomputation, every exposure of every such sensor has that outcome.
   */
  lemma {:induction false} EveryRunFromSetUp(sensor: Sensor, c: Control, exposure: U32, ops: seq<Setting>,
                                             us: U32, written: bool)
    requires Runs(sensor, c) && {IncreaseFrameRate, ExposureSony} <= c.flags && c.descModes != []
    requires Rated(c, SetUp(c, exposure)) && Sequence(c, Updated(c, SetUp(c, exposure)), ops) && Undisturbed(c, ops)
    requires !Triggered(After(c, Updated(c, SetUp(c, exposure)), ops).trigger)
    ensures var t := After(c, Updated(c, SetUp(c, exposure)), ops);
            Found(c, t) && SonyOutcome(c, t, us, Exposed(c, t, us, written))
  {
    var s := Updated(c, SetUp(c, exposure));
    var t := After(c, s, ops);
    SetUpIsCurrent(sensor, c, exposure);
    BinningStaysOffered(c, s, ops);
    LimitsStayCurrent(c, s, ops);
    hide Runs, After, Exposed, Updated, Sequence, Undisturbed, SetUp;
    EverySonySensorInRange(sensor, c, t, us, written);
  }

  lemma {:induction false} SonyOrNormal(sensor: Sensor)
    requires IncreaseFrameRate in Flags(sensor)
    ensures ExposureSony in Flags(sensor) || ExposureNormal in Flags(sensor)
  {
  }

  /** And in self-trigger mode every such run leaves true counts, as far as the frame time can be counted. */
  lemma {:induction false} EverySelfRunFromSetUp(sensor: Sensor, c: Control, exposure: U32, ops: seq<Setting>,
                                                 us: U32, written: bool)
    requires Runs(sensor, c) && IncreaseFrameRate in c.flags && c.descModes != []
    requires Rated(c, SetUp(c, exposure)) && Sequence(c, Updated(c, SetUp(c, exposure)), ops) && Undisturbed(c, ops)
    requires After(c, Updated(c, SetUp(c, exposure)), ops).trigger == Self
    ensures var t := After(c, Updated(c, SetUp(c, exposure)), ops);
            && Found(c, t) && SelfOutcome(c, t, us, Exposed(c, t, us, written))
            && Ticks(c, Clamp(us, c.exposureMin, t.exposureMax)) < TWO_32
  {
    var s := Updated(c, SetUp(c, exposure));
    SetUpIsCurrent(sensor, c, exposure);
    LimitsStayCurrent(c, s, ops);
    SonyOrNormal(sensor);
    assert c.flags == Flags(sensor);
    hide Runs, Flags, After, Exposed, Updated, Sequence, Undisturbed, SetUp;
    SelfWithCurrentLimits(c, After(c, s, ops), us, written);
  }

  lemma {:induction false} TriggerFlags(sensor: Sensor)
    ensures var f := Flags(sensor);
            && (TriggerExternal in f
                <==> sensor !in {IMX290, IMX327, IMX335, IMX412, IMX415, IMX462, IMX585, OV7251})
            && (TriggerPulsewidth in f
                <==> sensor in {IMX250, IMX252, IMX264, IMX265, IMX273, IMX296, IMX297, IMX392, IMX540, IMX565, IMX566,
                                IMX567, IMX568, IMX900})
            && (TriggerSelf in f || TriggerSelfV2 in f <==> TriggerExternal in f && sensor != OV9281)
            && (TriggerSelfV2 in f <==> sensor in {IMX296, IMX297})
  {
  }

  lemma {:induction false} OtherTriggerFlags(sensor: Sensor)
    ensures var f := Flags(sensor);
            && (TriggerSingle in f <==> TriggerSelf in f)
            && (TriggerSync in f || TriggerSlave in f <==> sensor in {IMX178, IMX183, IMX226, IMX412})
            && (TriggerStreamEdge in f <==> sensor == IMX226) && (TriggerStreamLevel in f <==> sensor == IMX226)
            && (TriggerOverlap in f <==> sensor == IMX252)
  {
  }

  /** Which sensors can be triggered how. */
  lemma {:induction false} TriggersOffered(sensor: Sensor, c: Control)
    requires Runs(sensor, c)
    ensures Supported(c, Disable)
    ensures Supported(c, External) <==> sensor !in {IMX290, IMX327, IMX335, IMX412, IMX415, IMX462, IMX585, OV7251}
    ensures Supported(c, Pulsewidth)
       <==> sensor in {IMX250, IMX252, IMX264, IMX265, IMX273, IMX296, IMX297, IMX392, IMX540, IMX565, IMX566, IMX567,
                       IMX568, IMX900}
    ensures Supported(c, Self) <==> Supported(c, External) && sensor != OV9281
    ensures Supported(c, Single) <==> Supported(c, Self) && sensor !in {IMX296, IMX297}
    ensures Supported(c, Sync) <==> sensor in {IMX178, IMX183, IMX226, IMX412}
    ensures Supported(c, StreamEdge) <==> sensor == IMX226
    ensures Supported(c, StreamLevel) <==> sensor == IMX226
    ensures Supported(c, Overlap) <==> sensor == IMX252
  {
    TriggerFlags(sensor);
    OtherTriggerFlags(sensor);
    SelfOnce(sensor);
    assert c.flags == Flags(sensor);
    hide Runs, Flags;
  }

  lemma {:induction false} SelfOnce(sensor: Sensor)
    ensures !(TriggerSelf in Flags(sensor) && TriggerSelfV2 in Flags(sensor))
  {
  }

  /** Only three sensors keep a fixed exposure limit; of the Sony ones, only IMX226. */
  lemma {:induction false} FixedLimits(sensor: Sensor)
    ensures IncreaseFrameRate !in Flags(sensor) <==> sensor in {IMX226, OV7251, OV9281}
  {
  }

  /** The IMX412: the same, through the other exposure path. */
  lemma {:induction false} Imx412InRange(c: Control, s: State, asked: U32, written: bool)
    requires Runs(IMX412, c) && s.binning <= c.maxBinning && Current(c, s) && !Triggered(s.trigger)
    ensures var t := Exposed(c, s, asked, written);
            && NormalOutcome(c, s, asked, t)
            && (t.vmax <= ModeOf(c, s).vmaxMax <==> AskedLines(c, s) <= ModeOf(c, s).vmaxMax)
  {
    assert ExposureSony !in c.flags && ExposureNormal in c.flags;
    hide Table, VFactors, Height, PixelClock, TriggerClock, ExposureLimits, FindMode, Quotient, Flags, Runs, Line;
    EveryTableFits(IMX412, c, s);
    hide Rated, Found, ProgrammedVmax, OptimizedVmax, Exposed, Clamp;
    ExposureFits(c, s, asked);
    NormalExposed(c, s, asked, written);
  }

  /** The Omnivision sensors: with their fixed limit the longest exposure decides for all of them. */
  lemma {:induction false} OmnivisionInRange(sensor: Sensor, c: Control, s: State, asked: U32, written: bool)
    requires sensor in {OV7251, OV9281} && Runs(sensor, c) && s.binning <= c.maxBinning && Lookup(c, s).Some?
    requires s.exposureMax == c.exposureMaxInit
    ensures Found(c, s) && AskedLines(c, s) < TWO_32
    ensures var t := Exposed(c, s, asked, written);
            && NormalOutcome(c, s, asked, t)
            && (t.vmax <= ModeOf(c, s).vmaxMax <==>
                  && AskedLines(c, s) <= ModeOf(c, s).vmaxMax
                  && ExposureLines(c, s, Clamp(asked, c.exposureMin, s.exposureMax)) <= 0xffff)
  {
    EveryTableFits(sensor, c, s);
    assert ModeOf(c, s).vmaxMax == 0xffff && CountsLines(c, s) && ExposureSony !in c.flags;
    var us := Clamp(asked, c.exposureMin, s.exposureMax);
    assert us <= 1_000_000;
    hide *;
    FewExposureLines(c, s, us);
    NormalExposed(c, s, asked, written);
    OutcomeMeans(c, s, asked, Exposed(c, s, asked, written));
  }

  lemma {:induction false} OutcomeMeans(c: Control, s: State, asked: U32, t: State)
    requires Found(c, s) && NormalOutcome(c, s, asked, t)
    ensures t.vmax <= ModeOf(c, s).vmaxMax
       <==> && AskedLines(c, s) <= ModeOf(c, s).vmaxMax
            && ExposureLines(c, s, Clamp(asked, c.exposureMin, s.exposureMax)) <= ModeOf(c, s).vmaxMax
  {
    hide Found, AskedLines, ExposureLines, OptimizedVmax;
  }

  lemma {:induction false} FewExposureLines(c: Control, s: State, us: U32)
    requires Found(c, s) && us <= 1_000_000
    ensures ExposureLines(c, s, us) < TWO_32
  {
    hide Quotient, Found, Line;
    QuotientAtMost(us * 1000, Line(c, s), TWO_32 - 1);
    Scale(1, Line(c, s), TWO_32);
  }

  /** The OV9281: its fixed limit of 595 ms is 65528 lines, just within the 16-bit register. */
  lemma {:induction false} Ov9281InRange(c: Control, s: State, asked: U32, written: bool)
    requires Runs(OV9281, c) && s.binning <= c.maxBinning && Lookup(c, s).Some? && s.exposureMax == c.exposureMaxInit
    ensures Found(c, s)
    ensures Exposed(c, s, asked, written).vmax <= ModeOf(c, s).vmaxMax <==> AskedLines(c, s) <= ModeOf(c, s).vmaxMax
  {
    LongestOfOv9281(c, s);
    OmnivisionInRange(OV9281, c, s, asked, written);
    hide Exposed, ExposureLines, Runs, Found;
    LinesRise(c, s, Clamp(asked, c.exposureMin, s.exposureMax), 595_000);
  }

  lemma {:induction false} LongestOfOv9281(c: Control, s: State)
    requires Runs(OV9281, c) && s.binning <= c.maxBinning && Lookup(c, s).Some?
    requires s.exposureMax == c.exposureMaxInit
    ensures Found(c, s) && s.exposureMax == 595_000
    ensures ExposureLines(c, s, 595_000) == 65528
  {
    EveryTableFits(OV9281, c, s);
    assert ModeOf(c, s).hmax == 227;
    assert Line(c, s) == 9080;
  }

  /**
    The OV7251: its fixed limit of one second keeps every exposure in range if and only if the pixel
    clock, which its module ROM gives, is at most 50593092 Hz.
   */
  lemma {:induction false} Ov7251InRange(c: Control, s: State)
    requires Runs(OV7251, c) && s.binning <= c.maxBinning && Lookup(c, s).Some? && s.exposureMax == c.exposureMaxInit
    requires AskedLines(c, s) <= 0xffff
    ensures (forall asked: U32, written :: Exposed(c, s, asked, written).vmax <= ModeOf(c, s).vmaxMax)
       <==> c.clkPixel <= 50_593_092
  {
    LongestOfOv7251(c, s);
    forall asked: U32, written: bool
      ensures Exposed(c, s, asked, written).vmax <= ModeOf(c, s).vmaxMax
         <==> ExposureLines(c, s, Clamp(asked, c.exposureMin, s.exposureMax)) <= 0xffff
    {
      OmnivisionInRange(OV7251, c, s, asked, written);
    }
    hide Exposed, ExposureLines, Quotient, Runs;
    if c.clkPixel <= 50_593_092 {
      forall asked: U32
        ensures ExposureLines(c, s, Clamp(asked, c.exposureMin, s.exposureMax)) <= 0xffff
      {
        LinesRise(c, s, Clamp(asked, c.exposureMin, s.exposureMax), 1_000_000);
      }
    } else {
      assert Clamp(1_000_000, c.exposureMin, s.exposureMax) == 1_000_000;
      assert Exposed(c, s, 1_000_000, true).vmax > ModeOf(c, s).vmaxMax;
    }
  }

  lemma {:induction false} LinesRise(c: Control, s: State, a: U32, b: U32)
    requires Found(c, s) && a <= b
    ensures ExposureLines(c, s, a) <= ExposureLines(c, s, b)
  {
    hide Quotient, Found, Line;
    DivisionBounds(b * 1000, Line(c, s));
    assert (ExposureLines(c, s, b) + 1) * Line(c, s) == ExposureLines(c, s, b) * Line(c, s) + Line(c, s);
    QuotientAtMost(a * 1000, Line(c, s), ExposureLines(c, s, b));
  }

  lemma {:induction false} LongestOfOv7251(c: Control, s: State)
    requires Runs(OV7251, c) && s.binning <= c.maxBinning && Lookup(c, s).Some?
    requires s.exposureMax == c.exposureMaxInit
    ensures Found(c, s) && ModeOf(c, s).vmaxMax == 0xffff && c.exposureMin == 1 && s.exposureMax == 1_000_000
    ensures ExposureLines(c, s, 1_000_000) <= 0xffff <==> c.clkPixel <= 50_593_092
  {
    EveryTableFits(OV7251, c, s);
    assert ModeOf(c, s).hmax == 772;
    hide Quotient, FindMode, OptimizedVmax;
    var p: nat := Line(c, s);
    PeriodInRange(772, c.clkPixel);
    assert p == Quotient(772_000_000_000, c.clkPixel);
    QuotientAtMost(1_000_000_000, p, 0xffff);
    QuotientAtMost(772_000_000_000, c.clkPixel, 15258);
    assert 65536 * p > 1_000_000_000 <==> p > 15258;
  }

  /** The IMX226: its limit is never recomputed, and 100 seconds are far more lines than VMAX can count. */
  lemma {:induction false} Imx226OutOfRange(c: Control, s: State)
    requires Runs(IMX226, c) && s.binning <= c.maxBinning && s.exposureMax == c.exposureMaxInit
    requires s.lanes == 2 && s.format == RAW08 && s.trigger == Disable && s.framerate == 0
    ensures Found(c, s) && Exposed(c, s, 100_000_000, true).vmax == 6_716_823 > ModeOf(c, s).vmaxMax
  {
    var blank := s.(vmax := 0, shs := 0, exposureCnt := 0, retriggerCnt := 0);
    assert Lookup(c, blank) == Some(Mode(2, RAW08, 0, 1072, 5, 0x1ffff, 3079, 2698560));
    EveryTableFits(IMX226, c, blank);
    EveryTableFits(IMX226, c, s);
    assert Line(c, blank) == 14888;
    assert ExposureLines(c, blank, 100_000_000) == 6_716_818;
    SonyClosedForm(c, blank, 100_000_000);
  }

  /** Nor is it so in that mode alone: no mode that counts lines, SYNC included, can count that request. */
  lemma {:induction false} Imx226NeverSafe(c: Control, s: State, written: bool)
    requires Runs(IMX226, c) && s.binning <= c.maxBinning && s.exposureMax == c.exposureMaxInit
    requires Lookup(c, s).Some? && !Triggered(s.trigger)
    ensures Found(c, s) && Exposed(c, s, 100_000_000, written).vmax > ModeOf(c, s).vmaxMax
  {
    hide Table, VFactors, Height, TriggerClock, FindMode, Quotient, Exposed;
    var m := Lookup(c, s).value;
    assert ExposureSony in c.flags && c.clkPixel == 72_000_000;
    assert Clamp(100_000_000, c.exposureMin, s.exposureMax) == 100_000_000;
    hide Flags, PixelClock, ExposureLimits;
    Imx226Row(m);
    EveryTableFits(IMX226, c, s);
    SonyExposedExactly(c, s, 100_000_000, written);
    hide Runs, AskedLines, Clamp;
    LongLines(m.hmax);
    CutAtMost(Quotient(m.hmax * 1_000_000_000, 72_000_000));
    assert Line(c, s) == Quotient(m.hmax * 1_000_000_000, 72_000_000);
    assert 0x2_0000 < ExposureLines(c, s, 100_000_000) <= 0x8000_0000;
  }

  lemma {:induction false} Imx226Row(m: Mode)
    requires m in Table(IMX226)
    ensures m.vmaxMin <= m.vmaxMax == 0x1ffff && 194 <= m.hmax <= 1288
  {
  }

  lemma {:induction false} LongLines(hmax: U32)
    requires 194 <= hmax <= 1288
    ensures var p := Quotient(hmax * 1_000_000_000, 72_000_000);
            0 < p < TWO_32 && 0x2_0000 < Quotient(100_000_000_000, p) <= 0x8000_0000
  {
    hide Quotient;
    DivisionBounds(hmax * 1_000_000_000, 72_000_000);
    var p := Quotient(hmax * 1_000_000_000, 72_000_000);
    assert 388 <= p <= 17888;
    QuotientAtMost(100_000_000_000, p, 0x2_0000);
    QuotientAtMost(100_000_000_000, p, 0x8000_0000);
  }

  /**
    Nor does the fixed limit protect its trigger counter: no request is cut, in any trigger mode that
    counts, if and only if the trigger clock is at most 42949672 Hz.
   */
  lemma {:induction false} Imx226TriggerCount(c: Control, s: State)
    requires Runs(IMX226, c) && s.binning <= c.maxBinning && s.exposureMax == c.exposureMaxInit
    requires Lookup(c, s).Some? && Triggered(s.trigger) && s.trigger != Pulsewidth
    ensures Found(c, s)
    ensures (forall asked: U32, written ::
               Exposed(c, s, asked, written).exposureCnt == Ticks(c, Clamp(asked, c.exposureMin, s.exposureMax)))
       <==> c.clkExtTrigger <= 42_949_672
  {
    EveryTableFits(IMX226, c, s);
    Imx226Limits(c);
    assert s.exposureMax == 100_000_000;
    hide Runs, Exposed, Found, Clamp, Ticks, Quotient, Lookup;
    if c.clkExtTrigger <= 42_949_672 {
      forall asked: U32, written: bool
        ensures Exposed(c, s, asked, written).exposureCnt == Ticks(c, Clamp(asked, c.exposureMin, s.exposureMax))
      {
        ExposureCount(c, s, asked, written);
        ClampedTicks(c, asked);
        CutAtMost(Ticks(c, Clamp(asked, c.exposureMin, s.exposureMax)));
      }
    } else {
      ExposureCount(c, s, 100_000_000, true);
      LongestTicks(c);
      assert Exposed(c, s, 100_000_000, true).exposureCnt
          != Ticks(c, Clamp(100_000_000, c.exposureMin, s.exposureMax));
    }
  }

  lemma {:induction false} Imx226Limits(c: Control)
    requires Runs(IMX226, c)
    ensures ExposureSony in c.flags && c.exposureMin == 1 && c.exposureMaxInit == 100_000_000
  {
  }

  lemma {:induction false} ClampedTicks(c: Control, asked: U32)
    requires c.clkExtTrigger <= 42_949_672
    ensures Ticks(c, Clamp(asked, 1, 100_000_000)) < TWO_32
  {
    hide Quotient;
    var us := Clamp(asked, 1, 100_000_000);
    Scale(us, 100_000_000, c.clkExtTrigger);
    QuotientAtMost(us * c.clkExtTrigger, 1_000_000, TWO_32 - 1);
  }

  lemma {:induction false} LongestTicks(c: Control)
    ensures Ticks(c, Clamp(100_000_000, 1, 100_000_000)) == 100 * c.clkExtTrigger
  {
  }

  lemma {:induction false} ExposureCount(c: Control, s: State, asked: U32, written: bool)
    requires Found(c, s) && Triggered(s.trigger) && s.trigger != Pulsewidth
    requires ExposureSony in c.flags || ExposureNormal in c.flags
    ensures Exposed(c, s, asked, written).exposureCnt == Cut(Ticks(c, Clamp(asked, c.exposureMin, s.exposureMax)))
  {
    hide Quotient, Lookup;
  }

  // ---- a self-trigger period that cannot be counted --------------------------------------------------

  predicate Imx296At54MHz(c: Control) {
    Runs(IMX296, c) && c.clkPixel == c.clkExtTrigger == 54_000_000 && c.descModes == [(1, RAW10)]
  }

  lemma {:induction false} Imx296Mode(c: Control)
    requires Imx296At54MHz(c)
    ensures FindMode(c.modes, 1, RAW10, 0) == Some(Mode(1, RAW10, 0, 0x44c, 5, 0xfffff, 0x45e, 883008))
    ensures UseBinningIndex in c.flags && SelfV2(c) && Supported(c, Self) && IncreaseFrameRate in c.flags
    ensures ExposureSony in c.flags && c.exposureMin == 1 && c.maxBinning == 1
  {
    hide FindMode, Quotient;
    FindAt(c.modes, 0, 1, RAW10, 0);
  }

  /** The counts that the state below is programmed with. */
  lemma {:induction false} LongFrameCounts(c: Control, t: State, written: bool)
    requires Imx296At54MHz(c) && Found(c, t) && ModeOf(c, t).retriggerMin == 883008
    requires t.trigger == Self && t.framerate == 1 && t.exposureMax >= 10_000
    ensures SelfTimed(c, t) && Ticks(c, SelfFrameTime(c, t)) == 54_000_000_000
    ensures var x := Exposed(c, t, 10_000, written); x.exposureCnt == 540_000 && x.retriggerCnt == 2_459_852_448
  {
    Imx296Mode(c);
    hide Imx296At54MHz, FindMode, OptimizedVmax, Line;
    assert MinFrameTime(c, t) == 16352;
  }

  lemma {:induction false} TwoSettings(c: Control, s: State, a: Setting, b: Setting)
    requires Allowed(c, s, a) && Allowed(c, Applied(c, s, a), b)
    ensures Sequence(c, s, [a, b]) && After(c, s, [a, b]) == Applied(c, Applied(c, s, a), b)
  {
    hide Applied, Allowed;
    assert [a, b][..1] == [a] && [a][..0] == [];
    assert Sequence(c, s, []) && After(c, s, []) == s;
    assert Sequence(c, s, [a]) && After(c, s, [a]) == Applied(c, s, a);
  }

  /** Self-trigger at one frame in 1000 seconds is accepted: the shortest frame's rate is above that. */
  lemma {:induction false} SlowSelfTrigger(c: Control, s: State, written: bool)
    requires Imx296At54MHz(c) && s.lanes == 1 && s.format == RAW10 && s.binning == 0 && s.height == c.height
    ensures var a, b := SetTrigger(Self), SetFramerate(1, written);
            && Allowed(c, s, a) && Allowed(c, Applied(c, s, a), b)
            && var t := Applied(c, Applied(c, s, a), b);
            && t.trigger == Self && t.framerate == 1 && t.exposureMax >= 10_000
            && Found(c, t) && ModeOf(c, t).retriggerMin == 883008
  {
    Imx296Mode(c);
    var s1 := s.(trigger := Self);
    SelfLimits(c, s1);
    hide Imx296At54MHz, FindMode, OptimizedVmax, Line, Fits, Exposed, MaxFrameRate, MaxExposure;
    var s2 := Updated(c, s1);
    var t := s2.(framerate := 1);
    ExposedKeepsMode(c, t, t.exposure, written);
  }

  lemma {:induction false} SelfFrame(c: Control, s: State)
    requires Imx296At54MHz(c) && s.lanes == 1 && s.format == RAW10 && s.binning == 0 && s.height == c.height
    ensures Rated(c, s) && Line(c, s) == 20370 && OptimizedVmax(c, s) == 0x45e
  {
    Imx296Mode(c);
    EveryTableFits(IMX296, c, s);
    SelfFrameNumbers();
    CutAtMost(20370);
    assert c.vFactors[0] == 0;
    hide Quotient, Cut, FindMode, Table, Flags, Fits, PixelClock, TriggerClock, ExposureLimits, VFactors, Height;
  }

  lemma {:induction false} SelfFrameNumbers()
    ensures Quotient(0x44c * 1_000_000_000, 54_000_000) == 20370
    ensures 20370 * 0x45e / 1000 == 22773 && Quotient(1_000_000_000, 22773) == 43_911
    ensures Quotient(0xffff_ffff * 1_000_000, 54_000_000) == 79_536_431
  {
  }

  lemma {:induction false} SelfLimits(c: Control, s: State)
    requires Imx296At54MHz(c) && s.trigger == Self
    requires s.lanes == 1 && s.format == RAW10 && s.binning == 0 && s.height == c.height
    ensures Rated(c, s) && MaxFrameRate(c, s) == 43_911 && MaxExposure(c, s) == 79_536_431
  {
    SelfFrame(c, s);
    SelfFrameNumbers();
    CutAtMost(43_911);
    CutAtMost(79_536_431);
    assert c.clkExtTrigger == 54_000_000;
    hide Imx296At54MHz, Quotient, Line, OptimizedVmax, Lookup, Cut;
  }

  /**
    A frame time that 32 bits of ticks cannot count is reached from set-up: an IMX296 with a 54 MHz
    trigger clock, set to self-trigger and then to one frame in 1000 seconds, is told to wait for 45.6.
   */
  lemma {:induction false} SelfFrameTooLong(c: Control, exposure: U32, written: bool)
    requires Imx296At54MHz(c)
    ensures Rated(c, SetUp(c, exposure))
    ensures var s, ops := Updated(c, SetUp(c, exposure)), [SetTrigger(Self), SetFramerate(1, written)];
            && Sequence(c, s, ops) && Undisturbed(c, ops)
            && var t := After(c, s, ops);
            && Found(c, t) && SelfTimed(c, t) && Ticks(c, SelfFrameTime(c, t)) == 54_000_000_000
            && var x := Exposed(c, t, 10_000, written);
            x.exposureCnt == 540_000 && x.retriggerCnt == 2_459_852_448
  {
    var s0, a, b := SetUp(c, exposure), SetTrigger(Self), SetFramerate(1, written);
    Imx296Mode(c);
    EveryTableFits(IMX296, c, s0);
    var s := Updated(c, s0);
    hide Imx296At54MHz, FindMode, Applied, Allowed, Exposed, SelfTimed, Ticks, SelfFrameTime, Fits;
    SlowSelfTrigger(c, s, written);
    TwoSettings(c, s, a, b);
    assert [a, b][..1] == [a];
    LongFrameCounts(c, After(c, s, [a, b]), written);
  }

  /**
    Changing the binning mode does not recompute the limits: an IMX565 on four lanes at 74.25 MHz,
    switched from full to binned readout, takes an exposure that VMAX cannot count.
   */
  lemma {:induction false} StaleAfterBinning(c: Control, s: State)
    requires Runs(IMX565, c) && c.clkPixel == 74_250_000 && c.descModes != []
    requires Current(c, s) && s.binning == 0 && s.lanes == 4 && s.format == RAW08
    requires s.trigger == Disable && s.framerate == 0
    ensures var t := Selected(c, s, SetBinning(1));
            && !Updates(c, SetBinning(1)) && t.exposureMax == s.exposureMax == 125_392_680
            && Found(c, t) && Exposed(c, t, 0xffff_ffff, true).vmax == 31_348_222 > ModeOf(c, t).vmaxMax
  {
    var t := s.(binning := 1);
    var blank := t.(vmax := 0, shs := 0, exposureCnt := 0, retriggerCnt := 0);
    assert c.exposureMin == 1 && ExposureSony in c.flags && !Updates(c, SetBinning(1));
    BinnedMode(c);
    FullLimit(c, s);
    hide Table, VFactors, Height, PixelClock, TriggerClock, ExposureLimits, Flags, FindMode, MaxExposure;
    EveryTableFits(IMX565, c, t);
    EveryTableFits(IMX565, c, blank);
    BinnedLines(c, blank);
    BlankingKept(c, blank);
    hide Quotient, Runs, Rated, OptimizedVmax, ShortestFrame, LineExposure, ExposureLines, ProgrammedVmax;
    SonyClosedForm(c, blank, 125_392_680);
  }

  lemma {:induction false} FullLimit(c: Control, s: State)
    requires Runs(IMX565, c) && c.clkPixel == 74_250_000 && Found(c, s) && s.trigger == Disable
    requires Lookup(c, s) == Some(Mode(4, RAW08, 0, 555, 30, 0xff_ffff, 0xc40, 1256094))
    ensures MaxExposure(c, s) == 125_392_680
  {
    hide Table, VFactors, Height, PixelClock, TriggerClock, ExposureLimits, Flags, FindMode, Runs;
    assert Line(c, s) == 7474;
  }

  lemma {:induction false} BinnedLines(c: Control, s: State)
    requires Runs(IMX565, c) && c.clkPixel == 74_250_000 && Found(c, s)
    requires Lookup(c, s) == Some(Mode(4, RAW08, 1, 297, 52, 0xff_ffff, 0x668, 347760))
    ensures ExposureLines(c, s, 125_392_680) == 31_348_170
  {
    hide Table, VFactors, Height, PixelClock, TriggerClock, ExposureLimits, Flags, FindMode, Runs;
    assert Line(c, s) == 4000;
  }

  lemma {:induction false} FindAt(modes: seq<Mode>, i: nat, lanes: nat, format: nat, index: nat)
    requires i < |modes| && Matches(modes[i], lanes, format, index)
    requires forall k :: 0 <= k < i ==> !Matches(modes[k], lanes, format, index)
    ensures FindMode(modes, lanes, format, index) == Some(modes[i])
  {
    if i > 0 {
      FindAt(modes[1..], i - 1, lanes, format, index);
    }
  }

  lemma {:induction false} BinnedMode(c: Control)
    requires Runs(IMX565, c)
    ensures FindMode(c.modes, 4, RAW08, 0) == Some(Mode(4, RAW08, 0, 555, 30, 0xff_ffff, 0xc40, 1256094))
    ensures FindMode(c.modes, 4, RAW08, 1) == Some(Mode(4, RAW08, 1, 297, 52, 0xff_ffff, 0x668, 347760))
    ensures UseBinningIndex in c.flags && c.maxBinning == 1
  {
    hide Quotient, FindMode;
    FindAt(c.modes, 3, 4, RAW08, 0);
    FindAt(c.modes, 9, 4, RAW08, 1);
  }
}
