/** A parametric EQ object inside a Soundweb London DSP
    (lib/mb/eq_loader/peq.rb): maps (band, parameter) to a state variable,
    converts the value to the device's integer range, and emits one Set
    message per change, writing it to the io when there is one. */
module ParametricEq {
  import opened Common
  import opened Bytes
  import opened Values
  import DIProtocol

  datatype Param = Bypass | Frequency | Boost | Width | Type | Slope | BypassAll

  /** SVID: the state variable offset of each parameter. */
  function SvOffset(p: Param): nat
  {
    match p
    case Bypass => 0
    case Frequency => 1
    case Boost => 2
    case Width => 3
    case Type => 4
    case Slope => 6
    case BypassAll => 512
  }

  /** TYPES: symbolic filter types. */
  const Types: map<string, int> := map["bell" := 0, "peak" := 0, "low_shelf" := 1, "high_shelf" := 2]

  /** SLOPES: slopes in dB/octave and their device codes. */
  const Slopes: map<int, int> := map[6 := 0, 9 := 1, 12 := 2, 15 := 3]

  /** The virtual device of every parametric EQ. */
  const PeqVd: int := 0x03

  /** SVs per band. */
  const BandStride: int := 16

  /** The order in which `set_band` sets a band's parameters. */
  const BandOrder: seq<Param> := [Bypass, Type, Frequency, Boost, Width, Slope]

  /** `sv_id`: the state variable of parameter `p` on a 1-indexed band. */
  function SvId(band: int, p: Param): (sv: int)
    ensures p != BypassAll ==> (band - 1) * BandStride <= sv < band * BandStride
  {
    SvOffset(p) + (band - 1) * BandStride
  }

  /** For a band-scoped parameter the SV splits back into band and offset:
      each band owns 16 consecutive SVs and the parameters sit at distinct
      offsets within them. */
  lemma SvIdDecomposes(band: int, p: Param)
    requires p != BypassAll
    ensures SvId(band, p) / BandStride == band - 1
    ensures SvId(band, p) % BandStride == SvOffset(p)
  {
    DivModUnique(SvId(band, p), BandStride, band - 1, SvOffset(p));
  }

  /** No two band-scoped (band, parameter) pairs share an SV. */
  lemma SvIdInjective(band1: int, p1: Param, band2: int, p2: Param)
    requires p1 != BypassAll && p2 != BypassAll
    requires SvId(band1, p1) == SvId(band2, p2)
    ensures band1 == band2 && p1 == p2
  {
    SvIdDecomposes(band1, p1);
    SvIdDecomposes(band2, p2);
  }

  /** For bands 1 to 32 every band-scoped SV lies below the global bypass SV. */
  lemma SvIdBelowBypassAll(band: int, p: Param)
    requires 1 <= band <= 32 && p != BypassAll
    ensures 0 <= SvId(band, p) < SvOffset(BypassAll)
  {
  }

  /** `sv_id` does not bound the band: the bypass of band 33 is the one
      band-scoped SV that coincides with the global bypass SV. */
  lemma SvIdReachesBypassAll(band: int, p: Param)
    requires p != BypassAll
    ensures SvId(band, p) == SvOffset(BypassAll) <==> band == 33 && p == Bypass
  {
    if SvId(band, p) == SvOffset(BypassAll) {
      SvIdDecomposes(band, p);
      assert SvOffset(p) == 0;
    }
  }

  /** `set_type`'s lookup: symbols go through TYPES (`fetch` raises KeyError
      for an unknown name); any other value is passed on unchanged. */
  function ResolveType(v: Value): (r: Result<Value>)
    ensures v.Sym? && v.name in Types ==> r == Success(Int(Types[v.name]))
    ensures v.Sym? && v.name !in Types ==> r == Failure(KeyNotFound)
    ensures !v.Sym? ==> r == Success(v)
  {
    match v
    case Sym(name) => if name in Types then Success(Int(Types[name])) else Failure(KeyNotFound)
    case _ => Success(v)
  }

  /** `set_slope`'s lookup: a value `>= 6` is a slope in dB/octave looked up
      in SLOPES, a smaller one is already a device code. A float `>= 6` is
      never a key of SLOPES (6.0 is not `eql?` to 6); nil and booleans have no
      `>=`, and a symbol cannot be compared with 6. */
  function ResolveSlope(v: Value): (r: Result<Value>)
    ensures v.Int? && v.i >= 6 && v.i in Slopes ==> r == Success(Int(Slopes[v.i]))
    ensures v.Int? && v.i >= 6 && v.i !in Slopes ==> r == Failure(KeyNotFound)
    ensures v.Int? && v.i < 6 ==> r == Success(v)
    ensures v.Float? && v.x >= 6.0 ==> r == Failure(KeyNotFound)
    ensures v.Float? && v.x < 6.0 ==> r == Success(v)
    ensures v.Sym? ==> r == Failure(ComparisonFailed)
    ensures v.Nil? || v.Bool? ==> r == Failure(UndefinedMethod)
  {
    match v
    case Int(i) =>
      if i >= 6 then (if i in Slopes then Success(Int(Slopes[i])) else Failure(KeyNotFound))
      else Success(v)
    case Float(x) => if x >= 6.0 then Failure(KeyNotFound) else Success(v)
    case Sym(_) => Failure(ComparisonFailed)
    case Nil => Failure(UndefinedMethod)
    case Bool(_) => Failure(UndefinedMethod)
  }

  /** `convert_value`: the per-parameter conversion to the device's range,
      and the exception each conversion raises for a value it cannot take. */
  function ConvertValue(units: Units, p: Param, v: Value): (r: Result<int>)
    ensures p == Bypass ==> r.Success?
    ensures p == Frequency && !(v.Int? || v.Float?) ==> r == Failure(NotFloatConvertible)
    ensures p == Frequency && ((v.Int? && v.i <= 0) || (v.Float? && v.x <= 0.0)) ==> r == Failure(MathDomain)
    ensures p in {Boost, Width} && !(v.Int? || v.Float?) ==> r == Failure(UndefinedMethod)
    ensures p in {Type, Slope} && (v.Bool? || v.Sym?) ==> r == Failure(UndefinedMethod)
    ensures p == BypassAll ==> r == Failure(InvalidParameter)
  {
    match p
    case Bypass => Success(Binary(v))
    case Frequency => Log(units, v)
    case Boost => Scalar(units, v)
    case Width => Scalar(units, v)
    case Type => ToI(v)
    case Slope => ToI(v)
    case BypassAll => Failure(InvalidParameter)
  }

  /** The lookup a setter applies before `set`: `set_type` resolves symbolic
      types, `set_slope` dB/octave slopes; the other setters pass the value on. */
  function Resolve(p: Param, v: Value): Result<Value>
  {
    match p
    case Type => ResolveType(v)
    case Slope => ResolveSlope(v)
    case _ => Success(v)
  }

  lemma SetTypeResolution(v: Value)
    ensures ResolveType(Sym("bell")) == Success(Int(0)) && ResolveType(Sym("peak")) == Success(Int(0))
    ensures ResolveType(Sym("low_shelf")) == Success(Int(1))
    ensures ResolveType(Sym("high_shelf")) == Success(Int(2))
    ensures v.Sym? && v.name !in {"bell", "peak", "low_shelf", "high_shelf"} ==> ResolveType(v) == Failure(KeyNotFound)
    ensures !v.Sym? ==> ResolveType(v) == Success(v)
  {
  }

  /** The slope dispatch: 6, 9, 12, 15 dB/octave become codes 0 to 3, any
      other integer `>= 6` fails, and an integer below 6 is sent as it is. */
  lemma SetSlopeResolution(i: int)
    ensures i >= 6 ==> (ResolveSlope(Int(i)).Success? <==> i in {6, 9, 12, 15})
    ensures i in {6, 9, 12, 15} ==> ResolveSlope(Int(i)) == Success(Int((i - 6) / 3))
    ensures i < 6 ==> ResolveSlope(Int(i)) == Success(Int(i))
  {
  }

  /** Which conversion each parameter gets, and which values it accepts. */
  lemma ConvertValueDispatch(units: Units, p: Param, v: Value)
    ensures p == Bypass ==> ConvertValue(units, p, v) == Success(if Truthy(v) then 1 else 0)
    ensures p == Frequency ==> ConvertValue(units, p, v) == Log(units, v)
    ensures p in {Boost, Width} ==> ConvertValue(units, p, v) == Scalar(units, v)
    ensures p in {Type, Slope} ==> ConvertValue(units, p, v) == ToI(v)
    ensures p in {Boost, Width} && v.Int? ==> ConvertValue(units, p, v) == Success(v.i * 10000)
    ensures p in {Boost, Width} && v.Float? ==> ConvertValue(units, p, v) == Success(units.scalar(v.x))
    ensures p == Frequency && v.Float? && v.x > 0.0 ==> ConvertValue(units, p, v) == Success(units.log(v.x))
    ensures p in {Type, Slope} && v.Int? ==> ConvertValue(units, p, v) == Success(v.i)
    ensures p == BypassAll ==> ConvertValue(units, p, v) == Failure(InvalidParameter)
    ensures ConvertValue(units, p, v).Success? <==>
      match p
      case Bypass => true
      case Frequency => (v.Int? && v.i > 0) || (v.Float? && v.x > 0.0)
      case Boost => v.Int? || v.Float?
      case Width => v.Int? || v.Float?
      case Type => v.Int? || v.Float? || v.Nil?
      case Slope => v.Int? || v.Float? || v.Nil?
      case BypassAll => false
  {
  }

  class Peq {
    const node: int
    /** The virtual device of every parametric EQ. */
    const vd: int := PeqVd
    const obj: int
    const hasIo: bool
    const units: Units
    /** The messages written to the io so far, oldest first. */
    ghost var written: seq<seq<Byte>>

    constructor (node: int, obj: int, hasIo: bool, units: Units)
      ensures this.node == node && this.obj == obj && this.hasIo == hasIo && this.units == units
      ensures vd == PeqVd && written == []
    {
      this.node := node;
      this.obj := obj;
      this.hasIo := hasIo;
      this.units := units;
      written := [];
    }

    /** `create_set`: the wire-ready Set message for one parameter change. The
        global bypass ignores the band and always targets SV 512; any other
        parameter needs a band (`nil - 1` raises) and a convertible value. */
    function CreateSet(band: Option<int>, p: Param, v: Value): (r: Result<seq<Byte>>)
      ensures r.Success? <==> p == BypassAll || (band.Some? && ConvertValue(units, p, v).Success?)
      ensures p != BypassAll && band.None? ==> r == Failure(UndefinedMethod)
      ensures p != BypassAll && band.Some? && ConvertValue(units, p, v).Failure? ==>
        r == Failure(ConvertValue(units, p, v).error)
    {
      if p == BypassAll then Success(DIProtocol.SetSv(node, vd, obj, SvOffset(BypassAll), Binary(v)))
      else if band.None? then Failure(UndefinedMethod)
      else match ConvertValue(units, p, v)
        case Failure(e) => Failure(e)
        case Success(value) => Success(DIProtocol.SetSv(node, vd, obj, SvId(band.value, p), value))
    }

    /** The state variable a successful CreateSet targets: a reading aid for
        the lemmas, naming the choice CreateSet makes between SV 512 and `sv_id`. */
    function TargetSv(band: Option<int>, p: Param): int
      requires p == BypassAll || band.Some?
    {
      if p == BypassAll then SvOffset(BypassAll) else SvId(band.value, p)
    }

    /** Every message the object emits is a Set (0x88) addressed to this
        object's node and object with virtual device 3, carrying the target SV
        and the converted value. */
    lemma CreateSetDecodes(band: Option<int>, p: Param, v: Value)
      requires CreateSet(band, p, v).Success?
      ensures var m := DIProtocol.DecodeMessage(CreateSet(band, p, v).value);
        && m.Some? && |m.value| == DIProtocol.PayloadLength
        && m.value[0] == 0x88
        && FromBigEndian(m.value[1..7]) == DIProtocol.PackAddress(node, PeqVd, obj)
        && FromBigEndian(m.value[7..9]) == TargetSv(band, p) % 0x1_0000
        && FromBigEndian(m.value[9..13]) ==
             (if p == BypassAll then Binary(v) else ConvertValue(units, p, v).value) % 0x1_0000_0000
    {
      if p == BypassAll {
        DIProtocol.SetSvDecodes(node, vd, obj, SvOffset(BypassAll), Binary(v));
      } else {
        DIProtocol.SetSvDecodes(node, vd, obj, SvId(band.value, p), ConvertValue(units, p, v).value);
      }
    }

    /** The global bypass goes to SV 512 with value 0 or 1, whatever the band. */
    lemma BypassAllTargetsSv512(band: Option<int>, v: Value)
      ensures CreateSet(band, BypassAll, v) == CreateSet(None, BypassAll, v)
      ensures var m := DIProtocol.DecodeMessage(CreateSet(band, BypassAll, v).value);
        && m.Some? && |m.value| == DIProtocol.PayloadLength
        && FromBigEndian(m.value[7..9]) == 512
        && FromBigEndian(m.value[9..13]) in {0, 1}
    {
      var b := Binary(v);
      assert CreateSet(band, BypassAll, v) == Success(DIProtocol.SetSv(node, vd, obj, 512, b));
      DivModUnique(512, 0x1_0000, 0, 512);
      DivModUnique(b, 0x1_0000_0000, 0, b);
      DIProtocol.SetSvDecodes(node, vd, obj, 512, b);
    }

    /** The message a public setter sends for parameter `p` on `band`, or the
        exception it raises: the setter's lookup runs first, then `set`. */
    function SetterMessage(band: Option<int>, p: Param, v: Value): Result<seq<Byte>>
    {
      match Resolve(p, v)
      case Failure(e) => Failure(e)
      case Success(code) => CreateSet(band, p, code)
    }

    /** The integer a public setter puts in the value field: a reading aid for
        the lemmas, naming the lookup-then-convert path SetterMessage takes. */
    function SentValue(p: Param, v: Value): Result<int>
    {
      match Resolve(p, v)
      case Failure(e) => Failure(e)
      case Success(code) => if p == BypassAll then Success(Binary(code)) else ConvertValue(units, p, code)
    }

    /** Every public setter either raises or sends `set_sv` for this object's
        node and object, the parameter's SV on the band (512 for the global
        bypass) and the converted value. A nil band raises once the setter's
        own lookup has passed, before the value is converted. */
    lemma SetterMessageIsSetSv(band: Option<int>, p: Param, v: Value)
      ensures p == BypassAll || band.Some? ==>
        SetterMessage(band, p, v) ==
          match SentValue(p, v)
          case Success(x) => Success(DIProtocol.SetSv(node, vd, obj, TargetSv(band, p), x))
          case Failure(e) => Failure(e)
      ensures p != BypassAll && band.None? ==>
        SetterMessage(band, p, v) ==
          match Resolve(p, v)
          case Success(_) => Failure(UndefinedMethod)
          case Failure(e) => Failure(e)
    {
    }

    /** A band-scoped setter that succeeds was given a band, and sent `set_sv`
        with the band's SV for the parameter and the converted value. */
    lemma SetterSucceeds(band: Option<int>, p: Param, v: Value)
      requires p != BypassAll && SetterMessage(band, p, v).Success?
      ensures band.Some? && SentValue(p, v).Success?
      ensures SetterMessage(band, p, v).value == DIProtocol.SetSv(node, vd, obj, SvId(band.value, p), SentValue(p, v).value)
    {
      SetterMessageIsSetSv(band, p, v);
    }

    /** What `set_band`'s six calls produce, in call order: call `i` sets
        parameter `BandOrder[i]` to the `i`-th value. */
    function BandSteps(band: Option<int>, bypass: Value, frequency: Value, gain: Value, width: Value, t: Value, slope: Value)
      : (steps: seq<Result<seq<Byte>>>)
      ensures |steps| == |BandOrder|
    {
      seq(6, i requires 0 <= i < 6 => BandCall(band, i, bypass, frequency, gain, width, t, slope))
    }

    /** The `i`-th element of `set_band`'s array literal. */
    function BandCall(band: Option<int>, i: int, bypass: Value, frequency: Value, gain: Value, width: Value, t: Value, slope: Value)
      : Result<seq<Byte>>
    {
      if i == 0 then SetterMessage(band, Bypass, bypass)
      else if i == 1 then SetterMessage(band, Type, t)
      else if i == 2 then SetterMessage(band, Frequency, frequency)
      else if i == 3 then SetterMessage(band, Boost, gain)
      else if i == 4 then SetterMessage(band, Width, width)
      else SetterMessage(band, Slope, slope)
    }

    /** The first three calls of `set_band`: bypass, type, frequency. */
    lemma BandStepsHead(band: Option<int>, bypass: Value, frequency: Value, gain: Value, width: Value, t: Value, slope: Value)
      ensures var steps := BandSteps(band, bypass, frequency, gain, width, t, slope);
        && steps[0] == SetterMessage(band, Bypass, bypass)
        && steps[1] == SetterMessage(band, Type, t)
        && steps[2] == SetterMessage(band, Frequency, frequency)
    {
    }

    /** The last three calls of `set_band`: gain, width, slope. */
    lemma BandStepsTail(band: Option<int>, bypass: Value, frequency: Value, gain: Value, width: Value, t: Value, slope: Value)
      ensures var steps := BandSteps(band, bypass, frequency, gain, width, t, slope);
        && steps[3] == SetterMessage(band, Boost, gain)
        && steps[4] == SetterMessage(band, Width, width)
        && steps[5] == SetterMessage(band, Slope, slope)
    {
    }

    /** Call `i` of a successful `set_band` sends the SV of `BandOrder[i]` on the band. */
    lemma BandStep(band: Option<int>, bypass: Value, frequency: Value, gain: Value, width: Value, t: Value, slope: Value, i: int)
      requires 0 <= i < 6
      requires BandSteps(band, bypass, frequency, gain, width, t, slope)[i].Success?
      ensures var values := [bypass, t, frequency, gain, width, slope];
        && band.Some?
        && SentValue(BandOrder[i], values[i]).Success?
        && BandSteps(band, bypass, frequency, gain, width, t, slope)[i].value ==
             DIProtocol.SetSv(node, vd, obj, SvId(band.value, BandOrder[i]), SentValue(BandOrder[i], values[i]).value)
    {
      var values := [bypass, t, frequency, gain, width, slope];
      assert BandSteps(band, bypass, frequency, gain, width, t, slope)[i] == SetterMessage(band, BandOrder[i], values[i]);
      SetterSucceeds(band, BandOrder[i], values[i]);
    }

    /** A successful `set_band` was given a band and returns six messages, for
        the band's bypass, type, frequency, gain, width and slope SVs in that
        order. */
    lemma SetBandOrder(band: Option<int>, bypass: Value, frequency: Value, gain: Value, width: Value, t: Value, slope: Value)
      requires Collect(BandSteps(band, bypass, frequency, gain, width, t, slope)).Success?
      ensures var ms := Collect(BandSteps(band, bypass, frequency, gain, width, t, slope)).value;
        var values := [bypass, t, frequency, gain, width, slope];
        && band.Some?
        && |ms| == 6
        && forall i :: 0 <= i < 6 ==>
             SentValue(BandOrder[i], values[i]).Success? &&
             ms[i] == DIProtocol.SetSv(node, vd, obj, SvId(band.value, BandOrder[i]), SentValue(BandOrder[i], values[i]).value)
    {
      var steps := BandSteps(band, bypass, frequency, gain, width, t, slope);
      var values := [bypass, t, frequency, gain, width, slope];
      CollectSucceeds(steps);
      CollectAllSucceed(steps);
      BandStep(band, bypass, frequency, gain, width, t, slope, 0);
      forall i | 0 <= i < 6
        ensures SentValue(BandOrder[i], values[i]).Success?
        ensures steps[i].value == DIProtocol.SetSv(node, vd, obj, SvId(band.value, BandOrder[i]), SentValue(BandOrder[i], values[i]).value)
      {
        BandStep(band, bypass, frequency, gain, width, t, slope, i);
      }
    }

    /** A setter succeeds when it is given a band, its lookup resolves the
        value and the resolved value converts. */
    lemma SetterSucceedsOn(band: Option<int>, p: Param, v: Value, code: Value)
      requires p != BypassAll && band.Some?
      requires Resolve(p, v) == Success(code) && ConvertValue(units, p, code).Success?
      ensures SetterMessage(band, p, v).Success?
    {
    }

    /** `set_band` returns six messages when it is given a band, the type and
        slope lookups resolve, and every value converts. */
    lemma BandSucceeds(band: Option<int>, bypass: Value, frequency: Value, gain: Value, width: Value, t: Value, slope: Value,
                       typeCode: Value, slopeCode: Value)
      requires band.Some? && ResolveType(t) == Success(typeCode) && ResolveSlope(slope) == Success(slopeCode)
      requires ConvertValue(units, Frequency, frequency).Success? && ConvertValue(units, Boost, gain).Success?
      requires ConvertValue(units, Width, width).Success?
      requires ConvertValue(units, Type, typeCode).Success? && ConvertValue(units, Slope, slopeCode).Success?
      ensures var r := Collect(BandSteps(band, bypass, frequency, gain, width, t, slope));
        r.Success? && |r.value| == 6
    {
      var steps := BandSteps(band, bypass, frequency, gain, width, t, slope);
      BandStepsHead(band, bypass, frequency, gain, width, t, slope);
      BandStepsTail(band, bypass, frequency, gain, width, t, slope);
      SetterSucceedsOn(band, Bypass, bypass, bypass);
      SetterSucceedsOn(band, Type, t, typeCode);
      SetterSucceedsOn(band, Frequency, frequency, frequency);
      SetterSucceedsOn(band, Boost, gain, gain);
      SetterSucceedsOn(band, Width, width, width);
      SetterSucceedsOn(band, Slope, slope, slopeCode);
      forall j | 0 <= j < 6
        ensures steps[j].Success?
      {
        if j == 0 {} else if j == 1 {} else if j == 2 {} else if j == 3 {} else if j == 4 {} else {}
      }
      CollectAllSucceed(steps);
    }

    /** The call of peq_spec.rb: band 3, not bypassed, 500 Hz, 3 dB, a quarter
        octave, a bell, slope code 0, returns six messages. */
    lemma SpecBandSucceeds(band: Option<int>, bypass: Value, frequency: Value, gain: Value, width: Value, t: Value, slope: Value)
      requires band == Some(3) && bypass == Bool(false) && frequency == Int(500) && gain == Int(3)
      requires width == Float(0.25) && t == Sym("bell") && slope == Int(0)
      ensures var r := Collect(BandSteps(band, bypass, frequency, gain, width, t, slope));
        r.Success? && |r.value| == 6
    {
      SetTypeResolution(t);
      SetSlopeResolution(0);
      BandSucceeds(band, bypass, frequency, gain, width, t, slope, Int(0), Int(0));
    }

    /** `set`: creates the message and, when there is an io, writes it. A
        failed creation writes nothing. */
    method Set(band: Option<int>, p: Param, v: Value) returns (r: Result<seq<Byte>>)
      modifies this
      ensures r == CreateSet(band, p, v)
      ensures written == old(written) + (if hasIo && r.Success? then [r.value] else [])
    {
      r := CreateSet(band, p, v);
      if hasIo && r.Success? {
        written := written + [r.value];
      }
    }

    method SetBypassAll(v: Value) returns (r: Result<seq<Byte>>)
      modifies this
      ensures r == CreateSet(None, BypassAll, v) && r.Success?
      ensures written == old(written) + (if hasIo then [r.value] else [])
    {
      r := Set(None, BypassAll, v);
    }

    method SetBypass(band: Option<int>, v: Value) returns (r: Result<seq<Byte>>)
      modifies this
      ensures r == SetterMessage(band, Bypass, v) && (r.Success? <==> band.Some?)
      ensures written == old(written) + (if hasIo && r.Success? then [r.value] else [])
    {
      r := Set(band, Bypass, v);
    }

    method SetFrequency(band: Option<int>, hz: Value) returns (r: Result<seq<Byte>>)
      modifies this
      ensures r == SetterMessage(band, Frequency, hz)
      ensures written == old(written) + (if hasIo && r.Success? then [r.value] else [])
    {
      r := Set(band, Frequency, hz);
    }

    /** `set_gain`, also reachable as `set_boost`. */
    method SetGain(band: Option<int>, db: Value) returns (r: Result<seq<Byte>>)
      modifies this
      ensures r == SetterMessage(band, Boost, db)
      ensures written == old(written) + (if hasIo && r.Success? then [r.value] else [])
    {
      r := Set(band, Boost, db);
    }

    /** `set_width`, also reachable as `set_bandwidth`. */
    method SetWidth(band: Option<int>, octaves: Value) returns (r: Result<seq<Byte>>)
      modifies this
      ensures r == SetterMessage(band, Width, octaves)
      ensures written == old(written) + (if hasIo && r.Success? then [r.value] else [])
    {
      r := Set(band, Width, octaves);
    }

    method SetType(band: Option<int>, t: Value) returns (r: Result<seq<Byte>>)
      modifies this
      ensures r == SetterMessage(band, Type, t)
      ensures written == old(written) + (if hasIo && r.Success? then [r.value] else [])
    {
      var code := ResolveType(t);
      if code.Failure? {
        return Failure(code.error);
      }
      r := Set(band, Type, code.value);
    }

    method SetSlope(band: Option<int>, s: Value) returns (r: Result<seq<Byte>>)
      modifies this
      ensures r == SetterMessage(band, Slope, s)
      ensures written == old(written) + (if hasIo && r.Success? then [r.value] else [])
    {
      var code := ResolveSlope(s);
      if code.Failure? {
        return Failure(code.error);
      }
      r := Set(band, Slope, code.value);
    }

    /** `set_band`: the six setters in order. An exception from one of them
        propagates, after the earlier messages have already been written. */
    method SetBand(band: Option<int>, bypass: Value, frequency: Value, gain: Value, width: Value, t: Value, slope: Value)
      returns (r: Result<seq<seq<Byte>>>)
      modifies this
      ensures r == Collect(BandSteps(band, bypass, frequency, gain, width, t, slope))
      ensures written == old(written) +
        (if hasIo then Delivered(BandSteps(band, bypass, frequency, gain, width, t, slope)) else [])
      ensures r.Success? ==> |r.value| == 6 && written == old(written) + (if hasIo then r.value else [])
    {
      ghost var steps := BandSteps(band, bypass, frequency, gain, width, t, slope);
      BandStepsHead(band, bypass, frequency, gain, width, t, slope);
      BandStepsTail(band, bypass, frequency, gain, width, t, slope);
      var m0 := SetBypass(band, bypass);
      assert steps[0] == m0;
      if m0.Failure? {
        Halted(steps, 0, []);
        return Failure(m0.error);
      }
      var sent := [m0.value];
      RanStep(steps, 0, [], m0);
      assert written == old(written) + (if hasIo then sent else []);
      var m1 := SetType(band, t);
      assert steps[1] == m1;
      if m1.Failure? {
        Halted(steps, 1, sent);
        return Failure(m1.error);
      }
      RanStep(steps, 1, sent, m1);
      SeqAssoc(old(written), sent, [m1.value]);
      sent := sent + [m1.value];
      assert written == old(written) + (if hasIo then sent else []);
      var m2 := SetFrequency(band, frequency);
      assert steps[2] == m2;
      if m2.Failure? {
        Halted(steps, 2, sent);
        return Failure(m2.error);
      }
      RanStep(steps, 2, sent, m2);
      SeqAssoc(old(written), sent, [m2.value]);
      sent := sent + [m2.value];
      assert written == old(written) + (if hasIo then sent else []);
      var m3 := SetGain(band, gain);
      assert steps[3] == m3;
      if m3.Failure? {
        Halted(steps, 3, sent);
        return Failure(m3.error);
      }
      RanStep(steps, 3, sent, m3);
      SeqAssoc(old(written), sent, [m3.value]);
      sent := sent + [m3.value];
      assert written == old(written) + (if hasIo then sent else []);
      var m4 := SetWidth(band, width);
      assert steps[4] == m4;
      if m4.Failure? {
        Halted(steps, 4, sent);
        return Failure(m4.error);
      }
      RanStep(steps, 4, sent, m4);
      SeqAssoc(old(written), sent, [m4.value]);
      sent := sent + [m4.value];
      assert written == old(written) + (if hasIo then sent else []);
      var m5 := SetSlope(band, slope);
      assert steps[5] == m5;
      if m5.Failure? {
        Halted(steps, 5, sent);
        return Failure(m5.error);
      }
      RanStep(steps, 5, sent, m5);
      SeqAssoc(old(written), sent, [m5.value]);
      sent := sent + [m5.value];
      assert written == old(written) + (if hasIo then sent else []);
      Finished(steps, sent);
      r := Success(sent);
    }
  }

  /** peq_spec.rb's `set_band` test: a PEQ at node 0x1000, object 0x100, with
      an io, returns six messages for band 3 and writes exactly those six. */
  method SpecSetBand(units: Units) returns (peq: Peq, r: Result<seq<seq<Byte>>>)
    ensures r.Success? && |r.value| == 6
    ensures peq.written == r.value && peq.node == 0x1000 && peq.obj == 0x100
  {
    peq := new Peq(0x1000, 0x100, true, units);
    var band, bypass, frequency, gain, width, t, slope :=
      Some(3), Bool(false), Int(500), Int(3), Float(0.25), Sym("bell"), Int(0);
    peq.SpecBandSucceeds(band, bypass, frequency, gain, width, t, slope);
    r := peq.SetBand(band, bypass, frequency, gain, width, t, slope);
  }
}
