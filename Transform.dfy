/** The per-tick output policy: the live line built from the two snapshots,
    the constant all-zero line, and the choice between them. Decimal rendering
    of an f32 with two digits (`{:.2}`) is kept abstract as a parameter
    `render`; only its one relevant trait, that it never yields ';' or '\n',
    is assumed where a lemma needs it. */
module Transform {
  import opened Snapshots
  import opened RecordFormat

  const Tag: string := "bms"

  /** `compute_zero_data` formats nine integer zeros; Rust ignores the `.2`
      precision for integers, so every field is the single digit "0". */
  const ZeroLine: string := "bms;0;0;0;0;0;0;0;0;0\n"

  /** The nine "0" fields of the zero line. */
  const ZeroFields: seq<string> := ["0", "0", "0", "0", "0", "0", "0", "0", "0"]

  /** A renderer whose output can sit between separators: Rust's float
      formatting yields digits, '-', '.', "NaN" or "inf", never ';' or '\n'. */
  ghost predicate FieldSafe(render: real -> string)
  {
    forall x: real :: IsPlainField(render(x))
  }

  /** `compute_is_on_ground`: 1.0 on the ground, 0.0 in the air. */
  function ComputeIsOnGround(s: IntellivibeData): (indicator: real)
    ensures indicator == 1.0 <==> s.onGround
    ensures indicator == 0.0 <==> !s.onGround
  {
    if s.onGround then 1.0 else 0.0
  }

  /** The nine values of the live line, in the order they are formatted:
      ias, vspeed, aoa, g_force, gear, airbrake, flaps, thrust, on_ground. */
  function LiveValues(f: FlightData, s: IntellivibeData): (values: seq<real>)
  {
    [ f.kias * 1.852,
      f.zDot * 0.3048,
      f.alpha,
      s.gForce,
      f.gearPos,
      f.speedBrake * 100.0,
      0.0,  // flaps: no source for it, always zero
      f.rpm,
      ComputeIsOnGround(s) ]
  }

  function RenderAll(render: real -> string, values: seq<real>): (fields: seq<string>)
  {
    seq(|values|, i requires 0 <= i < |values| => render(values[i]))
  }

  /** `compute_actual_flight_data`: the tag and the nine rendered values. */
  function ComputeActualFlightData(render: real -> string, f: FlightData, s: IntellivibeData): (line: string)
  {
    FormatRecord(Tag, RenderAll(render, LiveValues(f, s)))
  }

  /** `compute_zero_data`: the tag followed by nine "0" fields. */
  function ComputeZeroData(): (line: string)
    ensures ParseRecord(line) == [Tag] + ZeroFields
  {
    ZeroLineIsRecord();
    RecordRoundTrip(Tag, ZeroFields);
    ZeroLine
  }

  /** The zero line is a record of the tag and nine "0" fields. */
  lemma ZeroLineIsRecord()
    ensures ZeroLine == FormatRecord(Tag, ZeroFields)
  {
    var z := ZeroFields;
    assert PrefixedFields(z[9..]) == "";
    assert PrefixedFields(z[8..]) == ";0";
    assert PrefixedFields(z[7..]) == ";0;0";
    assert PrefixedFields(z[6..]) == ";0;0;0";
    assert PrefixedFields(z[5..]) == ";0;0;0;0";
    assert PrefixedFields(z[4..]) == ";0;0;0;0;0";
    assert PrefixedFields(z[3..]) == ";0;0;0;0;0;0";
    assert PrefixedFields(z[2..]) == ";0;0;0;0;0;0;0";
    assert PrefixedFields(z[1..]) == ";0;0;0;0;0;0;0;0";
    assert z[0..] == z;
  }

  /** The session flags that replace live data by the zero line. */
  predicate Suppressed(s: IntellivibeData)
  {
    s.paused || s.ejecting || s.endFlight
  }

  /** The line `send_flight_data_to_the_socket` sends for one tick. */
  function ChooseLine(render: real -> string, f: FlightData, s: IntellivibeData): (line: string)
  {
    if Suppressed(s) then ComputeZeroData() else ComputeActualFlightData(render, f, s)
  }

  /** Nine fields, none holding a separator or a newline. */
  lemma LiveFieldsAllPlain(render: real -> string, f: FlightData, s: IntellivibeData)
    requires FieldSafe(render)
    ensures var fields := RenderAll(render, LiveValues(f, s));
      |fields| == 9 && forall i :: 0 <= i < 9 ==> IsPlainField(fields[i])
  {
  }

  /** The live line reads back as the tag and the nine fields in their fixed
      order, each the rendering of its scaled or passed-through value. */
  lemma LiveLineLayout(render: real -> string, f: FlightData, s: IntellivibeData)
    requires FieldSafe(render)
    ensures ParseRecord(ComputeActualFlightData(render, f, s)) ==
      [ Tag,
        render(f.kias * 1.852),
        render(f.zDot * 0.3048),
        render(f.alpha),
        render(s.gForce),
        render(f.gearPos),
        render(f.speedBrake * 100.0),
        render(0.0),
        render(f.rpm),
        render(if s.onGround then 1.0 else 0.0) ]
  {
    var fields := RenderAll(render, LiveValues(f, s));
    LiveFieldsAllPlain(render, f, s);
    RecordRoundTrip(Tag, fields);
  }

  /** The live line holds nine separators and ends with its only newline. */
  lemma LiveLineShape(render: real -> string, f: FlightData, s: IntellivibeData)
    requires FieldSafe(render)
    ensures var line := ComputeActualFlightData(render, f, s);
      line[..3] == Tag &&
      multiset(line)[Separator] == 9 &&
      line[|line| - 1] == Terminator && Terminator !in line[..|line| - 1]
  {
    var fields := RenderAll(render, LiveValues(f, s));
    assert forall i :: 0 <= i < |fields| ==> IsPlainField(fields[i]);
    RecordSeparatorCount(Tag, fields);
    SingleTerminator(Tag, fields);
  }

  /** The flaps field is the rendering of 0.0 whatever both snapshots hold. */
  lemma FlapsAlwaysZero(render: real -> string, f1: FlightData, s1: IntellivibeData,
                        f2: FlightData, s2: IntellivibeData)
    requires FieldSafe(render)
    ensures |ParseRecord(ComputeActualFlightData(render, f1, s1))| == 10
    ensures |ParseRecord(ComputeActualFlightData(render, f2, s2))| == 10
    ensures ParseRecord(ComputeActualFlightData(render, f1, s1))[7] == render(0.0)
    ensures ParseRecord(ComputeActualFlightData(render, f1, s1))[7] ==
            ParseRecord(ComputeActualFlightData(render, f2, s2))[7]
  {
    LiveLineLayout(render, f1, s1);
    LiveLineLayout(render, f2, s2);
  }

  /** The on-ground indicator is the last field of the live line. */
  lemma OnGroundIsLastField(render: real -> string, f: FlightData, s: IntellivibeData)
    requires FieldSafe(render)
    ensures var pieces := ParseRecord(ComputeActualFlightData(render, f, s));
      |pieces| == 10 && pieces[9] == render(ComputeIsOnGround(s))
  {
    LiveLineLayout(render, f, s);
  }

  /** Mode choice, for every renderer: a suppressing flag yields the zero
      line whatever the flight snapshot holds; otherwise the live line is sent. */
  lemma SuppressionRule(render: real -> string, f: FlightData, s: IntellivibeData)
    ensures Suppressed(s) ==> forall g :: ChooseLine(render, g, s) == ZeroLine
    ensures !Suppressed(s) ==> ChooseLine(render, f, s) == ComputeActualFlightData(render, f, s)
  {
  }

  /** When the renderer keeps its fields plain and prints 0.0 differently
      from "0" (as `{:.2}` does, printing "0.00"), the live line is never the
      zero line, so the zero line is sent exactly when a flag is set. */
  lemma ChooseLineZeroIffSuppressed(render: real -> string, f: FlightData, s: IntellivibeData)
    requires FieldSafe(render) && render(0.0) != "0"
    ensures ChooseLine(render, f, s) == ZeroLine <==> Suppressed(s)
  {
    if !Suppressed(s) {
      var zero := ComputeZeroData();
      FlapsAlwaysZero(render, f, s, f, s);
      assert ParseRecord(zero)[7] == "0";
    }
  }

  /** All-zero snapshots: both on the ground flag clear and every value 0. */
  const ZeroFlight: FlightData := FlightData(0.0, 0.0, 0.0, 0.0, 0.0, 0.0)
  const ZeroSession: IntellivibeData := IntellivibeData(false, 0.0, false, false, false, false)

  /** The zero line is what the live formatter would give for all-zero
      snapshots exactly when the renderer prints 0.0 as "0"; `{:.2}` prints
      "0.00", so the program's two all-zero outputs differ in form. */
  lemma ZeroLineVersusRenderedZeros(render: real -> string)
    requires FieldSafe(render)
    ensures ComputeActualFlightData(render, ZeroFlight, ZeroSession) == ComputeZeroData()
            <==> render(0.0) == "0"
  {
    if render(0.0) == "0" {
      RenderedZerosMatchWithZeroDigit(render);
    }
    if ComputeActualFlightData(render, ZeroFlight, ZeroSession) == ComputeZeroData() {
      RenderedZerosDifferUnlessZeroDigit(render);
    }
  }

  /** One direction: equal lines force the renderer to print 0.0 as "0". */
  lemma RenderedZerosDifferUnlessZeroDigit(render: real -> string)
    requires FieldSafe(render)
    requires ComputeActualFlightData(render, ZeroFlight, ZeroSession) == ComputeZeroData()
    ensures render(0.0) == "0"
  {
    var live := ComputeActualFlightData(render, ZeroFlight, ZeroSession);
    LiveLineLayout(render, ZeroFlight, ZeroSession);
    assert ParseRecord(live)[7] == render(0.0);
    assert ParseRecord(ComputeZeroData())[7] == "0";
  }

  /** The other direction: such a renderer reproduces the zero line. */
  lemma RenderedZerosMatchWithZeroDigit(render: real -> string)
    requires render(0.0) == "0"
    ensures ComputeActualFlightData(render, ZeroFlight, ZeroSession) == ComputeZeroData()
  {
    assert RenderAll(render, LiveValues(ZeroFlight, ZeroSession)) == ZeroFields;
    ZeroLineIsRecord();
  }
}
