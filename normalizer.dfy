/**
 * The record normaliser: how one raw department record from the scheduling
 * provider becomes one clinic-status record. Every extraction is an ordered
 * chain of candidate fields where the first usable one wins.
 */
module Normalizer {
  import opened Wrappers
  import opened JsNumber
  import opened JsValues
  import opened Routing

  /** An entry of the static clinic table. */
  datatype Clinic = Clinic(city: string, coord: Coord)

  /** The clinics whose city and position are known, keyed by the exact display name. */
  const ClinicCoords: map<string, Clinic> := map[
    "EvergreenHealth Urgent Care, Canyon Park" := Clinic("Bothell, WA", Coord(47.8044871, -122.2068921)),
    "EvergreenHealth Urgent Care, Kenmore" := Clinic("Kenmore, WA", Coord(47.760574, -122.2505451)),
    "EvergreenHealth Urgent Care, Mill Creek" := Clinic("Mill Creek, WA", Coord(47.877566, -122.1749333)),
    "EvergreenHealth Urgent Care, Monroe" := Clinic("Monroe, WA", Coord(47.8628803, -121.990223)),
    "EvergreenHealth Urgent Care, Redmond" := Clinic("Redmond, WA", RedmondOrigin),
    "EvergreenHealth Urgent Care, Totem Lake" := Clinic("Kirkland, WA", Coord(47.71393, -122.1831048)),
    "EvergreenHealth Urgent Care, Woodinville" := Clinic("Woodinville, WA", Coord(47.7543, -122.1630))
  ]

  /** Wait-time fields, in priority order. */
  const MinutesKeys: seq<string> :=
    ["WaitTime", "WaitTimeInMinutes", "DisplayWait", "EstimatedWaitMinutes", "EstWait"]

  /** Pre-formatted range fields, in priority order. */
  const RangeKeys: seq<string> :=
    ["WaitTimeString", "EstimatedWaitTimeText", "DisplayWaitRange", "WaitTimeText"]

  /** One output record. `None` stands for JSON `null`. */
  datatype ClinicStatus = ClinicStatus(
    name: string,
    city: string,
    isOpen: bool,
    minutes: Option<real>,
    waitText: string,
    range: string,
    driveMinutes: Option<int>,
    driveMiles: Option<real>)

  /** `Number(v)` does not throw and is not finite: the search moves on past v. */
  ghost predicate Skipped(h: Host, v: JSValue) {
    ToNumber(h, v).Ok? && !ToNumber(h, v).value.Finite?
  }

  /** vals[i] is the first candidate whose `Number(...)` is finite; every earlier one was skipped. */
  ghost predicate FirstFiniteAt(h: Host, vals: seq<JSValue>, i: int) {
    && 0 <= i < |vals|
    && ToNumber(h, vals[i]).Ok? && ToNumber(h, vals[i]).value.Finite?
    && forall j :: 0 <= j < i ==> Skipped(h, vals[j])
  }

  /** `Number(vals[i])` throws, and every earlier candidate was skipped. */
  ghost predicate FirstThrowAt(h: Host, vals: seq<JSValue>, i: int) {
    && 0 <= i < |vals|
    && ToNumber(h, vals[i]).Err?
    && forall j :: 0 <= j < i ==> Skipped(h, vals[j])
  }

  /** Past a skipped first candidate, the throwing positions in the rest are those in the whole, less one. */
  lemma SkippedFirstThrow(h: Host, vals: seq<JSValue>)
    requires vals != [] && Skipped(h, vals[0])
    ensures forall i :: FirstThrowAt(h, vals[1..], i) ==> FirstThrowAt(h, vals, i + 1)
    ensures forall i :: FirstThrowAt(h, vals, i) ==> i > 0 && FirstThrowAt(h, vals[1..], i - 1)
    ensures (forall i :: 0 <= i < |vals| ==> Skipped(h, vals[i])) <==>
            (forall i :: 0 <= i < |vals[1..]| ==> Skipped(h, vals[1..][i]))
  {
    forall i | FirstThrowAt(h, vals[1..], i) ensures FirstThrowAt(h, vals, i + 1) {
      forall j | 0 <= j < i + 1 ensures Skipped(h, vals[j]) {
        if j > 0 { assert vals[j] == vals[1..][j - 1]; }
      }
    }
    forall i | FirstThrowAt(h, vals, i) ensures i > 0 && FirstThrowAt(h, vals[1..], i - 1) {
      forall j | 0 <= j < i - 1 ensures Skipped(h, vals[1..][j]) {
        assert vals[1..][j] == vals[j + 1];
      }
    }
  }

  /** Past a skipped first candidate, the finite positions in the rest are those in the whole, less one. */
  lemma SkippedFirstFinite(h: Host, vals: seq<JSValue>)
    requires vals != [] && Skipped(h, vals[0])
    ensures forall i :: FirstFiniteAt(h, vals[1..], i) ==> FirstFiniteAt(h, vals, i + 1)
    ensures forall i :: FirstFiniteAt(h, vals, i) ==> i > 0 && FirstFiniteAt(h, vals[1..], i - 1)
  {
    forall i | FirstFiniteAt(h, vals[1..], i) ensures FirstFiniteAt(h, vals, i + 1) {
      forall j | 0 <= j < i + 1 ensures Skipped(h, vals[j]) {
        if j > 0 { assert vals[j] == vals[1..][j - 1]; }
      }
    }
    forall i | FirstFiniteAt(h, vals, i) ensures i > 0 && FirstFiniteAt(h, vals[1..], i - 1) {
      forall j | 0 <= j < i - 1 ensures Skipped(h, vals[1..][j]) {
        assert vals[1..][j] == vals[j + 1];
      }
    }
  }

  /**
   * The first-match loop over candidates: the value of the first one whose `Number(...)` is
   * finite, null when every one is skipped, and the TypeError of a conversion that throws
   * before a finite one is found.
   */
  function FirstFinite(h: Host, vals: seq<JSValue>): (r: Result<Option<real>, Exception>)
    ensures r == Ok(None) <==> forall i :: 0 <= i < |vals| ==> Skipped(h, vals[i])
    ensures r.Err? <==> exists i :: FirstThrowAt(h, vals, i)
    ensures forall i :: FirstFiniteAt(h, vals, i) ==> r == Ok(Some(ToNumber(h, vals[i]).value.value))
    ensures r.Ok? && r.value.Some? ==> exists i :: FirstFiniteAt(h, vals, i)
  {
    if vals == [] then Ok(None)
    else
      match ToNumber(h, vals[0])
      case Err(e) =>
        assert FirstThrowAt(h, vals, 0);
        Err(e)
      case Ok(Finite(x)) =>
        assert FirstFiniteAt(h, vals, 0);
        Ok(Some(x))
      case Ok(_) =>
        SkippedFirstThrow(h, vals);
        SkippedFirstFinite(h, vals);
        FirstFinite(h, vals[1..])
  }

  /**
   * `getMinutesEstimate`: the first of WaitTime, WaitTimeInMinutes, DisplayWait,
   * EstimatedWaitMinutes, EstWait whose `Number(...)` is finite; null when every one is
   * skipped; a TypeError when a conversion throws before a finite one is reached.
   */
  function MinutesEstimate(h: Host, d: JSValue): (r: Result<Option<real>, Exception>)
    ensures r == Ok(None) <==> forall i :: 0 <= i < |MinutesKeys| ==> Skipped(h, Field(d, MinutesKeys[i]))
    ensures r.Err? <==> exists i :: FirstThrowAt(h, Fields(d, MinutesKeys), i)
    ensures forall i :: FirstFiniteAt(h, Fields(d, MinutesKeys), i) ==>
              r == Ok(Some(ToNumber(h, Field(d, MinutesKeys[i])).value.value))
    ensures r.Ok? && r.value.Some? ==> exists i :: FirstFiniteAt(h, Fields(d, MinutesKeys), i)
  {
    FirstFinite(h, Fields(d, MinutesKeys))
  }

  /** `{WaitTime: "bad", WaitTimeInMinutes: 12}` has a 12-minute estimate when "bad" is not numeric. */
  lemma SkipsNonNumericField(h: Host)
    requires !h.parseNumber("bad").Finite?
    ensures MinutesEstimate(h, Obj(map["WaitTime" := Str("bad"), "WaitTimeInMinutes" := Num(Finite(12.0))])) == Ok(Some(12.0))
  {
    var d := Obj(map["WaitTime" := Str("bad"), "WaitTimeInMinutes" := Num(Finite(12.0))]);
    var vals := Fields(d, MinutesKeys);
    assert vals[0] == Str("bad");
    assert vals[1] == Num(Finite(12.0));
    TrimmedIsFixed("bad");
    assert Skipped(h, vals[0]);
    assert FirstFiniteAt(h, vals, 1);
  }

  /** `{WaitTime: {toString: "5"}}`: `Number(d.WaitTime)` throws, so the estimate throws. */
  lemma ObjectWaitTimeThrows(h: Host)
    ensures MinutesEstimate(h, Obj(map["WaitTime" := Obj(map["toString" := Str("5")])])) == Err(TypeError)
  {
    var d := Obj(map["WaitTime" := Obj(map["toString" := Str("5")])]);
    assert Fields(d, MinutesKeys)[0] == Obj(map["toString" := Str("5")]);
    assert FirstThrowAt(h, Fields(d, MinutesKeys), 0);
  }

  /** The explicit open flag: `IsOpen` when it is a boolean, else `IsOpenNow` when it is one. */
  function ExplicitOpenFlag(d: JSValue): (r: Option<bool>)
    ensures Field(d, "IsOpen").Bool? ==> r == Some(Field(d, "IsOpen").b)
    ensures !Field(d, "IsOpen").Bool? ==> r == if Field(d, "IsOpenNow").Bool? then Some(Field(d, "IsOpenNow").b) else None
  {
    match Field(d, "IsOpen")
    case Bool(b) => Some(b)
    case _ =>
      match Field(d, "IsOpenNow")
      case Bool(b) => Some(b)
      case _ => None
  }

  /**
   * `getOpenStatus`: an explicit boolean flag wins; without one the clinic is open exactly
   * when the wait-time search finds a finite field, so no wait data means closed, and a
   * throwing wait-time field throws here too.
   */
  function OpenStatus(h: Host, d: JSValue): (r: Result<bool, Exception>)
    ensures ExplicitOpenFlag(d).Some? ==> r == Ok(ExplicitOpenFlag(d).value)
    ensures ExplicitOpenFlag(d).None? ==> (r.Err? <==> MinutesEstimate(h, d).Err?)
    ensures ExplicitOpenFlag(d).None? ==>
              (r == Ok(true) <==> exists i :: FirstFiniteAt(h, Fields(d, MinutesKeys), i))
  {
    match ExplicitOpenFlag(d)
    case Some(b) => Ok(b)
    case None =>
      match MinutesEstimate(h, d)
      case Err(e) => Err(e)
      case Ok(minutes) => Ok(minutes.Some?)
  }

  /** vals[i] is the first truthy candidate. */
  ghost predicate FirstTruthyAt(vals: seq<JSValue>, i: int) {
    0 <= i < |vals| && Truthy(vals[i]) && forall j :: 0 <= j < i ==> !Truthy(vals[j])
  }

  /** `vals.filter(Boolean)`: the truthy candidates, in order. */
  function TruthyOnly(vals: seq<JSValue>): (r: seq<JSValue>)
    ensures |r| <= |vals|
    ensures forall i :: 0 <= i < |r| ==> Truthy(r[i])
    ensures r == [] <==> forall i :: 0 <= i < |vals| ==> !Truthy(vals[i])
    ensures r != [] ==> exists i :: FirstTruthyAt(vals, i) && r[0] == vals[i]
  {
    if vals == [] then []
    else if Truthy(vals[0]) then
      assert FirstTruthyAt(vals, 0);
      [vals[0]] + TruthyOnly(vals[1..])
    else
      var r := TruthyOnly(vals[1..]);
      assert r != [] ==> exists i :: FirstTruthyAt(vals, i) && r[0] == vals[i] by {
        if r != [] {
          var i :| FirstTruthyAt(vals[1..], i) && r[0] == vals[1..][i];
          assert FirstTruthyAt(vals, i + 1);
        }
      }
      r
  }

  /**
   * The synthesised range `[lo, hi]` for a finite estimate m:
   * lo = max(0, round(0.7m / 5) * 5) and hi = max(lo, round(1.3m / 5) * 5).
   * Both are non-negative multiples of 5 with lo <= hi; for m >= 0 they are the
   * multiples of 5 nearest 0.7m and 1.3m, and for m < 0 both are 0.
   */
  function RangeBounds(m: real): (b: (int, int))
    ensures 0 <= b.0 <= b.1
    ensures b.0 % 5 == 0 && b.1 % 5 == 0
    ensures m >= 0.0 ==> b.0 as real - 2.5 <= 0.7 * m < b.0 as real + 2.5
    ensures m >= 0.0 ==> b.1 as real - 2.5 <= 1.3 * m < b.1 as real + 2.5
    ensures m < 0.0 ==> b == (0, 0)
  {
    var lo := if RoundToFive(m * 0.7) < 0 then 0 else RoundToFive(m * 0.7);
    var hi := if RoundToFive(m * 1.3) < lo then lo else RoundToFive(m * 1.3);
    assert m >= 0.0 ==> RoundToFive(m * 0.7) <= RoundToFive(m * 1.3) by {
      if m >= 0.0 { RoundMonotonic(m * 0.7 / 5.0, m * 1.3 / 5.0); }
    }
    (lo, hi)
  }

  /**
   * 175 minutes in exact arithmetic: 0.7 × 175 = 122.5 lies on a tie and rounds up to 125.
   * In doubles the product falls just below the tie, so the engine gives 120 instead.
   */
  lemma RangeBoundsAtTie()
    ensures RangeBounds(175.0) == (125, 230)
  {
    assert Round(175.0 * 0.7 / 5.0) == 25;
    assert Round(175.0 * 1.3 / 5.0) == 46;
  }

  /**
   * `${min}–${max} min`, with an en dash between the bounds. For an estimate below 10^20
   * minutes both bounds print as plain decimal digits.
   */
  function SynthesizedRange(h: Host, m: real): (r: string)
    ensures m < 100000000000000000000.0 ==>
              r == NatToDecimal(RangeBounds(m).0) + "\U{2013}" + NatToDecimal(RangeBounds(m).1) + " min"
  {
    var (lo, hi) := RangeBounds(m);
    assert (lo as real).Floor == lo && (hi as real).Floor == hi;
    NumberToString(h, lo as real) + "\U{2013}" + NumberToString(h, hi as real) + " min"
  }

  /** Minutes 10 gives "5–15 min", minutes 20 gives "15–25 min" and minutes 0 gives "0–0 min". */
  lemma SynthesizedRangeExamples(h: Host)
    ensures SynthesizedRange(h, 10.0) == "5\U{2013}15 min"
    ensures SynthesizedRange(h, 20.0) == "15\U{2013}25 min"
    ensures SynthesizedRange(h, 0.0) == "0\U{2013}0 min"
  {
    assert RangeBounds(10.0) == (5, 15);
    assert NatToDecimal(5) == "5";
    assert RangeBounds(20.0) == (15, 25);
    assert NatToDecimal(15) == "15";
    assert NatToDecimal(25) == "25";
    assert RangeBounds(0.0) == (0, 0);
  }

  /**
   * `getRangeString`: the first truthy of WaitTimeString, EstimatedWaitTimeText,
   * DisplayWaitRange, WaitTimeText converted by `String(...)`, which may throw; otherwise
   * "n/a" without an estimate, and a range synthesised around the estimate with one.
   */
  function RangeString(h: Host, d: JSValue, minutes: Option<real>): (r: Result<string, Exception>)
    ensures (exists i :: FirstTruthyAt(Fields(d, RangeKeys), i)) ==>
              exists i :: FirstTruthyAt(Fields(d, RangeKeys), i) && r == ToString(h, Field(d, RangeKeys[i]))
    ensures (forall i :: 0 <= i < |RangeKeys| ==> !Truthy(Field(d, RangeKeys[i]))) ==>
              r == Ok(if minutes.None? then "n/a" else SynthesizedRange(h, minutes.value))
  {
    var candidates := TruthyOnly(Fields(d, RangeKeys));
    if |candidates| > 0 then ToString(h, candidates[0])
    else if minutes.None? then Ok("n/a")
    else Ok(SynthesizedRange(h, minutes.value))
  }

  /**
   * `{WaitTimeString: [{toString: "x"}]}`: the first truthy range field is an array holding an
   * object with its own `toString` key, so `String(...)` throws.
   */
  lemma ArrayRangeThrows(h: Host, minutes: Option<real>)
    ensures RangeString(h, Obj(map["WaitTimeString" := Arr([Obj(map["toString" := Str("x")])])]), minutes)
              == Err(TypeError)
  {
    var v := Arr([Obj(map["toString" := Str("x")])]);
    var d := Obj(map["WaitTimeString" := v]);
    assert ToPrimitiveThrows(v.items[0]);
    assert Fields(d, RangeKeys)[0] == v;
    assert FirstTruthyAt(Fields(d, RangeKeys), 0);
  }

  /** `minutes != null ? `${minutes} min` : "n/a"`: "n/a" exactly when there is no estimate. */
  function WaitText(h: Host, minutes: Option<real>): (r: string)
    ensures r == "n/a" <==> minutes.None?
    ensures minutes.Some? ==> r == NumberToString(h, minutes.value) + " min"
  {
    match minutes
    case None => "n/a"
    case Some(m) =>
      var r := NumberToString(h, m) + " min";
      assert r[|r| - 1] == 'n';
      r
  }

  /** `d.Name || d.DepartmentName || ""`: the value the loop converts into the department's name. */
  function NameValue(d: JSValue): JSValue {
    Or(Or(Field(d, "Name"), Field(d, "DepartmentName")), Str(""))
  }

  /**
   * `String(d.Name || d.DepartmentName || "").trim()`. The conversion throws exactly when the
   * chosen value does; otherwise the result has no leading or trailing whitespace, and it is
   * empty when neither name field is truthy.
   */
  function DepartmentName(h: Host, d: JSValue): (r: Result<string, Exception>)
    ensures r.Err? <==> ToPrimitiveThrows(NameValue(d))
    ensures r.Ok? ==> r.value == "" || (!IsWhitespace(r.value[0]) && !IsWhitespace(r.value[|r.value| - 1]))
    ensures Truthy(Field(d, "Name")) && ToString(h, Field(d, "Name")).Ok? ==>
              r == Ok(Trim(ToString(h, Field(d, "Name")).value))
    ensures !Truthy(Field(d, "Name")) && Truthy(Field(d, "DepartmentName")) && ToString(h, Field(d, "DepartmentName")).Ok? ==>
              r == Ok(Trim(ToString(h, Field(d, "DepartmentName")).value))
    ensures !Truthy(Field(d, "Name")) && !Truthy(Field(d, "DepartmentName")) ==> r == Ok("")
  {
    match ToString(h, NameValue(d))
    case Ok(s) => Ok(Trim(s))
    case Err(e) => Err(e)
  }

  /** What the loop reads from a named department besides its name. */
  datatype Readings = Readings(minutes: Option<real>, range: string, isOpen: bool)

  /**
   * `getMinutesEstimate(d)`, then `getRangeString(d, minutes)`, then `getOpenStatus(d)`, in
   * that order; the first conversion that throws ends the department. The open flag cannot
   * throw once the estimate has been read, since it reads the same fields again.
   */
  function ReadDepartment(h: Host, d: JSValue): (r: Result<Readings, Exception>)
    ensures r.Err? <==>
              || MinutesEstimate(h, d).Err?
              || (MinutesEstimate(h, d).Ok? && RangeString(h, d, MinutesEstimate(h, d).value).Err?)
    ensures r.Ok? ==>
              && MinutesEstimate(h, d) == Ok(r.value.minutes)
              && RangeString(h, d, r.value.minutes) == Ok(r.value.range)
              && OpenStatus(h, d) == Ok(r.value.isOpen)
  {
    match MinutesEstimate(h, d)
    case Err(e) => Err(e)
    case Ok(minutes) =>
      match RangeString(h, d, minutes)
      case Err(e) => Err(e)
      case Ok(range) => Ok(Readings(minutes, range, OpenStatus(h, d).value))
  }

  /** The output record for a department with a non-empty name, its readings and the drive found for it. */
  function Normalize(h: Host, name: string, rd: Readings, drive: Option<DriveEstimate>): ClinicStatus {
    ClinicStatus(
      name := name,
      city := if name in ClinicCoords then ClinicCoords[name].city else "",
      isOpen := rd.isOpen,
      minutes := rd.minutes,
      waitText := WaitText(h, rd.minutes),
      range := rd.range,
      driveMinutes := if drive.Some? then Some(drive.value.minutes) else None,
      driveMiles := if drive.Some? then Some(drive.value.miles) else None)
  }

  /**
   * The invariants every output record keeps: a non-empty trimmed name, a wait text
   * determined by the estimate, the table's city for a known clinic, and an empty city
   * and no drive for an unknown one; the two drive fields are null together.
   */
  ghost predicate WellFormed(h: Host, c: ClinicStatus) {
    && c.name != ""
    && !IsWhitespace(c.name[0]) && !IsWhitespace(c.name[|c.name| - 1])
    && c.waitText == WaitText(h, c.minutes)
    && (c.name in ClinicCoords ==> c.city == ClinicCoords[c.name].city)
    && (c.name !in ClinicCoords ==> c.city == "" && c.driveMinutes.None? && c.driveMiles.None?)
    && (c.driveMinutes.Some? <==> c.driveMiles.Some?)
  }

  /** A record pushed for a non-empty trimmed name, routed only when the name is a clinic, is well formed. */
  lemma NormalizeWellFormed(h: Host, name: string, rd: Readings, drive: Option<DriveEstimate>)
    requires name != "" && !IsWhitespace(name[0]) && !IsWhitespace(name[|name| - 1])
    requires name !in ClinicCoords ==> drive.None?
    ensures WellFormed(h, Normalize(h, name, rd, drive))
    ensures var c := Normalize(h, name, rd, drive);
            && c.name == name && c.isOpen == rd.isOpen && c.minutes == rd.minutes && c.range == rd.range
            && (drive.Some? ==> c.driveMinutes == Some(drive.value.minutes) && c.driveMiles == Some(drive.value.miles))
            && (drive.None? ==> c.driveMinutes.None? && c.driveMiles.None?)
  {
  }
}
