/**
 * The mapping loop over the department list, which pushes one output record per
 * named department and asks the routing provider about every clinic in the
 * table, followed by the in-place sort of the result by name.
 */
module Mapping {
  import opened Wrappers
  import opened JsValues
  import opened Routing
  import opened Normalizer

  /** What the loop has built so far: the records pushed and the destinations routed to, in order. */
  datatype Mapped = Mapped(records: seq<ClinicStatus>, calls: seq<Coord>)

  /**
   * One iteration of the loop for department d. Reading `d.Name` of null or undefined
   * throws a TypeError (None); any other department is visited.
   */
  function Step(h: Host, routing: nat -> Option<RawRoute>, acc: Mapped, d: JSValue): Option<Mapped> {
    if Accessible(d) then Visit(h, routing, acc, d) else None
  }

  /**
   * The body of the loop for a department whose properties can be read. The name is
   * converted and trimmed, and an empty name skips the department. Otherwise the estimate,
   * the range and the open flag are read, a routing call is made only for a name in the
   * clinic table (the k-th call is answered by routing(k)), and the record is pushed. A
   * conversion that throws ends the loop (None).
   */
  function Visit(h: Host, routing: nat -> Option<RawRoute>, acc: Mapped, d: JSValue): Option<Mapped> {
    match DepartmentName(h, d)
    case Err(_) => None
    case Ok(name) =>
      if name == "" then Some(acc)
      else
        match ReadDepartment(h, d)
        case Err(_) => None
        case Ok(rd) =>
          if name in ClinicCoords then
            var drive := DriveFromReply(routing(|acc.calls|));
            Some(Mapped(acc.records + [Normalize(h, name, rd, drive)], acc.calls + [ClinicCoords[name].coord]))
          else
            Some(Mapped(acc.records + [Normalize(h, name, rd, None)], acc.calls))
  }

  /**
   * The property names every plain object inherits from Object.prototype. Looking one of them
   * up in an object literal yields a function (or, for `__proto__`, the prototype itself),
   * which is truthy.
   */
  const ObjectPrototypeKeys: set<string> := {
    "constructor", "hasOwnProperty", "isPrototypeOf", "propertyIsEnumerable",
    "toLocaleString", "toString", "valueOf", "__proto__",
    "__defineGetter__", "__defineSetter__", "__lookupGetter__", "__lookupSetter__"
  }

  /**
   * How many routing calls the loop body makes for a department AS WRITTEN: the coordinate
   * lookup is a property read on a plain object, so an inherited member counts as a known
   * clinic as well. A department whose conversions throw makes none.
   */
  function RoutingCallsAsWritten(h: Host, d: JSValue): (n: nat)
    ensures n <= 1
    ensures n == 1 <==> && Accessible(d) && DepartmentName(h, d).Ok?
                        && DepartmentName(h, d).value != "" && ReadDepartment(h, d).Ok?
                        && (DepartmentName(h, d).value in ClinicCoords || DepartmentName(h, d).value in ObjectPrototypeKeys)
  {
    if !Accessible(d) then 0
    else
      match DepartmentName(h, d)
      case Err(_) => 0
      case Ok(name) =>
        if name != "" && ReadDepartment(h, d).Ok? && (name in ClinicCoords || name in ObjectPrototypeKeys) then 1 else 0
  }

  /** A department called "toString": a routing call as written, none in the corrected loop body. */
  const PrototypeNamedDepartment: JSValue := Obj(map["Name" := Str("toString")])

  lemma PrototypeNameIsRouted(h: Host, routing: nat -> Option<RawRoute>)
    ensures RoutingCallsAsWritten(h, PrototypeNamedDepartment) == 1
    ensures Visit(h, routing, Mapped([], []), PrototypeNamedDepartment).Some?
    ensures Visit(h, routing, Mapped([], []), PrototypeNamedDepartment).value.calls == []
  {
    PrototypeName(h);
    PrototypeReadings(h);
    ToStringIsInherited();
    VisitUnknownName(h, routing, Mapped([], []), PrototypeNamedDepartment, "toString",
                     Readings(None, "n/a", false));
  }

  lemma PrototypeName(h: Host)
    ensures DepartmentName(h, PrototypeNamedDepartment) == Ok("toString")
  {
    assert Field(PrototypeNamedDepartment, "Name") == Str("toString");
    TrimmedIsFixed("toString");
  }

  /** The "toString" department has no wait fields: no estimate, "n/a", and closed. */
  lemma PrototypeReadings(h: Host)
    ensures ReadDepartment(h, PrototypeNamedDepartment) == Ok(Readings(None, "n/a", false))
  {
    var d := PrototypeNamedDepartment;
    assert forall i :: 0 <= i < |MinutesKeys| ==> Field(d, MinutesKeys[i]) == Undefined;
    assert forall i :: 0 <= i < |RangeKeys| ==> Field(d, RangeKeys[i]) == Undefined;
    assert ExplicitOpenFlag(d) == None;
  }

  lemma ToStringIsInherited()
    ensures "toString" !in ClinicCoords && "toString" in ObjectPrototypeKeys
  {
  }

  /**
   * The corrected loop body routes exactly the departments whose name is an own key of the
   * clinic table, and pushes exactly one record for every non-empty name.
   */
  lemma VisitRoutesExactlyKnown(h: Host, routing: nat -> Option<RawRoute>, acc: Mapped, d: JSValue)
    requires Visit(h, routing, acc, d).Some?
    ensures DepartmentName(h, d).Ok?
    ensures var r := Visit(h, routing, acc, d).value;
            var name := DepartmentName(h, d).value;
            && (|r.calls| == |acc.calls| + 1 <==> name != "" && name in ClinicCoords)
            && (|r.calls| == |acc.calls| <==> !(name != "" && name in ClinicCoords))
            && (|r.records| == |acc.records| + 1 <==> name != "")
            && r.records[..|acc.records|] == acc.records
  {
    var r := Visit(h, routing, acc, d).value;
    if DepartmentName(h, d).value != "" {
      assert r.records[..|acc.records|] == acc.records;
    }
  }

  /** The loop body for a department named after a clinic of the table: one record and one routing call. */
  lemma VisitKnownClinic(h: Host, routing: nat -> Option<RawRoute>, acc: Mapped, d: JSValue,
                         name: string, rd: Readings, drive: Option<DriveEstimate>)
    requires DepartmentName(h, d) == Ok(name) && name != "" && name in ClinicCoords
    requires ReadDepartment(h, d) == Ok(rd)
    requires DriveFromReply(routing(|acc.calls|)) == drive
    ensures Visit(h, routing, acc, d) ==
              Some(Mapped(acc.records + [Normalize(h, name, rd, drive)], acc.calls + [ClinicCoords[name].coord]))
  {
  }

  /** The loop body for a department with a name outside the table: one record, no routing call. */
  lemma VisitUnknownName(h: Host, routing: nat -> Option<RawRoute>, acc: Mapped, d: JSValue,
                         name: string, rd: Readings)
    requires DepartmentName(h, d) == Ok(name) && name != "" && name !in ClinicCoords
    requires ReadDepartment(h, d) == Ok(rd)
    ensures Visit(h, routing, acc, d) == Some(Mapped(acc.records + [Normalize(h, name, rd, None)], acc.calls))
  {
  }

  /** The loop over a one-element list is one Step from the empty state. */
  lemma MapAllSingleton(h: Host, routing: nat -> Option<RawRoute>, d: JSValue)
    ensures MapAll(h, routing, [d]) == Step(h, routing, Mapped([], []), d)
  {
    assert [d][..0] == [];
  }

  /** A list of one department named after a clinic: one record and one routing call, answered by routing(0). */
  lemma SingleKnownDepartment(h: Host, routing: nat -> Option<RawRoute>, d: JSValue, name: string, rd: Readings)
    requires Accessible(d)
    requires DepartmentName(h, d) == Ok(name) && name != "" && name in ClinicCoords
    requires ReadDepartment(h, d) == Ok(rd)
    ensures MapAll(h, routing, [d]) ==
              Some(Mapped([Normalize(h, name, rd, DriveFromReply(routing(0)))], [ClinicCoords[name].coord]))
  {
    MapAllSingleton(h, routing, d);
    var drive := DriveFromReply(routing(0));
    VisitKnownClinic(h, routing, Mapped([], []), d, name, rd, drive);
    assert [] + [Normalize(h, name, rd, drive)] == [Normalize(h, name, rd, drive)];
    assert [] + [ClinicCoords[name].coord] == [ClinicCoords[name].coord];
  }

  /** The loop run over the whole department list, one Step per department, in order. */
  function MapAll(h: Host, routing: nat -> Option<RawRoute>, ds: seq<JSValue>): Option<Mapped> {
    if ds == [] then Some(Mapped([], []))
    else
      match MapAll(h, routing, ds[..|ds| - 1])
      case None => None
      case Some(acc) => Step(h, routing, acc, ds[|ds| - 1])
  }

  /** The table coordinates of the records whose name is in the clinic table, in order. */
  function KnownCoords(rs: seq<ClinicStatus>): seq<Coord> {
    if rs == [] then []
    else
      var last := rs[|rs| - 1];
      KnownCoords(rs[..|rs| - 1]) + (if last.name in ClinicCoords then [ClinicCoords[last.name].coord] else [])
  }

  /** Once a department throws, the loop has thrown, whatever follows it. */
  lemma {:induction false} FaultPersists(h: Host, routing: nat -> Option<RawRoute>, ds: seq<JSValue>, k: nat)
    requires k <= |ds|
    requires MapAll(h, routing, ds[..k]) == None
    ensures MapAll(h, routing, ds) == None
  {
    if k < |ds| {
      var init := ds[..|ds| - 1];
      assert init[..k] == ds[..k];
      FaultPersists(h, routing, init, k);
      assert MapAll(h, routing, init) == None;
    } else {
      assert ds[..k] == ds;
    }
  }

  /**
   * The loop body throws on d: d is null or undefined, its name does not convert, or the
   * name is not empty and its estimate or range does not convert.
   */
  ghost predicate Throws(h: Host, d: JSValue) {
    || !Accessible(d)
    || DepartmentName(h, d).Err?
    || (DepartmentName(h, d).value != "" && ReadDepartment(h, d).Err?)
  }

  /** One Step throws exactly on a department the loop body throws on, whatever came before. */
  lemma StepFaultsExactly(h: Host, routing: nat -> Option<RawRoute>, acc: Mapped, d: JSValue)
    ensures Step(h, routing, acc, d).None? <==> Throws(h, d)
  {
  }

  ghost predicate HasThrowing(h: Host, ds: seq<JSValue>) {
    exists i :: 0 <= i < |ds| && Throws(h, ds[i])
  }

  lemma HasThrowingSnoc(h: Host, ds: seq<JSValue>)
    requires ds != []
    ensures HasThrowing(h, ds) <==> HasThrowing(h, ds[..|ds| - 1]) || Throws(h, ds[|ds| - 1])
  {
    var init := ds[..|ds| - 1];
    if HasThrowing(h, ds) {
      var i :| 0 <= i < |ds| && Throws(h, ds[i]);
      if i < |init| { assert init[i] == ds[i]; }
    }
    if HasThrowing(h, init) {
      var i :| 0 <= i < |init| && Throws(h, init[i]);
      assert ds[i] == init[i];
    }
  }

  /**
   * The loop throws exactly when some department is null or undefined, has a name whose
   * conversion throws, or has a non-empty name and an estimate or range whose conversion throws.
   */
  lemma {:induction false} MapAllFaultsExactly(h: Host, routing: nat -> Option<RawRoute>, ds: seq<JSValue>)
    ensures MapAll(h, routing, ds) == None <==> HasThrowing(h, ds)
  {
    if ds != [] {
      var init := ds[..|ds| - 1];
      MapAllFaultsExactly(h, routing, init);
      HasThrowingSnoc(h, ds);
      if MapAll(h, routing, init).Some? {
        StepFaultsExactly(h, routing, MapAll(h, routing, init).value, ds[|ds| - 1]);
      }
    }
  }

  /** A department whose `Name` is an object with its own `toString` key: `String(...)` throws. */
  const ObjectNamedDepartment: JSValue := Obj(map["Name" := Obj(map["toString" := Str("ER")])])

  /** A list holding that department throws (the handler then replies 500). */
  lemma ObjectNameThrows(h: Host, routing: nat -> Option<RawRoute>)
    ensures MapAll(h, routing, [ObjectNamedDepartment]) == None
  {
    var d := ObjectNamedDepartment;
    assert Field(d, "Name") == Obj(map["toString" := Str("ER")]);
    assert DepartmentName(h, d).Err?;
    MapAllSingleton(h, routing, d);
  }

  /**
   * What the loop guarantees about its output: no more records than departments, every
   * record well formed, and routing calls made exactly for the records whose name is in the
   * clinic table, to that clinic's coordinates, in order.
   */
  lemma {:induction false} MapAllInvariant(h: Host, routing: nat -> Option<RawRoute>, ds: seq<JSValue>)
    requires MapAll(h, routing, ds).Some?
    ensures |MapAll(h, routing, ds).value.records| <= |ds|
    ensures LoopInvariant(h, MapAll(h, routing, ds).value)
  {
    if ds != [] {
      var init := ds[..|ds| - 1];
      MapAllInvariant(h, routing, init);
      VisitKeepsInvariant(h, routing, MapAll(h, routing, init).value, ds[|ds| - 1]);
    }
  }

  /** Every record is well formed, and the routing calls are those of the records named after a clinic. */
  ghost predicate LoopInvariant(h: Host, m: Mapped) {
    && (forall i :: 0 <= i < |m.records| ==> WellFormed(h, m.records[i]))
    && m.calls == KnownCoords(m.records)
  }

  /** Pushing a well-formed record, with a routing call exactly when it names a clinic, keeps LoopInvariant. */
  lemma PushKeepsInvariant(h: Host, m: Mapped, c: ClinicStatus)
    requires LoopInvariant(h, m) && WellFormed(h, c)
    ensures LoopInvariant(h, Mapped(m.records + [c],
                                    m.calls + if c.name in ClinicCoords then [ClinicCoords[c.name].coord] else []))
  {
    var rs := m.records + [c];
    assert rs[..|rs| - 1] == m.records;
  }

  /** One loop body that does not throw keeps LoopInvariant and pushes at most one record. */
  lemma VisitKeepsInvariant(h: Host, routing: nat -> Option<RawRoute>, acc: Mapped, d: JSValue)
    requires LoopInvariant(h, acc)
    requires Visit(h, routing, acc, d).Some?
    ensures |Visit(h, routing, acc, d).value.records| <= |acc.records| + 1
    ensures LoopInvariant(h, Visit(h, routing, acc, d).value)
  {
    var name := DepartmentName(h, d).value;
    if name != "" {
      var rd := ReadDepartment(h, d).value;
      var drive := if name in ClinicCoords then DriveFromReply(routing(|acc.calls|)) else None;
      NormalizeWellFormed(h, name, rd, drive);
      PushKeepsInvariant(h, acc, Normalize(h, name, rd, drive));
      if name in ClinicCoords {
        VisitKnownClinic(h, routing, acc, d, name, rd, drive);
      } else {
        VisitUnknownName(h, routing, acc, d, name, rd);
        assert acc.calls + [] == acc.calls;
      }
    }
  }

  /**
   * The loop of the handler: for each department, convert its name and skip it when the
   * trimmed name is empty; otherwise read its estimate, range and open flag, route to it when
   * its name is in the clinic table, and push its record. A conversion that throws ends the
   * loop with None.
   */
  method MapDepartments(h: Host, routing: nat -> Option<RawRoute>, departments: seq<JSValue>)
    returns (r: Option<Mapped>)
    ensures r == MapAll(h, routing, departments)
  {
    var mapped: seq<ClinicStatus> := [];
    var calls: seq<Coord> := [];
    var i := 0;
    while i < |departments|
      invariant 0 <= i <= |departments|
      invariant MapAll(h, routing, departments[..i]) == Some(Mapped(mapped, calls))
    {
      var d := departments[i];
      assert departments[..i + 1][..i] == departments[..i];
      if !Accessible(d) {
        FaultPersists(h, routing, departments, i + 1);
        return None;
      }
      var converted := DepartmentName(h, d);
      if converted.Err? {
        FaultPersists(h, routing, departments, i + 1);
        return None;
      }
      var name := converted.value;
      if name != "" {
        var minutes := MinutesEstimate(h, d);
        if minutes.Err? {
          FaultPersists(h, routing, departments, i + 1);
          return None;
        }
        var range := RangeString(h, d, minutes.value);
        if range.Err? {
          FaultPersists(h, routing, departments, i + 1);
          return None;
        }
        var isOpen := OpenStatus(h, d).value;
        var city := "";
        var drive: Option<DriveEstimate> := None;
        if name in ClinicCoords {
          city := ClinicCoords[name].city;
          drive := DriveFromReply(routing(|calls|));
          calls := calls + [ClinicCoords[name].coord];
        }
        mapped := mapped + [ClinicStatus(
          name := name,
          city := city,
          isOpen := isOpen,
          minutes := minutes.value,
          waitText := WaitText(h, minutes.value),
          range := range.value,
          driveMinutes := if drive.Some? then Some(drive.value.minutes) else None,
          driveMiles := if drive.Some? then Some(drive.value.miles) else None)];
      }
      i := i + 1;
    }
    assert departments[..i] == departments;
    r := Some(Mapped(mapped, calls));
  }

  /** a's name collates no later than b's. */
  predicate NameLe(h: Host, a: ClinicStatus, b: ClinicStatus) {
    h.localeCompare(a.name, b.name) <= 0
  }

  /** `localeCompare` orders strings as a total preorder, as any collation does. */
  ghost predicate CollationIsPreorder(h: Host) {
    && (forall x, y :: h.localeCompare(x, y) <= 0 || h.localeCompare(y, x) <= 0)
    && (forall x, y, z :: h.localeCompare(x, y) <= 0 && h.localeCompare(y, z) <= 0 ==> h.localeCompare(x, z) <= 0)
  }

  ghost predicate SortedByName(h: Host, s: seq<ClinicStatus>) {
    forall i, j :: 0 <= i < j < |s| ==> NameLe(h, s[i], s[j])
  }

  /** Exchanges a[j - 1] and a[j]. */
  method SwapDown(a: array<ClinicStatus>, j: int)
    requires 0 < j < a.Length
    modifies a
    ensures a[..] == old(a[..])[j - 1 := old(a[j])][j := old(a[j - 1])]
    ensures multiset(a[..]) == multiset(old(a[..]))
  {
    a[j - 1], a[j] := a[j], a[j - 1];
  }

  /** s[..i + 1] is ordered by name, except possibly around position j. */
  ghost predicate SortedExcept(h: Host, s: seq<ClinicStatus>, i: int, j: int)
    requires 0 <= j <= i < |s|
  {
    forall p, q :: 0 <= p < q <= i && p != j && q != j ==> NameLe(h, s[p], s[q])
  }

  /** The record at j collates no later than any record after it up to i. */
  ghost predicate KeyFirst(h: Host, s: seq<ClinicStatus>, i: int, j: int)
    requires 0 <= j <= i < |s|
  {
    forall q :: j < q <= i ==> NameLe(h, s[j], s[q])
  }

  /** Swapping the key with a larger predecessor keeps both insertion invariants. */
  lemma InsertStep(h: Host, s: seq<ClinicStatus>, i: int, j: int)
    requires CollationIsPreorder(h)
    requires 0 < j <= i < |s|
    requires SortedExcept(h, s, i, j) && KeyFirst(h, s, i, j)
    requires !NameLe(h, s[j - 1], s[j])
    ensures SortedExcept(h, s[j - 1 := s[j]][j := s[j - 1]], i, j - 1)
    ensures KeyFirst(h, s[j - 1 := s[j]][j := s[j - 1]], i, j - 1)
  {
    var t := s[j - 1 := s[j]][j := s[j - 1]];
    assert NameLe(h, s[j], s[j - 1]);
    forall q | j - 1 < q <= i
      ensures NameLe(h, t[j - 1], t[q])
    {
      if q > j { assert NameLe(h, s[j], s[q]); }
    }
  }

  /** When the key has stopped moving, the whole prefix is ordered. */
  lemma InsertDone(h: Host, s: seq<ClinicStatus>, i: int, j: int)
    requires CollationIsPreorder(h)
    requires 0 <= j <= i < |s|
    requires SortedExcept(h, s, i, j) && KeyFirst(h, s, i, j)
    requires j > 0 ==> NameLe(h, s[j - 1], s[j])
    ensures forall p, q :: 0 <= p < q <= i ==> NameLe(h, s[p], s[q])
  {
    forall p, q | 0 <= p < q <= i
      ensures NameLe(h, s[p], s[q])
    {
      if q == j && p < j - 1 {
        assert NameLe(h, s[p], s[j - 1]);
      }
    }
  }

  /** Moves a[i] left past every record whose name collates after it, so a[..i + 1] becomes sorted. */
  method InsertLast(h: Host, a: array<ClinicStatus>, i: int)
    requires CollationIsPreorder(h)
    requires 0 <= i < a.Length
    requires forall p, q :: 0 <= p < q < i ==> NameLe(h, a[p], a[q])
    modifies a
    ensures forall p, q :: 0 <= p < q <= i ==> NameLe(h, a[p], a[q])
    ensures multiset(a[..]) == multiset(old(a[..]))
    ensures a[i + 1..] == old(a[i + 1..])
  {
    var j := i;
    while j > 0 && h.localeCompare(a[j - 1].name, a[j].name) > 0
      invariant 0 <= j <= i
      invariant SortedExcept(h, a[..], i, j) && KeyFirst(h, a[..], i, j)
      invariant multiset(a[..]) == multiset(old(a[..]))
      invariant a[i + 1..] == old(a[i + 1..])
    {
      InsertStep(h, a[..], i, j);
      SwapDown(a, j);
      j := j - 1;
    }
    InsertDone(h, a[..], i, j);
  }

  /**
   * `mapped.sort((a, b) => a.name.localeCompare(b.name))`: an insertion sort. The array
   * ends up ordered by name and holds the same records.
   */
  method SortByName(h: Host, a: array<ClinicStatus>)
    requires CollationIsPreorder(h)
    modifies a
    ensures SortedByName(h, a[..])
    ensures multiset(a[..]) == multiset(old(a[..]))
  {
    var i := 0;
    while i < a.Length
      invariant 0 <= i <= a.Length
      invariant forall p, q :: 0 <= p < q < i ==> NameLe(h, a[p], a[q])
      invariant multiset(a[..]) == multiset(old(a[..]))
    {
      InsertLast(h, a, i);
      i := i + 1;
    }
  }
}
