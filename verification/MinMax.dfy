/** Running minimum and maximum of a sensor, over the reals (float arithmetic here only compares). */
module MinMax {
  const FLT_MAX := 340282346638528859811704183484516925440.0

  datatype Sensor = Sensor(value: real, min: real, max: real)

  datatype Event = Reading(r: real) | Reset

  predicate Finite(r: real) { -FLT_MAX <= r <= FLT_MAX }

  predicate Ordered(s: Sensor) { s.min <= s.value <= s.max }

  // ---------- The two forms of an update ----------

  /** Minimum and maximum are compared on every reading. */
  function Update(s: Sensor, r: real): Sensor {
    Sensor(r, if r < s.min then r else s.min, if r > s.max then r else s.max)
  }

  /** Nothing happens when the reading equals the stored value. */
  function UpdateSkipping(s: Sensor, r: real): Sensor {
    if s.value != r then Update(s, r) else s
  }

  function ResetMinMax(s: Sensor): Sensor { s.(min := FLT_MAX, max := -FLT_MAX) }

  function After(s: Sensor, es: seq<Event>, skipping: bool): Sensor {
    if es == [] then s
    else
      var before := After(s, es[..|es| - 1], skipping);
      match es[|es| - 1]
      case Reset => ResetMinMax(before)
      case Reading(r) => if skipping then UpdateSkipping(before, r) else Update(before, r)
  }

  // ---------- Minimum and maximum of what was read ----------

  function Readings(rs: seq<real>): seq<Event> {
    seq(|rs|, i requires 0 <= i < |rs| => Reading(rs[i]))
  }

  predicate IsMin(m: real, rs: seq<real>) { m in rs && forall i :: 0 <= i < |rs| ==> m <= rs[i] }
  predicate IsMax(m: real, rs: seq<real>) { m in rs && forall i :: 0 <= i < |rs| ==> rs[i] <= m }

  /** After a reset and any nonempty sequence of finite readings, the stored bounds are those of the sequence. */
  lemma {:induction false} BoundsAreExact(s: Sensor, rs: seq<real>)
    requires rs != [] && forall i :: 0 <= i < |rs| ==> Finite(rs[i])
    ensures var t := After(ResetMinMax(s), Readings(rs), false);
            IsMin(t.min, rs) && IsMax(t.max, rs) && t.value == rs[|rs| - 1]
  {
    var n := |rs| - 1;
    assert Readings(rs)[..n] == Readings(rs[..n]);
    assert rs[n] in rs;
    if n > 0 {
      BoundsAreExact(s, rs[..n]);
      assert forall x :: x in rs[..n] ==> x in rs;
    }
  }

  // ---------- When the skipping form agrees ----------

  /** One reading: the forms agree exactly when the reading is new or the value lies between the bounds. */
  lemma AgreeOnce(s: Sensor, r: real)
    ensures UpdateSkipping(s, r) == Update(s, r) <==> r != s.value || Ordered(s)
  {
  }

  /** After a reading the value lies between the bounds, after a reset it never does, whatever the state before. */
  lemma {:induction false} OrderedUntilReset(s: Sensor, es: seq<Event>)
    ensures Ordered(After(s, es, false)) <==> if es == [] then Ordered(s) else es[|es| - 1].Reading?
  {
  }

  /** A repeated value read directly after a reset. */
  predicate Missed(s: Sensor, es: seq<Event>) {
    exists i :: 0 < i < |es| && es[i - 1].Reset? && es[i] == Reading(After(s, es[..i], false).value)
  }

  predicate AgreeThroughout(s: Sensor, es: seq<Event>) {
    forall i :: 0 <= i <= |es| ==> After(s, es[..i], true) == After(s, es[..i], false)
  }

  lemma MissedStep(s: Sensor, es: seq<Event>)
    requires es != []
    ensures var n := |es| - 1;
            Missed(s, es) <==>
              Missed(s, es[..n]) || (n > 0 && es[n - 1].Reset? && es[n] == Reading(After(s, es[..n], false).value))
  {
    hide After;
    var before := es[..|es| - 1];
    assert forall i :: 0 <= i < |es| ==> before[..i] == es[..i];
  }

  lemma AgreeStep(s: Sensor, es: seq<Event>)
    requires es != []
    ensures AgreeThroughout(s, es) <==> AgreeThroughout(s, es[..|es| - 1]) && After(s, es, true) == After(s, es, false)
  {
    hide After;
    var before := es[..|es| - 1];
    assert forall i :: 0 <= i < |es| ==> before[..i] == es[..i];
    assert es[..|es|] == es;
  }

  /** The first event repeats a value that does not lie between the bounds yet. */
  predicate MissedAtStart(s: Sensor, es: seq<Event>) {
    es != [] && !Ordered(s) && es[0] == Reading(s.value)
  }

  /**
   * Over whole runs from any state: the forms agree at every point exactly when no reset is directly followed by a
   * repeated reading, and the run does not begin with one while the value lies outside the bounds.
   */
  lemma {:induction false} AgreeExactly(s: Sensor, es: seq<Event>)
    ensures AgreeThroughout(s, es) <==> !MissedAtStart(s, es) && !Missed(s, es)
  {
    if es != [] {
      var n := |es| - 1;
      var before := es[..n];
      AgreeExactly(s, before);
      MissedStep(s, es);
      AgreeStep(s, es);
      OrderedUntilReset(s, before);
      if AgreeThroughout(s, before) {
        assert before[..n] == before;
        assert After(s, before, true) == After(s, before, false);
        if es[n].Reading? { AgreeOnce(After(s, before, false), es[n].r); }
      }
    }
  }

  /** The object as the client creates it: value zero, bounds at their defaults. */
  const CREATED := Sensor(0.0, FLT_MAX, -FLT_MAX)

  /** From the created object: the first reading must not be zero either. */
  lemma CreatedAgreesExactly(es: seq<Event>)
    ensures AgreeThroughout(CREATED, es) <==> !(es != [] && es[0] == Reading(0.0)) && !Missed(CREATED, es)
  {
    AgreeExactly(CREATED, es);
  }

  /** A first reading of zero is lost: both bounds stay at their defaults. */
  lemma FirstReadingLost()
    ensures After(CREATED, [Reading(0.0)], true) == CREATED
    ensures After(CREATED, [Reading(0.0)], false) == Sensor(0.0, 0.0, 0.0)
  {
    assert [Reading(0.0)][..0] == [];
  }

  /** The reading after a reset is lost when it repeats the value: the minimum stays at its default. */
  lemma SkippedAfterReset()
    ensures var es := [Reading(20.0), Reset, Reading(20.0)];
            After(CREATED, es, true).min == FLT_MAX && After(CREATED, es, false).min == 20.0
  {
    var es := [Reading(20.0), Reset, Reading(20.0)];
    assert es[..2][..1] == [Reading(20.0)];
    assert es[..2] == [Reading(20.0), Reset];
    assert After(CREATED, es[..2][..1], true) == Sensor(20.0, 20.0, 20.0) == After(CREATED, es[..2][..1], false);
  }

  // ---------- The resources ----------

  /** The temperature object instance: value, min and max resources. */
  class TemperatureObject {
    var value: real
    var min: real
    var max: real

    ghost function View(): Sensor
      reads this
    {
      Sensor(value, min, max)
    }

    /** ipso_create_sensor_object and ipso_add_min_max_fields */
    constructor ()
      ensures View() == CREATED
    {
      value, min, max := 0.0, FLT_MAX, -FLT_MAX;
    }

    /** ipso_reset_min_max_object */
    method ResetBounds()
      modifies this
      ensures View() == ResetMinMax(old(View()))
    {
      min := FLT_MAX;
      max := -FLT_MAX;
    }

    /** ipso_update_min_max_fields */
    method UpdateMinMaxFields(newValue: real)
      modifies this`min, this`max
      ensures View() == Update(old(View()), newValue).(value := old(value))
    {
      if newValue < min { min := newValue; }
      if newValue > max { max := newValue; }
    }

    /** update_temperature_to_device of the stress tester */
    method UpdateTemperature(temperature: real)
      modifies this
      ensures View() == Update(old(View()), temperature)
    {
      var current := value;
      if current != temperature {
        current := temperature;
        value := temperature;
      }
      if current < min { min := value; }
      if current > max { max := value; }
    }

    /** update_temperature_to_device of the client example */
    method UpdateTemperatureSkipping(temperature: real)
      modifies this
      ensures View() == UpdateSkipping(old(View()), temperature)
    {
      if value != temperature {
        value := temperature;
        if temperature < min { min := temperature; }
        if temperature > max { max := temperature; }
      }
    }

    /** A whole run of readings and resets. */
    method Run(es: seq<Event>, skipping: bool)
      modifies this
      ensures View() == After(old(View()), es, skipping)
    {
      for i := 0 to |es|
        invariant View() == After(old(View()), es[..i], skipping)
      {
        assert es[..i + 1][..i] == es[..i];
        match es[i]
        case Reset => ResetBounds();
        case Reading(r) =>
          if skipping { UpdateTemperatureSkipping(r); } else { UpdateTemperature(r); }
      }
      assert es[..|es|] == es;
    }
  }
}
