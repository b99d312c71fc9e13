/** The scalar value strategy. It calls the curve with one argument, the normalized
    progress time / duration; that call is read here as the curve evaluated with
    begin 0, change 1 and duration 1 (EasingFunctions.Unit). */
module FloatEasings {
  import opened EasingTypes
  import opened EasingFunctions
  import opened Easings

  /** The value at `time`: `from` plus the change scaled by the normalized curve factor. */
  function ComputeValue(m: MathLib, from: real, to: real, time: real, duration: Duration, f: EasingFunction): (r: real)
    ensures Unit(m, f, time / duration) == 0.0 ==> r == from
    ensures Unit(m, f, time / duration) == 1.0 ==> r == to
    ensures from == to ==> r == from
  {
    (to - from) * Unit(m, f, time / duration) + from
  }

  /** The float strategy, as the state machine consumes it. */
  function Strategy(m: MathLib): Strategy<real> {
    (from: real, to: real, time: real, duration: Duration, f: EasingFunction) =>
      ComputeValue(m, from, to, time, duration, f)
  }

  /** The value is `from` plus the change scaled by the curve factor. */
  lemma Unfold(m: MathLib, from: real, to: real, time: real, duration: Duration, f: EasingFunction)
    ensures ComputeValue(m, from, to, time, duration, f) == (to - from) * Unit(m, f, time / duration) + from
  {
  }

  /** For the polynomial curves, the normalized one-argument reading agrees with the
      four-argument equation F(time, from, to - from, duration). */
  lemma AgreesWithCurve(m: MathLib, from: real, to: real, time: real, duration: Duration, f: EasingFunction)
    requires Polynomial(f)
    ensures ComputeValue(m, from, to, time, duration, f) == Apply(m, f, time, from, to - from, duration)
  {
    Unfold(m, from, to, time, duration, f);
    Normalization(m, f, time, from, to - from, duration);
  }

  /** The value is `from` at time 0 (polynomial curves) and `to` at time duration (every curve). */
  lemma ValueEndpoints(m: MathLib, from: real, to: real, duration: Duration, f: EasingFunction)
    ensures Polynomial(f) ==> ComputeValue(m, from, to, 0.0, duration, f) == from
    ensures ComputeValue(m, from, to, duration, duration, f) == to
  {
    Unfold(m, from, to, duration, duration, f);
    Unfold(m, from, to, 0.0, duration, f);
    UnitEndpoints(m, f, duration);
  }

  lemma UnitEndpoints(m: MathLib, f: EasingFunction, duration: Duration)
    ensures Polynomial(f) ==> Unit(m, f, 0.0 / duration) == 0.0
    ensures Unit(m, f, duration / duration) == 1.0
  {
    Endpoints(m, f, 0.0, 1.0, 1.0);
    UnitAt(m, f, 0.0, duration);
    UnitAt(m, f, duration, duration);
  }

  lemma UnitAt(m: MathLib, f: EasingFunction, time: real, duration: Duration)
    ensures time == 0.0 ==> Unit(m, f, time / duration) == Unit(m, f, 0.0)
    ensures time == duration ==> Unit(m, f, time / duration) == Unit(m, f, 1.0)
  {
    if time == 0.0 {
      assert time / duration == 0.0;
    }
    if time == duration {
      DivSelf(duration);
    }
  }

  lemma DivSelf(d: Duration)
    ensures d / d == 1.0
  {
  }

  /** With the Linear curve and from <= to the value never decreases with time. */
  lemma LinearMonotone(m: MathLib, from: real, to: real, t1: real, t2: real, duration: Duration)
    requires from <= to && t1 <= t2
    ensures ComputeValue(m, from, to, t1, duration, EasingType.Linear)
         <= ComputeValue(m, from, to, t2, duration, EasingType.Linear)
  {
    assert t1 / duration <= t2 / duration;
    var k1 := Unit(m, EasingType.Linear, t1 / duration);
    var k2 := Unit(m, EasingType.Linear, t2 / duration);
    assert k1 == t1 / duration && k2 == t2 / duration;
    assert (to - from) * k1 <= (to - from) * k2;
  }

  /** Within [0, duration] a polynomial curve keeps the value between from and to. */
  lemma ValueInRange(m: MathLib, from: real, to: real, time: real, duration: Duration, f: EasingFunction)
    requires Polynomial(f) && from <= to && 0.0 <= time <= duration
    ensures from <= ComputeValue(m, from, to, time, duration, f) <= to
  {
    AgreesWithCurve(m, from, to, time, duration, f);
    NoOvershoot(m, f, time, from, to - from, duration);
  }

  /** Start seeds the value with `from` for the polynomial curves. */
  lemma StartValueIsFrom(m: MathLib, from: real, to: real, duration: real, kind: EasingType, delay: real)
    requires duration > 0.0 && delay >= 0.0 && Polynomial(Get(kind))
    ensures Start(from, to, duration, kind, delay, Strategy(m)).next.value == from
  {
    ValueEndpoints(m, from, to, duration, Get(kind));
  }

  /** An update that finishes the easing returns exactly `to`, for every curve. */
  lemma FinishValueIsTo(m: MathLib, e: Easing<real>, dt: real)
    requires Inv(e, Strategy(m)) && e.running
    ensures !Update(e, dt, Strategy(m)).next.running ==> Update(e, dt, Strategy(m)).returned == e.to
  {
    var u := Update(e, dt, Strategy(m));
    if !u.next.running {
      assert EffectiveTime(u.next) == e.duration;
      ValueEndpoints(m, e.from, e.to, e.duration, e.curve);
    }
  }

  /** A started float easing on a polynomial curve always holds a value between from and to. */
  lemma InvariantValueInRange(m: MathLib, e: Easing<real>)
    requires Inv(e, Strategy(m)) && Polynomial(e.curve) && e.from <= e.to
    ensures e.from <= e.value <= e.to
  {
    EffectiveTimeInRange(e, Strategy(m));
    ValueInRange(m, e.from, e.to, EffectiveTime(e), e.duration, e.curve);
  }

  /** Start(0, 10, 2, Linear, no delay); Update(1) gives 5 and keeps running;
      a second Update(1) gives 10 and finishes. */
  lemma ScenarioWithoutDelay(m: MathLib)
    ensures var s := Start(0.0, 10.0, 2.0, EasingType.Linear, 0.0, Strategy(m)).next;
            var u1 := Update(s, 1.0, Strategy(m));
            var u2 := Update(u1.next, 1.0, Strategy(m));
            && u1.returned == 5.0 && u1.next.running
            && u2.returned == 10.0 && !u2.next.running
            && u2.events == [ValueChanged(10.0), Finished]
  {
    var s := Start(0.0, 10.0, 2.0, EasingType.Linear, 0.0, Strategy(m)).next;
    var u1 := Update(s, 1.0, Strategy(m));
    assert u1.next.time == 1.0;
    assert u1.returned == ComputeValue(m, 0.0, 10.0, 1.0, 2.0, EasingType.Linear);
    var u2 := Update(u1.next, 1.0, Strategy(m));
    assert u2.next.time == 2.0;
    assert u2.returned == ComputeValue(m, 0.0, 10.0, 2.0, 2.0, EasingType.Linear);
  }

  /** Start(0, 10, 2, Linear, delay 1); Update(0.5) holds 0; Update(1) crosses the delay
      with 0.5 s to spare and gives 2.5. */
  lemma ScenarioWithDelay(m: MathLib)
    ensures var s := Start(0.0, 10.0, 2.0, EasingType.Linear, 1.0, Strategy(m)).next;
            var u1 := Update(s, 0.5, Strategy(m));
            var u2 := Update(u1.next, 1.0, Strategy(m));
            && u1.returned == 0.0 && u1.next.running
            && EffectiveTime(u2.next) == 0.5 && u2.returned == 2.5 && u2.next.running
  {
    var s := Start(0.0, 10.0, 2.0, EasingType.Linear, 1.0, Strategy(m)).next;
    var u1 := Update(s, 0.5, Strategy(m));
    assert u1.next.time == 0.5;
    assert u1.returned == ComputeValue(m, 0.0, 10.0, 0.0, 2.0, EasingType.Linear);
    var u2 := Update(u1.next, 1.0, Strategy(m));
    assert u2.next.time == 1.5;
    assert u2.returned == ComputeValue(m, 0.0, 10.0, 0.5, 2.0, EasingType.Linear);
  }

  /** Start(0, 10) with the defaults: one second, Linear, no delay; Update(0.25) gives 2.5. */
  lemma ScenarioDefaults(m: MathLib)
    ensures var s := Start(0.0, 10.0, compute := Strategy(m)).next;
            var u := Update(s, 0.25, Strategy(m));
            && s.duration == 1.0 && s.delay == 0.0 && s.curve == EasingType.Linear
            && u.returned == 2.5 && u.next.running
  {
    var s := Start(0.0, 10.0, compute := Strategy(m)).next;
    var u := Update(s, 0.25, Strategy(m));
    assert u.next.time == 0.25;
    assert u.returned == ComputeValue(m, 0.0, 10.0, 0.25, 1.0, EasingType.Linear);
  }
}
