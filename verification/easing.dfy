/** The generic easing state machine: one interpolation of a value of type T from
    `from` to `to` over `duration` seconds, after `delay` seconds. The state is an
    immutable record; Start, Stop, SetTime (the Time setter) and Update are pure
    transitions that also return the events the call fires, in firing order. The
    per-type value computation is a parameter (a value strategy). */
module Easings {
  import opened EasingTypes
  import opened EasingFunctions

  /** The notifications an easing fires. */
  datatype Event<T> = Started | ValueChanged(value: T) | Finished | Stopped

  /** A positive duration: the only durations a value strategy is asked about. */
  type Duration = d: real | d > 0.0 witness 1.0

  /** A value strategy: the value at `time` seconds into an easing from `from` to `to`
      lasting `duration` seconds along `curve`. */
  type Strategy<!T> = (T, T, real, Duration, EasingFunction) -> T

  /** `time` is the total clock, delay included; `delay` is a fixed offset on it. */
  datatype Easing<T> = Easing(
    running: bool,
    from: T,
    to: T,
    duration: real,
    value: T,
    delay: real,
    curve: EasingFunction,
    time: real)

  /** The result of a transition: the next state and the events fired, in order. */
  datatype Step<T> = Step(next: Easing<T>, events: seq<Event<T>>)

  /** The result of Update, which also returns a value. */
  datatype Updated<T> = Updated(next: Easing<T>, events: seq<Event<T>>, returned: T)

  /** A running easing has a positive duration, so its strategy can be asked. */
  predicate WellFormed<T>(e: Easing<T>) {
    e.running ==> e.duration > 0.0
  }

  /** The state the parameterless constructor leaves: not running, value `zero`.
      The curve is a stand-in for the absent delegate; it is never read while not running. */
  function Fresh<T>(zero: T): (e: Easing<T>)
    ensures !e.running && WellFormed(e)
  {
    Easing(false, zero, zero, 0.0, zero, 0.0, EasingType.Linear, 0.0)
  }

  /** Easing time as the strategy sees it: zero during the delay, then the time past it. */
  function Effective(time: real, delay: real): (r: real)
    ensures r >= 0.0
    ensures time >= delay ==> r + delay == time
    ensures time < delay ==> r == 0.0
  {
    if time < delay then 0.0 else time - delay
  }

  function EffectiveTime<T>(e: Easing<T>): real {
    Effective(e.time, e.delay)
  }

  /** The state invariant of a started easing: a positive duration, a non-negative delay,
      the clock within [0, delay + duration], and the value the strategy computes for
      the current effective time. */
  ghost predicate Inv<T>(e: Easing<T>, compute: Strategy<T>) {
    && e.duration > 0.0
    && e.delay >= 0.0
    && 0.0 <= e.time <= e.delay + e.duration
    && e.value == compute(e.from, e.to, EffectiveTime(e), e.duration, e.curve)
  }

  /** Under the invariant the effective time lies within [0, duration]. */
  lemma EffectiveTimeInRange<T>(e: Easing<T>, compute: Strategy<T>)
    requires Inv(e, compute)
    ensures 0.0 <= EffectiveTime(e) <= e.duration
    ensures EffectiveTime(e) == e.duration <==> e.time == e.delay + e.duration
  {
  }

  /** Starts a new easing, whatever the previous state was. Duration, kind and delay
      default to 1, Linear and 0, as on the C# `Start`. */
  function Start<T>(from: T, to: T, duration: real := 1.0, kind: EasingType := EasingType.Linear,
                    delay: real := 0.0, compute: Strategy<T>): (r: Step<T>)
    requires duration > 0.0 && delay >= 0.0
    ensures r.next.running && r.next.time == 0.0
    ensures r.next.from == from && r.next.to == to
    ensures r.next.duration == duration && r.next.delay == delay && r.next.curve == Get(kind)
    ensures r.next.value == compute(from, to, 0.0, duration, Get(kind))
    ensures r.events == [Started, ValueChanged(r.next.value)]
    ensures Inv(r.next, compute)
  {
    var curve := Get(kind);
    var value := compute(from, to, 0.0, duration, curve);
    Step(Easing(true, from, to, duration, value, delay, curve, 0.0), [Started, ValueChanged(value)])
  }

  /** Cancels a running easing; on any other easing it does nothing. */
  function Stop<T>(e: Easing<T>): (r: Step<T>)
    ensures !r.next.running
    ensures r.next.value == e.value && r.next.time == e.time
    ensures r.next == e.(running := false)
    ensures r.events == (if e.running then [Stopped] else [])
  {
    if e.running then Step(e.(running := false), [Stopped]) else Step(e, [])
  }

  /** The clamp of the `Time` setter, in the order the setter applies its two bounds. */
  function Clamp(v: real, hi: real): (r: real)
    ensures hi >= 0.0 ==> 0.0 <= r <= hi
    ensures 0.0 <= v <= hi ==> r == v
    ensures v < 0.0 && hi > 0.0 ==> r == 0.0
    ensures v >= hi ==> r == hi
  {
    var low := if v < 0.0 then 0.0 else v;
    if v >= hi then hi else low
  }

  /** The Time setter: a clamped seek on the total clock. Ignored when not running. */
  function SetTime<T>(e: Easing<T>, v: real, compute: Strategy<T>): (r: Step<T>)
    requires WellFormed(e)
    ensures WellFormed(r.next)
    ensures !e.running ==> r.next == e && r.events == []
    ensures e.running ==> r.next == e.(time := r.next.time, value := r.next.value)
    ensures e.running ==> r.next.time == Clamp(v, e.delay + e.duration)
    ensures e.running ==> r.next.value == compute(e.from, e.to, EffectiveTime(r.next), e.duration, e.curve)
    ensures e.running ==> r.events == [ValueChanged(r.next.value)]
    ensures Inv(e, compute) ==> Inv(r.next, compute)
  {
    if !e.running then
      Step(e, [])
    else
      var t := Clamp(v, e.delay + e.duration);
      var value := compute(e.from, e.to, Effective(t, e.delay), e.duration, e.curve);
      Step(e.(time := t, value := value), [ValueChanged(value)])
  }

  /** Advances the clock by dt through the Time setter, and finishes the easing the
      moment the clock reaches delay + duration. Returns the current value. */
  function Update<T>(e: Easing<T>, dt: real, compute: Strategy<T>): (r: Updated<T>)
    requires WellFormed(e)
    ensures WellFormed(r.next)
    ensures r.returned == r.next.value
    ensures !e.running ==> r.next == e && r.events == []
    ensures e.running ==> r.next.time == Clamp(e.time + dt, e.delay + e.duration)
    ensures e.running ==> (r.next.running <==> r.next.time < e.delay + e.duration)
    ensures e.running ==> r.next == e.(time := r.next.time, value := r.next.value, running := r.next.running)
    ensures e.running ==> r.next.value == compute(e.from, e.to, EffectiveTime(r.next), e.duration, e.curve)
    ensures e.running ==> r.events == [ValueChanged(r.next.value)] + (if r.next.running then [] else [Finished])
    ensures Inv(e, compute) ==> Inv(r.next, compute)
  {
    if !e.running then
      Updated(e, [], e.value)
    else
      var s := SetTime(e, e.time + dt, compute);
      if s.next.time >= e.delay + e.duration then
        Updated(s.next.(running := false), s.events + [Finished], s.next.value)
      else
        Updated(s.next, s.events, s.next.value)
  }

  // ---------------------------------------------------------------------------
  // Properties relating several transitions.

  /** Stop is idempotent: a second Stop changes nothing and fires nothing. */
  lemma StopIdempotent<T>(e: Easing<T>)
    ensures Stop(Stop(e).next) == Step(Stop(e).next, [])
  {
  }

  /** Seeking twice is the same as seeking once to the second point. */
  lemma SetTimeLastWins<T>(e: Easing<T>, v1: real, v2: real, compute: Strategy<T>)
    requires WellFormed(e)
    ensures SetTime(SetTime(e, v1, compute).next, v2, compute).next == SetTime(e, v2, compute).next
  {
  }

  /** Time is non-decreasing under Update with a non-negative step. */
  lemma UpdateMonotone<T>(e: Easing<T>, dt: real, compute: Strategy<T>)
    requires Inv(e, compute) && dt >= 0.0
    ensures Update(e, dt, compute).next.time >= e.time
  {
  }

  /** Time additivity: two updates by dt1 and dt2 leave the same clock, value and
      running flag as one update by dt1 + dt2. */
  lemma {:induction false} UpdateAdditive<T>(e: Easing<T>, dt1: real, dt2: real, compute: Strategy<T>)
    requires Inv(e, compute) && dt1 >= 0.0 && dt2 >= 0.0
    ensures var twice := Update(Update(e, dt1, compute).next, dt2, compute).next;
            var once := Update(e, dt1 + dt2, compute).next;
            twice.time == once.time && twice.value == once.value && twice.running == once.running
  {
    var hi := e.delay + e.duration;
    var u1 := Update(e, dt1, compute);
    var u2 := Update(u1.next, dt2, compute);
    var u := Update(e, dt1 + dt2, compute);
    if e.running {
      if e.time + dt1 >= hi {
        assert !u1.next.running && u1.next.time == hi;
        assert u2.next == u1.next;
        assert u.next.time == hi;
      } else {
        assert u1.next.time == e.time + dt1;
        assert u1.next.running;
        assert u2.next.time == Clamp(e.time + dt1 + dt2, hi);
      }
    }
  }

  /** An update that carries the clock to delay + duration or beyond finishes the
      easing at the value for effective time duration; Finished follows that value. */
  lemma UpdateReachesEnd<T>(e: Easing<T>, dt: real, compute: Strategy<T>)
    requires Inv(e, compute) && e.running && e.time + dt >= e.delay + e.duration
    ensures var r := Update(e, dt, compute);
            && !r.next.running
            && r.next.time == e.delay + e.duration
            && r.returned == compute(e.from, e.to, e.duration, e.duration, e.curve)
            && r.events == [ValueChanged(r.returned), Finished]
  {
  }

  /** While the clock stays inside the delay the value does not move. */
  lemma DelayHoldsValue<T>(e: Easing<T>, dt: real, compute: Strategy<T>)
    requires Inv(e, compute) && e.running && dt >= 0.0 && e.time + dt < e.delay
    ensures var r := Update(e, dt, compute);
            r.next.running && r.next.time == e.time + dt && r.returned == e.value
  {
  }

  /** A step that crosses the end of the delay carries its overshoot into effective time. */
  lemma DelayOvershootCarried<T>(e: Easing<T>, dt: real, compute: Strategy<T>)
    requires Inv(e, compute) && e.running
    requires e.time < e.delay <= e.time + dt <= e.delay + e.duration
    ensures EffectiveTime(Update(e, dt, compute).next) == e.time + dt - e.delay
  {
  }

  /** Update(0) on a running, unfinished easing keeps its state but still fires
      ValueChanged with the unchanged value. */
  lemma UpdateZero<T>(e: Easing<T>, compute: Strategy<T>)
    requires Inv(e, compute) && e.running && e.time < e.delay + e.duration
    ensures Update(e, 0.0, compute).next == e
    ensures Update(e, 0.0, compute).events == [ValueChanged(e.value)]
  {
  }
}
