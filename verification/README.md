# UnityEasing core in Dafny

A model of the pure logic under the Unity glue of UnityEasing, a tweening library:

- the **curve library** — Penner's easing equations `F(t, b, c, d)` (time, begin,
  change, duration) for Linear, Quad, Cubic and Elastic, and the `Get` dispatcher
  from the `EasingType` enumeration to an equation, which falls back to Linear for
  every kind without an equation of its own;
- the generic **easing state machine** `Easing<T>`: `Start`, `Stop`, the clamped
  `Time` setter (here `SetTime`) and `Update(dt)`, over an immutable state record.
  Each transition returns the next state and the events it fires (`Started`,
  `ValueChanged(v)`, `Finished`, `Stopped`) in firing order. The per-type value
  computation (the abstract `ComputeValue`) is a function parameter, a *strategy*;
- the **scalar strategy** `FloatEasing.ComputeValue`, which evaluates the curve on
  the normalized progress `time / duration`;
- the **registry** of `EasingManager`: a set of registered easing ids, a map from id
  to easing state, boolean add/remove, and a tick that updates every registered
  easing once.

Time and values are Dafny `real`s. The easing clock `time` is the total clock,
delay included; the delay is a fixed offset on it (it is never counted down), and
the strategy sees the *effective time* `0` while `time < delay` and `time - delay`
afterwards.

Files: `easing_type.dfy` (module `EasingTypes`), `easing_functions.dfy`
(`EasingFunctions`), `easing.dfy` (`Easings`), `easing_trace.dfy` (`EasingTraces`:
sequences of calls and the event trace they fire), `float_easing.dfy`
(`FloatEasings`), `easing_manager.dfy` (`EasingManagers`).

### Behaviour of the library worth knowing

- There is only a `Running` flag; the delay is a fixed offset on the total clock and
  is never counted down, so a step that crosses the end of the delay carries its
  overshoot automatically (`Easings.DelayOvershootCarried`).
- `Update(0)` on a running easing fires `ValueChanged` again, because `Update` always
  goes through the `Time` setter (`Easings.UpdateZero`).
- `Start` uses the duration and delay it is given as they are; the model makes
  `duration > 0` and `delay >= 0` preconditions of `Start`.
- Seeking to exactly `Delay + Duration` through the `Time` setter leaves the easing
  running; only the next `Update` fires `Finished`.
- `FloatEasing` calls the curve with a single argument although the delegate takes
  four. The model reads that call as `F(p, 0, 1, 1)` (`EasingFunctions.Unit`) and
  proves that for the polynomial curves this equals `F(time, from, to - from,
  duration)` (`FloatEasings.AgreesWithCurve`).

## Model

| member | source | states |
|---|---|---|
| `EasingFunctions.LinearEndpoints` | UnityEasing/Assets/UnityEasing/Scripts/Easing/EasingFunctions.cs:47-50 | the curve gives b at t = 0 and exactly b + c at t = d, for every d ≠ 0 |
| `EasingFunctions.InCubicEndpoints` | UnityEasing/Assets/UnityEasing/Scripts/Easing/EasingFunctions.cs:55-59 | returns b at t = 0 and b + c at t = d |
| `EasingFunctions.OutCubicEndpoints` | UnityEasing/Assets/UnityEasing/Scripts/Easing/EasingFunctions.cs:64-69 | returns b at t = 0 and b + c at t = d |
| `EasingFunctions.InOutCubicPoints` | UnityEasing/Assets/UnityEasing/Scripts/Easing/EasingFunctions.cs:74-85 | returns b at t = 0, b + c/2 at t = d/2 and b + c at t = d |
| `EasingFunctions.InQuadEndpoints` | UnityEasing/Assets/UnityEasing/Scripts/Easing/EasingFunctions.cs:90-94 | returns b at t = 0 and b + c at t = d |
| `EasingFunctions.OutQuadEndpoints` | UnityEasing/Assets/UnityEasing/Scripts/Easing/EasingFunctions.cs:99-103 | returns b at t = 0 and b + c at t = d |
| `EasingFunctions.InOutQuadPoints` | UnityEasing/Assets/UnityEasing/Scripts/Easing/EasingFunctions.cs:108-118 | returns b at t = 0, b + c/2 at t = d/2 and b + c at t = d |
| `EasingFunctions.OutElasticEnd` | UnityEasing/Assets/UnityEasing/Scripts/Easing/EasingFunctions.cs:123-134 | the curve gives exactly b + c at t = d, through the epsilon guard, whatever the transcendental functions are |
| `EasingFunctions.InElasticEnd` | UnityEasing/Assets/UnityEasing/Scripts/Easing/EasingFunctions.cs:139-150 | the curve gives exactly b + c at t = d, through the epsilon guard, whatever the transcendental functions are |
| `EasingFunctions.InOutElasticEnd` | UnityEasing/Assets/UnityEasing/Scripts/Easing/EasingFunctions.cs:155-171 | the curve gives exactly b + c at t = d, through the guard on t/(d/2) near 2, whatever the transcendental functions are |
| `EasingFunctions.Linear` | UnityEasing/Assets/UnityEasing/Scripts/Easing/EasingFunctions.cs:47-50 | the equation c·t/d + b; no contract of its own, properties in LinearEndpoints, LinearNormalization and NoOvershoot |
| `EasingFunctions.InCubic` | UnityEasing/Assets/UnityEasing/Scripts/Easing/EasingFunctions.cs:55-59 | the equation c·p³ + b with p = t/d; no contract of its own, properties in InCubicEndpoints, InCubicNormalization and UnitRange |
| `EasingFunctions.OutCubic` | UnityEasing/Assets/UnityEasing/Scripts/Easing/EasingFunctions.cs:64-69 | the equation c·((t/d − 1)³ + 1) + b; no contract of its own, properties in OutCubicEndpoints, OutCubicNormalization and UnitRange |
| `EasingFunctions.InOutCubic` | UnityEasing/Assets/UnityEasing/Scripts/Easing/EasingFunctions.cs:74-85 | the two-branch equation on p = t/(d/2); no contract of its own, properties in InOutCubicPoints, InOutCubicNormalization and UnitRange |
| `EasingFunctions.InQuad` | UnityEasing/Assets/UnityEasing/Scripts/Easing/EasingFunctions.cs:90-94 | the equation c·p² + b with p = t/d; no contract of its own, properties in InQuadEndpoints, InQuadNormalization and UnitRange |
| `EasingFunctions.OutQuad` | UnityEasing/Assets/UnityEasing/Scripts/Easing/EasingFunctions.cs:99-103 | the equation −c·p·(p − 2) + b; no contract of its own, properties in OutQuadEndpoints, OutQuadNormalization and UnitRange |
| `EasingFunctions.InOutQuad` | UnityEasing/Assets/UnityEasing/Scripts/Easing/EasingFunctions.cs:108-118 | the two-branch equation on p = t/(d/2); no contract of its own, properties in InOutQuadPoints, InOutQuadNormalization and UnitRange |
| `EasingFunctions.OutElastic` | UnityEasing/Assets/UnityEasing/Scripts/Easing/EasingFunctions.cs:123-134 | the epsilon guard, then the equation over pow2, sin and pi from MathLib; no contract of its own, properties in OutElasticEnd and ElasticGuard |
| `EasingFunctions.InElastic` | UnityEasing/Assets/UnityEasing/Scripts/Easing/EasingFunctions.cs:139-150 | the epsilon guard, then the equation over MathLib; no contract of its own, properties in InElasticEnd and ElasticGuard |
| `EasingFunctions.InOutElastic` | UnityEasing/Assets/UnityEasing/Scripts/Easing/EasingFunctions.cs:155-171 | the guard on t/(d/2) near 2, then the two-branch equation over MathLib; no contract of its own, properties in InOutElasticEnd and ElasticGuard |
| `EasingFunctions.Apply` | UnityEasing/Assets/UnityEasing/Scripts/Easing/EasingFunctions.cs:14 | invoking an `EasingFunction` delegate with (t, b, c, d); no contract of its own, properties in GetDispatch, Endpoints and Normalization |
| `EasingFunctions.Unit` | UnityEasing/Assets/UnityEasing/Scripts/Easing/FloatEasing.cs:14 | the one-argument call read as F(p, 0, 1, 1); no contract of its own, properties in Normalization and UnitRange |
| `FloatEasings.Strategy` | UnityEasing/Assets/UnityEasing/Scripts/Easing/FloatEasing.cs:12-15 | the `ComputeValue` override handed to the state machine; no contract of its own, properties in StartValueIsFrom, FinishValueIsTo and InvariantValueInRange |
| `FloatEasings.ScenarioDefaults` | UnityEasing/Assets/UnityEasing/Scripts/Easing/FloatEasing.cs:10 | Start(0, 10) with the default duration 1, Linear and delay 0; Update(0.25) returns 2.5 and runs on |
| `EasingTraces.Run` | UnityEasing/Assets/UnityEasing/Scripts/Easing/Easing.cs:122-205 | a sequence of calls with their events concatenated in order; the final easing is well formed (running implies a positive duration); properties in TerminationBalance and FinishedAtMostOncePerStart |
| `Easings.Inv` | UnityEasing/Assets/UnityEasing/Scripts/Easing/Easing.cs:122-175 | the state invariant (positive duration, non-negative delay, clock in [0, Delay + Duration], Value computed for the effective time); established by Start and kept by SetTime, Update and Tick |
| `EasingFunctions.EpsilonPositive` | UnityEasing/Assets/UnityEasing/Scripts/Easing/EasingFunctions.cs:125 | Mathf.Epsilon (2^-149) is strictly between 0 and 1, so the guards admit t = d |
| `EasingFunctions.Get` | UnityEasing/Assets/UnityEasing/Scripts/Easing/EasingFunctions.cs:26-42 | hands out the requested kind exactly when it is one of the ten implemented ones; every other kind gets Linear |
| `EasingFunctions.GetDispatch` | UnityEasing/Assets/UnityEasing/Scripts/Easing/EasingFunctions.cs:26-42 | evaluating the curve Get returns agrees, for all 31 kinds, with a kind-by-kind table in which Quart, Quint, Sine, Expo, Circ, Back and Bounce evaluate Linear |
| `EasingFunctions.Endpoints` | UnityEasing/Assets/UnityEasing/Scripts/Easing/EasingFunctions.cs:47-171 | every polynomial curve starts at b; all ten curves end at exactly b + c |
| `EasingFunctions.Normalization` | UnityEasing/Assets/UnityEasing/Scripts/Easing/EasingFunctions.cs:47-118 | each polynomial curve satisfies F(t, b, c, d) = b + c · F(t/d, 0, 1, 1) |
| `EasingFunctions.UnitRange` | UnityEasing/Assets/UnityEasing/Scripts/Easing/EasingFunctions.cs:47-118 | for progress in [0, 1] each normalized polynomial curve lies in [0, 1] |
| `EasingFunctions.NoOvershoot` | UnityEasing/Assets/UnityEasing/Scripts/Easing/EasingFunctions.cs:47-118 | for c ≥ 0 and 0 ≤ t ≤ d every polynomial curve lies in [b, b + c] |
| `EasingFunctions.ElasticGuard` | UnityEasing/Assets/UnityEasing/Scripts/Easing/EasingFunctions.cs:125-160 | In/OutElastic return exactly b + c when t/d is within Epsilon of 1; InOutElastic when t/(d/2) is within Epsilon of 2 |
| `Easings.Fresh` | UnityEasing/Assets/UnityEasing/Scripts/Easing/Easing.cs:95-99 | the parameterless constructor leaves a non-running easing |
| `Easings.Effective` | UnityEasing/Assets/UnityEasing/Scripts/Easing/Easing.cs:165-172 | effective time is never negative: 0 inside the delay, and the time past the delay afterwards |
| `Easings.EffectiveTimeInRange` | UnityEasing/Assets/UnityEasing/Scripts/Easing/Easing.cs:160-172 | under the state invariant the effective time lies in [0, Duration], and equals Duration exactly when the clock is at Delay + Duration |
| `Easings.Start` | UnityEasing/Assets/UnityEasing/Scripts/Easing/Easing.cs:122-136 | duration, kind and delay default to 1, Linear and 0; sets Running, time 0, stores From/To/Duration/Delay and Get(kind), seeds Value with the strategy at time 0, fires Started then ValueChanged(Value), and establishes the state invariant |
| `Easings.Stop` | UnityEasing/Assets/UnityEasing/Scripts/Easing/Easing.cs:141-148 | a running easing stops and fires exactly one Stopped; otherwise nothing changes and nothing fires; Value and time never change |
| `Easings.Clamp` | UnityEasing/Assets/UnityEasing/Scripts/Easing/Easing.cs:160-163 | the result lies in [0, hi], is the argument when that is in range, 0 below and hi at or above |
| `Easings.SetTime` | UnityEasing/Assets/UnityEasing/Scripts/Easing/Easing.cs:156-175 | ignored when not running; otherwise sets the clock to the clamped argument, recomputes Value for the new effective time, fires one ValueChanged, changes nothing else, and keeps the invariant |
| `Easings.Update` | UnityEasing/Assets/UnityEasing/Scripts/Easing/Easing.cs:192-205 | no-op returning Value when not running; otherwise clock = clamp(time + dt), running iff the clock is below Delay + Duration, ValueChanged then (on reaching the end) Finished, returns the new Value, keeps the invariant |
| `Easings.StopIdempotent` | UnityEasing/Assets/UnityEasing/Scripts/Easing/Easing.cs:141-148 | a second Stop changes nothing and fires nothing |
| `Easings.SetTimeLastWins` | UnityEasing/Assets/UnityEasing/Scripts/Easing/Easing.cs:156-175 | seeking twice leaves the same state as seeking once to the second point |
| `Easings.UpdateMonotone` | UnityEasing/Assets/UnityEasing/Scripts/Easing/Easing.cs:196 | for dt ≥ 0 the clock never goes backwards |
| `Easings.UpdateAdditive` | UnityEasing/Assets/UnityEasing/Scripts/Easing/Easing.cs:156-204 | Update(dt1) then Update(dt2) gives the same time, Value and Running as Update(dt1 + dt2), for dt1, dt2 ≥ 0 |
| `Easings.UpdateReachesEnd` | UnityEasing/Assets/UnityEasing/Scripts/Easing/Easing.cs:196-204 | a step reaching Delay + Duration stops the easing at the value for effective time Duration and fires ValueChanged of that value, then Finished |
| `Easings.DelayHoldsValue` | UnityEasing/Assets/UnityEasing/Scripts/Easing/Easing.cs:165-168 | while the clock stays inside the delay the returned value is the unchanged start value |
| `Easings.DelayOvershootCarried` | UnityEasing/Assets/UnityEasing/Scripts/Easing/Easing.cs:169-172 | a step crossing the end of the delay yields effective time time + dt − Delay |
| `Easings.UpdateZero` | UnityEasing/Assets/UnityEasing/Scripts/Easing/Easing.cs:194-204 | Update(0) on a running unfinished easing keeps the state but fires ValueChanged of the unchanged value |
| `EasingTraces.Exec` | UnityEasing/Assets/UnityEasing/Scripts/Easing/Easing.cs:122-205 | any call other than Start on a non-running easing changes nothing and fires nothing |
| `EasingTraces.ExecBalance` | UnityEasing/Assets/UnityEasing/Scripts/Easing/Easing.cs:122-205 | one call fires Started only if it is Start, and fires a termination exactly when it turns a running easing into a non-running one |
| `EasingTraces.TerminationBalance` | UnityEasing/Assets/UnityEasing/Scripts/Easing/Easing.cs:141-204 | over calls without Start, a running easing fires exactly one Finished-or-Stopped iff it ends up not running; a non-running one is inert |
| `EasingTraces.FinishedAtMostOncePerStart` | UnityEasing/Assets/UnityEasing/Scripts/Easing/Easing.cs:122-204 | over any calls, terminations plus the final running flag never exceed Starts plus the initial running flag |
| `EasingTraces.FinishedAtMostOnce` | UnityEasing/Assets/UnityEasing/Scripts/Easing/Easing.cs:194-202 | between two Starts Finished fires at most once, and never from a non-running easing |
| `FloatEasings.ComputeValue` | UnityEasing/Assets/UnityEasing/Scripts/Easing/FloatEasing.cs:12-15 | curve factor 0 gives from, factor 1 gives to, and from = to gives from for every time and curve |
| `FloatEasings.AgreesWithCurve` | UnityEasing/Assets/UnityEasing/Scripts/Easing/FloatEasing.cs:14 | for the polynomial curves the normalized call equals F(time, from, to − from, duration) |
| `FloatEasings.ValueEndpoints` | UnityEasing/Assets/UnityEasing/Scripts/Easing/FloatEasing.cs:14 | the value is from at time 0 (polynomial curves) and to at time duration (all curves) |
| `FloatEasings.LinearMonotone` | UnityEasing/Assets/UnityEasing/Scripts/Easing/FloatEasing.cs:14 | with Linear and from ≤ to the value is non-decreasing in time |
| `FloatEasings.ValueInRange` | UnityEasing/Assets/UnityEasing/Scripts/Easing/FloatEasing.cs:14 | with a polynomial curve, from ≤ to and time in [0, duration] the value lies in [from, to] |
| `FloatEasings.StartValueIsFrom` | UnityEasing/Assets/UnityEasing/Scripts/Easing/Easing.cs:132 | Start seeds a float easing on a polynomial curve with exactly From |
| `FloatEasings.FinishValueIsTo` | UnityEasing/Assets/UnityEasing/Scripts/Easing/Easing.cs:196-204 | the Update that finishes a float easing returns exactly To, for every curve |
| `FloatEasings.InvariantValueInRange` | UnityEasing/Assets/UnityEasing/Scripts/Easing/FloatEasing.cs:14 | a started float easing on a polynomial curve with From ≤ To always holds a Value in [From, To] |
| `FloatEasings.ScenarioWithoutDelay` | UnityEasing/Assets/UnityEasing/Scripts/Easing/Easing.cs:192-205 | Start(0, 10, 2, Linear); Update(1) returns 5 and runs on; Update(1) returns 10, stops, fires ValueChanged(10) then Finished |
| `FloatEasings.ScenarioWithDelay` | UnityEasing/Assets/UnityEasing/Scripts/Easing/Easing.cs:160-172 | with delay 1, Update(0.5) returns 0; Update(1) reaches effective time 0.5 and returns 2.5 |
| `EasingManagers.AddEasing` | UnityEasing/Assets/UnityEasing/Scripts/Behaviours/EasingManager.cs:41-44 | returns true iff the easing was absent; afterwards it is a member, the other members and all states are unchanged, and the size grows by one exactly when true |
| `EasingManagers.RemoveEasing` | UnityEasing/Assets/UnityEasing/Scripts/Behaviours/EasingManager.cs:51-54 | returns true iff the easing was present; afterwards it is not a member, the other members and all states are unchanged, and the size shrinks by one exactly when true |
| `EasingManagers.AddThenRemove` | UnityEasing/Assets/UnityEasing/Scripts/Behaviours/EasingManager.cs:41-54 | adding an absent easing and removing it restores the registry |
| `EasingManagers.RemoveThenAdd` | UnityEasing/Assets/UnityEasing/Scripts/Behaviours/EasingManager.cs:41-54 | removing a present easing and adding it back restores the registry |
| `EasingManagers.Tick` | UnityEasing/Assets/UnityEasing/Scripts/Behaviours/EasingManager.cs:59-65 | visiting the registered easings in any order, membership is unchanged (finished easings stay), each registered easing is updated exactly once by dt, unregistered ones are untouched, and each easing fires its own Update's events |
| `EasingManagers.TickPreservesInv` | UnityEasing/Assets/UnityEasing/Scripts/Behaviours/EasingManager.cs:59-65 | a tick keeps every easing's state invariant |

## Left out

- `Update()` without arguments reads the engine's frame delta; only `Update(dt)` with dt as a parameter is modelled, and the registry tick takes dt as a parameter for the same reason.
- The transcendental parts of the elastic curves (`Mathf.Pow(2, x)`, `Mathf.Sin`, `Mathf.PI`) are caller-supplied parameters (`MathLib`); only the exact-endpoint guard is proved about them.
- Single-precision float arithmetic and rounding: everything is over exact reals. `Mathf.Epsilon` is kept as the exact real 2^-149.
- Event delegates, subscription and re-entrant handlers: events are an ordered trace; handlers that call back into an easing, or mutate the registry during a tick (which throws in .NET), are not modelled.
- The public field `time`, which bypasses the clamp, is treated as private.
- The `EasingManager.Instacnce` singleton and its GameObject; the registry is over abstract ids because `HashSet<Easing<dynamic>>` cannot hold the concrete easings.
- `Vector2Easing`, `Vector3Easing`, `ColorEasing`, `FloatEasingBehaviour`, `MoveToBehaviour`, `TransformExtensions` and `CubeExample`: engine adapters and demo code.
- Easings.Start: requires duration > 0 and delay ≥ 0 instead of modelling what negative values or a zero duration do; the code does not repair them, and the float strategy divides by the duration.
- The starting constructors `Easing(from, to, …)` and `FloatEasing(from, to, …)` only call `Start` with the same arguments and defaults; they are not separate members.
- Easings.Fresh: the absent delegate of a never-started easing is represented by Linear; it is never evaluated while the easing is not running.
