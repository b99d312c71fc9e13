/** The easing registry: a set of registered easings, identified by abstract ids,
    and a per-frame tick that applies Update(dt) once to every registered easing.
    `states` holds the state of every easing the host owns, registered or not. */
module EasingManagers {
  import opened Easings

  datatype Manager<Id, T> = Manager(easings: set<Id>, states: map<Id, Easing<T>>)

  /** Every registered id names an easing, and every easing is well formed. */
  predicate Valid<Id, T>(m: Manager<Id, T>) {
    && m.easings <= m.states.Keys
    && forall id :: id in m.states ==> WellFormed(m.states[id])
  }

  /** Registers `id`; the flag says whether it was absent before. */
  function AddEasing<Id, T>(m: Manager<Id, T>, id: Id): (r: (Manager<Id, T>, bool))
    ensures r.1 <==> id !in m.easings
    ensures id in r.0.easings
    ensures r.0.easings - {id} == m.easings - {id}
    ensures |r.0.easings| == |m.easings| + (if r.1 then 1 else 0)
    ensures r.0.states == m.states
    ensures Valid(m) && id in m.states ==> Valid(r.0)
  {
    if id in m.easings then (m, false) else (m.(easings := m.easings + {id}), true)
  }

  /** Unregisters `id`; the flag says whether it was present before. */
  function RemoveEasing<Id, T>(m: Manager<Id, T>, id: Id): (r: (Manager<Id, T>, bool))
    ensures r.1 <==> id in m.easings
    ensures id !in r.0.easings
    ensures r.0.easings - {id} == m.easings - {id}
    ensures |r.0.easings| + (if r.1 then 1 else 0) == |m.easings|
    ensures r.0.states == m.states
    ensures Valid(m) ==> Valid(r.0)
  {
    if id in m.easings then (m.(easings := m.easings - {id}), true) else (m, false)
  }

  /** Adding an absent easing and removing it again restores the registry. */
  lemma AddThenRemove<Id, T>(m: Manager<Id, T>, id: Id)
    requires id !in m.easings
    ensures RemoveEasing(AddEasing(m, id).0, id) == (m, true)
  {
    assert m.easings + {id} - {id} == m.easings;
  }

  /** Removing a present easing and adding it again restores the registry. */
  lemma RemoveThenAdd<Id, T>(m: Manager<Id, T>, id: Id)
    requires id in m.easings
    ensures AddEasing(RemoveEasing(m, id).0, id) == (m, true)
  {
    assert m.easings - {id} + {id} == m.easings;
  }

  /** The easing states after one tick: every registered easing updated once by dt,
      every other easing untouched. */
  function TickStates<Id, T>(m: Manager<Id, T>, dt: real, compute: Strategy<T>): map<Id, Easing<T>>
    requires Valid(m)
  {
    map id | id in m.states :: if id in m.easings then Update(m.states[id], dt, compute).next else m.states[id]
  }

  /** The events each registered easing fires during one tick. */
  function TickEvents<Id, T>(m: Manager<Id, T>, dt: real, compute: Strategy<T>): map<Id, seq<Event<T>>>
    requires Valid(m)
  {
    map id | id in m.easings :: Update(m.states[id], dt, compute).events
  }

  /** One tick, visiting the registered easings in an arbitrary order, as a foreach over
      a hash set does. Whatever order is chosen, the result is the same: membership
      is unchanged, each registered easing is updated exactly once, the others are left
      alone, and each easing's events are those of its own Update. */
  method Tick<Id, T>(m: Manager<Id, T>, dt: real, compute: Strategy<T>)
    returns (m': Manager<Id, T>, events: map<Id, seq<Event<T>>>)
    requires Valid(m)
    ensures Valid(m')
    ensures m'.easings == m.easings
    ensures m'.states == TickStates(m, dt, compute)
    ensures events == TickEvents(m, dt, compute)
  {
    var states := m.states;
    var pending := m.easings;
    events := map[];
    while pending != {}
      invariant pending <= m.easings
      invariant states.Keys == m.states.Keys
      invariant forall id :: id in states ==>
        states[id] == if id in m.easings && id !in pending then Update(m.states[id], dt, compute).next else m.states[id]
      invariant events.Keys == m.easings - pending
      invariant forall id :: id in events ==> events[id] == Update(m.states[id], dt, compute).events
      decreases pending
    {
      var id :| id in pending;
      var u := Update(states[id], dt, compute);
      states := states[id := u.next];
      events := events[id := u.events];
      pending := pending - {id};
    }
    m' := Manager(m.easings, states);
  }

  /** A tick preserves the state invariant of every easing. */
  lemma TickPreservesInv<Id, T>(m: Manager<Id, T>, dt: real, compute: Strategy<T>)
    requires Valid(m)
    requires forall id :: id in m.states ==> Inv(m.states[id], compute)
    ensures forall id :: id in m.states ==> Inv(TickStates(m, dt, compute)[id], compute)
  {
  }
}
