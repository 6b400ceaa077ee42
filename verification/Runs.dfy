/** Runs of the monitoring process: evaluations being saved and messages being delivered in any order,
    for any number of scopes, with a messenger that takes or refuses each message as it pleases. */
module Runs {
  import opened Notifications

  datatype Event =
    | Save(saving: Saving)
    | DeliverPending(now: int, accepted: set<Key>)
    | DeliverOne(now: int, accepted: set<Key>)

  datatype Timing = Timing(quiet: nat, backoff: nat)

  /** The tables, and every call of the messenger so far. */
  datatype World = World(store: Store, log: seq<Attempt>)

  const START := World(Store(map[], [], []), [])

  /** The rows an event hands to the messenger. */
  function Tried(queue: seq<Notice>, e: Event): seq<Notice> {
    match e
    case Save(_) => []
    case DeliverPending(now, _) => Collapse(Due(queue, now)).newest
    case DeliverOne(now, _) => Oldest(queue, now)
  }

  /** The rows an event gives up because a newer one speaks for them. */
  function GivenUp(queue: seq<Notice>, e: Event): seq<Notice> {
    if e.DeliverPending? then Collapse(Due(queue, e.now)).dropped else []
  }

  function Step(w: World, e: Event, t: Timing): World {
    if e.Save? then World(Saved(w.store, e.saving, t.quiet), w.log)
    else
      var queue := w.store.queue;
      World(w.store.(queue :=
          SettleAll(queue, Keys(GivenUp(queue, e)), Keys(Tried(queue, e)), e.accepted, e.now, t.backoff)),
            w.log + Attempts(Tried(queue, e), e.now, e.accepted))
  }

  function Run(events: seq<Event>, t: Timing): World {
    if events == [] then START else Step(Run(events[..|events| - 1], t), events[|events| - 1], t)
  }

  lemma {:induction false} RunSnoc(events: seq<Event>, e: Event, t: Timing)
    ensures Run(events + [e], t) == Step(Run(events, t), e, t)
  {
  }

  /** A delivery step is what the worker's two methods compute: the queue they leave, and the log grown by
      the sends they return. */
  lemma {:induction false} StepIsDelivery(w: World, now: int, accepted: set<Key>, t: Timing)
    ensures Step(w, DeliverPending(now, accepted), t)
         == World(w.store.(queue := AfterDelivery(w.store.queue, now, accepted, t.backoff)),
                  w.log + Attempts(Collapse(Due(w.store.queue, now)).newest, now, accepted))
    ensures Step(w, DeliverOne(now, accepted), t)
         == World(w.store.(queue := AfterDeliveringOne(w.store.queue, now, accepted, t.backoff)),
                  w.log + Attempts(Oldest(w.store.queue, now), now, accepted))
  {
  }
}
