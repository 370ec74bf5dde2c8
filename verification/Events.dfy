/** The event envelope of the append-only log and what the engine reads off it. */
module Events {
  import opened Values

  datatype Event = Event(
    id: string,
    seqNo: int,
    prev: string,
    ts: string,
    run: string,
    phase: string,
    kind: string,
    auto: bool,
    actor: string,
    data: Fields)
  {
    function Text(key: string): string {
      StrField(data, key)
    }
  }

  /** Engine transitions are not records. */
  predicate IsTransition(e: Event) {
    e.kind == "run" || e.kind == "phase"
  }

  /** The record an event says it updates, when it names one. */
  function UpdateTarget(e: Event): Option<string> {
    if "updates" in e.data && e.data["updates"].Str? && e.data["updates"].s != ""
    then Some(e.data["updates"].s)
    else None
  }

  /** An event that opens a record of its own. */
  predicate IsOriginal(e: Event) {
    !IsTransition(e) && UpdateTarget(e).None?
  }

  ghost predicate UniqueIds(events: seq<Event>) {
    forall i, j :: 0 <= i < j < |events| ==> events[i].id != events[j].id
  }

  /** The events of one run, in order. */
  function OfRun(events: seq<Event>, run: string): seq<Event> {
    if events == [] then []
    else
      var init, last := events[..|events| - 1], events[|events| - 1];
      OfRun(init, run) + (if last.run == run then [last] else [])
  }
}
