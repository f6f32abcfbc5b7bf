/** The events of chat answer jobs and the limit on how many are kept. */
module ChatEvents {
  import opened Seqs

  datatype Kind = Progress | Succeeded | Failed

  /** An event; `serial` stands for the identity of the recorded dictionary. */
  datatype Event = Event(serial: nat, owner: Option<string>, job: string, kind: Kind)

  /** `max(1, ...)` */
  function Limit(configured: int): (limit: nat)
    ensures limit >= 1 && limit >= configured && (limit == 1 || limit == configured)
  {
    if configured < 1 then 1 else configured
  }

  function OwnedBy(owner: Option<string>): Event -> bool { (e: Event) => e.owner == owner }

  function NotOwnedBy(owner: Option<string>): Event -> bool { (e: Event) => e.owner != owner }

  /** What `del events[:-limit]` drops. */
  function Dropped(events: seq<Event>, limit: nat): seq<Event> {
    if |events| > limit then events[..|events| - limit] else []
  }

  function Kept(events: seq<Event>, limit: nat): seq<Event> {
    if |events| > limit then events[|events| - limit..] else events
  }
}
