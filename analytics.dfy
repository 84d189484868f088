/**
 * The client-side event counter. A table from event name to statistics (how
 * often the event was tracked, when last, and a sample payload) is kept in the
 * browser's local storage under one key; tracking an event reads the table,
 * updates the entry in place and writes the table back. Outside a browser reads
 * give an empty table and writes do nothing.
 */
module Analytics {
  import opened Optional

  /** One event's statistics; `P` is the type of the payloads. */
  datatype EventStats<P> = EventStats(count: int, lastAt: string, payloadSample: Option<P>)

  type Events<P> = map<string, EventStats<P>>

  /**
   * What local storage holds under the analytics key: nothing (no entry, or an
   * empty string), text that does not parse, or a serialised table.
   */
  datatype Saved<P> = Nothing | Unparsable | Stored(events: Events<P>)

  /** The entry an event name starts from when it has never been tracked. */
  function Fresh<P>(): (stats: EventStats<P>) {
    EventStats(0, "", None)
  }

  /**
   * The table after tracking `name` once at time `now`: that entry counts one
   * more (one, if it was absent), carries `now`, and keeps its previous sample
   * unless a payload is given; every other entry is untouched.
   */
  function Tracked<P>(events: Events<P>, name: string, payload: Option<P>, now: string): (after: Events<P>)
    ensures after.Keys == events.Keys + {name}
    ensures after[name].count == (if name in events then events[name].count + 1 else 1)
    ensures after[name].lastAt == now
    ensures payload.Some? ==> after[name].payloadSample == payload
    ensures payload.None? ==> after[name].payloadSample == (if name in events then events[name].payloadSample else None)
    ensures forall other :: other in events && other != name ==> after[other] == events[other]
  {
    var prev := if name in events then events[name] else Fresh();
    events[name := EventStats(prev.count + 1, now, if payload.Some? then payload else prev.payloadSample)]
  }

  /** One call of the tracker: event name, optional payload, and the time of the call. */
  datatype Call<P> = Call(name: string, payload: Option<P>, now: string)

  /** The table after a sequence of calls, in order. */
  function TrackedAll<P>(events: Events<P>, calls: seq<Call<P>>): (after: Events<P>)
    decreases |calls|
  {
    if |calls| == 0 then events
    else
      var last := calls[|calls| - 1];
      Tracked(TrackedAll(events, calls[..|calls| - 1]), last.name, last.payload, last.now)
  }

  /** The names of a sequence of calls, in order. */
  function Names<P>(calls: seq<Call<P>>): (names: seq<string>)
    ensures |names| == |calls|
  {
    seq(|calls|, i requires 0 <= i < |calls| => calls[i].name)
  }

  /**
   * Starting from an empty table, exactly the called names have entries, and
   * each name's count is the number of calls with that name.
   */
  lemma {:induction false} CountsCalls<P>(calls: seq<Call<P>>)
    ensures forall n :: n in TrackedAll(map[], calls) <==> n in Names(calls)
    ensures forall n :: n in TrackedAll(map[], calls) ==>
      TrackedAll(map[], calls)[n].count == multiset(Names(calls))[n]
    decreases |calls|
  {
    if |calls| > 0 {
      var init := calls[..|calls| - 1];
      var last := calls[|calls| - 1];
      CountsCalls(init);
      assert Names(calls) == Names(init) + [last.name];
    }
  }

  /** The analytics entry of a browser's (or a server's) local storage. */
  class AnalyticsStorage<P> {
    /** Whether a browser window exists; without one storage is never touched. */
    const inBrowser: bool
    var saved: Saved<P>

    constructor(inBrowser: bool, saved: Saved<P>)
      ensures this.inBrowser == inBrowser && this.saved == saved
    {
      this.inBrowser := inBrowser;
      this.saved := saved;
    }

    /**
     * `readStore().events`: the stored table, or an empty one outside a browser,
     * when nothing is stored, or when the stored text does not parse.
     */
    function ReadStore(): (events: Events<P>)
      reads this
      ensures events != map[] ==> inBrowser && saved.Stored?
      ensures inBrowser && saved.Stored? ==> events == saved.events
    {
      if !inBrowser then map[]
      else match saved
        case Stored(events) => events
        case _ => map[]
    }

    /** `writeStore`: in a browser the table replaces what is stored; elsewhere nothing happens. */
    method WriteStore(events: Events<P>)
      modifies this
      ensures saved == if inBrowser then Stored(events) else old(saved)
      ensures ReadStore() == if inBrowser then events else map[]
    {
      if inBrowser {
        saved := Stored(events);
      }
    }

    /**
     * `trackEvent`: read the table, update the entry for `name` in place, write
     * the table back. `now` is the current time, passed in.
     */
    method TrackEvent(name: string, payload: Option<P>, now: string)
      modifies this
      ensures ReadStore() == if inBrowser then Tracked(old(ReadStore()), name, payload, now) else map[]
      ensures !inBrowser ==> saved == old(saved)
    {
      var events := ReadStore();
      var prev := if name in events then events[name] else Fresh();
      var next := EventStats(prev.count + 1, now, if payload.Some? then payload else prev.payloadSample);
      events := events[name := next];
      WriteStore(events);
    }

    /** `getAnalyticsSummary`: the events of the current table, changing nothing. */
    method Summary() returns (events: Events<P>)
      ensures events == ReadStore()
    {
      events := ReadStore();
    }
  }
}
