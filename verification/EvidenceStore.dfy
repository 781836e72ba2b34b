/** The append-only evidence journal: memory/evidence_store.py. Each append is one transaction. */
module EvidenceStore {
  import opened Prelude

  /** A candidate row of an attempt. */
  datatype Candidate = Candidate(
    hash: string, status: string, family: string, failedGates: seq<string>, evaluated: bool, passed: bool)

  /** The payloads by kind; `rest` stands for the fields that no check reads. */
  datatype Payload =
    | RunPayload(run: string, requested: int, rest: string)
    | ManifestPayload(run: string, comparisonKey: string, rest: string)
    | AttemptPayload(run: string, attempt: string, generation: int, status: string, candidates: seq<Candidate>,
        rest: string)
    | GenerationPayload(run: string, generation: int, status: string, chosen: Option<string>)
    | EndPayload(run: string, status: string)

  /** Event ids as the writers spell them; any other text is an id too. */
  datatype EventId =
    | RunId(run: string)
    | ManifestId(run: string)
    | AttemptId(attempt: string)
    | GenerationId(run: string, generation: int)
    | EndId(run: string)
    | OtherId(text: string)

  datatype Event = Event(id: EventId, payload: Payload)

  datatype StoreError =
    | IdentityRequired | IdentityConflict | InvalidEvent | RunClosed | RunNotRegistered

  /** What `_validate` asks beyond the types. */
  predicate ValidPayload(p: Payload) {
    && p.run != ""
    && (p.RunPayload? ==> p.requested >= 1)
    && (p.AttemptPayload? || p.GenerationPayload? ==> p.generation >= 1)
  }

  predicate SameKind(p: Payload, q: Payload) {
    || (p.RunPayload? && q.RunPayload?)
    || (p.ManifestPayload? && q.ManifestPayload?)
    || (p.AttemptPayload? && q.AttemptPayload?)
    || (p.GenerationPayload? && q.GenerationPayload?)
    || (p.EndPayload? && q.EndPayload?)
  }

  /** The journal after an append, or why it is refused. Repeating an event changes nothing. */
  function Appended(events: seq<Event>, id: EventId, p: Payload): Result<seq<Event>, StoreError> {
    if id == OtherId("") then Err(IdentityRequired)
    else if exists e :: e in events && e.id == id then
      if Event(id, p) in events then Ok(events) else Err(IdentityConflict)
    else if !ValidPayload(p) then Err(InvalidEvent)
    else if exists e :: e in events && e.payload.run == p.run && e.payload.EndPayload? then Err(RunClosed)
    else if !p.RunPayload? && !exists e ::
        e in events && e.payload.run == p.run && e.payload.RunPayload? then Err(RunNotRegistered)
    else if (p.RunPayload? || p.ManifestPayload?) && exists e ::
        e in events && e.payload.run == p.run && SameKind(e.payload, p) then
      Err(IdentityConflict)
    else Ok(events + [Event(id, p)])
  }

  /** Whether an event of a run is in the journal, of whatever kind. */
  ghost predicate InRun(events: seq<Event>, e: Event, run: string) {
    e in events && e.payload.run == run
  }

  /** Which appends change the journal, and how a refused one is refused. A new event needs an id, a run that is
      registered and not ended, a payload in its bounds, and, to register a run or to freeze a manifest, that this
      is the first time. */
  lemma AppendIff(events: seq<Event>, id: EventId, p: Payload)
    ensures var first := forall e | e in events :: e.id != id;
            var registered := exists e :: InRun(events, e, p.run) && e.payload.RunPayload?;
            var ended := exists e :: InRun(events, e, p.run) && e.payload.EndPayload?;
            var frozen := exists e :: InRun(events, e, p.run) && e.payload.ManifestPayload?;
            var bounded := && p.run != "" && (p.RunPayload? ==> p.requested > 0)
                           && (p.AttemptPayload? ==> p.generation > 0) && (p.GenerationPayload? ==> p.generation > 0);
            && (Appended(events, id, p) == Ok(events + [Event(id, p)]) <==>
                  && id != OtherId("") && first && bounded && !ended
                  && (if p.RunPayload? then !registered else registered)
                  && (p.ManifestPayload? ==> !frozen))
            && (Appended(events, id, p) == Ok(events) <==> id != OtherId("") && Event(id, p) in events)
            && (Appended(events, id, p).Ok? ==> Appended(events, id, p).value in {events, events + [Event(id, p)]})
            && (Appended(events, id, p) == Err(InvalidEvent) <==> id != OtherId("") && first && !bounded)
            && (Appended(events, id, p) == Err(RunClosed) <==> id != OtherId("") && first && bounded && ended)
            && (Appended(events, id, p) == Err(RunNotRegistered) <==>
                  id != OtherId("") && first && bounded && !ended && !registered && !p.RunPayload?)
  {
    assert |events + [Event(id, p)]| > |events|;
    assert forall e :: InRun(events, e, p.run) <==> e in events && e.payload.run == p.run;
  }

  /** The store. */
  class Store {
    var events: seq<Event>

    constructor ()
      ensures events == []
    {
      events := [];
    }

    /** The select by id. */
    method Lookup(id: EventId) returns (prior: Option<Payload>)
      requires UniqueIds(events)
      ensures prior.Some? <==> exists e :: e in events && e.id == id
      ensures prior.Some? ==> forall p :: Event(id, p) in events <==> p == prior.value
    {
      for i := 0 to |events|
        invariant forall k | 0 <= k < i :: events[k].id != id
      {
        if events[i].id == id {
          assert events[i] in events && events[i] == Event(id, events[i].payload);
          return Some(events[i].payload);
        }
      }
      return None;
    }

    /** What the history of the run of `p` says: whether it has an end, a registration, and an event of
        the same kind. */
    method History(p: Payload) returns (closed: bool, registered: bool, repeated: bool)
      ensures closed <==> exists e :: e in events && e.payload.run == p.run && e.payload.EndPayload?
      ensures registered <==> exists e :: e in events && e.payload.run == p.run && e.payload.RunPayload?
      ensures repeated <==> exists e :: e in events && e.payload.run == p.run && SameKind(e.payload, p)
    {
      hide SameKind;
      closed, registered, repeated := false, false, false;
      for k := 0 to |events|
        invariant closed <==> exists e :: e in events[..k] && e.payload.run == p.run && e.payload.EndPayload?
        invariant registered <==> exists e :: e in events[..k] && e.payload.run == p.run && e.payload.RunPayload?
        invariant repeated <==> exists e :: e in events[..k] && e.payload.run == p.run && SameKind(e.payload, p)
      {
        assert events[..k + 1] == events[..k] + [events[k]];
        if events[k].payload.run == p.run {
          closed := closed || events[k].payload.EndPayload?;
          registered := registered || events[k].payload.RunPayload?;
          repeated := repeated || SameKind(events[k].payload, p);
        }
      }
      assert events[..|events|] == events;
    }

    /** `EvidenceStore.append`: the scan for the id, the validation, the scan of the run's history. */
    method Append(id: EventId, p: Payload) returns (r: Result<(), StoreError>)
      requires UniqueIds(events)
      modifies this
      ensures match Appended(old(events), id, p)
              case Ok(after) => r == Ok(()) && events == after
              case Err(error) => r == Err(error) && events == old(events)
      ensures UniqueIds(events)
    {
      if id == OtherId("") {
        return Err(IdentityRequired);
      }
      var prior := Lookup(id);
      if prior.Some? {
        return if prior.value == p then Ok(()) else Err(IdentityConflict);
      }
      if !ValidPayload(p) {
        return Err(InvalidEvent);
      }
      var closed, registered, repeated := History(p);
      if closed {
        return Err(RunClosed);
      }
      if !p.RunPayload? && !registered {
        return Err(RunNotRegistered);
      }
      if (p.RunPayload? || p.ManifestPayload?) && repeated {
        return Err(IdentityConflict);
      }
      events := events + [Event(id, p)];
      return Ok(());
    }
  }

  // ----- What every journal is, whoever writes to it

  ghost predicate UniqueIds(events: seq<Event>) {
    forall i, j | 0 <= i < j < |events| :: events[i].id != events[j].id
  }

  ghost predicate RegisteredFirst(events: seq<Event>) {
    forall i | 0 <= i < |events| && !events[i].payload.RunPayload? ::
      exists j | 0 <= j < i :: events[j].payload.run == events[i].payload.run && events[j].payload.RunPayload?
  }

  /** Two events of one run, in this order. */
  ghost predicate InOrder(early: Payload, late: Payload) {
    early.run == late.run ==>
      !early.EndPayload? && !late.RunPayload? && !(early.ManifestPayload? && late.ManifestPayload?)
  }

  /** Per run: its registration comes first and once, there is at most one manifest, and nothing
      follows its end. */
  ghost predicate Orderly(events: seq<Event>) {
    && UniqueIds(events)
    && (forall e | e in events :: ValidPayload(e.payload))
    && RegisteredFirst(events)
    && (forall i, j | 0 <= i < j < |events| :: InOrder(events[i].payload, events[j].payload))
  }

  lemma SnocRegistered(events: seq<Event>, e: Event)
    requires RegisteredFirst(events)
    requires !e.payload.RunPayload? ==> exists f ::
             f in events && f.payload.run == e.payload.run && f.payload.RunPayload?
    ensures RegisteredFirst(events + [e])
  {
    var after := events + [e];
    forall i | 0 <= i < |after| && !after[i].payload.RunPayload?
      ensures exists j | 0 <= j < i :: after[j].payload.run == after[i].payload.run && after[j].payload.RunPayload?
    {
      if i < |events| {
        var j :| 0 <= j < i && events[j].payload.run == events[i].payload.run && events[j].payload.RunPayload?;
        assert after[j] == events[j];
      } else {
        var f :| f in events && f.payload.run == e.payload.run && f.payload.RunPayload?;
        var j :| 0 <= j < |events| && events[j] == f;
        assert after[j] == f;
      }
    }
  }

  /** Every event's run is registered. */
  lemma RunRegistered(events: seq<Event>, e: Event)
    requires RegisteredFirst(events) && e in events
    ensures exists f :: f in events && f.payload.run == e.payload.run && f.payload.RunPayload?
  {
    var i :| 0 <= i < |events| && events[i] == e;
    if !e.payload.RunPayload? {
      var j :| 0 <= j < i && events[j].payload.run == events[i].payload.run && events[j].payload.RunPayload?;
      assert events[j] in events;
    }
  }

  /** No append, of any event by anyone, breaks the order; and a journal only ever grows at its end. */
  lemma AppendKeepsOrder(events: seq<Event>, id: EventId, p: Payload)
    requires Orderly(events)
    ensures Appended(events, id, p).Ok? ==>
            Orderly(Appended(events, id, p).value) && events <= Appended(events, id, p).value
  {
    hide RegisteredFirst, ValidPayload;
    var r := Appended(events, id, p);
    if r.Ok? && r.value != events {
      var e := Event(id, p);
      SnocRegistered(events, e);
      forall f | f in events
        ensures f.id != id && InOrder(f.payload, p)
      {
        RunRegistered(events, f);
      }
    }
  }
}
