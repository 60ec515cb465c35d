/** The in-memory audit trail: a ring that keeps the last events, and the two queries on it. */
module AuditTrails {
  import opened Prelude

  datatype Event = Event(id: string, kind: string, actor: string, details: string)

  const CAPACITY: nat := 10_000

  function Last<T>(s: seq<T>, n: nat): seq<T> {
    if |s| <= n then s else s[|s| - n..]
  }

  function Reversed<T>(s: seq<T>): (r: seq<T>)
    ensures |r| == |s| && forall i :: 0 <= i < |s| ==> r[i] == s[|s| - 1 - i]
  {
    if s == [] then [] else [s[|s| - 1]] + Reversed(s[..|s| - 1])
  }

  function OfKind(events: seq<Event>, kind: string): seq<Event> {
    if events == [] then []
    else
      var before, last := OfKind(events[..|events| - 1], kind), events[|events| - 1];
      if last.kind == kind then before + [last] else before
  }

  /** These positions, in order, are where the events of the kind stand. */
  ghost predicate Picks(at: seq<nat>, events: seq<Event>, kind: string, picked: seq<Event>) {
    && |at| == |picked|
    && (forall i :: 0 <= i < |at| ==> at[i] < |events| && picked[i] == events[at[i]])
    && (forall i, j :: 0 <= i < j < |at| ==> at[i] < at[j])
    && forall k :: 0 <= k < |events| ==> (events[k].kind == kind <==> k in at)
  }

  lemma PicksOneMore(at: seq<nat>, events: seq<Event>, kind: string, picked: seq<Event>, last: Event)
    requires Picks(at, events, kind, picked)
    ensures if last.kind == kind then Picks(at + [|events|], events + [last], kind, picked + [last])
            else Picks(at, events + [last], kind, picked)
  {
    assert forall i :: 0 <= i < |at| ==> at[i] in at && at[i] < |events|;
    var more := events + [last];
    assert forall k :: 0 <= k < |events| ==> more[k] == events[k];
    assert forall k :: k in at + [|events|] <==> k in at || k == |events|;
  }

  /** The events of the kind, all of them, in their order. */
  lemma {:induction false} OfKindIsTheFilter(events: seq<Event>, kind: string) returns (at: seq<nat>)
    ensures Picks(at, events, kind, OfKind(events, kind))
  {
    hide Picks;
    if events == [] {
      at := [];
      PicksNothing(kind);
    } else {
      var init, last := events[..|events| - 1], events[|events| - 1];
      at := OfKindIsTheFilter(init, kind);
      PicksOneMore(at, init, kind, OfKind(init, kind), last);
      assert events == init + [last];
      if last.kind == kind { at := at + [|init|]; }
    }
  }

  lemma PicksNothing(kind: string)
    ensures Picks([], [], kind, [])
  {}

  lemma AllOfTheKind(events: seq<Event>, kind: string)
    ensures forall e :: e in OfKind(events, kind) ==> e.kind == kind && e in events
  {
    var at := OfKindIsTheFilter(events, kind);
    hide OfKind;
    forall e | e in OfKind(events, kind)
      ensures e.kind == kind && e in events
    {
      var i :| 0 <= i < |at| && OfKind(events, kind)[i] == e;
      assert at[i] in at && events[at[i]] == e;
    }
  }

  /** Python's s[:limit]: a negative limit counts from the end. */
  function Slice<T>(s: seq<T>, limit: int): seq<T> {
    if limit >= |s| then s
    else if limit >= 0 then s[..limit]
    else if |s| + limit >= 0 then s[..|s| + limit]
    else []
  }

  /** The newest first, cut at the limit. */
  function Newest(events: seq<Event>, limit: int): seq<Event> {
    Slice(Reversed(events), limit)
  }

  lemma {:induction false} OfKindConcatenates(a: seq<Event>, b: seq<Event>, kind: string)
    ensures OfKind(a + b, kind) == OfKind(a, kind) + OfKind(b, kind)
  {
    if b == [] {
      assert a + b == a;
    } else {
      assert (a + b)[..|a + b| - 1] == a + b[..|b| - 1];
      OfKindConcatenates(a, b[..|b| - 1], kind);
    }
  }

  /** Dropping old events changes a query's answer exactly when the limit reaches beyond the events that are left. */
  lemma DroppingMattersIff(dropped: seq<Event>, kept: seq<Event>, limit: nat)
    ensures Newest(kept, limit) == Newest(dropped + kept, limit) <==> dropped == [] || limit <= |kept|
  {
    var all := dropped + kept;
    if dropped == [] {
      assert all == kept;
    } else if limit <= |kept| {
      assert forall i :: 0 <= i < limit ==> Reversed(kept)[i] == Reversed(all)[i];
      assert Reversed(kept)[..limit] == Reversed(all)[..limit];
      assert Newest(kept, limit) == Reversed(kept)[..limit] && Newest(all, limit) == Reversed(all)[..limit];
    } else {
      assert |Newest(kept, limit)| == |kept| < |Newest(all, limit)|;
    }
  }

  /** What the ring has dropped of the full log. */
  function Dropped(log: seq<Event>): seq<Event> {
    log[..|log| - |Last(log, CAPACITY)|]
  }

  /** A query by kind answers as if the whole log were kept exactly when no event of that kind was dropped or enough
      of them are left. */
  lemma ByKindIsCompleteIff(log: seq<Event>, kind: string, limit: nat)
    ensures Newest(OfKind(Last(log, CAPACITY), kind), limit) == Newest(OfKind(log, kind), limit)
       <==> OfKind(Dropped(log), kind) == [] || limit <= |OfKind(Last(log, CAPACITY), kind)|
  {
    assert log == Dropped(log) + Last(log, CAPACITY);
    OfKindConcatenates(Dropped(log), Last(log, CAPACITY), kind);
    DroppingMattersIff(OfKind(Dropped(log), kind), OfKind(Last(log, CAPACITY), kind), limit);
  }

  lemma RecentIsCompleteIff(log: seq<Event>, limit: nat)
    ensures Newest(Last(log, CAPACITY), limit) == Newest(log, limit) <==> limit <= CAPACITY || |log| <= CAPACITY
  {
    assert log == Dropped(log) + Last(log, CAPACITY);
    DroppingMattersIff(Dropped(log), Last(log, CAPACITY), limit);
  }

  class AuditTrail {
    var buffer: seq<Event>
    /** Every event ever logged. */
    ghost var log: seq<Event>

    ghost predicate Valid()
      reads this
    {
      buffer == Last(log, CAPACITY)
    }

    constructor ()
      ensures Valid() && log == []
    {
      buffer, log := [], [];
    }

    /** Appends to the ring, which drops its oldest event when full. */
    method LogAuditEvent(event: Event)
      requires Valid()
      modifies this
      ensures Valid() && log == old(log) + [event]
    {
      buffer := (if |buffer| == CAPACITY then buffer[1..] else buffer) + [event];
      log := log + [event];
      assert Last(log, CAPACITY) == buffer;
    }

    method GetRecentAuditEvents(limit: int) returns (events: seq<Event>)
      requires Valid()
      ensures events == Newest(Last(log, CAPACITY), limit)
      ensures var kept := if |log| <= 10_000 then |log| else 10_000;
        |events| == if limit >= kept then kept else if limit >= 0 then limit
                    else if kept + limit >= 0 then kept + limit else 0
      ensures forall i :: 0 <= i < |events| ==> events[i] == log[|log| - 1 - i]
    {
      return Slice(Reversed(buffer), limit);
    }

    method GetAuditEventsByType(kind: string, limit: int) returns (events: seq<Event>)
      requires Valid()
      ensures events == Newest(OfKind(Last(log, CAPACITY), kind), limit)
      ensures var kept := OfKind(Last(log, CAPACITY), kind);
        && |events| == (if limit >= |kept| then |kept| else if limit >= 0 then limit
                        else if |kept| + limit >= 0 then |kept| + limit else 0)
        && forall i :: 0 <= i < |events| ==> events[i] == kept[|kept| - 1 - i] && events[i].kind == kind
    {
      events := [];
      for i := 0 to |buffer|
        invariant events == OfKind(buffer[..i], kind)
      {
        assert buffer[..i + 1][..i] == buffer[..i];
        if buffer[i].kind == kind {
          events := events + [buffer[i]];
        }
      }
      assert buffer[..|buffer|] == buffer;
      AllOfTheKind(buffer, kind);
      hide OfKind;
      return Slice(Reversed(events), limit);
    }
  }
}
