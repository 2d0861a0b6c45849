/** xrPollEvent: host events with session handles rewritten, minus those of sessions the bridge has
    already unpublished. */
module PollEvent {
  import opened Prelude

  datatype Kind =
    | InteractionProfileChanged | ReferenceSpaceChangePending | SessionStateChanged | VisibilityMaskChanged
    | OtherKind(raw: nat)

  /** xr_session_events: the event types that carry a session. */
  const SESSION_EVENTS: seq<Kind> :=
    [InteractionProfileChanged, ReferenceSpaceChangePending, SessionStateChanged, VisibilityMaskChanged]

  const RETRIES := 64

  datatype Event = Event(kind: Kind, session: nat, payload: nat)

  /** The published session, as wine_session_for_host sees it under the lock. */
  datatype Published = Published(host: nat, wrapper: nat)

  /** What one turn of the loop meets: the published session at that moment, whether the host has an
      event, and a failure of the unix call or the host. */
  datatype Turn = Turn(primary: Option<Published>, ready: bool, fault: Option<int>)

  datatype Answer = Delivered(event: Event) | Unavailable | Fault(code: int)

  /** The event the application should see, or None for one to suppress. */
  function Translate(e: Event, primary: Option<Published>): Option<Event> {
    if e.kind !in SESSION_EVENTS then Some(e)
    else if primary.Some? && primary.value.host == e.session then Some(e.(session := primary.value.wrapper))
    else None
  }

  // ---- The filter -------------------------------------------------------------------------------

  function Filter(events: seq<Event>, primaries: seq<Option<Published>>): seq<Event>
    requires |events| == |primaries|
  {
    if events == [] then []
    else
      var rest := Filter(events[1..], primaries[1..]);
      var first := Translate(events[0], primaries[0]);
      if first.Some? then [first.value] + rest else rest
  }

  lemma {:induction false} FilterAppend(e1: seq<Event>, p1: seq<Option<Published>>, e2: seq<Event>,
                                        p2: seq<Option<Published>>)
    requires |e1| == |p1| && |e2| == |p2|
    ensures Filter(e1 + e2, p1 + p2) == Filter(e1, p1) + Filter(e2, p2)
  {
    if e1 == [] {
      assert e1 + e2 == e2 && p1 + p2 == p2;
    } else {
      FilterAppend(e1[1..], p1[1..], e2, p2);
      assert (e1 + e2)[1..] == e1[1..] + e2 && (p1 + p2)[1..] == p1[1..] + p2;
    }
  }

  // What the filter does, without saying how.

  predicate CarriesSession(e: Event) {
    || e.kind.InteractionProfileChanged? || e.kind.ReferenceSpaceChangePending?
    || e.kind.SessionStateChanged? || e.kind.VisibilityMaskChanged?
  }

  /** An event that carries no session, or one of the session published at that moment. */
  predicate Wanted(e: Event, primary: Option<Published>) {
    CarriesSession(e) ==> primary.Some? && e.session == primary.value.host
  }

  /** The delivered events are those at the positions `at`, in order: exactly the wanted ones, a session
      replaced by its wrapper, and nothing else changed. */
  predicate DeliveredAt(events: seq<Event>, primaries: seq<Option<Published>>, at: seq<nat>, delivered: seq<Event>)
    requires |events| == |primaries|
  {
    && |at| == |delivered| && (forall k :: 0 <= k < |at| ==> at[k] < |events|)
    && (forall j, k :: 0 <= j < k < |at| ==> at[j] < at[k])
    && (forall i :: 0 <= i < |events| ==> (i in at <==> Wanted(events[i], primaries[i])))
    && (forall k :: 0 <= k < |at| ==>
          var e, primary := events[at[k]], primaries[at[k]];
          delivered[k] == if !CarriesSession(e) then e
                          else Event(e.kind, if primary.Some? then primary.value.wrapper else 0, e.payload))
  }

  lemma TranslateIs(e: Event, primary: Option<Published>)
    ensures Translate(e, primary).Some? <==> Wanted(e, primary)
    ensures Translate(e, primary).Some? ==>
              Translate(e, primary).value ==
              if CarriesSession(e) then Event(e.kind, primary.value.wrapper, e.payload) else e
  {
  }

  /** One more consumed event. */
  lemma DeliveredSnoc(events: seq<Event>, primaries: seq<Option<Published>>, at: seq<nat>, delivered: seq<Event>,
                      e: Event, primary: Option<Published>)
    requires |events| == |primaries| && DeliveredAt(events, primaries, at, delivered)
    ensures if Wanted(e, primary) then
              DeliveredAt(events + [e], primaries + [primary], at + [|events|], delivered + Filter([e], [primary]))
            else
              Filter([e], [primary]) == [] && DeliveredAt(events + [e], primaries + [primary], at, delivered)
  {
    TranslateIs(e, primary);
    assert [e][1..] == [];
  }

  lemma {:induction false} FilterDelivers(events: seq<Event>, primaries: seq<Option<Published>>)
    returns (at: seq<nat>)
    requires |events| == |primaries|
    ensures DeliveredAt(events, primaries, at, Filter(events, primaries))
  {
    at := [];
    if events != [] {
      var n := |events| - 1;
      at := FilterDelivers(events[..n], primaries[..n]);
      DeliveredSnoc(events[..n], primaries[..n], at, Filter(events[..n], primaries[..n]), events[n], primaries[n]);
      FilterAppend(events[..n], primaries[..n], [events[n]], [primaries[n]]);
      assert events[..n] + [events[n]] == events && primaries[..n] + [primaries[n]] == primaries;
      if Wanted(events[n], primaries[n]) { at := at + [n]; }
    }
  }

  // ---- One call -----------------------------------------------------------------------------------

  /** Answer of one call, and the sessions that were published when it consumed each event. */
  function Poll(stream: seq<Event>, pos: nat, turns: seq<Turn>): (Answer, seq<Option<Published>>)
    requires pos <= |stream|
    decreases |turns|
  {
    if turns == [] then (Unavailable, [])
    else if turns[0].fault.Some? then (Fault(turns[0].fault.value), [])
    else if !turns[0].ready || pos == |stream| then (Unavailable, [])
    else
      var primary := turns[0].primary;
      var seen := Translate(stream[pos], primary);
      if seen.Some? then (Delivered(seen.value), [primary])
      else
        var (answer, rest) := Poll(stream, pos + 1, turns[1..]);
        (answer, [primary] + rest)
  }

  function Events(a: Answer): seq<Event> {
    if a.Delivered? then [a.event] else []
  }

  /** A call delivers exactly what the filter leaves of the events it consumed, and consumes at most
      one event a turn. */
  lemma {:induction false} PollFilters(stream: seq<Event>, pos: nat, turns: seq<Turn>)
    requires pos <= |stream|
    ensures var (answer, primaries) := Poll(stream, pos, turns);
            && |primaries| <= |turns| && pos + |primaries| <= |stream|
            && Events(answer) == Filter(stream[pos..pos + |primaries|], primaries)
    decreases |turns|
  {
    var (answer, primaries) := Poll(stream, pos, turns);
    if primaries != [] {
      if Translate(stream[pos], turns[0].primary).Some? {
        var taken := stream[pos..pos + |primaries|];
        assert taken == [stream[pos]] && taken[1..] == [] && primaries[1..] == [];
      } else {
        PollFilters(stream, pos + 1, turns[1..]);
        var taken := stream[pos..pos + |primaries|];
        assert primaries[1..] == Poll(stream, pos + 1, turns[1..]).1;
        assert taken[1..] == stream[pos + 1..pos + 1 + |primaries[1..]|];
      }
    }
  }

  /** Why a call stopped, and that it met the published session of each turn: it consumes one event a turn,
      from a host that has one and does not fail, until the first wanted one. */
  lemma {:induction false} CallStops(stream: seq<Event>, pos: nat, turns: seq<Turn>)
    requires pos <= |stream|
    ensures var (answer, primaries) := Poll(stream, pos, turns); var n := |primaries|;
            && n <= |turns| && pos + n <= |stream|
            && (forall k :: 0 <= k < n ==> turns[k].ready && turns[k].fault.None? && primaries[k] == turns[k].primary)
            && (forall k :: 0 <= k < n ==>
                  (Wanted(stream[pos + k], turns[k].primary) <==> answer.Delivered? && k == n - 1))
            && match answer
               case Delivered(_) => n > 0
               case Unavailable => n == |turns| || (turns[n].fault.None? && (!turns[n].ready || pos + n == |stream|))
               case Fault(code) => n < |turns| && turns[n].fault == Some(code)
    decreases |turns|
  {
    var (answer, primaries) := Poll(stream, pos, turns);
    if primaries != [] {
      TranslateIs(stream[pos], turns[0].primary);
      if !Wanted(stream[pos], turns[0].primary) {
        CallStops(stream, pos + 1, turns[1..]);
        var rest := Poll(stream, pos + 1, turns[1..]).1;
        assert primaries == [turns[0].primary] + rest;
        forall k | 0 <= k < |primaries|
          ensures turns[k].ready && turns[k].fault.None? && primaries[k] == turns[k].primary
          ensures Wanted(stream[pos + k], turns[k].primary) <==> answer.Delivered? && k == |primaries| - 1
        {
          if k > 0 { assert turns[k] == turns[1..][k - 1] && stream[pos + k] == stream[pos + 1 + (k - 1)]; }
        }
      }
    }
  }

  // ---- Runs ---------------------------------------------------------------------------------------

  datatype Run = Run(pos: nat, delivered: seq<Event>, primaries: seq<Option<Published>>)

  function PollAll(stream: seq<Event>, calls: seq<seq<Turn>>): (r: Run)
    ensures r.pos <= |stream|
  {
    if calls == [] then Run(0, [], [])
    else
      var before := PollAll(stream, calls[..|calls| - 1]);
      PollFilters(stream, before.pos, calls[|calls| - 1]);
      var (answer, primaries) := Poll(stream, before.pos, calls[|calls| - 1]);
      Run(before.pos + |primaries|, before.delivered + Events(answer), before.primaries + primaries)
  }

  /** Over any run of calls, with the published session changing at any time, the host falling
      silent or failing anywhere, what was delivered is exactly what was consumed, in order, minus
      session events of hosts not published at that moment, with handles rewritten. */
  lemma {:induction false} RunIsFilter(stream: seq<Event>, calls: seq<seq<Turn>>)
    requires forall i :: 0 <= i < |calls| ==> |calls[i]| == RETRIES
    ensures var r := PollAll(stream, calls);
            && r.pos == |r.primaries| <= RETRIES * |calls|
            && r.delivered == Filter(stream[..r.pos], r.primaries)
  {
    if calls != [] {
      var front := calls[..|calls| - 1];
      RunIsFilter(stream, front);
      var before, r := PollAll(stream, front), PollAll(stream, calls);
      PollFilters(stream, before.pos, calls[|calls| - 1]);
      var primaries := Poll(stream, before.pos, calls[|calls| - 1]).1;
      FilterAppend(stream[..before.pos], before.primaries, stream[before.pos..r.pos], primaries);
      assert stream[..before.pos] + stream[before.pos..r.pos] == stream[..r.pos];
    }
  }

  /** Over any run: the delivered events are the consumed ones that carry no session or one of the session
      published when they were consumed, in order, with that session's wrapper and otherwise unchanged. */
  lemma RunDeliversExactly(stream: seq<Event>, calls: seq<seq<Turn>>) returns (at: seq<nat>)
    requires forall i :: 0 <= i < |calls| ==> |calls[i]| == RETRIES
    ensures var r := PollAll(stream, calls);
            r.pos == |r.primaries| && DeliveredAt(stream[..r.pos], r.primaries, at, r.delivered)
  {
    RunIsFilter(stream, calls);
    var r := PollAll(stream, calls);
    at := FilterDelivers(stream[..r.pos], r.primaries);
  }

  lemma {:induction false} RunGrows(stream: seq<Event>, early: seq<seq<Turn>>, later: seq<seq<Turn>>)
    ensures PollAll(stream, early).primaries <= PollAll(stream, early + later).primaries
  {
    if later == [] {
      assert early + later == early;
    } else {
      var front := later[..|later| - 1];
      RunGrows(stream, early, front);
      assert (early + later)[..|early + later| - 1] == early + front;
    }
  }

  /** "When they were consumed": the k-th event of a call meets the session published in turn k of that
      call. */
  lemma PublishedInTurn(stream: seq<Event>, early: seq<seq<Turn>>, call: seq<Turn>, later: seq<seq<Turn>>, k: nat)
    requires |call| == RETRIES && forall i :: 0 <= i < |early| ==> |early[i]| == RETRIES
    requires PollAll(stream, early).pos + k < PollAll(stream, early + [call]).pos
    ensures var start, primaries := PollAll(stream, early).pos, PollAll(stream, early + [call] + later).primaries;
            k < RETRIES && start + k < |primaries| && primaries[start + k] == call[k].primary
  {
    assert (early + [call])[..|early|] == early;
    CallStops(stream, PollAll(stream, early).pos, call);
    RunIsFilter(stream, early);
    RunGrows(stream, early + [call], later);
  }

  /** Turns with a fixed published session and a host that answers. */
  function Steady(primary: Option<Published>, n: nat): seq<Turn> {
    seq(n, _ => Turn(primary, true, None))
  }

  lemma {:induction false} StalePrefix(stream: seq<Event>, pos: nat, primary: Option<Published>, n: nat, k: nat)
    requires pos <= k < |stream| && Translate(stream[k], primary).Some?
    requires forall i :: pos <= i < k ==> Translate(stream[i], primary).None?
    ensures var (answer, primaries) := Poll(stream, pos, Steady(primary, n));
            if k - pos < n then answer == Delivered(Translate(stream[k], primary).value) && |primaries| == k - pos + 1
            else answer == Unavailable && |primaries| == n
    decreases n
  {
    if n != 0 && pos < k {
      StalePrefix(stream, pos + 1, primary, n - 1, k);
      assert Steady(primary, n)[1..] == Steady(primary, n - 1);
    }
  }

  function SteadyCalls(primary: Option<Published>, n: nat): (r: seq<seq<Turn>>)
    ensures |r| == n && forall i :: 0 <= i < n ==> r[i] == Steady(primary, RETRIES)
  {
    seq(n, _ => Steady(primary, RETRIES))
  }

  lemma {:induction false} StaleCalls(stream: seq<Event>, primary: Option<Published>, k: nat, n: nat)
    requires k < |stream| && Translate(stream[k], primary).Some? && n <= k / RETRIES
    requires forall i :: 0 <= i < k ==> Translate(stream[i], primary).None?
    ensures PollAll(stream, SteadyCalls(primary, n)).pos == RETRIES * n
    ensures PollAll(stream, SteadyCalls(primary, n)).delivered == []
  {
    if n != 0 {
      StaleCalls(stream, primary, k, n - 1);
      assert SteadyCalls(primary, n)[..n - 1] == SteadyCalls(primary, n - 1);
      StalePrefix(stream, RETRIES * (n - 1), primary, RETRIES, k);
    }
  }

  /** With the published session fixed, a deliverable event behind k stale ones arrives at call
      k / 64 + 1: that call delivers it, and no earlier one delivers anything. */
  lemma DeliverableArrives(stream: seq<Event>, primary: Option<Published>, k: nat)
    requires k < |stream| && Translate(stream[k], primary).Some?
    requires forall i :: 0 <= i < k ==> Translate(stream[i], primary).None?
    ensures PollAll(stream, SteadyCalls(primary, k / RETRIES)).delivered == []
    ensures PollAll(stream, SteadyCalls(primary, k / RETRIES + 1)).delivered == [Translate(stream[k], primary).value]
    ensures PollAll(stream, SteadyCalls(primary, k / RETRIES + 1)).pos == k + 1
  {
    var n := k / RETRIES;
    StaleCalls(stream, primary, k, n);
    assert SteadyCalls(primary, n + 1)[..n] == SteadyCalls(primary, n);
    StalePrefix(stream, RETRIES * n, primary, RETRIES, k);
  }

  // ---- The code -----------------------------------------------------------------------------------

  /** What the call still has to do after `retry` turns, all of which suppressed their event. */
  ghost predicate Remaining(stream: seq<Event>, pos: nat, turns: seq<Turn>, retry: nat,
                            primaries: seq<Option<Published>>)
    requires retry <= |turns| && pos + |primaries| <= |stream|
  {
    var (answer, rest) := Poll(stream, pos + |primaries|, turns[retry..]);
    Poll(stream, pos, turns) == (answer, primaries + rest)
  }

  lemma NextTurn(stream: seq<Event>, pos: nat, turns: seq<Turn>, retry: nat, primaries: seq<Option<Published>>)
    requires retry < |turns| && pos + |primaries| <= |stream| && Remaining(stream, pos, turns, retry, primaries)
    ensures var turn, at := turns[retry], pos + |primaries|;
            if turn.fault.Some? then Poll(stream, pos, turns) == (Fault(turn.fault.value), primaries)
            else if !turn.ready || at == |stream| then Poll(stream, pos, turns) == (Unavailable, primaries)
            else
              var seen := Translate(stream[at], turn.primary);
              if seen.Some? then Poll(stream, pos, turns) == (Delivered(seen.value), primaries + [turn.primary])
              else Remaining(stream, pos, turns, retry + 1, primaries + [turn.primary])
  {
    var turn, rest := turns[retry], turns[retry + 1..];
    assert turns[retry..][0] == turn && turns[retry..][1..] == rest;
    assert primaries + [] == primaries;
    if pos + |primaries| < |stream| {
      var later := Poll(stream, pos + |primaries| + 1, rest).1;
      assert primaries + ([turn.primary] + later) == primaries + [turn.primary] + later;
    }
  }

  lemma NoTurnLeft(stream: seq<Event>, pos: nat, turns: seq<Turn>, primaries: seq<Option<Published>>)
    requires pos + |primaries| <= |stream| && Remaining(stream, pos, turns, |turns|, primaries)
    ensures Poll(stream, pos, turns) == (Unavailable, primaries)
  {
    assert turns[|turns|..] == [] && primaries + [] == primaries;
  }

  class Poller {
    const stream: seq<Event>
    var pos: nat

    constructor (stream: seq<Event>)
      ensures pos == 0 && this.stream == stream
    {
      this.stream, pos := stream, 0;
    }

    /** rewrite_event_session: a walk over the table of session events. */
    method RewriteSession(e: Event, primary: Option<Published>) returns (isSession: bool, rewritten: Event)
      ensures isSession <==> CarriesSession(e)
      ensures var published := primary.Some? && primary.value.host == e.session;
              isSession ==> rewritten == Event(e.kind, if published then primary.value.wrapper else 0, e.payload)
      ensures !isSession ==> rewritten == e
    {
      for i := 0 to |SESSION_EVENTS|
        invariant e.kind !in SESSION_EVENTS[..i]
      {
        assert SESSION_EVENTS[..i + 1] == SESSION_EVENTS[..i] + [SESSION_EVENTS[i]];
        if SESSION_EVENTS[i] == e.kind {
          var found := primary.Some? && primary.value.host == e.session;
          return true, e.(session := if found then primary.value.wrapper else 0);
        }
      }
      assert SESSION_EVENTS[..|SESSION_EVENTS|] == SESSION_EVENTS;
      return false, e;
    }

    /** xrPollEvent. A wrapper's handle is its address, never 0. */
    method PollOne(turns: seq<Turn>) returns (answer: Answer, ghost primaries: seq<Option<Published>>)
      requires pos <= |stream| && |turns| == RETRIES
      requires forall i :: 0 <= i < |turns| && turns[i].primary.Some? ==> turns[i].primary.value.wrapper != 0
      modifies this`pos
      ensures (answer, primaries) == Poll(stream, old(pos), turns)
      ensures pos == old(pos) + |primaries| <= |stream|
    {
      primaries := [];
      assert turns[0..] == turns && [] + Poll(stream, pos, turns).1 == Poll(stream, pos, turns).1;
      for retry := 0 to RETRIES
        invariant pos == old(pos) + |primaries| <= |stream|
        invariant Remaining(stream, old(pos), turns, retry, primaries)
      {
        var turn := turns[retry];
        NextTurn(stream, old(pos), turns, retry, primaries);
        if turn.fault.Some? { return Fault(turn.fault.value), primaries; }
        if !turn.ready || pos == |stream| { return Unavailable, primaries; }
        var event := stream[pos];
        var isSession, rewritten := RewriteSession(event, turn.primary);
        pos := pos + 1;
        primaries := primaries + [turn.primary];
        if !isSession || rewritten.session != 0 { return Delivered(rewritten), primaries; }
      }
      NoTurnLeft(stream, old(pos), turns, primaries);
      answer := Unavailable;
    }
  }
}
