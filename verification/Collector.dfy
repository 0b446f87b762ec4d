/** Round-robin collection of the groups' results into one buffered output record. */
module ResultCollector {
  import opened Rotation
  import opened Wrappers

  /** One result of a group. `body` stands for the illegal flag and the narrow, reduce and count fields,
      which the collector only copies. */
  datatype Response = Response(context: nat, tag: nat, body: int)

  datatype Record = Record(group: nat, response: Response)

  /** The next group to be favoured, and the record on the output. */
  datatype State = State(favoured: nat, buffer: Option<Record>)

  /** What the groups offer in a cycle, and whether the consumer takes the output record. */
  datatype Pins = Pins(offers: seq<Option<Response>>, ready: bool)

  ghost predicate Inv(n: nat, s: State) {
    s.favoured < n && (s.buffer.Some? ==> s.buffer.value.group < n)
  }

  // ----- selection

  /** The offering group nearest to the favoured one is the only choice. */
  predicate Nearest(favoured: nat, offers: seq<Option<Response>>, g: nat)
    requires favoured < |offers|
  {
    && g < |offers| && offers[g].Some?
    && forall h :: 0 <= h < |offers| && offers[h].Some? ==> Distance(favoured, g, |offers|) <= Distance(favoured, h, |offers|)
  }

  function Choice(favoured: nat, offers: seq<Option<Response>>, offset: nat): Option<nat>
    requires favoured < |offers|
    decreases |offers| - offset
  {
    if offset >= |offers| then None
    else if offers[Wrap(favoured + offset, |offers|)].Some? then Some(Wrap(favoured + offset, |offers|))
    else Choice(favoured, offers, offset + 1)
  }

  /** Rotating priority: a group is chosen when any offers, and it is the nearest. */
  lemma {:induction false} ChoiceIsNearest(favoured: nat, offers: seq<Option<Response>>, offset: nat)
    requires favoured < |offers| && offset <= |offers|
    requires forall h :: 0 <= h < |offers| && offers[h].Some? ==> offset <= Distance(favoured, h, |offers|)
    ensures Choice(favoured, offers, offset).None? <==> forall h :: 0 <= h < |offers| ==> offers[h].None?
    ensures forall g: nat :: Choice(favoured, offers, offset) == Some(g) <==> Nearest(favoured, offers, g)
    decreases |offers| - offset
  {
    var n := |offers|;
    if offset < n {
      var c := Wrap(favoured + offset, n);
      assert Distance(favoured, c, n) == offset;
      if offers[c].None? {
        ChoiceIsNearest(favoured, offers, offset + 1);
      } else {
        forall g | Nearest(favoured, offers, g) ensures g == c {
          assert Wrap(favoured + Distance(favoured, g, n), n) == g;
        }
      }
    }
  }

  /** The arbiter's scan over the groups, starting from the favoured one. */
  method Select(favoured: nat, offers: seq<Option<Response>>) returns (chosen: Option<nat>)
    requires favoured < |offers|
    ensures chosen == Choice(favoured, offers, 0)
    ensures chosen.None? <==> forall h :: 0 <= h < |offers| ==> offers[h].None?
    ensures chosen.Some? ==> Nearest(favoured, offers, chosen.value)
  {
    ChoiceIsNearest(favoured, offers, 0);
    chosen := None;
    var offset := 0;
    while offset < |offers|
      invariant offset <= |offers|
      invariant if chosen.Some? then chosen == Choice(favoured, offers, 0) else Choice(favoured, offers, 0) == Choice(favoured, offers, offset)
    {
      var candidate := favoured + offset;
      if candidate >= |offers| {
        candidate := candidate - |offers|;
      }
      if chosen.None? && offers[candidate].Some? {
        chosen := Some(candidate);
      }
      offset := offset + 1;
    }
  }

  // ----- one cycle

  function Captured(s: State, i: Pins): (r: Option<Record>)
    requires s.favoured < |i.offers|
  {
    var chosen := Choice(s.favoured, i.offers, 0);
    if (s.buffer.None? || i.ready) && chosen.Some? && chosen.value < |i.offers| && i.offers[chosen.value].Some? then
      Some(Record(chosen.value, i.offers[chosen.value].value))
    else None
  }

  function Delivered(s: State, i: Pins): Option<Record> {
    if i.ready then s.buffer else None
  }

  function Step(s: State, i: Pins): State
    requires s.favoured < |i.offers|
  {
    var captured := Captured(s, i);
    State(if captured.Some? then (if captured.value.group == |i.offers| - 1 then 0 else captured.value.group + 1) else s.favoured,
          if captured.Some? then captured
          else if Delivered(s, i).Some? then None
          else s.buffer)
  }

  /** Whether a record is captured, and which, without reference to the scan. */
  lemma CapturesNearest(s: State, i: Pins)
    requires s.favoured < |i.offers|
    ensures Captured(s, i).Some? <==> (s.buffer.None? || i.ready) && exists h :: 0 <= h < |i.offers| && i.offers[h].Some?
    ensures Captured(s, i).Some? ==> Nearest(s.favoured, i.offers, Captured(s, i).value.group)
    ensures Captured(s, i).Some? ==> i.offers[Captured(s, i).value.group] == Some(Captured(s, i).value.response)
  {
    ChoiceIsNearest(s.favoured, i.offers, 0);
    var chosen := Choice(s.favoured, i.offers, 0);
    if chosen.Some? {
      assert Nearest(s.favoured, i.offers, chosen.value);
    }
  }

  lemma StepKeeps(n: nat, s: State, i: Pins)
    requires Inv(n, s) && |i.offers| == n
    ensures Inv(n, Step(s, i))
  {
    CapturesNearest(s, i);
  }

  /** A record that the consumer does not take is frozen, and nothing is captured over it. */
  lemma StalledRecordIsFrozen(n: nat, s: State, i: Pins)
    requires Inv(n, s) && |i.offers| == n && s.buffer.Some? && !i.ready
    ensures Captured(s, i).None? && Delivered(s, i).None? && Step(s, i) == s
  {
    CapturesNearest(s, i);
  }

  /** No bubble: while any group offers, a taken record is replaced in the same cycle. */
  lemma RefillsAtOnce(n: nat, s: State, i: Pins, g: nat)
    requires Inv(n, s) && |i.offers| == n && i.ready && g < n && i.offers[g].Some?
    ensures Step(s, i).buffer.Some? && Delivered(s, i) == s.buffer
  {
    CapturesNearest(s, i);
  }

  /** A capture that passes group `g` over brings it strictly nearer to its turn. */
  lemma PassedOverIsNearer(n: nat, s: State, i: Pins, g: nat)
    requires Inv(n, s) && |i.offers| == n && g < n && i.offers[g].Some?
    requires Captured(s, i).Some? && Captured(s, i).value.group != g
    ensures Inv(n, Step(s, i))
    ensures Distance(Step(s, i).favoured, g, n) < Distance(s.favoured, g, n)
  {
    CapturesNearest(s, i);
    var c := Captured(s, i).value.group;
    assert Distance(s.favoured, c, n) <= Distance(s.favoured, g, n);
    assert Wrap(s.favoured + Distance(s.favoured, c, n), n) == c;
  }

  // ----- whole runs

  ghost predicate IsRun(n: nat, trace: seq<State>, pins: seq<Pins>) {
    && n > 0 && |trace| == |pins| + 1 && trace[0] == State(0, None)
    && (forall k :: 0 <= k < |pins| ==> |pins[k].offers| == n)
    && (forall k :: 0 <= k < |trace| ==> trace[k].favoured < n)
    && (forall k :: 0 <= k < |pins| ==> trace[k + 1] == Step(trace[k], pins[k]))
  }

  lemma {:induction false} RunKeeps(n: nat, trace: seq<State>, pins: seq<Pins>, k: nat)
    requires IsRun(n, trace, pins) && k <= |pins|
    ensures Inv(n, trace[k])
  {
    if k > 0 {
      RunKeeps(n, trace, pins, k - 1);
      StepKeeps(n, trace[k - 1], pins[k - 1]);
    }
  }

  /** Every sequence of pins has its run from reset. */
  lemma {:induction false} RunExists(n: nat, pins: seq<Pins>) returns (trace: seq<State>)
    requires n > 0 && forall k :: 0 <= k < |pins| ==> |pins[k].offers| == n
    ensures IsRun(n, trace, pins)
    decreases |pins|
  {
    if pins == [] {
      trace := [State(0, None)];
    } else {
      var last := |pins| - 1;
      var before := RunExists(n, pins[..last]);
      RunKeeps(n, before, pins[..last], last);
      StepKeeps(n, before[last], pins[last]);
      trace := before + [Step(before[last], pins[last])];
      forall k | 0 <= k < |pins| ensures trace[k + 1] == Step(trace[k], pins[k]) {
        if k < last {
          assert before[k + 1] == Step(before[k], pins[..last][k]);
        }
      }
    }
  }

  function Maybe(r: Option<Record>): seq<Record> {
    if r.Some? then [r.value] else []
  }

  /** Everything captured, and everything delivered, in the first `k` cycles. */
  function Taken(trace: seq<State>, pins: seq<Pins>, k: nat): seq<Record>
    requires k <= |pins| <= |trace| && forall j :: 0 <= j < |pins| ==> trace[j].favoured < |pins[j].offers|
  {
    if k == 0 then [] else Taken(trace, pins, k - 1) + Maybe(Captured(trace[k - 1], pins[k - 1]))
  }

  function Sent(trace: seq<State>, pins: seq<Pins>, k: nat): seq<Record>
    requires k <= |pins| <= |trace|
  {
    if k == 0 then [] else Sent(trace, pins, k - 1) + Maybe(Delivered(trace[k - 1], pins[k - 1]))
  }

  lemma HeldMoves(n: nat, s: State, i: Pins)
    requires Inv(n, s) && |i.offers| == n
    ensures Maybe(s.buffer) + Maybe(Captured(s, i)) == Maybe(Delivered(s, i)) + Maybe(Step(s, i).buffer)
  {
    if s.buffer.Some? && !i.ready {
      StalledRecordIsFrozen(n, s, i);
    }
  }

  /** Nothing is lost, duplicated, altered or reordered after it is captured. */
  lemma {:induction false} TakenIsSentThenHeld(n: nat, trace: seq<State>, pins: seq<Pins>, k: nat)
    requires IsRun(n, trace, pins) && k <= |pins|
    ensures Taken(trace, pins, k) == Sent(trace, pins, k) + Maybe(trace[k].buffer)
  {
    if k > 0 {
      TakenIsSentThenHeld(n, trace, pins, k - 1);
      RunKeeps(n, trace, pins, k - 1);
      var s, i := trace[k - 1], pins[k - 1];
      assert trace[k] == Step(s, i);
      HeldMoves(n, s, i);
      Regroup(Sent(trace, pins, k - 1), Maybe(s.buffer), Maybe(Captured(s, i)), Maybe(Delivered(s, i)), Maybe(trace[k].buffer));
    }
  }

  lemma Regroup(sent: seq<Record>, held: seq<Record>, taken: seq<Record>, out: seq<Record>, next: seq<Record>)
    requires held + taken == out + next
    ensures sent + held + taken == sent + out + next
  {
    assert sent + held + taken == sent + (held + taken);
    assert sent + out + next == sent + (out + next);
  }

  // ----- order within a group

  /** The responses of group `g` in a history of records. */
  function Of(g: nat, records: seq<Record>): seq<Response> {
    if records == [] then [] else
      Of(g, records[..|records| - 1]) + if records[|records| - 1].group == g then [records[|records| - 1].response] else []
  }

  lemma {:induction false} OfConcat(g: nat, a: seq<Record>, b: seq<Record>)
    ensures Of(g, a + b) == Of(g, a) + Of(g, b)
  {
    if b == [] {
      assert a + b == a;
    } else {
      OfConcat(g, a, b[..|b| - 1]);
      assert (a + b)[..|a + b| - 1] == a + b[..|b| - 1];
    }
  }

  /** Group `g` produces the responses `source` one after the other: in every cycle it offers nothing or
      the next one that has not been captured. */
  ghost predicate Produces(trace: seq<State>, pins: seq<Pins>, g: nat, source: seq<Response>)
    requires |pins| <= |trace| && forall j :: 0 <= j < |pins| ==> trace[j].favoured < |pins[j].offers|
    requires forall j :: 0 <= j < |pins| ==> g < |pins[j].offers|
  {
    forall k :: 0 <= k < |pins| && pins[k].offers[g].Some? ==>
      var done := |Of(g, Taken(trace, pins, k))|;
      done < |source| && pins[k].offers[g].value == source[done]
  }

  lemma {:induction false} TakesInOrder(n: nat, trace: seq<State>, pins: seq<Pins>, g: nat, source: seq<Response>, k: nat)
    requires IsRun(n, trace, pins) && g < n && Produces(trace, pins, g, source) && k <= |pins|
    ensures Of(g, Taken(trace, pins, k)) <= source
  {
    if k > 0 {
      TakesInOrder(n, trace, pins, g, source, k - 1);
      var before, captured := Taken(trace, pins, k - 1), Captured(trace[k - 1], pins[k - 1]);
      OfConcat(g, before, Maybe(captured));
      CapturesNearest(trace[k - 1], pins[k - 1]);
    }
  }

  /** Conservation against the groups' own streams: what the consumer received from group `g`, and then the
      output record if it is from `g`, is exactly a prefix of what `g` produced. */
  lemma {:induction false} PerGroupOrder(n: nat, trace: seq<State>, pins: seq<Pins>, g: nat, source: seq<Response>, k: nat)
    requires IsRun(n, trace, pins) && g < n && Produces(trace, pins, g, source) && k <= |pins|
    ensures Of(g, Sent(trace, pins, k)) + Of(g, Maybe(trace[k].buffer)) <= source
    ensures |Of(g, Sent(trace, pins, k)) + Of(g, Maybe(trace[k].buffer))| == |Of(g, Taken(trace, pins, k))|
  {
    TakenIsSentThenHeld(n, trace, pins, k);
    OfConcat(g, Sent(trace, pins, k), Maybe(trace[k].buffer));
    TakesInOrder(n, trace, pins, g, source, k);
  }

  // ----- fairness

  /** Group `g` offers in every cycle from `first` to before `last`, and is captured in none of them. */
  ghost predicate Waits(trace: seq<State>, pins: seq<Pins>, g: nat, first: nat, last: nat)
    requires last <= |pins| <= |trace| && forall j :: 0 <= j < |pins| ==> trace[j].favoured < |pins[j].offers|
  {
    forall k :: first <= k < last ==>
      && g < |pins[k].offers| && pins[k].offers[g].Some?
      && (Captured(trace[k], pins[k]).Some? ==> Captured(trace[k], pins[k]).value.group != g)
  }

  /** While a group waits, at most `n - 1` other captures happen, fewer when its turn is near. */
  lemma {:induction false} BoundedBypass(n: nat, trace: seq<State>, pins: seq<Pins>, g: nat, first: nat, last: nat)
    requires IsRun(n, trace, pins) && g < n && first <= last <= |pins| && Waits(trace, pins, g, first, last)
    ensures |Taken(trace, pins, last)| - |Taken(trace, pins, first)| + Distance(trace[last].favoured, g, n) <= Distance(trace[first].favoured, g, n)
    ensures |Taken(trace, pins, last)| - |Taken(trace, pins, first)| <= n - 1
    decreases last
  {
    if first < last {
      assert Waits(trace, pins, g, first, last - 1);
      BoundedBypass(n, trace, pins, g, first, last - 1);
      RunKeeps(n, trace, pins, last - 1);
      assert trace[last] == Step(trace[last - 1], pins[last - 1]);
      if Captured(trace[last - 1], pins[last - 1]).Some? {
        PassedOverIsNearer(n, trace[last - 1], pins[last - 1], g);
      }
    }
  }

  /** With a consumer that is always ready, a group that keeps offering is captured within `n` cycles. */
  lemma {:induction false} ServedWithinOneRound(n: nat, trace: seq<State>, pins: seq<Pins>, g: nat, first: nat, last: nat)
    requires IsRun(n, trace, pins) && g < n && first <= last <= |pins| && Waits(trace, pins, g, first, last)
    requires forall k :: first <= k < last ==> pins[k].ready
    ensures |Taken(trace, pins, last)| - |Taken(trace, pins, first)| == last - first <= n - 1
    decreases last
  {
    if first < last {
      assert Waits(trace, pins, g, first, last - 1);
      ServedWithinOneRound(n, trace, pins, g, first, last - 1);
      assert pins[last - 1].offers[g].Some? && pins[last - 1].ready;
      CapturesNearest(trace[last - 1], pins[last - 1]);
    }
    BoundedBypass(n, trace, pins, g, first, last);
  }

  // ----- the collector

  class Collector {
    const groups: nat
    var favoured: nat
    var buffer: Option<Record>

    ghost predicate Valid()
      reads this
    {
      Inv(groups, Snapshot())
    }

    ghost function Snapshot(): State
      reads this
    {
      State(favoured, buffer)
    }

    constructor (n: nat)
      requires n > 0
      ensures Valid() && groups == n && Snapshot() == State(0, None)
    {
      groups := n;
      favoured, buffer := 0, None;
    }

    /** One clock edge. The tracker is told of a capture by a one-hot pulse, with the context and the tag
        of the captured response on that group's lane and zero on every other. */
    method Cycle(i: Pins) returns (retire: seq<bool>, contexts: seq<nat>, tags: seq<nat>, delivered: Option<Record>)
      requires Valid() && |i.offers| == groups
      modifies this
      ensures Valid() && Snapshot() == Step(old(Snapshot()), i)
      ensures delivered == Delivered(old(Snapshot()), i)
      ensures |retire| == |contexts| == |tags| == groups
      ensures forall g :: 0 <= g < groups ==>
        var captured := Captured(old(Snapshot()), i);
        var mine := captured.Some? && captured.value.group == g;
        && retire[g] == mine
        && contexts[g] == (if mine then captured.value.response.context else 0)
        && tags[g] == (if mine then captured.value.response.tag else 0)
    {
      StepKeeps(groups, Snapshot(), i);
      var canCapture := buffer.None? || i.ready;
      var chosen := Select(favoured, i.offers);
      var capture := canCapture && chosen.Some?;
      delivered := if i.ready then buffer else None;
      retire, contexts, tags := [], [], [];
      for g := 0 to groups
        invariant |retire| == |contexts| == |tags| == g
        invariant forall h :: 0 <= h < g ==>
          && retire[h] == (capture && chosen.value == h)
          && contexts[h] == (if retire[h] then i.offers[h].value.context else 0)
          && tags[h] == (if retire[h] then i.offers[h].value.tag else 0)
      {
        var mine := capture && chosen.value == g;
        retire := retire + [mine];
        contexts := contexts + [if mine then i.offers[g].value.context else 0];
        tags := tags + [if mine then i.offers[g].value.tag else 0];
      }
      if buffer.Some? && i.ready {
        buffer := None;
      }
      if capture {
        buffer := Some(Record(chosen.value, i.offers[chosen.value].value));
        favoured := if chosen.value == groups - 1 then 0 else chosen.value + 1;
      }
    }
  }
}
