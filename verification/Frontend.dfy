/** Ordered issue queues in front of the dispatcher: rotating selection of queue heads, and shadow
    slots that hold a stalled head until it issues or is rejected. */
module Frontend {
  import opened Dispatch
  import opened Rotation
  import opened Wrappers

  // ----- one elastic queue, as a ring in memory

  class Ring<T(0)> {
    const mem: array<T>
    var read: nat
    var write: nat
    var count: nat

    ghost predicate Valid()
      reads this, mem
    {
      && mem.Length > 0 && read < mem.Length && write < mem.Length && count <= mem.Length
      && write == Place(count)
    }

    /** The slot of the `i`-th element from the head. */
    function Place(i: nat): nat
      reads this
    {
      if read + i >= mem.Length then read + i - mem.Length else read + i
    }

    ghost function Contents(): (s: seq<T>)
      requires Valid()
      reads this, mem
      ensures |s| == count
    {
      seq(count, i requires 0 <= i < count && Valid() reads this, mem => mem[Place(i)])
    }

    constructor (depth: nat)
      requires depth > 0
      ensures Valid() && mem.Length == depth && Contents() == [] && fresh(mem)
    {
      mem := new T[depth];
      read, write, count := 0, 0, 0;
    }

    method Head() returns (x: T)
      requires Valid() && count > 0
      ensures x == Contents()[0]
    {
      x := mem[read];
    }

    function Increment(pointer: nat): nat
      reads this
    {
      if pointer == mem.Length - 1 then 0 else pointer + 1
    }

    /** One clock edge: the head leaves when asked to, and a full queue still accepts an element when its
        head leaves in the same cycle. */
    method Cycle(push: Option<T>, pop: bool) returns (accepted: bool)
      requires Valid()
      modifies this, mem
      ensures Valid()
      ensures accepted == (push.Some? && (old(count) < mem.Length || (pop && old(count) > 0)))
      ensures Contents() == (if pop && old(count) > 0 then old(Contents())[1..] else old(Contents())) + (if accepted then [push.value] else [])
    {
      var fire := pop && count > 0;
      accepted := push.Some? && (count < mem.Length || fire);
      ghost var before := Contents();
      if accepted {
        mem[write] := push.value;
        write := Increment(write);
      }
      if fire {
        read := Increment(read);
      }
      if accepted && !fire {
        count := count + 1;
      } else if !accepted && fire {
        count := count - 1;
      }
      forall i | 0 <= i < count ensures Contents()[i] == (((if fire then before[1..] else before) + (if accepted then [push.value] else []))[i]) {
      }
    }
  }

  // ----- state

  /** A queued command: its opaque fields and the groups it wants. */
  datatype Entry = Entry(word: int, groups: set<nat>)

  /** The head of a queue, in an issue slot. */
  datatype Held = Held(queue: nat, entry: Entry)

  datatype Params = Params(queues: nat, depth: nat, slots: nat, groups: nat)

  datatype State = State(queues: seq<seq<Entry>>, slots: seq<Option<Held>>, base: nat)

  datatype Pins = Pins(enqueue: Option<Held>, owners: seq<Option<nat>>, ready: seq<bool>, resources: seq<bool>, rejects: seq<bool>)
  {
    predicate Valid(p: Params) {
      && |owners| == |ready| == p.groups && |resources| == |rejects| == p.slots
      && (enqueue.Some? ==> forall g :: g in enqueue.value.entry.groups ==> g < p.groups)
    }
  }

  predicate Fits(p: Params, e: Entry) {
    forall g :: g in e.groups ==> g < p.groups
  }

  ghost predicate HeldIsHead(s: State, h: Held) {
    h.queue < |s.queues| && s.queues[h.queue] != [] && s.queues[h.queue][0] == h.entry
  }

  ghost predicate DistinctQueues(slots: seq<Option<Held>>) {
    forall a, b :: 0 <= a < b < |slots| && slots[a].Some? && slots[b].Some? ==> slots[a].value.queue != slots[b].value.queue
  }

  ghost predicate Inv(p: Params, s: State) {
    && |s.queues| == p.queues && |s.slots| == p.slots && s.base < p.queues
    && (forall q :: 0 <= q < p.queues ==> |s.queues[q]| <= p.depth)
    && (forall q, j :: 0 <= q < p.queues && 0 <= j < |s.queues[q]| ==> Fits(p, s.queues[q][j]))
    && (forall k :: 0 <= k < p.slots && s.slots[k].Some? ==> HeldIsHead(s, s.slots[k].value))
    && DistinctQueues(s.slots)
  }

  // ----- selection

  /** A held command reserves its groups only while it owns them all. */
  predicate OwnsGroups(h: Held, owners: seq<Option<nat>>) {
    h.entry.groups != {} && forall g :: g in h.entry.groups ==> g < |owners| && owners[g] == Some(h.queue)
  }

  predicate Locked(s: State, i: Pins, g: nat) {
    exists k :: 0 <= k < |s.slots| && s.slots[k].Some? && OwnsGroups(s.slots[k].value, i.owners) && g in s.slots[k].value.entry.groups
  }

  predicate HeldQueue(slots: seq<Option<Held>>, q: nat) {
    exists k :: 0 <= k < |slots| && slots[k].Some? && slots[k].value.queue == q
  }

  /** Queue `q` may fill a free slot, when `chosen` are the slots filled before. */
  predicate Candidate(s: State, i: Pins, chosen: seq<Option<Held>>, q: nat) {
    && q < |s.queues| && s.queues[q] != [] && !HeldQueue(s.slots, q) && !HeldQueue(chosen, q)
    && forall g :: g in s.queues[q][0].groups ==> !Locked(s, i, g)
  }

  /** The first candidate in rotating order, `offset` places after the base. */
  function Choose(s: State, i: Pins, chosen: seq<Option<Held>>, offset: nat): (r: Option<nat>)
    ensures r.Some? ==> Candidate(s, i, chosen, r.value)
    decreases |s.queues| - offset
  {
    if offset >= |s.queues| then None
    else if Candidate(s, i, chosen, Wrap(s.base + offset, |s.queues|)) then Some(Wrap(s.base + offset, |s.queues|))
    else Choose(s, i, chosen, offset + 1)
  }

  /** What the first `n` slots present: what they hold, or a queue head of their own. */
  function Present(s: State, i: Pins, n: nat): (r: seq<Option<Held>>)
    requires n <= |s.slots|
    ensures |r| == n
  {
    if n == 0 then [] else
      var before := Present(s, i, n - 1);
      before + [if s.slots[n - 1].Some? then s.slots[n - 1] else
                  var c := Choose(s, i, before, 0);
                  if c.Some? then Some(Held(c.value, s.queues[c.value][0])) else None]
  }

  lemma {:induction false} PresentPrefix(s: State, i: Pins, m: nat, n: nat)
    requires m <= n <= |s.slots|
    ensures Present(s, i, n)[..m] == Present(s, i, m)
    decreases n
  {
    if m < n {
      PresentPrefix(s, i, m, n - 1);
      assert Present(s, i, n)[..m] == Present(s, i, n - 1)[..m];
    }
  }

  /** Every slot presents the head of a queue of its own. */
  lemma {:induction false} PresentsHeads(p: Params, s: State, i: Pins, n: nat)
    requires Inv(p, s) && n <= p.slots
    ensures forall k :: 0 <= k < n && Present(s, i, n)[k].Some? ==> HeldIsHead(s, Present(s, i, n)[k].value)
    ensures DistinctQueues(Present(s, i, n))
    ensures forall k :: 0 <= k < n && s.slots[k].Some? ==> Present(s, i, n)[k] == s.slots[k]
    ensures forall k :: 0 <= k < n && s.slots[k].None? && Present(s, i, n)[k].Some? ==> !HeldQueue(s.slots, Present(s, i, n)[k].value.queue)
  {
    if n > 0 {
      PresentsHeads(p, s, i, n - 1);
      var before, all := Present(s, i, n - 1), Present(s, i, n);
      forall a | 0 <= a < n - 1 && all[a].Some? && all[n - 1].Some? ensures all[a].value.queue != all[n - 1].value.queue {
        assert all[a] == before[a];
        if s.slots[n - 1].Some? {
          if s.slots[a].None? {
            assert !HeldQueue(s.slots, before[a].value.queue);
          }
        } else {
          assert !HeldQueue(before, all[n - 1].value.queue);
        }
      }
    }
  }

  // ----- what a cycle may present

  /** What the slots may present: held commands stay, and a free slot may show the head of a queue that no
      other slot shows. Which head it shows is left open. */
  ghost predicate Presentable(p: Params, s: State, present: seq<Option<Held>>) {
    && |present| == p.slots == |s.slots|
    && (forall k :: 0 <= k < p.slots && present[k].Some? ==> HeldIsHead(s, present[k].value))
    && (forall k :: 0 <= k < p.slots && s.slots[k].Some? ==> present[k] == s.slots[k])
    && DistinctQueues(present)
  }

  /** The rotating selection is one of the presentations allowed. */
  lemma RotationIsPresentable(p: Params, s: State, i: Pins)
    requires Inv(p, s)
    ensures Presentable(p, s, Present(s, i, p.slots))
  {
    PresentsHeads(p, s, i, p.slots);
  }

  // ----- no free slot idles

  lemma {:induction false} ChoosesNearest(s: State, i: Pins, chosen: seq<Option<Held>>, offset: nat, q: nat)
    requires s.base < |s.queues| && Candidate(s, i, chosen, q) && offset <= Distance(s.base, q, |s.queues|)
    ensures var c := Choose(s, i, chosen, offset);
      c.Some? && Distance(s.base, c.value, |s.queues|) <= Distance(s.base, q, |s.queues|)
    decreases |s.queues| - offset
  {
    if !Candidate(s, i, chosen, Wrap(s.base + offset, |s.queues|)) {
      ChoosesNearest(s, i, chosen, offset + 1, q);
    }
  }

  /** The head of queue `q` wants a group of a held command that owns all its groups. */
  ghost predicate WantsLocked(s: State, i: Pins, q: nat)
    requires q < |s.queues| && s.queues[q] != []
  {
    exists g, k :: g in s.queues[q][0].groups && 0 <= k < |s.slots| && s.slots[k].Some? && g in s.slots[k].value.entry.groups
      && forall h :: h in s.slots[k].value.entry.groups ==> h < |i.owners| && i.owners[h] == Some(s.slots[k].value.queue)
  }

  lemma WantsLockedIs(s: State, i: Pins, q: nat)
    requires q < |s.queues| && s.queues[q] != []
    ensures WantsLocked(s, i, q) <==> exists g :: g in s.queues[q][0].groups && Locked(s, i, g)
  {
    if WantsLocked(s, i, q) {
      var g, k :| g in s.queues[q][0].groups && 0 <= k < |s.slots| && s.slots[k].Some? && g in s.slots[k].value.entry.groups
        && forall h :: h in s.slots[k].value.entry.groups ==> h < |i.owners| && i.owners[h] == Some(s.slots[k].value.queue);
      assert OwnsGroups(s.slots[k].value, i.owners) && Locked(s, i, g);
    }
  }

  /** No slot shows the head of queue `q`. */
  ghost predicate Unshown(present: seq<Option<Held>>, q: nat) {
    forall k :: 0 <= k < |present| && present[k].Some? ==> present[k].value.queue != q
  }

  /** A head that no slot shows, and that wants no locked group, leaves no free slot empty: each shows the
      head of a queue that is at most as far from the base. */
  lemma NoFreeSlotIdles(p: Params, s: State, i: Pins, q: nat, k: nat)
    requires Inv(p, s) && q < p.queues && s.queues[q] != [] && !WantsLocked(s, i, q) && Unshown(Present(s, i, p.slots), q)
    requires k < p.slots && s.slots[k].None?
    ensures var c := Present(s, i, p.slots)[k];
      && c.Some? && c.value.queue < p.queues && c.value.queue != q
      && Distance(s.base, c.value.queue, p.queues) < Distance(s.base, q, p.queues)
  {
    ShowsChoice(s, i, p.slots, k);
    NotHeld(p, s, i, q, k);
    WantsLockedIs(s, i, q);
    ChoosesNearest(s, i, Present(s, i, k), 0, q);
  }

  lemma ShowsChoice(s: State, i: Pins, n: nat, k: nat)
    requires k < n <= |s.slots| && s.slots[k].None?
    ensures var c := Choose(s, i, Present(s, i, k), 0);
      Present(s, i, n)[k] == if c.Some? then Some(Held(c.value, s.queues[c.value][0])) else None
  {
    PresentAt(s, i, k, n);
  }

  /** What slot `k` shows. */
  function ShownAt(s: State, i: Pins, k: nat): Option<Held>
    requires k < |s.slots|
  {
    if s.slots[k].Some? then s.slots[k] else
      var c := Choose(s, i, Present(s, i, k), 0);
      if c.Some? then Some(Held(c.value, s.queues[c.value][0])) else None
  }

  lemma {:induction false} PresentAt(s: State, i: Pins, k: nat, n: nat)
    requires k < n <= |s.slots|
    ensures Present(s, i, n)[k] == ShownAt(s, i, k)
    decreases n
  {
    if k < n - 1 {
      PresentAt(s, i, k, n - 1);
    }
  }

  /** A free slot never shows a head that wants a locked group. */
  lemma LockedGroupsAreKept(p: Params, s: State, i: Pins, k: nat)
    requires Inv(p, s) && k < p.slots && s.slots[k].None? && Present(s, i, p.slots)[k].Some?
    ensures var h := Present(s, i, p.slots)[k].value;
      h.queue < p.queues && s.queues[h.queue] != [] && h.entry == s.queues[h.queue][0] && !WantsLocked(s, i, h.queue)
  {
    ShowsChoice(s, i, p.slots, k);
    WantsLockedIs(s, i, Present(s, i, p.slots)[k].value.queue);
  }

  lemma NotHeld(p: Params, s: State, i: Pins, q: nat, k: nat)
    requires Inv(p, s) && k < p.slots && Unshown(Present(s, i, p.slots), q)
    ensures !HeldQueue(s.slots, q) && !HeldQueue(Present(s, i, k), q)
  {
    var all := Present(s, i, p.slots);
    PresentsHeads(p, s, i, p.slots);
    PresentPrefix(s, i, k, p.slots);
    forall j | 0 <= j < p.slots && s.slots[j].Some? ensures s.slots[j].value.queue != q {
      assert all[j] == s.slots[j];
    }
    forall j | 0 <= j < k && Present(s, i, k)[j].Some? ensures Present(s, i, k)[j].value.queue != q {
      assert all[..k][j] == all[j];
    }
  }

  // ----- issue

  function Issued(p: Params, i: Pins, present: seq<Option<Held>>): Inputs
    requires |present| == p.slots
  {
    Inputs(p.queues,
           seq(p.slots, k requires 0 <= k < p.slots =>
             if present[k].Some? then Request(true, present[k].value.queue, present[k].value.entry.groups) else Request(false, 0, {})),
           i.resources, i.rejects, i.owners, i.ready)
  }

  lemma IssuedIsValid(p: Params, s: State, i: Pins, present: seq<Option<Held>>)
    requires Inv(p, s) && i.Valid(p) && Presentable(p, s, present)
    ensures Issued(p, i, present).Valid()
  {
    forall k | 0 <= k < p.slots && present[k].Some? ensures Fits(p, present[k].value.entry) {
      assert HeldIsHead(s, present[k].value);
    }
  }

  predicate Terminal(o: Outputs, k: nat)
    requires k < |o.accept| == |o.reject|
  {
    o.accept[k] || o.reject[k]
  }

  /** Slot `k` presents queue `q` and is finished. */
  predicate Finishes(present: seq<Option<Held>>, o: Outputs, q: nat, k: nat)
    requires |o.accept| == |o.reject| == |present| && k < |present|
  {
    Terminal(o, k) && present[k].Some? && present[k].value.queue == q
  }

  /** The dispatcher finishes the head of queue `q` in this cycle. */
  predicate Pops(present: seq<Option<Held>>, o: Outputs, q: nat)
    requires |o.accept| == |o.reject| == |present|
  {
    exists k :: 0 <= k < |present| && Finishes(present, o, q, k)
  }

  predicate Enqueues(p: Params, s: State, i: Pins, present: seq<Option<Held>>, o: Outputs, q: nat)
    requires q < |s.queues| && |present| == |o.accept| == |o.reject|
  {
    i.enqueue.Some? && i.enqueue.value.queue == q && (|s.queues[q]| < p.depth || Pops(present, o, q))
  }

  function NextQueue(p: Params, s: State, i: Pins, present: seq<Option<Held>>, o: Outputs, q: nat): seq<Entry>
    requires q < |s.queues| && |present| == |o.accept| == |o.reject|
  {
    (if Pops(present, o, q) && s.queues[q] != [] then s.queues[q][1..] else s.queues[q])
    + if Enqueues(p, s, i, present, o, q) then [i.enqueue.value.entry] else []
  }

  /** The queue of the last slot among the first `n` that selected a live head. */
  function LastLive(s: State, present: seq<Option<Held>>, n: nat): Option<nat>
    requires n <= |present| == |s.slots|
  {
    if n == 0 then None
    else if s.slots[n - 1].None? && present[n - 1].Some? then Some(present[n - 1].value.queue)
    else LastLive(s, present, n - 1)
  }

  function Step(p: Params, s: State, i: Pins, present: seq<Option<Held>>, o: Outputs): State
    requires |s.slots| == |present| == p.slots == |o.accept| == |o.reject|
  {
    var last := LastLive(s, present, p.slots);
    State(seq(|s.queues|, q requires 0 <= q < |s.queues| => NextQueue(p, s, i, present, o, q)),
          seq(p.slots, k requires 0 <= k < p.slots => if Terminal(o, k) then None else present[k]),
          if last.Some? then (if last.value == p.queues - 1 then 0 else last.value + 1) else s.base)
  }

  // ----- conservation

  /** An entry that left its queue, by which slot, and the pins and the dispatcher's answer of that cycle. */
  datatype Departure = Departure(entry: Entry, slot: nat, pins: Pins, outputs: Outputs)

  /** Everything that entered each queue, and everything that left it. */
  datatype History = History(entered: seq<seq<Entry>>, left: seq<seq<Departure>>)

  function Entries(ds: seq<Departure>): (r: seq<Entry>)
    ensures |r| == |ds|
  {
    seq(|ds|, j requires 0 <= j < |ds| => ds[j].entry)
  }

  ghost predicate Conserved(s: State, h: History) {
    |h.entered| == |h.left| == |s.queues| && forall q :: 0 <= q < |s.queues| ==> h.entered[q] == Entries(h.left[q]) + s.queues[q]
  }

  /** An entry of queue `q` left the way it should: issued to all its groups at once, each owned by `q` and
      ready, with the shared resources it needs; or rejected as malformed, with a place for the error record. */
  ghost predicate Proper(p: Params, q: nat, d: Departure) {
    && d.slot < p.slots == |d.outputs.accept| == |d.outputs.reject| && d.pins.Valid(p) && |d.outputs.group| == p.groups && Fits(p, d.entry)
    && d.outputs.accept[d.slot] != d.outputs.reject[d.slot]
    && (d.outputs.accept[d.slot] ==>
          && d.entry.groups != {} && d.pins.resources[d.slot]
          && forall g :: g in d.entry.groups ==> d.pins.owners[g] == Some(q) && d.pins.ready[g] && d.outputs.group[g] == Some(d.slot))
    && (d.outputs.reject[d.slot] ==>
          d.pins.rejects[d.slot] && (d.entry.groups == {} || exists g :: g in d.entry.groups && d.pins.owners[g] != Some(q)))
  }

  ghost predicate AllProper(p: Params, h: History) {
    forall q, j :: 0 <= q < |h.left| && 0 <= j < |h.left[q]| ==> Proper(p, q, h.left[q][j])
  }

  ghost function Finisher(present: seq<Option<Held>>, o: Outputs, q: nat): (k: nat)
    requires |o.accept| == |o.reject| == |present| && Pops(present, o, q)
    ensures k < |present| && Finishes(present, o, q, k)
  {
    var k: nat :| k < |present| && Finishes(present, o, q, k);
    k
  }

  ghost function Leaves(s: State, i: Pins, present: seq<Option<Held>>, o: Outputs, q: nat): seq<Departure>
    requires q < |s.queues| && |present| == |o.accept| == |o.reject|
  {
    if Pops(present, o, q) && s.queues[q] != [] then [Departure(s.queues[q][0], Finisher(present, o, q), i, o)] else []
  }

  ghost function Follow(p: Params, s: State, i: Pins, present: seq<Option<Held>>, o: Outputs, h: History): History
    requires |present| == |o.accept| == |o.reject| && |h.entered| == |h.left| == |s.queues|
  {
    History(seq(|s.queues|, q requires 0 <= q < |s.queues| =>
              h.entered[q] + if Enqueues(p, s, i, present, o, q) then [i.enqueue.value.entry] else []),
            seq(|s.queues|, q requires 0 <= q < |s.queues| => h.left[q] + Leaves(s, i, present, o, q)))
  }

  lemma QueueConserves(queue: seq<Entry>, entered: seq<Entry>, left: seq<Departure>, gone: seq<Departure>, push: seq<Entry>)
    requires entered == Entries(left) + queue && |gone| <= |queue| && Entries(gone) == queue[..|gone|]
    ensures entered + push == Entries(left + gone) + (queue[|gone|..] + push)
  {
    assert Entries(left + gone) == Entries(left) + Entries(gone);
  }

  /** Nothing is lost, duplicated or reordered: what entered a queue is what left it, then what it holds. */
  lemma StepConserves(p: Params, s: State, i: Pins, present: seq<Option<Held>>, o: Outputs, h: History)
    requires |s.slots| == |present| == p.slots == |o.accept| == |o.reject| && Conserved(s, h)
    ensures Conserved(Step(p, s, i, present, o), Follow(p, s, i, present, o, h))
  {
    forall q | 0 <= q < |s.queues|
      ensures Follow(p, s, i, present, o, h).entered[q]
           == Entries(Follow(p, s, i, present, o, h).left[q]) + Step(p, s, i, present, o).queues[q]
    {
      QueueConserves(s.queues[q], h.entered[q], h.left[q], Leaves(s, i, present, o, q),
                     if Enqueues(p, s, i, present, o, q) then [i.enqueue.value.entry] else []);
    }
  }

  /** A head is finished by exactly the slot that presents it, and an unfinished one stays the head. */
  lemma UnfinishedStays(p: Params, s: State, i: Pins, present: seq<Option<Held>>, o: Outputs, k: nat)
    requires Inv(p, s) && Presentable(p, s, present) && |o.accept| == |o.reject| == p.slots
    requires k < p.slots && present[k].Some? && !Terminal(o, k)
    ensures HeldIsHead(Step(p, s, i, present, o), present[k].value)
  {
    assert HeldIsHead(s, present[k].value);
    assert !Pops(present, o, present[k].value.queue);
  }

  /** Every cycle keeps the invariant, whichever heads are presented and whatever is answered: depths are
      respected even when a full queue is replaced in place, no queue is in two slots, and a slot holds the
      head of its queue until that head is finished. */
  lemma StepKeeps(p: Params, s: State, i: Pins, present: seq<Option<Held>>, o: Outputs)
    requires Inv(p, s) && i.Valid(p) && Presentable(p, s, present) && |o.accept| == |o.reject| == p.slots
    ensures Inv(p, Step(p, s, i, present, o))
  {
    var next := Step(p, s, i, present, o);
    forall q | 0 <= q < p.queues
      ensures |next.queues[q]| <= p.depth && forall j :: 0 <= j < |next.queues[q]| ==> Fits(p, next.queues[q][j])
    {
      QueueKeeps(p, s, i, present, o, q);
    }
    forall k | 0 <= k < p.slots && next.slots[k].Some? ensures HeldIsHead(next, next.slots[k].value) {
      UnfinishedStays(p, s, i, present, o, k);
    }
    LastIsQueue(p, s, present, p.slots);
  }

  lemma QueueKeeps(p: Params, s: State, i: Pins, present: seq<Option<Held>>, o: Outputs, q: nat)
    requires Inv(p, s) && i.Valid(p) && Presentable(p, s, present) && |o.accept| == |o.reject| == p.slots && q < p.queues
    ensures |NextQueue(p, s, i, present, o, q)| <= p.depth
    ensures forall j :: 0 <= j < |NextQueue(p, s, i, present, o, q)| ==> Fits(p, NextQueue(p, s, i, present, o, q)[j])
  {
    if Pops(present, o, q) {
      assert HeldIsHead(s, present[Finisher(present, o, q)].value);
    }
  }

  lemma {:induction false} LastIsQueue(p: Params, s: State, present: seq<Option<Held>>, n: nat)
    requires Inv(p, s) && Presentable(p, s, present) && n <= p.slots
    ensures var last := LastLive(s, present, n); last.Some? ==> last.value < p.queues
    decreases n
  {
    if n > 0 {
      LastIsQueue(p, s, present, n - 1);
    }
  }

  // ----- what the dispatcher can do to the slots

  /** The presented commands never conflict: they come from different queues and a group has one owner.
      So a presented command that is well formed, ready and has its resources issues at once, to all its groups. */
  lemma EligibleIssuesAtOnce(p: Params, s: State, i: Pins, present: seq<Option<Held>>, o: Outputs, k: nat)
    requires Inv(p, s) && i.Valid(p) && Presentable(p, s, present) && k < p.slots && present[k].Some?
    requires Issued(p, i, present).Valid() && Dispatched(Issued(p, i, present), o)
    ensures !o.conflict[k]
    ensures Issued(p, i, present).Eligible(k) ==> o.accept[k] && forall g :: g in present[k].value.entry.groups ==> o.group[g] == Some(k)
    ensures o.reject[k] <==> Issued(p, i, present).Malformed(k) && i.rejects[k]
  {
    var d := Issued(p, i, present);
    forall a, b | 0 <= a < b < p.slots && d.requests[a].valid && d.requests[b].valid ensures d.requests[a].context != d.requests[b].context {
      assert present[a].value.queue != present[b].value.queue;
    }
    DistinctContextsNeverConflict(d, o);
    assert SlotOutcome(d, o, k);
    if d.Eligible(k) {
      forall g | g in present[k].value.entry.groups ensures o.group[g] == Some(k) {
        assert GroupOutcome(d, o, g);
      }
    }
  }

  /** Whatever leaves a queue is its head, presented by the slot that finishes it, and leaves properly. */
  lemma LeavesProperly(p: Params, s: State, i: Pins, present: seq<Option<Held>>, o: Outputs, q: nat)
    requires Inv(p, s) && i.Valid(p) && Presentable(p, s, present) && q < p.queues
    requires Issued(p, i, present).Valid() && Dispatched(Issued(p, i, present), o)
    ensures forall j :: 0 <= j < |Leaves(s, i, present, o, q)| ==> Proper(p, q, Leaves(s, i, present, o, q)[j])
  {
    if Pops(present, o, q) && s.queues[q] != [] {
      var k := Finisher(present, o, q);
      var d := Issued(p, i, present);
      assert HeldIsHead(s, present[k].value);
      EligibleIssuesAtOnce(p, s, i, present, o, k);
      assert SlotOutcome(d, o, k);
      assert Fits(p, s.queues[q][0]);
    }
  }

  /** A locked slot presents the same entry, at the head of the same queue, until it is finished. */
  lemma LockedIsStable(p: Params, s: State, i: Pins, present: seq<Option<Held>>, o: Outputs, k: nat)
    requires Inv(p, s) && i.Valid(p) && Presentable(p, s, present) && |o.accept| == |o.reject| == p.slots
    requires k < p.slots && s.slots[k].Some? && !Terminal(o, k)
    ensures present[k] == s.slots[k] == Step(p, s, i, present, o).slots[k]
    ensures HeldIsHead(Step(p, s, i, present, o), s.slots[k].value)
  {
    UnfinishedStays(p, s, i, present, o, k);
  }

  // ----- what leaves, what enters, and whose turn is next

  /** A finished slot is free again and its queue loses its head; an arriving command joins its queue exactly
      when there is room or the head leaves in the same cycle; nothing else changes. */
  lemma QueuesMove(p: Params, s: State, i: Pins, present: seq<Option<Held>>, o: Outputs, q: nat)
    requires Inv(p, s) && Presentable(p, s, present) && |o.accept| == |o.reject| == p.slots && q < p.queues
    ensures var leaves := exists k :: 0 <= k < p.slots && present[k].Some? && present[k].value.queue == q && (o.accept[k] || o.reject[k]);
      var joins := i.enqueue.Some? && i.enqueue.value.queue == q && (leaves || |s.queues[q]| < p.depth);
      && (leaves ==> s.queues[q] != [])
      && Step(p, s, i, present, o).queues[q]
         == (if leaves then s.queues[q][1..] else s.queues[q]) + (if joins then [i.enqueue.value.entry] else [])
  {
    if Pops(present, o, q) {
      var k := Finisher(present, o, q);
      assert HeldIsHead(s, present[k].value) && (o.accept[k] || o.reject[k]);
    }
    if k :| 0 <= k < p.slots && present[k].Some? && present[k].value.queue == q && (o.accept[k] || o.reject[k]) {
      assert Finishes(present, o, q, k);
    }
  }

  /** A slot is held on exactly when it shows a command that is neither accepted nor rejected. */
  lemma SlotsMove(p: Params, s: State, i: Pins, present: seq<Option<Held>>, o: Outputs, k: nat)
    requires Presentable(p, s, present) && |o.accept| == |o.reject| == p.slots && k < p.slots
    ensures Step(p, s, i, present, o).slots[k] == if o.accept[k] || o.reject[k] then None else present[k]
  {
  }

  lemma {:induction false} LastLiveIs(s: State, present: seq<Option<Held>>, n: nat)
    requires n <= |present| == |s.slots|
    ensures LastLive(s, present, n).None? <==> forall k :: 0 <= k < n && s.slots[k].None? ==> present[k].None?
    ensures LastLive(s, present, n).Some? ==>
      exists k :: 0 <= k < n && s.slots[k].None? && present[k].Some? && LastLive(s, present, n) == Some(present[k].value.queue)
                  && forall j :: k < j < n && s.slots[j].None? ==> present[j].None?
  {
    if n > 0 && !(s.slots[n - 1].None? && present[n - 1].Some?) {
      LastLiveIs(s, present, n - 1);
    }
  }

  /** With the rotating choice a head that is passed over comes nearer to the base whenever a free slot
      shows another one, and the base moves only then. */
  lemma PassedOverComesNearer(p: Params, s: State, i: Pins, o: Outputs, q: nat)
    requires Inv(p, s) && |o.accept| == |o.reject| == p.slots
    requires q < p.queues && s.queues[q] != [] && !WantsLocked(s, i, q) && Unshown(Present(s, i, p.slots), q)
    ensures var next := Step(p, s, i, Present(s, i, p.slots), o).base;
      && next < p.queues
      && (if exists k :: 0 <= k < p.slots && s.slots[k].None? then Distance(next, q, p.queues) < Distance(s.base, q, p.queues)
          else next == s.base)
  {
    var present := Present(s, i, p.slots);
    RotationIsPresentable(p, s, i);
    LastLiveIs(s, present, p.slots);
    if k :| 0 <= k < p.slots && s.slots[k].None? {
      NoFreeSlotIdles(p, s, i, q, k);
      var last :| 0 <= last < p.slots && s.slots[last].None? && present[last].Some? && LastLive(s, present, p.slots) == Some(present[last].value.queue);
      NoFreeSlotIdles(p, s, i, q, last);
    }
  }

  // ----- whole runs

  /** One cycle's pins, what the slots presented, and what the dispatcher answered. */
  datatype Event = Event(pins: Pins, present: seq<Option<Held>>, outputs: Outputs)

  ghost predicate Legal(p: Params, s: State, e: Event) {
    && e.pins.Valid(p) && Presentable(p, s, e.present)
    && Issued(p, e.pins, e.present).Valid() && Dispatched(Issued(p, e.pins, e.present), e.outputs)
  }

  ghost predicate LegalRun(p: Params, s: State, events: seq<Event>)
    decreases |events|
  {
    events != [] ==> Legal(p, s, events[0]) && LegalRun(p, Step(p, s, events[0].pins, events[0].present, events[0].outputs), events[1..])
  }

  ghost predicate Safe(p: Params, s: State, h: History) {
    Inv(p, s) && Conserved(s, h) && AllProper(p, h)
  }

  ghost function Run(p: Params, s: State, h: History, events: seq<Event>): (State, History)
    requires Conserved(s, h) && LegalRun(p, s, events)
    decreases |events|
  {
    if events == [] then (s, h) else
      var e := events[0];
      StepConserves(p, s, e.pins, e.present, e.outputs, h);
      Run(p, Step(p, s, e.pins, e.present, e.outputs), Follow(p, s, e.pins, e.present, e.outputs, h), events[1..])
  }

  lemma EventKeeps(p: Params, s: State, h: History, e: Event)
    requires Safe(p, s, h) && Legal(p, s, e)
    ensures Safe(p, Step(p, s, e.pins, e.present, e.outputs), Follow(p, s, e.pins, e.present, e.outputs, h))
  {
    StepKeeps(p, s, e.pins, e.present, e.outputs);
    StepConserves(p, s, e.pins, e.present, e.outputs, h);
    var h' := Follow(p, s, e.pins, e.present, e.outputs, h);
    forall q, j | 0 <= q < |h'.left| && 0 <= j < |h'.left[q]| ensures Proper(p, q, h'.left[q][j]) {
      LeavesProperly(p, s, e.pins, e.present, e.outputs, q);
      if j < |h.left[q]| {
        assert h'.left[q][j] == h.left[q][j];
      } else {
        assert h'.left[q][j] == Leaves(s, e.pins, e.present, e.outputs, q)[j - |h.left[q]|];
      }
    }
  }

  /** For every run, with any ownership, readiness and credits and any choice of heads: each queue's entries
      are those that left it followed by those it holds, within its depth; every entry that left did so once,
      issued to all its groups or rejected with credit; and no queue is held by two slots. */
  lemma {:induction false} RunConserves(p: Params, s: State, h: History, events: seq<Event>)
    requires Safe(p, s, h) && LegalRun(p, s, events)
    ensures var (s', h') := Run(p, s, h, events); Safe(p, s', h')
    decreases |events|
  {
    if events != [] {
      var e := events[0];
      EventKeeps(p, s, h, e);
      RunConserves(p, Step(p, s, e.pins, e.present, e.outputs), Follow(p, s, e.pins, e.present, e.outputs, h), events[1..]);
    }
  }

  // ----- the clocked object

  class IssueFrontend {
    const p: Params
    var queues: seq<seq<Entry>>
    var slots: seq<Option<Held>>
    var base: nat
    ghost var history: History

    function Snapshot(): State
      reads this
    {
      State(queues, slots, base)
    }

    ghost predicate Valid()
      reads this
    {
      Safe(p, Snapshot(), history)
    }

    constructor (p: Params)
      requires p.queues > 0
      ensures Valid() && this.p == p && forall q :: 0 <= q < p.queues ==> queues[q] == [] == history.entered[q]
    {
      this.p := p;
      queues, slots, base := seq(p.queues, q => []), seq(p.slots, k => None), 0;
      history := History(seq(p.queues, q => []), seq(p.queues, q => []));
    }

    method Rotate(i: Pins, chosen: seq<Option<Held>>) returns (found: Option<nat>)
      ensures found == Choose(Snapshot(), i, chosen, 0)
    {
      found := None;
      for offset := 0 to |queues|
        invariant found.None? ==> Choose(Snapshot(), i, chosen, 0) == Choose(Snapshot(), i, chosen, offset)
        invariant found.Some? ==> found == Choose(Snapshot(), i, chosen, 0)
      {
        var candidate := base + offset;
        if candidate >= |queues| {
          candidate := candidate - |queues|;
        }
        if found.None? && Candidate(Snapshot(), i, chosen, candidate) {
          found := Some(candidate);
        }
      }
    }

    /** Fills the free slots in order, each with the first unclaimed head in rotating order. */
    method Select(i: Pins) returns (present: seq<Option<Held>>, last: Option<nat>)
      requires Inv(p, Snapshot())
      ensures present == Present(Snapshot(), i, p.slots) && last == LastLive(Snapshot(), present, p.slots)
    {
      present, last := [], None;
      for slot := 0 to p.slots
        invariant present == Present(Snapshot(), i, slot)
        invariant last == LastLive(Snapshot(), Present(Snapshot(), i, p.slots), slot)
      {
        PresentPrefix(Snapshot(), i, slot + 1, p.slots);
        assert Present(Snapshot(), i, p.slots)[slot] == Present(Snapshot(), i, slot + 1)[slot];
        var shown := slots[slot];
        if shown.None? {
          var found := Rotate(i, present);
          if found.Some? {
            shown := Some(Held(found.value, queues[found.value][0]));
            last := found;
          }
        }
        present := present + [shown];
      }
    }

    /** One clock edge: the slots present their heads, the dispatcher answers, finished heads leave their
        queues, unfinished ones are locked, and the admission lane adds an entry. */
    method Cycle(i: Pins) returns (present: seq<Option<Held>>, o: Outputs)
      requires Valid() && i.Valid(p)
      modifies this
      ensures Valid()
      ensures present == Present(old(Snapshot()), i, p.slots) && |o.accept| == |o.reject| == p.slots
      ensures Legal(p, old(Snapshot()), Event(i, present, o))
      ensures Snapshot() == Step(p, old(Snapshot()), i, present, o) && history == Follow(p, old(Snapshot()), i, present, o, old(history))
    {
      var last;
      var s := Snapshot();
      present, last := Select(i);
      RotationIsPresentable(p, s, i);
      IssuedIsValid(p, s, i, present);
      o := Arbitrate(Issued(p, i, present));
      EventKeeps(p, s, history, Event(i, present, o));
      history := Follow(p, s, i, present, o, history);
      Commit(i, s, present, o, last);
    }

    method Commit(i: Pins, s: State, present: seq<Option<Held>>, o: Outputs, last: Option<nat>)
      requires s == Snapshot() && |s.slots| == |present| == p.slots == |o.accept| == |o.reject|
      requires last == LastLive(s, present, p.slots)
      modifies `queues, `slots, `base
      ensures Snapshot() == Step(p, s, i, present, o)
    {
      UpdateQueues(i, s, present, o);
      UpdateSlots(present, o);
      if last.Some? {
        base := if last.value == p.queues - 1 then 0 else last.value + 1;
      }
    }

    method UpdateQueues(i: Pins, s: State, present: seq<Option<Held>>, o: Outputs)
      requires s == Snapshot() && |present| == |o.accept| == |o.reject|
      modifies `queues
      ensures |queues| == |s.queues| && forall j :: 0 <= j < |queues| ==> queues[j] == NextQueue(p, s, i, present, o, j)
    {
      for q := 0 to |s.queues|
        invariant |queues| == |s.queues|
        invariant forall j :: 0 <= j < q ==> queues[j] == NextQueue(p, s, i, present, o, j)
        invariant forall j :: q <= j < |queues| ==> queues[j] == s.queues[j]
      {
        var pop := Pops(present, o, q);
        var queue := if pop && queues[q] != [] then queues[q][1..] else queues[q];
        if i.enqueue.Some? && i.enqueue.value.queue == q && (|s.queues[q]| < p.depth || pop) {
          queue := queue + [i.enqueue.value.entry];
        }
        queues := queues[q := queue];
      }
    }

    method UpdateSlots(present: seq<Option<Held>>, o: Outputs)
      requires |slots| == |present| == p.slots == |o.accept| == |o.reject|
      modifies `slots
      ensures |slots| == p.slots && forall j :: 0 <= j < p.slots ==> slots[j] == if Terminal(o, j) then None else present[j]
    {
      for k := 0 to p.slots
        invariant |slots| == p.slots && forall j :: 0 <= j < k ==> slots[j] == if Terminal(o, j) then None else present[j]
      {
        slots := slots[k := if Terminal(o, k) then None else present[k]];
      }
    }
  }
}
