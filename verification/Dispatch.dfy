/** Atomic multicast issue: requests in slot order, each taking all of its groups or none. */
module Dispatch {
  import opened Wrappers

  datatype Request = Request(valid: bool, context: nat, groups: set<nat>)

  /** Group `g` is owned by `owners[g]` and can take work when `ready[g]`. Slot `s` has the shared
      resources it needs when `resources[s]`, and a place for an error record when `rejects[s]`. */
  datatype Inputs = Inputs(contexts: nat, requests: seq<Request>, resources: seq<bool>, rejects: seq<bool>,
                           owners: seq<Option<nat>>, ready: seq<bool>)
  {
    predicate Valid() {
      |resources| == |requests| == |rejects| && |owners| == |ready|
      && forall s :: 0 <= s < |requests| ==> forall g :: g in requests[s].groups ==> g < |owners|
    }

    predicate OwnersMatch(s: nat)
      requires Valid() && s < |requests|
    {
      requests[s].context < contexts && forall g :: g in requests[s].groups ==> owners[g] == Some(requests[s].context)
    }

    predicate Malformed(s: nat)
      requires Valid() && s < |requests|
    {
      requests[s].groups == {} || !OwnersMatch(s)
    }

    predicate GroupsReady(s: nat)
      requires Valid() && s < |requests|
    {
      forall g :: g in requests[s].groups ==> ready[g]
    }

    /** Everything but the competition of older slots is in place. */
    predicate Eligible(s: nat)
      requires Valid() && s < |requests|
    {
      !Malformed(s) && GroupsReady(s) && resources[s]
    }

    predicate Overlap(r: nat, s: nat)
      requires Valid() && r < |requests| && s < |requests|
    {
      requests[r].groups * requests[s].groups != {}
    }
  }

  datatype Outputs = Outputs(ready: seq<bool>, accept: seq<bool>, reject: seq<bool>, group: seq<Option<nat>>,
                             empty: seq<bool>, mismatch: seq<bool>, blocked: seq<bool>, conflict: seq<bool>)

  predicate Sized(i: Inputs, o: Outputs) {
    && |o.accept| == |o.reject| == |o.ready| == |o.empty| == |o.mismatch| == |o.blocked| == |o.conflict| == |i.requests|
    && |o.group| == |i.owners|
  }

  predicate Beaten(i: Inputs, accept: seq<bool>, s: nat)
    requires i.Valid() && s < |i.requests| && s <= |accept|
  {
    exists r: nat :: r < s && accept[r] && i.Overlap(r, s)
  }

  /** What the dispatcher does with slot `s`, given the acceptances of the slots before it. */
  predicate SlotOutcome(i: Inputs, o: Outputs, s: nat)
    requires i.Valid() && Sized(i, o) && s < |i.requests|
  {
    var valid := i.requests[s].valid;
    && o.accept[s] == (valid && i.Eligible(s) && !Beaten(i, o.accept, s))
    && o.reject[s] == (valid && i.Malformed(s) && i.rejects[s])
    && o.ready[s] == (if i.Malformed(s) then i.rejects[s] else i.Eligible(s) && !Beaten(i, o.accept, s))
    && o.empty[s] == (valid && i.requests[s].groups == {})
    && o.mismatch[s] == (valid && i.requests[s].groups != {} && !i.OwnersMatch(s))
    && o.blocked[s] == (valid && !i.Malformed(s) && !(i.GroupsReady(s) && i.resources[s]))
    && o.conflict[s] == (valid && i.Eligible(s) && Beaten(i, o.accept, s))
  }

  predicate GroupOutcome(i: Inputs, o: Outputs, g: nat)
    requires i.Valid() && Sized(i, o) && g < |i.owners|
  {
    && (o.group[g].Some? ==> o.group[g].value < |i.requests| && o.accept[o.group[g].value] && g in i.requests[o.group[g].value].groups)
    && forall s: nat :: s < |i.requests| && o.accept[s] && g in i.requests[s].groups ==> o.group[g] == Some(s)
  }

  predicate Dispatched(i: Inputs, o: Outputs)
    requires i.Valid()
  {
    && Sized(i, o)
    && (forall s: nat :: s < |i.requests| ==> SlotOutcome(i, o, s))
    && forall g: nat :: g < |i.owners| ==> GroupOutcome(i, o, g)
  }

  /** The answer to a slot, from the pins: it is accepted when it asks for groups that its context owns,
      all ready, with its resources, and no older accepted slot takes one of them; it is rejected when it
      asks for none or for one it does not own, and there is a place for the record. */
  lemma SlotAnswers(i: Inputs, o: Outputs, s: nat)
    requires i.Valid() && Dispatched(i, o) && s < |i.requests|
    ensures var r := i.requests[s];
      var formed := r.groups != {} && r.context < i.contexts && forall g :: g in r.groups ==> i.owners[g] == Some(r.context);
      var can := formed && i.resources[s] && forall g :: g in r.groups ==> i.ready[g];
      var lost := exists older: nat, g :: older < s && o.accept[older] && g in r.groups && g in i.requests[older].groups;
      && (o.accept[s] <==> r.valid && can && !lost)
      && (o.reject[s] <==> r.valid && !formed && i.rejects[s])
      && (o.ready[s] <==> if formed then can && !lost else i.rejects[s])
      && (o.empty[s] <==> r.valid && r.groups == {})
      && (o.mismatch[s] <==> r.valid && r.groups != {} && !formed)
      && (o.blocked[s] <==> r.valid && formed && !can)
      && (o.conflict[s] <==> r.valid && can && lost)
  {
    assert SlotOutcome(i, o, s);
    LosesTo(i, o.accept, s);
  }

  lemma LosesTo(i: Inputs, accept: seq<bool>, s: nat)
    requires i.Valid() && s < |i.requests| && s <= |accept|
    ensures Beaten(i, accept, s) <==>
      exists older: nat, g :: older < s && accept[older] && g in i.requests[s].groups && g in i.requests[older].groups
  {
    if Beaten(i, accept, s) {
      var r: nat :| r < s && accept[r] && i.Overlap(r, s);
      var g :| g in i.requests[r].groups * i.requests[s].groups;
      assert g in i.requests[s].groups && g in i.requests[r].groups;
    }
    if r: nat, g :| r < s && accept[r] && g in i.requests[s].groups && g in i.requests[r].groups {
      assert g in i.requests[r].groups * i.requests[s].groups;
      assert i.Overlap(r, s);
    }
  }

  /** A group is issued exactly by the accepted slot that asks for it. */
  lemma GroupAnswers(i: Inputs, o: Outputs, g: nat, s: nat)
    requires i.Valid() && Dispatched(i, o) && g < |i.owners|
    ensures o.group[g] == Some(s) <==> s < |i.requests| && o.accept[s] && g in i.requests[s].groups
  {
    assert GroupOutcome(i, o, g);
  }

  // ----- properties

  /** Two accepted requests share no group, and every accepted request has all its groups to itself. */
  lemma AcceptedAreDisjoint(i: Inputs, o: Outputs, r: nat, s: nat)
    requires i.Valid() && Dispatched(i, o) && r < |i.requests| && s < |i.requests| && r != s && o.accept[r] && o.accept[s]
    ensures i.requests[r].groups * i.requests[s].groups == {}
    ensures forall g :: g in i.requests[s].groups ==> o.group[g] == Some(s) && i.owners[g] == Some(i.requests[s].context) && i.ready[g]
  {
    assert SlotOutcome(i, o, r) && SlotOutcome(i, o, s);
    forall g | g in i.requests[s].groups ensures o.group[g] == Some(s) {
      assert GroupOutcome(i, o, g);
    }
    if r < s {
      assert !i.Overlap(r, s);
    } else {
      assert !i.Overlap(s, r);
    }
  }

  function Count(b: bool): nat {
    if b then 1 else 0
  }

  /** A valid slot has exactly one of the five outcomes, and is rejected only if it is malformed. */
  lemma ExactlyOneOutcome(i: Inputs, o: Outputs, s: nat)
    requires i.Valid() && Dispatched(i, o) && s < |i.requests|
    ensures Count(o.accept[s]) + Count(o.empty[s]) + Count(o.mismatch[s]) + Count(o.blocked[s]) + Count(o.conflict[s])
         == Count(i.requests[s].valid)
    ensures o.reject[s] ==> (o.empty[s] || o.mismatch[s]) && !o.accept[s]
  {
    assert SlotOutcome(i, o, s);
  }

  /** The choice is maximal: an eligible slot loses only to an older accepted slot that wants one of its groups. */
  lemma OnlyOlderSlotsWin(i: Inputs, o: Outputs, s: nat)
    requires i.Valid() && Dispatched(i, o) && s < |i.requests| && i.requests[s].valid && i.Eligible(s) && !o.accept[s]
    ensures exists r: nat :: r < s && o.accept[r] && i.Overlap(r, s)
  {
    assert SlotOutcome(i, o, s);
  }

  /** Taking a slot that is not accepted out of the competition leaves the first `n` acceptances as they are. */
  lemma {:induction false} AcceptsUnaffected(i: Inputs, o: Outputs, i': Inputs, o': Outputs, b: nat, n: nat)
    requires i.Valid() && Dispatched(i, o) && i'.Valid() && Dispatched(i', o') && n <= |i.requests|
    requires i' == Without(i, b) && (b < |i.requests| ==> !o.accept[b])
    ensures o'.accept[..n] == o.accept[..n]
    decreases n
  {
    if n > 0 {
      var s := n - 1;
      AcceptsUnaffected(i, o, i', o', b, s);
      assert SlotOutcome(i, o, s) && SlotOutcome(i', o', s);
      assert i'.Eligible(s) == i.Eligible(s);
      forall r: nat | r < s ensures o'.accept[r] == o.accept[r] && i'.Overlap(r, s) == i.Overlap(r, s) {
        assert o'.accept[..s][r] == o.accept[..s][r];
      }
      assert Beaten(i', o'.accept, s) == Beaten(i, o.accept, s);
    }
  }

  /** The inputs with slot `b`, if there is one, taken out of the competition. */
  function Without(i: Inputs, b: nat): Inputs {
    if b < |i.requests| then i.(requests := i.requests[b := i.requests[b].(valid := false)]) else i
  }

  /** A slot that is not accepted reserves nothing: without it, every other slot fares the same. */
  lemma BlockedSlotReservesNothing(i: Inputs, o: Outputs, b: nat, o': Outputs)
    requires i.Valid() && Dispatched(i, o) && b < |i.requests| && !o.accept[b]
    requires Without(i, b).Valid() && Dispatched(Without(i, b), o')
    ensures o'.accept == o.accept && o'.group == o.group
  {
    AcceptsUnaffected(i, o, Without(i, b), o', b, |i.requests|);
    assert o'.accept == o'.accept[..|i.requests|] && o.accept == o.accept[..|i.requests|];
    forall g: nat | g < |i.owners| ensures o'.group[g] == o.group[g] {
      assert GroupOutcome(i, o, g) && GroupOutcome(Without(i, b), o', g);
    }
  }

  /** When all valid requests come from different contexts there is no conflict: a group has one owner, so
      two requests that match the ownership want different groups. */
  lemma DistinctContextsNeverConflict(i: Inputs, o: Outputs)
    requires i.Valid() && Dispatched(i, o)
    requires forall r, s :: 0 <= r < s < |i.requests| && i.requests[r].valid && i.requests[s].valid ==> i.requests[r].context != i.requests[s].context
    ensures forall s :: 0 <= s < |i.requests| ==> !o.conflict[s]
  {
    forall s: nat | s < |i.requests| ensures !o.conflict[s] {
      assert SlotOutcome(i, o, s);
      forall r: nat | r < s && o.accept[r] ensures !(i.Eligible(s) && i.requests[s].valid && i.Overlap(r, s)) {
        assert SlotOutcome(i, o, r);
        forall g | g in i.requests[r].groups && i.Eligible(s) && i.requests[s].valid ensures g !in i.requests[s].groups {
          assert i.owners[g] == Some(i.requests[r].context);
        }
      }
    }
  }

  // ----- the slot loop

  /** The union of the groups of the accepted slots. */
  ghost predicate Reserves(i: Inputs, accept: seq<bool>, reserved: set<nat>)
    requires i.Valid() && |accept| <= |i.requests|
  {
    && (forall g :: g in reserved ==> exists r: nat :: r < |accept| && accept[r] && g in i.requests[r].groups)
    && forall r: nat :: r < |accept| && accept[r] ==> i.requests[r].groups <= reserved
  }

  lemma OverlapsReserved(i: Inputs, accept: seq<bool>, reserved: set<nat>, s: nat)
    requires i.Valid() && s == |accept| < |i.requests| && Reserves(i, accept, reserved)
    ensures (i.requests[s].groups * reserved != {}) == Beaten(i, accept, s)
  {
    if i.requests[s].groups * reserved != {} {
      var g :| g in i.requests[s].groups * reserved;
      var r: nat :| r < |accept| && accept[r] && g in i.requests[r].groups;
      assert g in i.requests[r].groups * i.requests[s].groups;
      assert i.Overlap(r, s);
    }
    if Beaten(i, accept, s) {
      var r: nat :| r < s && accept[r] && i.Overlap(r, s);
      var g :| g in i.requests[r].groups * i.requests[s].groups;
      assert g in i.requests[s].groups * reserved;
    }
  }

  lemma ReservesMore(i: Inputs, accept: seq<bool>, reserved: set<nat>, accepted: bool)
    requires i.Valid() && |accept| < |i.requests| && Reserves(i, accept, reserved)
    ensures Reserves(i, accept + [accepted], if accepted then reserved + i.requests[|accept|].groups else reserved)
  {
    var s, more := |accept|, accept + [accepted];
    var after := if accepted then reserved + i.requests[s].groups else reserved;
    forall g | g in after ensures exists r: nat :: r < |more| && more[r] && g in i.requests[r].groups {
      if g in reserved {
        var r: nat :| r < |accept| && accept[r] && g in i.requests[r].groups;
        assert more[r];
      } else {
        assert more[s];
      }
    }
    forall r: nat | r < |more| && more[r] ensures i.requests[r].groups <= after {
      if r < s {
        assert accept[r];
      }
    }
  }

  /** Scans the groups that a slot asks for. */
  method CheckGroups(i: Inputs, s: nat) returns (owned: bool, ready: bool)
    requires i.Valid() && s < |i.requests|
    ensures owned == i.OwnersMatch(s) && ready == i.GroupsReady(s)
  {
    owned, ready := i.requests[s].context < i.contexts, true;
    for g := 0 to |i.owners|
      invariant owned == (i.requests[s].context < i.contexts && forall h :: h in i.requests[s].groups && h < g ==> i.owners[h] == Some(i.requests[s].context))
      invariant ready == (forall h :: h in i.requests[s].groups && h < g ==> i.ready[h])
    {
      if g in i.requests[s].groups {
        owned := owned && i.owners[g] == Some(i.requests[s].context);
        ready := ready && i.ready[g];
      }
    }
  }

  /** The outputs of the first `n` slots. */
  ghost predicate Progress(i: Inputs, o: Outputs, n: nat)
    requires i.Valid() && n <= |i.requests|
  {
    && |o.accept| == |o.reject| == |o.ready| == |o.empty| == |o.mismatch| == |o.blocked| == |o.conflict| == n && |o.group| == |i.owners|
    && Dispatched(Prefix(i, n), o)
  }

  ghost function Prefix(i: Inputs, n: nat): (r: Inputs)
    requires i.Valid() && n <= |i.requests|
    ensures r.Valid()
  {
    i.(requests := i.requests[..n], resources := i.resources[..n], rejects := i.rejects[..n])
  }

  function Granted(group: seq<Option<nat>>, groups: set<nat>, slot: nat): (r: seq<Option<nat>>)
    ensures |r| == |group|
  {
    seq(|group|, g requires 0 <= g < |group| => if g in groups then Some(slot) else group[g])
  }

  /** One more slot. */
  lemma SlotAdded(i: Inputs, o: Outputs, s: nat, o': Outputs, conflicted: bool)
    requires i.Valid() && s < |i.requests| && Progress(i, o, s) && conflicted == Beaten(i, o.accept, s)
    requires Extends(i, o, s, o', conflicted)
    ensures Progress(i, o', s + 1)
  {
    var p' := Prefix(i, s + 1);
    forall t: nat | t <= s ensures SlotOutcome(p', o', t) {
      SlotSettled(i, o, s, o', conflicted, t);
    }
    forall g: nat | g < |i.owners| ensures GroupOutcome(p', o', g) {
      GroupSettled(i, o, s, o', conflicted, g);
    }
  }

  ghost predicate Extends(i: Inputs, o: Outputs, s: nat, o': Outputs, conflicted: bool)
    requires i.Valid() && s < |i.requests| && |o.accept| == s
  {
    var valid, can := i.requests[s].valid, i.Eligible(s) && !conflicted;
    o' == Outputs(o.ready + [if i.Malformed(s) then i.rejects[s] else can], o.accept + [valid && can],
                  o.reject + [valid && i.Malformed(s) && i.rejects[s]],
                  if valid && can then Granted(o.group, i.requests[s].groups, s) else o.group,
                  o.empty + [valid && i.requests[s].groups == {}],
                  o.mismatch + [valid && i.requests[s].groups != {} && !i.OwnersMatch(s)],
                  o.blocked + [valid && !i.Malformed(s) && !(i.GroupsReady(s) && i.resources[s])],
                  o.conflict + [valid && i.Eligible(s) && conflicted])
  }

  lemma SlotSettled(i: Inputs, o: Outputs, s: nat, o': Outputs, conflicted: bool, t: nat)
    requires i.Valid() && t <= s < |i.requests| && Progress(i, o, s) && conflicted == Beaten(i, o.accept, s)
    requires Extends(i, o, s, o', conflicted)
    ensures SlotOutcome(Prefix(i, s + 1), o', t)
  {
    var p, p' := Prefix(i, s), Prefix(i, s + 1);
    SameCompetition(i, o.accept, p', o'.accept, t);
    if t < s {
      assert SlotOutcome(p, o, t);
      SameCompetition(i, o.accept, p, o.accept, t);
    }
  }

  lemma GroupSettled(i: Inputs, o: Outputs, s: nat, o': Outputs, conflicted: bool, g: nat)
    requires i.Valid() && s < |i.requests| && Progress(i, o, s) && conflicted == Beaten(i, o.accept, s)
    requires Extends(i, o, s, o', conflicted) && g < |i.owners|
    ensures GroupOutcome(Prefix(i, s + 1), o', g)
  {
    assert GroupOutcome(Prefix(i, s), o, g);
    if o'.accept[s] && g in i.requests[s].groups {
      NoOtherTakes(i, o, s, g);
    }
  }

  lemma SameCompetition(i: Inputs, accept: seq<bool>, i': Inputs, accept': seq<bool>, t: nat)
    requires i.Valid() && i'.Valid() && t < |i'.requests| <= |i.requests| && t <= |accept| <= |accept'|
    requires i'.requests == i.requests[..|i'.requests|] && forall r: nat :: r < t ==> accept'[r] == accept[r]
    ensures Beaten(i', accept', t) == Beaten(i, accept, t)
  {
    forall r: nat | r < t ensures i'.Overlap(r, t) == i.Overlap(r, t) {
    }
  }

  lemma NoOtherTakes(i: Inputs, o: Outputs, s: nat, g: nat)
    requires i.Valid() && s < |i.requests| && |o.accept| == s && !Beaten(i, o.accept, s) && g in i.requests[s].groups
    ensures forall r: nat :: r < s && o.accept[r] ==> g !in i.requests[r].groups
  {
    forall r: nat | r < s && o.accept[r] ensures g !in i.requests[r].groups {
      assert !i.Overlap(r, s);
      assert g !in i.requests[r].groups * i.requests[s].groups;
    }
  }

  /** Lower-numbered slots first; only accepted requests reserve groups. */
  method Arbitrate(i: Inputs) returns (o: Outputs)
    requires i.Valid()
    ensures Dispatched(i, o)
  {
    var reserved: set<nat> := {};
    o := Outputs([], [], [], seq(|i.owners|, g => None), [], [], [], []);
    for slot := 0 to |i.requests|
      invariant Progress(i, o, slot) && Reserves(i, o.accept, reserved)
    {
      var requested, valid := i.requests[slot].groups, i.requests[slot].valid;
      var owned, ready := CheckGroups(i, slot);
      var overlaps := requested * reserved != {};
      OverlapsReserved(i, o.accept, reserved, slot);
      var error := requested == {} || !owned;
      var can := !error && ready && i.resources[slot] && !overlaps;
      ReservesMore(i, o.accept, reserved, valid && can);
      var before := o;
      var group := o.group;
      if valid && can {
        reserved := reserved + requested;
        for g := 0 to |group|
          invariant |group| == |before.group|
          invariant forall h :: 0 <= h < |group| ==> group[h] == if h < g && h in requested then Some(slot) else before.group[h]
        {
          if g in requested {
            group := group[g := Some(slot)];
          }
        }
        assert group == Granted(before.group, requested, slot);
      }
      o := Outputs(o.ready + [if error then i.rejects[slot] else can], o.accept + [valid && can],
                   o.reject + [valid && error && i.rejects[slot]], group,
                   o.empty + [valid && requested == {}], o.mismatch + [valid && requested != {} && !owned],
                   o.blocked + [valid && requested != {} && owned && (!ready || !i.resources[slot])],
                   o.conflict + [valid && requested != {} && owned && ready && i.resources[slot] && overlaps]);
      SlotAdded(i, before, slot, o, overlaps);
    }
    assert Prefix(i, |i.requests|) == i;
  }
}
