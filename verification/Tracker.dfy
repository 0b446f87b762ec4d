/** The completion tracker: one entry per live command, children completing and results retiring in
    any order, one report per command. */
module CompletionTracker {
  import opened Rotation
  import opened Wrappers

  datatype Entry = Entry(context: nat, tag: int, groups: set<nat>, results: set<nat>, pending: set<nat>,
                         seen: set<nat>, illegal: set<nat>, reported: bool)

  datatype Alloc = Alloc(valid: bool, commit: bool, context: nat, tag: int, groups: set<nat>, results: set<nat>)

  datatype Child = Child(context: nat, tag: int, illegal: bool, hasResult: bool)

  datatype Retire = Retire(context: nat, tag: int)

  /** Group `g` drives `cpls[g]` and `rsps[g]`. `pick` is the done entry that the output turns to when it
      holds none. */
  datatype Pins = Pins(allocs: seq<Alloc>, cpls: seq<Option<Child>>, rsps: seq<Option<Retire>>, ready: bool, errorClear: bool,
                       pick: Option<nat>)

  datatype State = State(entries: seq<Option<Entry>>, hold: Option<nat>, preference: nat, error: bool)

  datatype Params = Params(contexts: nat, entries: nat) {
    predicate Valid() {
      entries > 0
    }
  }

  function Reset(p: Params): State {
    State(seq(p.entries, i => None), None, 0, false)
  }

  // ----- lookup and selection

  predicate HasKey(e: Option<Entry>, context: nat, tag: int) {
    e.Some? && e.value.context == context && e.value.tag == tag
  }

  /** The first entry at or after `from` with the key. */
  function Find(entries: seq<Option<Entry>>, context: nat, tag: int, from: nat): (r: Option<nat>)
    ensures r.Some? ==> from <= r.value < |entries| && HasKey(entries[r.value], context, tag)
    ensures r.None? ==> forall i :: from <= i < |entries| ==> !HasKey(entries[i], context, tag)
    decreases |entries| - from
  {
    if from >= |entries| then None else if HasKey(entries[from], context, tag) then Some(from) else Find(entries, context, tag, from + 1)
  }

  predicate Done(e: Option<Entry>) {
    e.Some? && e.value.pending == {} && !e.value.reported
  }

  /** The first done entry in rotating order, `offset` places after the preference. */
  function Scan(entries: seq<Option<Entry>>, preference: nat, offset: nat): (r: Option<nat>)
    requires preference < |entries| && offset <= |entries|
    ensures r.Some? ==> r.value < |entries| && Done(entries[r.value])
    decreases |entries| - offset
  {
    if offset == |entries| then None
    else
      var i := Wrap(preference + offset, |entries|);
      if Done(entries[i]) then Some(i) else Scan(entries, preference, offset + 1)
  }

  /** The entry that the command output shows. */
  function Shown(s: State, i: Pins): Option<nat> {
    if s.hold.Some? then s.hold else i.pick
  }

  /** Any done entry may be picked. */
  ghost predicate PickOk(s: State, i: Pins) {
    i.pick.Some? ==> i.pick.value < |s.entries| && Done(s.entries[i.pick.value])
  }

  /** The rotating choice. */
  function Rotated(s: State, i: Pins): (r: Pins)
    requires s.preference < |s.entries|
    ensures PickOk(s, r)
  {
    i.(pick := Scan(s.entries, s.preference, 0))
  }

  // ----- children

  predicate CompletesAt(s: State, i: Pins, k: nat, g: nat)
    requires k < |s.entries| && s.entries[k].Some?
  {
    && g < |i.cpls| && i.cpls[g].Some? && Find(s.entries, i.cpls[g].value.context, i.cpls[g].value.tag, 0) == Some(k)
    && g in s.entries[k].value.groups && g in s.entries[k].value.pending
  }

  /** Groups whose completion entry `k` accepts in this cycle. */
  function Cleared(s: State, i: Pins, k: nat): (r: set<nat>)
    requires k < |s.entries| && s.entries[k].Some?
    ensures r <= s.entries[k].value.pending && forall g :: g in r ==> g < |i.cpls| && i.cpls[g].Some?
  {
    set g | g in s.entries[k].value.pending && CompletesAt(s, i, k, g)
  }

  predicate RetiresAt(s: State, i: Pins, k: nat, g: nat)
    requires k < |s.entries| && s.entries[k].Some?
  {
    g < |i.rsps| && i.rsps[g].Some? && Find(s.entries, i.rsps[g].value.context, i.rsps[g].value.tag, 0) == Some(k)
    && g in s.entries[k].value.groups && g !in s.entries[k].value.seen
  }

  /** Groups whose result retirement entry `k` records in this cycle, expected or not. */
  function NewlySeen(s: State, i: Pins, k: nat): set<nat>
    requires k < |s.entries| && s.entries[k].Some?
  {
    set g | g in s.entries[k].value.groups && RetiresAt(s, i, k, g)
  }

  predicate BadChild(e: Entry, c: Child, g: nat) {
    c.illegal || c.hasResult != (g in e.results)
  }

  function Remaining(s: State, i: Pins, k: nat): set<nat>
    requires k < |s.entries| && s.entries[k].Some?
  {
    s.entries[k].value.results - (s.entries[k].value.seen + NewlySeen(s, i, k))
  }

  predicate Reports(s: State, i: Pins, k: nat)
  {
    i.ready && Shown(s, i) == Some(k)
  }

  predicate Releases(s: State, i: Pins, k: nat)
    requires k < |s.entries| && s.entries[k].Some?
  {
    Remaining(s, i, k) == {} && (Reports(s, i, k) || s.entries[k].value.reported)
  }

  /** Entry `k` after the cycle, allocations aside. */
  function Updated(s: State, i: Pins, k: nat): Option<Entry>
    requires k < |s.entries|
  {
    if s.entries[k].None? || Releases(s, i, k) then None else
      var e := s.entries[k].value;
      var cleared := Cleared(s, i, k);
      Some(e.(pending := e.pending - cleared,
              results := (e.results - cleared) + (set g | g in cleared && i.cpls[g].value.hasResult),
              seen := e.seen + NewlySeen(s, i, k),
              illegal := e.illegal + (set g | g in cleared && BadChild(e, i.cpls[g].value, g)),
              reported := e.reported || Reports(s, i, k)))
  }

  // ----- allocation

  predicate FieldsValid(p: Params, a: Alloc) {
    a.context < p.contexts && a.groups != {} && a.results <= a.groups
  }

  function FirstFree(entries: seq<Option<Entry>>, reserved: set<nat>, from: nat): (r: Option<nat>)
    ensures r.Some? ==> from <= r.value < |entries| && entries[r.value].None? && r.value !in reserved
    ensures r.None? ==> forall k :: from <= k < |entries| ==> entries[k].Some? || k in reserved
    decreases |entries| - from
  {
    if from >= |entries| then None
    else if entries[from].None? && from !in reserved then Some(from)
    else FirstFree(entries, reserved, from + 1)
  }

  /** The entry offered to each of the first `n` slots. */
  function Offers(p: Params, s: State, allocs: seq<Alloc>, n: nat): (r: seq<Option<nat>>)
    requires n <= |allocs|
    ensures |r| == n
  {
    if n == 0 then [] else
      var before := Offers(p, s, allocs, n - 1);
      var a := allocs[n - 1];
      var busy := Find(s.entries, a.context, a.tag, 0).Some? || Claimed(allocs, before, a.context, a.tag);
      before + [if FieldsValid(p, a) && !busy then FirstFree(s.entries, Reserved(allocs, before), 0) else None]
  }

  /** An older slot of this cycle has the key. */
  predicate Claimed(allocs: seq<Alloc>, offers: seq<Option<nat>>, context: nat, tag: int)
    requires |offers| <= |allocs|
  {
    exists j :: 0 <= j < |offers| && allocs[j].valid && offers[j].Some? && allocs[j].context == context && allocs[j].tag == tag
  }

  function Reserved(allocs: seq<Alloc>, offers: seq<Option<nat>>): set<nat>
    requires |offers| <= |allocs|
  {
    set j | 0 <= j < |offers| && allocs[j].valid && offers[j].Some? :: offers[j].value
  }

  predicate Commits(p: Params, s: State, i: Pins, slot: nat)
    requires slot < |i.allocs|
  {
    i.allocs[slot].commit && i.allocs[slot].valid && Offers(p, s, i.allocs, |i.allocs|)[slot].Some?
  }

  function NewEntry(a: Alloc): Entry {
    Entry(a.context, a.tag, a.groups, a.results, a.groups, {}, {}, false)
  }

  /** The entries after the first `n` slots have committed. */
  function WithAllocations(p: Params, s: State, i: Pins, entries: seq<Option<Entry>>, n: nat): (r: seq<Option<Entry>>)
    requires n <= |i.allocs| && |entries| == |s.entries|
    ensures |r| == |entries|
  {
    if n == 0 then entries else
      var before := WithAllocations(p, s, i, entries, n - 1);
      var offer := Offers(p, s, i.allocs, |i.allocs|)[n - 1];
      if Commits(p, s, i, n - 1) && offer.value < |before| then before[offer.value := Some(NewEntry(i.allocs[n - 1]))] else before
  }

  // ----- diagnostics

  predicate ChildFault(s: State, i: Pins, g: nat)
    requires g < |i.cpls|
  {
    i.cpls[g].Some? && var c := i.cpls[g].value;
      match Find(s.entries, c.context, c.tag, 0)
      case None => true
      case Some(k) => var e := s.entries[k].value; g !in e.groups || g !in e.pending || c.hasResult != (g in e.results)
  }

  predicate RetireFault(s: State, i: Pins, g: nat)
    requires g < |i.rsps|
  {
    i.rsps[g].Some? && var c := i.rsps[g].value;
      match Find(s.entries, c.context, c.tag, 0)
      case None => true
      case Some(k) => var e := s.entries[k].value; g !in e.groups || g in e.seen || g !in e.results
  }

  predicate AllocFault(p: Params, s: State, i: Pins, slot: nat)
    requires slot < |i.allocs|
  {
    (i.allocs[slot].valid && !FieldsValid(p, i.allocs[slot])) || (i.allocs[slot].commit && !Commits(p, s, i, slot))
  }

  predicate Fault(p: Params, s: State, i: Pins) {
    || (exists g :: 0 <= g < |i.cpls| && ChildFault(s, i, g))
    || (exists g :: 0 <= g < |i.rsps| && RetireFault(s, i, g))
    || (exists slot :: 0 <= slot < |i.allocs| && AllocFault(p, s, i, slot))
  }

  // ----- one cycle

  function Step(p: Params, s: State, i: Pins): State
  {
    var shown := Shown(s, i);
    var updated := seq(|s.entries|, k requires 0 <= k < |s.entries| => Updated(s, i, k));
    State(WithAllocations(p, s, i, updated, |i.allocs|),
          if shown.Some? && !i.ready then shown else None,
          if shown.Some? && i.ready then (if shown.value == |s.entries| - 1 then 0 else shown.value + 1) else s.preference,
          Fault(p, s, i) || (s.error && !i.errorClear))
  }

  // ----- the lives of commands

  /** What has happened to a live command: its admission, and the child completions and result
      retirements accepted so far. */
  datatype Life = Life(id: nat, context: nat, tag: int, groups: set<nat>, admitted: set<nat>,
                       log: map<nat, Child>, retired: set<nat>)

  /** A command report, with the life it closes. */
  datatype Report = Report(life: Life, context: nat, tag: int, groups: set<nat>, results: set<nat>, illegal: set<nat>)

  /** Commands are numbered in the order of their admission. */
  datatype History = History(lives: seq<Option<Life>>, issued: nat, reports: seq<Report>)

  predicate Faulty(l: Life, g: nat)
    requires g in l.log
  {
    l.log[g].illegal || l.log[g].hasResult != (g in l.admitted)
  }

  function FaultyGroups(l: Life): set<nat> {
    set g | g in l.log && Faulty(l, g)
  }

  function ResultGroups(l: Life): set<nat> {
    set g | g in l.log && l.log[g].hasResult
  }

  /** An entry is determined by the life of its command. */
  ghost predicate Matches(e: Entry, l: Life) {
    && e.context == l.context && e.tag == l.tag && e.groups == l.groups && e.seen == l.retired
    && l.log.Keys <= l.groups && l.admitted <= l.groups && l.retired <= l.groups && l.groups != {}
    && e.pending == l.groups - l.log.Keys
    && e.results == (l.admitted - l.log.Keys) + ResultGroups(l)
    && e.illegal == FaultyGroups(l)
  }

  ghost predicate Linked(e: Option<Entry>, l: Option<Life>) {
    e.Some? == l.Some? && (e.Some? ==> Matches(e.value, l.value))
  }

  /** A report shows the exact groups, results and faulty groups of a command all of whose children completed. */
  ghost predicate Exact(r: Report) {
    && r.life.log.Keys == r.life.groups == r.groups && r.context == r.life.context && r.tag == r.life.tag
    && r.results == ResultGroups(r.life) && r.illegal == FaultyGroups(r.life)
  }

  predicate Reported(reports: seq<Report>, id: nat) {
    exists j :: 0 <= j < |reports| && reports[j].life.id == id
  }

  ghost predicate KeysDistinct(entries: seq<Option<Entry>>) {
    forall a, b :: 0 <= a < b < |entries| && entries[a].Some? && entries[b].Some? ==>
      !HasKey(entries[a], entries[b].value.context, entries[b].value.tag)
  }

  /** Live commands are numbered apart, and are marked reported exactly when they are. */
  ghost predicate LivesInv(entries: seq<Option<Entry>>, h: History) {
    && |h.lives| == |entries|
    && (forall k :: 0 <= k < |entries| ==> Linked(entries[k], h.lives[k]))
    && (forall k :: 0 <= k < |entries| && h.lives[k].Some? ==> h.lives[k].value.id < h.issued)
    && (forall a, b :: 0 <= a < b < |entries| && h.lives[a].Some? && h.lives[b].Some? ==> h.lives[a].value.id != h.lives[b].value.id)
    && (forall k :: 0 <= k < |entries| && entries[k].Some? ==> (entries[k].value.reported <==> Reported(h.reports, h.lives[k].value.id)))
  }

  ghost predicate Live(h: History, id: nat) {
    exists k :: 0 <= k < |h.lives| && h.lives[k].Some? && h.lives[k].value.id == id
  }

  ghost predicate ReportsInv(h: History) {
    && (forall j :: 0 <= j < |h.reports| ==> Exact(h.reports[j]) && h.reports[j].life.id < h.issued)
    && (forall a, b :: 0 <= a < b < |h.reports| ==> h.reports[a].life.id != h.reports[b].life.id)
    && (forall id: nat :: id < h.issued ==> Live(h, id) || Reported(h.reports, id))
  }

  /** A reported command that is still live waits for a result. */
  ghost predicate Waiting(e: Entry) {
    e.reported ==> e.pending == {} && !(e.results <= e.seen)
  }

  ghost predicate Inv(p: Params, s: State, h: History) {
    && |s.entries| == p.entries && s.preference < p.entries
    && (s.hold.Some? ==> s.hold.value < p.entries && Done(s.entries[s.hold.value]))
    && KeysDistinct(s.entries) && LivesInv(s.entries, h) && ReportsInv(h)
    && forall k :: 0 <= k < p.entries && s.entries[k].Some? ==> Waiting(s.entries[k].value)
  }

  // ----- how a cycle continues the lives

  /** The pins bring the completion of group `g` that the command waits for. */
  predicate Completes(l: Life, i: Pins, g: nat) {
    && g in l.groups && g !in l.log && g < |i.cpls| && i.cpls[g].Some?
    && i.cpls[g].value.context == l.context && i.cpls[g].value.tag == l.tag
  }

  /** The pins retire a result of group `g` for the command. */
  predicate Retires(l: Life, i: Pins, g: nat) {
    g in l.groups && g < |i.rsps| && i.rsps[g].Some? && i.rsps[g].value.context == l.context && i.rsps[g].value.tag == l.tag
  }

  /** The life after a cycle with these pins; the tracker's own choices have no part in it. */
  ghost function Logged(i: Pins, l: Life): Life {
    l.(log := l.log + (map g | g in l.groups && Completes(l, i, g) :: i.cpls[g].value),
       retired := l.retired + (set g | g in l.groups && Retires(l, i, g)))
  }

  ghost function UpdatedLife(s: State, i: Pins, h: History, k: nat): Option<Life>
    requires |s.entries| == |h.lives| && k < |s.entries|
  {
    if s.entries[k].None? || h.lives[k].None? || Releases(s, i, k) then None else Some(Logged(i, h.lives[k].value))
  }

  ghost function ReportOf(e: Entry, l: Life): Report {
    Report(l, e.context, e.tag, e.groups, e.results, e.illegal)
  }

  /** The history after reports, completions and releases. */
  ghost function AfterChildren(s: State, i: Pins, h: History): History
    requires |s.entries| == |h.lives|
  {
    var shown := Shown(s, i);
    History(seq(|h.lives|, k requires 0 <= k < |h.lives| => UpdatedLife(s, i, h, k)), h.issued,
            if shown.Some? && i.ready && shown.value < |h.lives| && s.entries[shown.value].Some? && h.lives[shown.value].Some?
            then h.reports + [ReportOf(s.entries[shown.value].value, h.lives[shown.value].value)] else h.reports)
  }

  ghost function NewLife(a: Alloc, id: nat): Life {
    Life(id, a.context, a.tag, a.groups, a.results, map[], {})
  }

  ghost function AfterAllocations(p: Params, s: State, i: Pins, h: History, n: nat): History
    requires n <= |i.allocs|
    decreases n
  {
    if n == 0 then h else
      var before := AfterAllocations(p, s, i, h, n - 1);
      var offer := Offers(p, s, i.allocs, |i.allocs|)[n - 1];
      if Commits(p, s, i, n - 1) && offer.value < |before.lives|
      then before.(lives := before.lives[offer.value := Some(NewLife(i.allocs[n - 1], before.issued))], issued := before.issued + 1)
      else before
  }

  ghost function Follow(p: Params, s: State, i: Pins, h: History): History
    requires |s.entries| == |h.lives|
  {
    AfterAllocations(p, s, i, AfterChildren(s, i, h), |i.allocs|)
  }

  // ----- children keep the lives exact

  lemma FindIsKey(entries: seq<Option<Entry>>, context: nat, tag: int, k: nat)
    requires KeysDistinct(entries) && k < |entries|
    ensures Find(entries, context, tag, 0) == Some(k) <==> HasKey(entries[k], context, tag)
  {
  }

  /** The tracker accepts exactly the completions and retirements that the pins bring for a live command. */
  lemma PinsDecide(s: State, i: Pins, k: nat, l: Life)
    requires KeysDistinct(s.entries) && k < |s.entries| && s.entries[k].Some? && Matches(s.entries[k].value, l)
    ensures forall g :: g in Cleared(s, i, k) <==> g in l.groups && Completes(l, i, g)
    ensures forall g :: g in NewlySeen(s, i, k) <==> g in l.groups && Retires(l, i, g) && g !in l.retired
  {
    forall g: nat ensures g in Cleared(s, i, k) <==> g in l.groups && Completes(l, i, g) {
      if g < |i.cpls| && i.cpls[g].Some? {
        FindIsKey(s.entries, i.cpls[g].value.context, i.cpls[g].value.tag, k);
      }
    }
    forall g: nat ensures g in NewlySeen(s, i, k) <==> g in l.groups && Retires(l, i, g) && g !in l.retired {
      if g < |i.rsps| && i.rsps[g].Some? {
        FindIsKey(s.entries, i.rsps[g].value.context, i.rsps[g].value.tag, k);
      }
    }
  }

  lemma LoggedMatches(s: State, i: Pins, k: nat, l: Life)
    requires KeysDistinct(s.entries)
    requires k < |s.entries| && s.entries[k].Some? && Matches(s.entries[k].value, l) && !Releases(s, i, k)
    ensures Matches(Updated(s, i, k).value, Logged(i, l))
  {
    PinsDecide(s, i, k, l);
    var e, cleared := s.entries[k].value, Cleared(s, i, k);
    var l' := Logged(i, l);
    assert l'.log.Keys == l.log.Keys + cleared;
    var e' := Updated(s, i, k).value;
    assert e'.seen == l'.retired;
    forall g: nat ensures g in e'.illegal <==> g in FaultyGroups(l') {
      if g in cleared {
        assert l'.log[g] == i.cpls[g].value && g !in l.log && (g in e.results <==> g in l.admitted);
      }
    }
    forall g: nat ensures g in e'.results <==> g in (l'.admitted - l'.log.Keys) + ResultGroups(l') {
      if g in cleared {
        assert l'.log[g] == i.cpls[g].value && g !in l.log;
      }
    }
  }

  /** A done entry has heard from all its children. */
  lemma DoneIsExact(e: Entry, l: Life)
    requires Matches(e, l) && e.pending == {}
    ensures Exact(ReportOf(e, l))
  {
    forall g | g in l.groups ensures g in l.log {
      assert g in l.log || g in e.pending;
    }
    assert l.log.Keys == l.groups;
    assert l.admitted - l.log.Keys == {};
  }

  /** Completions have nothing to change in a done entry. */
  lemma DoneIsFrozen(s: State, i: Pins, k: nat)
    requires k < |s.entries| && s.entries[k].Some? && s.entries[k].value.pending == {} && !Releases(s, i, k)
    ensures var e, e' := s.entries[k].value, Updated(s, i, k).value;
      e'.pending == {} && e'.results == e.results && e'.illegal == e.illegal && e'.groups == e.groups
      && e'.context == e.context && e'.tag == e.tag
  {
    assert Cleared(s, i, k) == {};
  }

  function UpdatedAll(s: State, i: Pins): (r: seq<Option<Entry>>)
    ensures |r| == |s.entries|
  {
    seq(|s.entries|, k requires 0 <= k < |s.entries| => Updated(s, i, k))
  }

  lemma UpdatedKeepsKeys(s: State, i: Pins)
    requires KeysDistinct(s.entries)
    ensures KeysDistinct(UpdatedAll(s, i))
  {
    var after := UpdatedAll(s, i);
    forall a, b | 0 <= a < b < |after| && after[a].Some? && after[b].Some?
      ensures !HasKey(after[a], after[b].value.context, after[b].value.tag)
    {
      assert !HasKey(s.entries[a], s.entries[b].value.context, s.entries[b].value.tag);
    }
  }

  /** The shown entry is done. */
  lemma ShownIsDone(p: Params, s: State, i: Pins, h: History)
    requires Inv(p, s, h) && PickOk(s, i) && Shown(s, i).Some?
    ensures Shown(s, i).value < |s.entries| && Done(s.entries[Shown(s, i).value])
  {
  }

  lemma ReportsGrow(reports: seq<Report>, r: Report, id: nat)
    ensures Reported(reports + [r], id) <==> Reported(reports, id) || r.life.id == id
  {
    var all := reports + [r];
    if Reported(reports, id) {
      var j :| 0 <= j < |reports| && reports[j].life.id == id;
      assert all[j].life.id == id;
    }
    if r.life.id == id {
      assert all[|reports|].life.id == id;
    }
    if Reported(all, id) {
      var j :| 0 <= j < |all| && all[j].life.id == id;
      if j < |reports| {
        assert reports[j].life.id == id;
      }
    }
  }

  /** Numbers reported after the children's part of a cycle. */
  lemma ReportedAfter(p: Params, s: State, i: Pins, h: History, id: nat)
    requires Inv(p, s, h) && PickOk(s, i)
    ensures Reported(AfterChildren(s, i, h).reports, id)
      <==> Reported(h.reports, id) || exists k :: 0 <= k < |s.entries| && Reports(s, i, k) && h.lives[k].Some? && h.lives[k].value.id == id
  {
    var shown := Shown(s, i);
    if shown.Some? && i.ready {
      ShownIsDone(p, s, i, h);
      var k := shown.value;
      assert Linked(s.entries[k], h.lives[k]) && Reports(s, i, k);
      ReportsGrow(h.reports, ReportOf(s.entries[k].value, h.lives[k].value), id);
    }
  }

  lemma {:induction false} ChildrenKeepLives(p: Params, s: State, i: Pins, h: History)
    requires Inv(p, s, h) && PickOk(s, i)
    ensures LivesInv(UpdatedAll(s, i), AfterChildren(s, i, h))
  {
    var after, h' := UpdatedAll(s, i), AfterChildren(s, i, h);
    forall k | 0 <= k < |after| ensures Linked(after[k], h'.lives[k]) {
      assert Linked(s.entries[k], h.lives[k]);
      if after[k].Some? {
        LoggedMatches(s, i, k, h.lives[k].value);
      }
    }
    forall k | 0 <= k < |after| && after[k].Some?
      ensures after[k].value.reported <==> Reported(h'.reports, h'.lives[k].value.id)
    {
      ReportedIsMarked(p, s, i, h, k);
    }
  }

  lemma ReportedIsMarked(p: Params, s: State, i: Pins, h: History, k: nat)
    requires Inv(p, s, h) && PickOk(s, i) && k < |s.entries| && Updated(s, i, k).Some?
    ensures UpdatedLife(s, i, h, k).Some?
    ensures Updated(s, i, k).value.reported <==> Reported(AfterChildren(s, i, h).reports, UpdatedLife(s, i, h, k).value.id)
  {
    assert Linked(s.entries[k], h.lives[k]);
    ReportedAfter(p, s, i, h, h.lives[k].value.id);
    if Reports(s, i, k) {
      assert h.lives[k].Some? && h.lives[k].value.id == h.lives[k].value.id;
    }
  }

  lemma ChildrenKeepReports(p: Params, s: State, i: Pins, h: History)
    requires Inv(p, s, h) && PickOk(s, i)
    ensures ReportsInv(AfterChildren(s, i, h))
  {
    var h' := AfterChildren(s, i, h);
    var shown := Shown(s, i);
    if shown.Some? && i.ready {
      ShownIsDone(p, s, i, h);
      var k := shown.value;
      assert Linked(s.entries[k], h.lives[k]);
      DoneIsExact(s.entries[k].value, h.lives[k].value);
      assert !Reported(h.reports, h.lives[k].value.id);
    }
    forall id: nat | id < h'.issued ensures Live(h', id) || Reported(h'.reports, id) {
      NoneIsLost(p, s, i, h, id);
    }
  }

  /** A command that is no longer live has been reported. */
  lemma NoneIsLost(p: Params, s: State, i: Pins, h: History, id: nat)
    requires Inv(p, s, h) && PickOk(s, i) && id < h.issued
    ensures Live(AfterChildren(s, i, h), id) || Reported(AfterChildren(s, i, h).reports, id)
  {
    var h' := AfterChildren(s, i, h);
    ReportedAfter(p, s, i, h, id);
    assert Live(h, id) || Reported(h.reports, id);
    if Live(h, id) {
      var k :| 0 <= k < |h.lives| && h.lives[k].Some? && h.lives[k].value.id == id;
      assert Linked(s.entries[k], h.lives[k]);
      if !Releases(s, i, k) {
        assert h'.lives[k].Some? && h'.lives[k].value.id == id;
      }
    }
  }

  lemma ChildrenKeepWaiting(p: Params, s: State, i: Pins, h: History, k: nat)
    requires Inv(p, s, h) && PickOk(s, i) && k < |s.entries| && Updated(s, i, k).Some?
    ensures Waiting(Updated(s, i, k).value)
  {
    var e := s.entries[k].value;
    assert Waiting(e);
    if e.reported || Reports(s, i, k) {
      if Reports(s, i, k) {
        ShownIsDone(p, s, i, h);
      }
      DoneIsFrozen(s, i, k);
      var g :| g in Remaining(s, i, k);
      assert g in Updated(s, i, k).value.results && g !in Updated(s, i, k).value.seen;
    }
  }

  // ----- allocations

  lemma {:induction false} OffersPrefix(p: Params, s: State, allocs: seq<Alloc>, n: nat, j: nat)
    requires j < n <= |allocs|
    ensures Offers(p, s, allocs, n)[j] == Offers(p, s, allocs, j + 1)[j]
  {
    if j < n - 1 {
      OffersPrefix(p, s, allocs, n - 1, j);
    }
  }

  /** What a slot is offered: legal fields, a key that is neither live nor claimed by an older slot, and
      a free entry that no older slot reserves. */
  lemma OfferIsFresh(p: Params, s: State, allocs: seq<Alloc>, j: nat, older: nat)
    requires j < |allocs| && Offers(p, s, allocs, |allocs|)[j].Some?
    ensures var offers, a := Offers(p, s, allocs, |allocs|), allocs[j];
      && FieldsValid(p, a) && offers[j].value < |s.entries| && s.entries[offers[j].value].None?
      && (forall k :: 0 <= k < |s.entries| ==> !HasKey(s.entries[k], a.context, a.tag))
      && (older < j && allocs[older].valid && offers[older].Some? ==>
            offers[older] != offers[j] && !(allocs[older].context == a.context && allocs[older].tag == a.tag))
  {
    OffersPrefix(p, s, allocs, |allocs|, j);
    if older < j {
      OffersPrefix(p, s, allocs, |allocs|, older);
      OffersPrefix(p, s, allocs, j + 1, older);
      var before := Offers(p, s, allocs, j);
      assert Offers(p, s, allocs, j + 1)[older] == before[older];
      if allocs[older].valid && before[older].Some? {
        assert before[older].value in Reserved(allocs, before);
      }
    }
  }

  /** Entries that the first `n` slots may have changed: each is either as it was, or new for one of them. */
  ghost predicate NewFor(p: Params, s: State, i: Pins, e: Option<Entry>, n: nat, k: nat) {
    exists j :: 0 <= j < n <= |i.allocs| && Commits(p, s, i, j) && Offers(p, s, i.allocs, |i.allocs|)[j].value == k
                && e == Some(NewEntry(i.allocs[j]))
  }

  lemma {:induction false} AllocationsAre(p: Params, s: State, i: Pins, entries: seq<Option<Entry>>, n: nat, k: nat)
    requires n <= |i.allocs| && |entries| == |s.entries| && k < |entries|
    ensures var e := WithAllocations(p, s, i, entries, n)[k]; e == entries[k] || NewFor(p, s, i, e, n, k)
  {
    if n > 0 {
      AllocationsAre(p, s, i, entries, n - 1, k);
      var e := WithAllocations(p, s, i, entries, n - 1)[k];
      if e != entries[k] {
        var j :| 0 <= j < n - 1 && Commits(p, s, i, j) && Offers(p, s, i.allocs, |i.allocs|)[j].value == k && e == Some(NewEntry(i.allocs[j]));
        assert NewFor(p, s, i, e, n, k);
      }
      if Commits(p, s, i, n - 1) && Offers(p, s, i.allocs, |i.allocs|)[n - 1].value == k {
        assert NewFor(p, s, i, Some(NewEntry(i.allocs[n - 1])), n, k);
      }
    }
  }

  /** A committing slot finds its entry free and its key unused, whatever older slots did. */
  lemma SlotIsClear(p: Params, s: State, i: Pins, n: nat)
    requires n < |i.allocs| && Commits(p, s, i, n)
    ensures var k, a := Offers(p, s, i.allocs, |i.allocs|)[n].value, i.allocs[n];
      var before := WithAllocations(p, s, i, UpdatedAll(s, i), n);
      && k < |before| && before[k].None? && FieldsValid(p, a)
      && forall q :: 0 <= q < |before| ==> !HasKey(before[q], a.context, a.tag)
  {
    var offers, a := Offers(p, s, i.allocs, |i.allocs|), i.allocs[n];
    var k, before := offers[n].value, WithAllocations(p, s, i, UpdatedAll(s, i), n);
    OfferIsFresh(p, s, i.allocs, n, n);
    forall q | 0 <= q < |before| ensures !HasKey(before[q], a.context, a.tag) && (q == k ==> before[q].None?) {
      AllocationsAre(p, s, i, UpdatedAll(s, i), n, q);
      if before[q] != Updated(s, i, q) {
        var j :| 0 <= j < n && Commits(p, s, i, j) && offers[j].value == q && before[q] == Some(NewEntry(i.allocs[j]));
        OfferIsFresh(p, s, i.allocs, n, j);
      }
    }
  }

  ghost predicate EntriesInv(entries: seq<Option<Entry>>, h: History) {
    KeysDistinct(entries) && LivesInv(entries, h) && ReportsInv(h)
    && forall k :: 0 <= k < |entries| && entries[k].Some? ==> Waiting(entries[k].value)
  }

  /** Admitting one command into a free entry. */
  lemma Admitted(entries: seq<Option<Entry>>, h: History, a: Alloc, k: nat)
    requires EntriesInv(entries, h) && k < |entries| && entries[k].None? && a.groups != {} && a.results <= a.groups
    requires forall q :: 0 <= q < |entries| ==> !HasKey(entries[q], a.context, a.tag)
    ensures EntriesInv(entries[k := Some(NewEntry(a))], h.(lives := h.lives[k := Some(NewLife(a, h.issued))], issued := h.issued + 1))
  {
    var entries' := entries[k := Some(NewEntry(a))];
    var h' := h.(lives := h.lives[k := Some(NewLife(a, h.issued))], issued := h.issued + 1);
    assert Linked(entries[k], h.lives[k]);
    assert !Reported(h.reports, h.issued);
    NewEntryMatches(a, h.issued);
    forall id: nat | id < h'.issued ensures Live(h', id) || Reported(h'.reports, id) {
      if id == h.issued {
        assert h'.lives[k].Some? && h'.lives[k].value.id == id;
      } else if Live(h, id) {
        var q :| 0 <= q < |h.lives| && h.lives[q].Some? && h.lives[q].value.id == id;
        assert h'.lives[q].Some? && h'.lives[q].value.id == id;
      }
    }
  }

  lemma NewEntryMatches(a: Alloc, id: nat)
    requires a.groups != {} && a.results <= a.groups
    ensures Matches(NewEntry(a), NewLife(a, id))
  {
    var e, l := NewEntry(a), NewLife(a, id);
    assert ResultGroups(l) == {} && FaultyGroups(l) == {};
    assert l.admitted - l.log.Keys == l.admitted;
  }

  lemma AllocationKeeps(p: Params, s: State, i: Pins, h: History, n: nat)
    requires n < |i.allocs|
    requires EntriesInv(WithAllocations(p, s, i, UpdatedAll(s, i), n), AfterAllocations(p, s, i, h, n))
    ensures EntriesInv(WithAllocations(p, s, i, UpdatedAll(s, i), n + 1), AfterAllocations(p, s, i, h, n + 1))
  {
    if Commits(p, s, i, n) {
      SlotIsClear(p, s, i, n);
      Admitted(WithAllocations(p, s, i, UpdatedAll(s, i), n), AfterAllocations(p, s, i, h, n), i.allocs[n],
               Offers(p, s, i.allocs, |i.allocs|)[n].value);
    }
  }

  lemma {:induction false} AllocationsKeep(p: Params, s: State, i: Pins, h: History, n: nat)
    requires n <= |i.allocs| && EntriesInv(UpdatedAll(s, i), h)
    ensures EntriesInv(WithAllocations(p, s, i, UpdatedAll(s, i), n), AfterAllocations(p, s, i, h, n))
    decreases n
  {
    if n > 0 {
      AllocationsKeep(p, s, i, h, n - 1);
      AllocationKeeps(p, s, i, h, n - 1);
    }
  }

  /** The held entry stays done: no completion, release or allocation touches it before it is reported. */
  lemma HoldStaysDone(p: Params, s: State, i: Pins, h: History)
    requires Inv(p, s, h) && PickOk(s, i) && Shown(s, i).Some? && !i.ready
    ensures var k := Shown(s, i).value;
      var next := Step(p, s, i).entries;
      k < |next| && Done(next[k]) && next[k].value.context == s.entries[k].value.context && next[k].value.tag == s.entries[k].value.tag
      && next[k].value.groups == s.entries[k].value.groups && next[k].value.results == s.entries[k].value.results
      && next[k].value.illegal == s.entries[k].value.illegal
  {
    var k := Shown(s, i).value;
    ShownIsDone(p, s, i, h);
    DoneIsFrozen(s, i, k);
    AllocationsAre(p, s, i, UpdatedAll(s, i), |i.allocs|, k);
    var e := WithAllocations(p, s, i, UpdatedAll(s, i), |i.allocs|)[k];
    if e != Updated(s, i, k) {
      var j :| 0 <= j < |i.allocs| && Commits(p, s, i, j) && Offers(p, s, i.allocs, |i.allocs|)[j].value == k && e == Some(NewEntry(i.allocs[j]));
      OfferIsFresh(p, s, i.allocs, j, j);
    }
  }

  /** Every cycle keeps the invariant, whatever the pins do, protocol faults included. */
  lemma StepKeeps(p: Params, s: State, i: Pins, h: History)
    requires p.Valid() && Inv(p, s, h) && PickOk(s, i)
    ensures Inv(p, Step(p, s, i), Follow(p, s, i, h))
  {
    var h1 := AfterChildren(s, i, h);
    UpdatedKeepsKeys(s, i);
    ChildrenKeepLives(p, s, i, h);
    ChildrenKeepReports(p, s, i, h);
    forall k | 0 <= k < |s.entries| && Updated(s, i, k).Some? ensures Waiting(Updated(s, i, k).value) {
      ChildrenKeepWaiting(p, s, i, h, k);
    }
    AllocationsKeep(p, s, i, h1, |i.allocs|);
    if Shown(s, i).Some? {
      ShownIsDone(p, s, i, h);
      if !i.ready {
        HoldStaysDone(p, s, i, h);
      }
    }
  }

  // ----- whole runs

  /** A run in which the output turns to any done entry, or to none. */
  ghost predicate LegalRun(p: Params, s: State, cycles: seq<Pins>)
    decreases |cycles|
  {
    cycles != [] ==>
      PickOk(s, cycles[0]) && LegalRun(p, Step(p, s, cycles[0]), cycles[1..])
  }

  ghost function Run(p: Params, s: State, h: History, cycles: seq<Pins>): (State, History)
    requires p.Valid() && Inv(p, s, h) && LegalRun(p, s, cycles)
    decreases |cycles|
  {
    if cycles == [] then (s, h) else
      StepKeeps(p, s, cycles[0], h);
      Run(p, Step(p, s, cycles[0]), Follow(p, s, cycles[0], h), cycles[1..])
  }

  lemma {:induction false} RunKeeps(p: Params, s: State, h: History, cycles: seq<Pins>)
    requires p.Valid() && Inv(p, s, h) && LegalRun(p, s, cycles)
    ensures var (s', h') := Run(p, s, h, cycles); Inv(p, s', h')
    decreases |cycles|
  {
    if cycles != [] {
      StepKeeps(p, s, cycles[0], h);
      RunKeeps(p, Step(p, s, cycles[0]), Follow(p, s, cycles[0], h), cycles[1..]);
    }
  }

  ghost function Unstarted(p: Params): History {
    History(seq(p.entries, i => None), 0, [])
  }

  lemma ResetIsSafe(p: Params)
    requires p.Valid()
    ensures Inv(p, Reset(p), Unstarted(p)) && !Reset(p).error
  {
  }

  /** From reset, under any pins and any order of showing done commands: live keys are distinct; every command is reported at most once, with the
      exact groups, results and faulty groups of all its children; and a command that is no longer live
      has been reported. */
  lemma ReportedExactlyOnce(p: Params, cycles: seq<Pins>)
    requires p.Valid() && LegalRun(p, Reset(p), cycles)
    ensures Inv(p, Reset(p), Unstarted(p))
    ensures var (s, h) := Run(p, Reset(p), Unstarted(p), cycles);
      && |s.entries| == p.entries && KeysDistinct(s.entries)
      && (forall j :: 0 <= j < |h.reports| ==> Exact(h.reports[j]))
      && (forall a, b :: 0 <= a < b < |h.reports| ==> h.reports[a].life.id != h.reports[b].life.id)
      && (forall id: nat :: id < h.issued && !Live(h, id) ==> Reported(h.reports, id))
  {
    ResetIsSafe(p);
    RunKeeps(p, Reset(p), Unstarted(p), cycles);
  }

  /** A cycle releases an entry exactly when its command is reported, before or now, and every result that
      its children announced has retired. */
  lemma ReleasedWhenFinished(p: Params, s: State, i: Pins, h: History, k: nat)
    requires p.Valid() && Inv(p, s, h) && PickOk(s, i) && k < p.entries && s.entries[k].Some?
    ensures h.lives[k].Some?
    ensures var l := Logged(i, h.lives[k].value);
      Releases(s, i, k) <==> Reported(AfterChildren(s, i, h).reports, l.id) && ResultGroups(l) <= l.retired
    ensures Releases(s, i, k) ==> Logged(i, h.lives[k].value).log.Keys == h.lives[k].value.groups
  {
    var e := s.entries[k].value;
    assert Linked(s.entries[k], h.lives[k]) && Waiting(e);
    var l := h.lives[k].value;
    ReportedAfter(p, s, i, h, l.id);
    if Reports(s, i, k) {
      ShownIsDone(p, s, i, h);
    }
    if Reports(s, i, k) || e.reported {
      DoneIsExact(e, l);
      RemainingResults(s, i, k, l);
    }
  }

  /** When all children have completed, the results that remain are those announced and not yet retired. */
  lemma RemainingResults(s: State, i: Pins, k: nat, l: Life)
    requires KeysDistinct(s.entries) && k < |s.entries| && s.entries[k].Some? && Matches(s.entries[k].value, l)
    requires l.log.Keys == l.groups
    ensures Logged(i, l).log == l.log
    ensures Remaining(s, i, k) == {} <==> ResultGroups(Logged(i, l)) <= Logged(i, l).retired
  {
    PinsDecide(s, i, k, l);
    assert Logged(i, l).log == l.log;
    var e := s.entries[k].value;
    assert e.results == ResultGroups(l) by {
      assert l.admitted - l.log.Keys == {};
    }
    forall g: nat ensures g in e.seen + NewlySeen(s, i, k) <==> g in Logged(i, l).retired {
    }
    forall g: nat ensures g in Remaining(s, i, k) <==> g in ResultGroups(l) && g !in Logged(i, l).retired {
    }
  }

  // ----- from the pins

  /** A completion that carries the key of a live command from a group that is still pending there is
      always heard: the group is no longer pending, it is marked illegal exactly when the child is, or
      when it has a result and should not, or the other way round, and the result bit follows the child. */
  lemma CompletionIsHeard(p: Params, s: State, i: Pins, h: History, k: nat, g: nat)
    requires p.Valid() && Inv(p, s, h) && PickOk(s, i) && k < p.entries && s.entries[k].Some?
    requires g < |i.cpls| && i.cpls[g].Some? && g in s.entries[k].value.pending
    requires i.cpls[g].value.context == s.entries[k].value.context && i.cpls[g].value.tag == s.entries[k].value.tag
    ensures |Step(p, s, i).entries| == p.entries && Step(p, s, i).entries[k].Some?
    ensures var e, e', child := s.entries[k].value, Step(p, s, i).entries[k].value, i.cpls[g].value;
      && e'.context == e.context && e'.tag == e.tag && e'.groups == e.groups
      && g !in e'.pending && (g in e'.illegal <==> child.illegal || child.hasResult != (g in e.results))
      && (g in e'.results <==> child.hasResult)
  {
    assert Linked(s.entries[k], h.lives[k]) && Waiting(s.entries[k].value);
    var l := h.lives[k].value;
    PinsDecide(s, i, k, l);
    assert g in Cleared(s, i, k);
    StaysLive(p, s, i, h, k);
  }

  /** A group whose completion the pins do not bring stays as it is. */
  lemma NoCompletionNoChange(p: Params, s: State, i: Pins, h: History, k: nat, g: nat)
    requires p.Valid() && Inv(p, s, h) && PickOk(s, i) && k < p.entries && s.entries[k].Some? && !Releases(s, i, k)
    requires g < |i.cpls| && i.cpls[g].Some? ==>
      !(i.cpls[g].value.context == s.entries[k].value.context && i.cpls[g].value.tag == s.entries[k].value.tag)
    ensures |Step(p, s, i).entries| == p.entries && Step(p, s, i).entries[k].Some?
    ensures var e, e' := s.entries[k].value, Step(p, s, i).entries[k].value;
      (g in e'.pending <==> g in e.pending) && (g in e'.illegal <==> g in e.illegal) && (g in e'.results <==> g in e.results)
  {
    assert Linked(s.entries[k], h.lives[k]);
    PinsDecide(s, i, k, h.lives[k].value);
    assert g !in Cleared(s, i, k);
    StaysLive(p, s, i, h, k);
  }

  /** A result retirement that carries the key of a live command, from one of its groups, is always
      recorded, unless the entry is released in the same cycle. */
  lemma RetirementIsHeard(p: Params, s: State, i: Pins, h: History, k: nat, g: nat)
    requires p.Valid() && Inv(p, s, h) && PickOk(s, i) && k < p.entries && s.entries[k].Some? && !Releases(s, i, k)
    ensures |Step(p, s, i).entries| == p.entries && Step(p, s, i).entries[k].Some?
    ensures var e, e' := s.entries[k].value, Step(p, s, i).entries[k].value;
      g in e'.seen <==>
        (g in e.seen
         || (g in e.groups && g < |i.rsps| && i.rsps[g].Some? && i.rsps[g].value.context == e.context && i.rsps[g].value.tag == e.tag))
  {
    assert Linked(s.entries[k], h.lives[k]);
    PinsDecide(s, i, k, h.lives[k].value);
    StaysLive(p, s, i, h, k);
  }

  /** An entry that is not released is the updated one after the cycle: no allocation touches it. */
  lemma StaysLive(p: Params, s: State, i: Pins, h: History, k: nat)
    requires p.Valid() && Inv(p, s, h) && PickOk(s, i) && k < p.entries && s.entries[k].Some?
    requires !Releases(s, i, k) || s.entries[k].value.pending != {}
    ensures !Releases(s, i, k) && |Step(p, s, i).entries| == p.entries && Step(p, s, i).entries[k] == Updated(s, i, k)
  {
    assert Waiting(s.entries[k].value);
    if Reports(s, i, k) {
      ShownIsDone(p, s, i, h);
    }
    AllocationsAre(p, s, i, UpdatedAll(s, i), |i.allocs|, k);
    var e := WithAllocations(p, s, i, UpdatedAll(s, i), |i.allocs|)[k];
    if e != Updated(s, i, k) {
      var j :| 0 <= j < |i.allocs| && Commits(p, s, i, j) && Offers(p, s, i.allocs, |i.allocs|)[j].value == k && e == Some(NewEntry(i.allocs[j]));
      OfferIsFresh(p, s, i.allocs, j, j);
    }
  }

  /** A slot is offered an entry exactly when its fields are legal, its key is neither live nor claimed by an
      older slot, and some free entry is not reserved by an older slot. */
  lemma OfferedWhenPossible(p: Params, s: State, allocs: seq<Alloc>, j: nat)
    requires j < |allocs|
    ensures var offers, a := Offers(p, s, allocs, |allocs|), allocs[j];
      offers[j].Some? <==>
        && a.context < p.contexts && a.groups != {} && a.results <= a.groups
        && (forall k :: 0 <= k < |s.entries| ==> !HasKey(s.entries[k], a.context, a.tag))
        && (forall older :: 0 <= older < j && allocs[older].valid && offers[older].Some? ==>
              !(allocs[older].context == a.context && allocs[older].tag == a.tag))
        && exists k :: 0 <= k < |s.entries| && FreeFor(s, allocs, offers, j, k)
  {
    var offers, a, before := Offers(p, s, allocs, |allocs|), allocs[j], Offers(p, s, allocs, j);
    OffersPrefix(p, s, allocs, |allocs|, j);
    forall older: nat | older < j ensures before[older] == offers[older] {
      OffersPrefix(p, s, allocs, |allocs|, older);
      OffersPrefix(p, s, allocs, j, older);
    }
    forall k: nat | k < |s.entries| ensures FreeFor(s, allocs, offers, j, k) <==> s.entries[k].None? && k !in Reserved(allocs, before) {
      if s.entries[k].None? && k in Reserved(allocs, before) {
        var older :| 0 <= older < |before| && allocs[older].valid && before[older].Some? && before[older].value == k;
        assert allocs[older].valid && offers[older] == Some(k);
      }
      if s.entries[k].None? && !FreeFor(s, allocs, offers, j, k) {
        var older :| 0 <= older < j && allocs[older].valid && offers[older] == Some(k);
        assert before[older].Some? && before[older].value == k;
      }
    }
    ClaimedIs(allocs, before, offers, j, a.context, a.tag);
    FreeIsFound(s, allocs, before, offers, j);
  }

  /** Entry `k` is free, and no slot older than `j` reserves it. */
  ghost predicate FreeFor(s: State, allocs: seq<Alloc>, offers: seq<Option<nat>>, j: nat, k: nat)
    requires j < |allocs| == |offers| && k < |s.entries|
  {
    s.entries[k].None? && forall older :: 0 <= older < j && allocs[older].valid ==> offers[older] != Some(k)
  }

  lemma ClaimedIs(allocs: seq<Alloc>, before: seq<Option<nat>>, offers: seq<Option<nat>>, j: nat, context: nat, tag: int)
    requires |before| == j < |allocs| == |offers| && forall older :: 0 <= older < j ==> before[older] == offers[older]
    ensures Claimed(allocs, before, context, tag) <==>
      !forall older :: 0 <= older < j && allocs[older].valid && offers[older].Some? ==> !(allocs[older].context == context && allocs[older].tag == tag)
  {
    if Claimed(allocs, before, context, tag) {
      var older :| 0 <= older < |before| && allocs[older].valid && before[older].Some? && allocs[older].context == context && allocs[older].tag == tag;
      assert offers[older].Some?;
    } else {
      forall older | 0 <= older < j && allocs[older].valid && offers[older].Some?
        ensures !(allocs[older].context == context && allocs[older].tag == tag)
      {
        assert before[older].Some?;
      }
    }
  }

  lemma FreeIsFound(s: State, allocs: seq<Alloc>, before: seq<Option<nat>>, offers: seq<Option<nat>>, j: nat)
    requires |before| == j < |allocs| == |offers|
    requires forall k: nat | k < |s.entries| :: FreeFor(s, allocs, offers, j, k) <==> s.entries[k].None? && k !in Reserved(allocs, before)
    ensures FirstFree(s.entries, Reserved(allocs, before), 0).Some? <==> exists k :: 0 <= k < |s.entries| && FreeFor(s, allocs, offers, j, k)
  {
    var r := FirstFree(s.entries, Reserved(allocs, before), 0);
    if r.Some? {
      assert FreeFor(s, allocs, offers, j, r.value);
    }
  }

  /** A committed offer is a live entry after the cycle, with nothing heard yet. */
  lemma CommittedIsLive(p: Params, s: State, i: Pins, j: nat)
    requires j < |i.allocs| && i.allocs[j].valid && i.allocs[j].commit && Offers(p, s, i.allocs, |i.allocs|)[j].Some?
    ensures var k, a := Offers(p, s, i.allocs, |i.allocs|)[j].value, i.allocs[j];
      k < |Step(p, s, i).entries| && Step(p, s, i).entries[k] == Some(Entry(a.context, a.tag, a.groups, a.results, a.groups, {}, {}, false))
  {
    OfferIsFresh(p, s, i.allocs, j, j);
    CommittedStays(p, s, i, UpdatedAll(s, i), j, |i.allocs|);
  }

  /** An entry becomes live only for a slot that is valid, committed and offered that entry. */
  lemma NewEntriesAreCommitted(p: Params, s: State, i: Pins, k: nat)
    requires k < |s.entries| && s.entries[k].None? && k < |Step(p, s, i).entries| && Step(p, s, i).entries[k].Some?
    ensures exists j :: 0 <= j < |i.allocs| && i.allocs[j].valid && i.allocs[j].commit && Offers(p, s, i.allocs, |i.allocs|)[j] == Some(k)
  {
    AllocationsAre(p, s, i, UpdatedAll(s, i), |i.allocs|, k);
    var j :| 0 <= j < |i.allocs| && Commits(p, s, i, j) && Offers(p, s, i.allocs, |i.allocs|)[j].value == k;
    assert i.allocs[j].valid && i.allocs[j].commit;
  }

  lemma {:induction false} CommittedStays(p: Params, s: State, i: Pins, entries: seq<Option<Entry>>, j: nat, n: nat)
    requires j < n <= |i.allocs| && |entries| == |s.entries| && Commits(p, s, i, j)
    ensures var k := Offers(p, s, i.allocs, |i.allocs|)[j].value;
      k < |entries| && WithAllocations(p, s, i, entries, n)[k] == Some(NewEntry(i.allocs[j]))
  {
    OfferIsFresh(p, s, i.allocs, j, j);
    if n - 1 > j {
      CommittedStays(p, s, i, entries, j, n - 1);
      if Commits(p, s, i, n - 1) {
        OfferIsFresh(p, s, i.allocs, n - 1, j);
      }
    }
  }

  // ----- diagnostics

  /** The pins complete a child of a live command as announced. */
  ghost predicate GoodCompletion(h: History, i: Pins, g: nat) {
    exists k :: 0 <= k < |h.lives| && h.lives[k].Some? && Completes(h.lives[k].value, i, g)
                && i.cpls[g].value.hasResult == (g in h.lives[k].value.admitted)
  }

  predicate Expected(l: Life, g: nat) {
    if g in l.log then l.log[g].hasResult else g in l.admitted
  }

  /** The pins retire a result that a live command still expects. */
  ghost predicate GoodRetirement(h: History, i: Pins, g: nat) {
    exists k :: 0 <= k < |h.lives| && h.lives[k].Some? && Retires(h.lives[k].value, i, g)
                && g !in h.lives[k].value.retired && Expected(h.lives[k].value, g)
  }

  lemma ChildFaultIs(p: Params, s: State, i: Pins, h: History, g: nat)
    requires Inv(p, s, h) && g < |i.cpls|
    ensures ChildFault(s, i, g) <==> i.cpls[g].Some? && !GoodCompletion(h, i, g)
  {
    if i.cpls[g].Some? {
      var c := i.cpls[g].value;
      var found := Find(s.entries, c.context, c.tag, 0);
      forall k | 0 <= k < |h.lives| && h.lives[k].Some? && Completes(h.lives[k].value, i, g) ensures found == Some(k) {
        assert Linked(s.entries[k], h.lives[k]);
        FindIsKey(s.entries, c.context, c.tag, k);
      }
      if found.Some? {
        var k := found.value;
        assert Linked(s.entries[k], h.lives[k]);
        var l := h.lives[k].value;
        if g in l.groups && g !in l.log {
          assert Completes(l, i, g) && (g in s.entries[k].value.results <==> g in l.admitted);
        }
      }
    }
  }

  lemma RetireFaultIs(p: Params, s: State, i: Pins, h: History, g: nat)
    requires Inv(p, s, h) && g < |i.rsps|
    ensures RetireFault(s, i, g) <==> i.rsps[g].Some? && !GoodRetirement(h, i, g)
  {
    if i.rsps[g].Some? {
      var c := i.rsps[g].value;
      var found := Find(s.entries, c.context, c.tag, 0);
      forall k | 0 <= k < |h.lives| && h.lives[k].Some? && Retires(h.lives[k].value, i, g) ensures found == Some(k) {
        assert Linked(s.entries[k], h.lives[k]);
        FindIsKey(s.entries, c.context, c.tag, k);
      }
      if found.Some? {
        var k := found.value;
        assert Linked(s.entries[k], h.lives[k]);
        var l := h.lives[k].value;
        if g in l.groups {
          assert Retires(l, i, g) && (g in s.entries[k].value.results <==> Expected(l, g));
        }
      }
    }
  }

  /** The error flag is raised exactly by a completion or retirement that no live command waits for as
      announced, by an allocation with illegal fields, and by a commit without an offer; it stays until
      cleared. */
  lemma ErrorIsProtocolFault(p: Params, s: State, i: Pins, h: History)
    requires Inv(p, s, h)
    ensures Step(p, s, i).error <==>
      || (s.error && !i.errorClear)
      || (exists g :: 0 <= g < |i.cpls| && i.cpls[g].Some? && !GoodCompletion(h, i, g))
      || (exists g :: 0 <= g < |i.rsps| && i.rsps[g].Some? && !GoodRetirement(h, i, g))
      || (exists j :: 0 <= j < |i.allocs| && i.allocs[j].valid
            && !(i.allocs[j].context < p.contexts && i.allocs[j].groups != {} && i.allocs[j].results <= i.allocs[j].groups))
      || (exists j :: 0 <= j < |i.allocs| && i.allocs[j].commit
            && !(i.allocs[j].valid && Offers(p, s, i.allocs, |i.allocs|)[j].Some?))
  {
    forall g: nat | g < |i.cpls| ensures ChildFault(s, i, g) <==> i.cpls[g].Some? && !GoodCompletion(h, i, g) {
      ChildFaultIs(p, s, i, h, g);
    }
    forall g: nat | g < |i.rsps| ensures RetireFault(s, i, g) <==> i.rsps[g].Some? && !GoodRetirement(h, i, g) {
      RetireFaultIs(p, s, i, h, g);
    }
    AllocFaultsAre(p, s, i);
  }

  lemma AllocFaultsAre(p: Params, s: State, i: Pins)
    ensures (exists slot :: 0 <= slot < |i.allocs| && AllocFault(p, s, i, slot)) <==>
      || (exists j :: 0 <= j < |i.allocs| && i.allocs[j].valid
            && !(i.allocs[j].context < p.contexts && i.allocs[j].groups != {} && i.allocs[j].results <= i.allocs[j].groups))
      || (exists j :: 0 <= j < |i.allocs| && i.allocs[j].commit
            && !(i.allocs[j].valid && Offers(p, s, i.allocs, |i.allocs|)[j].Some?))
  {
    forall j: nat | j < |i.allocs|
      ensures AllocFault(p, s, i, j) <==>
        || (i.allocs[j].valid && !(i.allocs[j].context < p.contexts && i.allocs[j].groups != {} && i.allocs[j].results <= i.allocs[j].groups))
        || (i.allocs[j].commit && !(i.allocs[j].valid && Offers(p, s, i.allocs, |i.allocs|)[j].Some?))
    {
    }
  }

  // ----- a done command waits for at most one report of each other entry

  /** How many reports may still come before that of entry `k`. */
  function Turns(s: State, k: nat): nat
    requires s.preference < |s.entries| && k < |s.entries| && (s.hold.Some? ==> s.hold.value < |s.entries|)
  {
    if s.hold.None? then Distance(s.preference, k, |s.entries|)
    else if s.hold.value == k then 0
    else 1 + Distance(Wrap(s.hold.value + 1, |s.entries|), k, |s.entries|)
  }

  lemma {:induction false} ScanFindsNearest(entries: seq<Option<Entry>>, preference: nat, offset: nat, k: nat)
    requires preference < |entries| && k < |entries| && Done(entries[k]) && offset <= Distance(preference, k, |entries|)
    ensures var r := Scan(entries, preference, offset);
      r.Some? && offset <= Distance(preference, r.value, |entries|) <= Distance(preference, k, |entries|)
    decreases |entries| - offset
  {
    if !Done(entries[Wrap(preference + offset, |entries|)]) {
      ScanFindsNearest(entries, preference, offset + 1, k);
    }
  }

  /** All children of the command in entry `k` have completed, and it has not been reported. */
  ghost predicate AllHeard(h: History, k: nat) {
    && k < |h.lives| && h.lives[k].Some?
    && h.lives[k].value.log.Keys == h.lives[k].value.groups && !Reported(h.reports, h.lives[k].value.id)
  }

  lemma AllHeardIsDone(p: Params, s: State, h: History, k: nat)
    requires Inv(p, s, h) && k < p.entries
    ensures Done(s.entries[k]) <==> AllHeard(h, k)
  {
    assert Linked(s.entries[k], h.lives[k]);
    if Done(s.entries[k]) {
      DoneIsExact(s.entries[k].value, h.lives[k].value);
    }
  }

  /** While a command whose children have all completed is not yet reported, the number of reports ahead of
      it never grows; it shrinks with every report of another command, and at zero the next report is its
      own. */
  lemma DoneWaitsItsTurn(p: Params, s: State, i: Pins, h: History, k: nat)
    requires p.Valid() && Inv(p, s, h) && i == Rotated(s, i) && k < p.entries && AllHeard(h, k) && !Reports(s, i, k)
    ensures var s' := Step(p, s, i);
      && s'.preference < p.entries && AllHeard(Follow(p, s, i, h), k) && (s'.hold.Some? ==> s'.hold.value < p.entries)
      && Shown(s, i).Some?
      && (if i.ready then Turns(s', k) < Turns(s, k) else Turns(s', k) <= Turns(s, k))
    ensures Turns(s, k) <= p.entries
    ensures Turns(s, k) == 0 ==> Shown(s, i) == Some(k)
  {
    AllHeardIsDone(p, s, h, k);
    ScanFindsNearest(s.entries, s.preference, 0, k);
    ShownIsDone(p, s, i, h);
    StaysDone(p, s, i, h, k);
    StepKeeps(p, s, i, h);
    AllHeardIsDone(p, Step(p, s, i), Follow(p, s, i, h), k);
    TurnsShrink(s, Step(p, s, i), Shown(s, i).value, k, i.ready);
  }

  lemma TurnsShrink(s: State, s': State, shown: nat, k: nat, ready: bool)
    requires var n := |s.entries|;
      && n == |s'.entries| && s.preference < n && shown < n && k < n && (ready ==> shown != k)
      && (if s.hold.Some? then s.hold == Some(shown) else Distance(s.preference, shown, n) <= Distance(s.preference, k, n))
      && s'.hold == (if ready then None else Some(shown))
      && s'.preference == if !ready then s.preference else if shown == n - 1 then 0 else shown + 1
    ensures s'.preference < |s'.entries|
    ensures if ready then Turns(s', k) < Turns(s, k) else Turns(s', k) <= Turns(s, k)
  {
  }

  lemma StaysDone(p: Params, s: State, i: Pins, h: History, k: nat)
    requires p.Valid() && Inv(p, s, h) && PickOk(s, i) && k < p.entries && Done(s.entries[k]) && !Reports(s, i, k)
    ensures Done(Step(p, s, i).entries[k])
  {
    DoneIsFrozen(s, i, k);
    AllocationsAre(p, s, i, UpdatedAll(s, i), |i.allocs|, k);
    var e := WithAllocations(p, s, i, UpdatedAll(s, i), |i.allocs|)[k];
    if e != Updated(s, i, k) {
      var j :| 0 <= j < |i.allocs| && Commits(p, s, i, j) && Offers(p, s, i.allocs, |i.allocs|)[j].value == k && e == Some(NewEntry(i.allocs[j]));
      OfferIsFresh(p, s, i.allocs, j, j);
    }
  }

  /** A run with the rotating choice and a consumer that is always ready. */
  ghost predicate ServedRun(p: Params, s: State, cycles: seq<Pins>)
    requires s.preference < |s.entries|
    decreases |cycles|
  {
    cycles != [] ==>
      && cycles[0] == Rotated(s, cycles[0]) && cycles[0].ready
      && Step(p, s, cycles[0]).preference < |Step(p, s, cycles[0]).entries|
      && ServedRun(p, Step(p, s, cycles[0]), cycles[1..])
  }

  lemma {:induction false} ServedIsLegal(p: Params, s: State, cycles: seq<Pins>)
    requires s.preference < |s.entries| && ServedRun(p, s, cycles)
    ensures LegalRun(p, s, cycles)
    decreases |cycles|
  {
    if cycles != [] {
      assert PickOk(s, Rotated(s, cycles[0]));
      ServedIsLegal(p, Step(p, s, cycles[0]), cycles[1..]);
    }
  }

  lemma {:induction false} ReportedStays(p: Params, s: State, h: History, cycles: seq<Pins>, id: nat)
    requires p.Valid() && Inv(p, s, h) && LegalRun(p, s, cycles) && Reported(h.reports, id)
    ensures Reported(Run(p, s, h, cycles).1.reports, id)
    decreases |cycles|
  {
    if cycles != [] {
      var i := cycles[0];
      StepKeeps(p, s, i, h);
      ReportsKept(p, s, i, AfterChildren(s, i, h), |i.allocs|);
      var j :| 0 <= j < |h.reports| && h.reports[j].life.id == id;
      assert Follow(p, s, i, h).reports[j].life.id == id;
      ReportedStays(p, Step(p, s, i), Follow(p, s, i, h), cycles[1..], id);
    }
  }

  lemma ReportsNow(p: Params, s: State, i: Pins, h: History, k: nat)
    requires p.Valid() && Inv(p, s, h) && PickOk(s, i) && k < p.entries && AllHeard(h, k) && Reports(s, i, k)
    ensures Reported(Follow(p, s, i, h).reports, h.lives[k].value.id)
  {
    var id := h.lives[k].value.id;
    ReportedAfter(p, s, i, h, id);
    assert Reports(s, i, k) && h.lives[k].value.id == id;
    ReportsKept(p, s, i, AfterChildren(s, i, h), |i.allocs|);
  }

  lemma {:induction false} ReportsKept(p: Params, s: State, i: Pins, h: History, n: nat)
    requires n <= |i.allocs|
    ensures AfterAllocations(p, s, i, h, n).reports == h.reports
    decreases n
  {
    if n > 0 {
      ReportsKept(p, s, i, h, n - 1);
    }
  }

  lemma LifeStays(p: Params, s: State, i: Pins, h: History, k: nat)
    requires p.Valid() && Inv(p, s, h) && PickOk(s, i) && k < p.entries && AllHeard(h, k) && !Reports(s, i, k)
    ensures k < |Follow(p, s, i, h).lives| && Follow(p, s, i, h).lives[k].Some? && Follow(p, s, i, h).lives[k].value.id == h.lives[k].value.id
  {
    assert Linked(s.entries[k], h.lives[k]);
    AllHeardIsDone(p, s, h, k);
    LivesKept(p, s, i, AfterChildren(s, i, h), |i.allocs|, k);
  }

  lemma {:induction false} LivesKept(p: Params, s: State, i: Pins, h: History, n: nat, k: nat)
    requires n <= |i.allocs| && k < |h.lives| && k < |s.entries| && s.entries[k].Some?
    ensures |AfterAllocations(p, s, i, h, n).lives| == |h.lives| && AfterAllocations(p, s, i, h, n).lives[k] == h.lives[k]
    decreases n
  {
    if n > 0 {
      LivesKept(p, s, i, h, n - 1, k);
      if Commits(p, s, i, n - 1) {
        OfferIsFresh(p, s, i.allocs, n - 1, n - 1);
      }
    }
  }

  /** With the rotating choice and a ready consumer, a command whose children have all completed is reported
      after at most one cycle for each entry, and one more for a report that was held. */
  lemma {:induction false} CompleteIsReported(p: Params, s: State, h: History, cycles: seq<Pins>, k: nat)
    requires p.Valid() && Inv(p, s, h) && ServedRun(p, s, cycles) && k < p.entries && AllHeard(h, k) && Turns(s, k) < |cycles|
    ensures LegalRun(p, s, cycles) && Reported(Run(p, s, h, cycles).1.reports, h.lives[k].value.id)
    decreases |cycles|
  {
    var i := cycles[0];
    ServedIsLegal(p, s, cycles);
    StepKeeps(p, s, i, h);
    if Reports(s, i, k) {
      ReportsNow(p, s, i, h, k);
      ReportedStays(p, Step(p, s, i), Follow(p, s, i, h), cycles[1..], h.lives[k].value.id);
    } else {
      DoneWaitsItsTurn(p, s, i, h, k);
      LifeStays(p, s, i, h, k);
      CompleteIsReported(p, Step(p, s, i), Follow(p, s, i, h), cycles[1..], k);
    }
  }

  // ----- the scans as loops

  method FindEntry(entries: seq<Option<Entry>>, context: nat, tag: int) returns (found: Option<nat>)
    ensures found == Find(entries, context, tag, 0)
  {
    found := None;
    for k := 0 to |entries|
      invariant found.None? ==> Find(entries, context, tag, 0) == Find(entries, context, tag, k)
      invariant found.Some? ==> found == Find(entries, context, tag, 0)
    {
      if found.None? && HasKey(entries[k], context, tag) {
        found := Some(k);
      }
    }
  }

  /** The rotating scan for a done entry. */
  method SelectDone(entries: seq<Option<Entry>>, preference: nat) returns (selected: Option<nat>)
    requires preference < |entries|
    ensures selected == Scan(entries, preference, 0)
  {
    selected := None;
    for offset := 0 to |entries|
      invariant selected.None? ==> Scan(entries, preference, 0) == Scan(entries, preference, offset)
      invariant selected.Some? ==> selected == Scan(entries, preference, 0)
    {
      var candidate := preference + offset;
      if candidate >= |entries| {
        candidate := candidate - |entries|;
      }
      if selected.None? && Done(entries[candidate]) {
        selected := Some(candidate);
      }
    }
  }

  method FindFree(entries: seq<Option<Entry>>, reserved: set<nat>) returns (free: Option<nat>)
    ensures free == FirstFree(entries, reserved, 0)
  {
    free := None;
    for k := 0 to |entries|
      invariant free.None? ==> FirstFree(entries, reserved, 0) == FirstFree(entries, reserved, k)
      invariant free.Some? ==> free == FirstFree(entries, reserved, 0)
    {
      if free.None? && entries[k].None? && k !in reserved {
        free := Some(k);
      }
    }
  }

  /** Slot by slot: an older accepted slot blocks its key and reserves its entry. */
  method OfferEntries(p: Params, s: State, allocs: seq<Alloc>) returns (offers: seq<Option<nat>>)
    ensures offers == Offers(p, s, allocs, |allocs|)
  {
    offers := [];
    var reserved: set<nat> := {};
    for slot := 0 to |allocs|
      invariant offers == Offers(p, s, allocs, slot) && reserved == Reserved(allocs, offers)
    {
      var a := allocs[slot];
      var live := FindEntry(s.entries, a.context, a.tag);
      var busy := live.Some?;
      for prior := 0 to slot
        invariant busy <==> live.Some? || Claimed(allocs, offers[..prior], a.context, a.tag)
      {
        ClaimedGrows(allocs, offers, prior, a.context, a.tag);
        if allocs[prior].valid && offers[prior].Some? && allocs[prior].context == a.context && allocs[prior].tag == a.tag {
          busy := true;
        }
      }
      assert offers[..slot] == offers;
      var free := FindFree(s.entries, reserved);
      var offer := if FieldsValid(p, a) && !busy then free else None;
      ReservedGrows(allocs, offers, offer);
      if a.valid && offer.Some? {
        reserved := reserved + {offer.value};
      }
      offers := offers + [offer];
    }
  }

  lemma ClaimedGrows(allocs: seq<Alloc>, offers: seq<Option<nat>>, n: nat, context: nat, tag: int)
    requires n < |offers| <= |allocs|
    ensures Claimed(allocs, offers[..n + 1], context, tag)
      <==> Claimed(allocs, offers[..n], context, tag)
           || (allocs[n].valid && offers[n].Some? && allocs[n].context == context && allocs[n].tag == tag)
  {
    var more, fewer := offers[..n + 1], offers[..n];
    if Claimed(allocs, fewer, context, tag) {
      var j :| 0 <= j < |fewer| && allocs[j].valid && fewer[j].Some? && allocs[j].context == context && allocs[j].tag == tag;
      assert more[j] == fewer[j];
    }
    if allocs[n].valid && offers[n].Some? && allocs[n].context == context && allocs[n].tag == tag {
      assert more[n] == offers[n];
    }
    if Claimed(allocs, more, context, tag) {
      var j :| 0 <= j < |more| && allocs[j].valid && more[j].Some? && allocs[j].context == context && allocs[j].tag == tag;
      if j < n {
        assert fewer[j] == more[j];
      }
    }
  }

  lemma ReservedGrows(allocs: seq<Alloc>, offers: seq<Option<nat>>, offer: Option<nat>)
    requires |offers| < |allocs|
    ensures Reserved(allocs, offers + [offer])
         == Reserved(allocs, offers) + if allocs[|offers|].valid && offer.Some? then {offer.value} else {}
  {
    var more := offers + [offer];
    forall k: nat ensures k in Reserved(allocs, more) <==> k in Reserved(allocs, offers) || (allocs[|offers|].valid && offer == Some(k)) {
      if k in Reserved(allocs, offers) {
        var j :| 0 <= j < |offers| && allocs[j].valid && offers[j].Some? && offers[j].value == k;
        assert more[j] == offers[j];
      }
      if allocs[|offers|].valid && offer == Some(k) {
        assert more[|offers|] == offer;
      }
      if k in Reserved(allocs, more) {
        var j :| 0 <= j < |more| && allocs[j].valid && more[j].Some? && more[j].value == k;
        if j < |offers| {
          assert offers[j] == more[j];
        }
      }
    }
  }

  // ----- the clocked object

  class Tracker {
    const p: Params
    var entries: seq<Option<Entry>>
    var hold: Option<nat>
    var preference: nat
    var error: bool
    ghost var history: History

    ghost function Snapshot(): State
      reads this
    {
      State(entries, hold, preference, error)
    }

    ghost predicate Valid()
      reads this
    {
      p.Valid() && Inv(p, Snapshot(), history)
    }

    constructor (p: Params)
      requires p.Valid()
      ensures Valid() && this.p == p && Snapshot() == Reset(p) && history == Unstarted(p)
    {
      this.p := p;
      entries, hold, preference, error := seq(p.entries, i => None), None, 0, false;
      history := Unstarted(p);
    }

    /** One clock edge: the command output `shown`, and the entries offered to the allocation slots. */
    method Cycle(i: Pins) returns (shown: Option<nat>, offers: seq<Option<nat>>)
      requires Valid()
      modifies this
      ensures Valid()
      ensures shown == Shown(old(Snapshot()), Rotated(old(Snapshot()), i)) && offers == Offers(p, old(Snapshot()), i.allocs, |i.allocs|)
      ensures Snapshot() == Step(p, old(Snapshot()), Rotated(old(Snapshot()), i))
      ensures history == Follow(p, old(Snapshot()), Rotated(old(Snapshot()), i), old(history))
    {
      ghost var j := Rotated(Snapshot(), i);
      StepKeeps(p, Snapshot(), j, history);
      history := Follow(p, Snapshot(), j, history);
      shown, offers := Edge(i);
    }

    method Edge(i: Pins) returns (shown: Option<nat>, offers: seq<Option<nat>>)
      requires preference < |entries|
      modifies `entries, `hold, `preference, `error
      ensures shown == Shown(old(Snapshot()), Rotated(old(Snapshot()), i)) && offers == Offers(p, old(Snapshot()), i.allocs, |i.allocs|)
      ensures Snapshot() == Step(p, old(Snapshot()), Rotated(old(Snapshot()), i))
    {
      var s := State(entries, hold, preference, error);
      var pick := SelectDone(entries, preference);
      var j := i.(pick := pick);
      shown := hold;
      if hold.None? {
        shown := pick;
      }
      offers := OfferEntries(p, s, i.allocs);
      UpdateEntries(s, j);
      CommitSlots(s, j, offers);
      if i.errorClear {
        error := false;
      }
      if Fault(p, s, j) {
        error := true;
      }
      hold := None;
      if shown.Some? {
        if i.ready {
          preference := if shown.value == |entries| - 1 then 0 else shown.value + 1;
        } else {
          hold := shown;
        }
      }
    }

    method CommitSlots(s: State, i: Pins, offers: seq<Option<nat>>)
      requires entries == UpdatedAll(s, i) && offers == Offers(p, s, i.allocs, |i.allocs|)
      modifies `entries
      ensures entries == WithAllocations(p, s, i, UpdatedAll(s, i), |i.allocs|)
    {
      for slot := 0 to |i.allocs|
        invariant entries == WithAllocations(p, s, i, UpdatedAll(s, i), slot)
      {
        if i.allocs[slot].commit && i.allocs[slot].valid && offers[slot].Some? && offers[slot].value < |entries| {
          entries := entries[offers[slot].value := Some(NewEntry(i.allocs[slot]))];
        }
      }
    }

    method UpdateEntries(s: State, i: Pins)
      requires entries == s.entries
      modifies `entries
      ensures entries == UpdatedAll(s, i)
    {
      for k := 0 to |s.entries|
        invariant |entries| == |s.entries|
        invariant forall j :: 0 <= j < k ==> entries[j] == Updated(s, i, j)
        invariant forall j :: k <= j < |entries| ==> entries[j] == s.entries[j]
      {
        if s.entries[k].Some? {
          entries := entries[k := if Releases(s, i, k) then None else Updated(s, i, k)];
        }
      }
    }
  }
}
