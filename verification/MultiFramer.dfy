/** The buffer between fetch bundles and record admission. */
module MultiFramer {
  import opened Framing
  import opened Wrappers

  /** Words of a fetch bundle, admission slots, and the number of word addresses of the program counter. */
  datatype Params = Params(bundleWords: nat, admitSlots: nat, addresses: nat) {
    predicate Valid() {
      bundleWords > 0 && admitSlots > 0 && addresses > 0
    }

    function BufferWords(): nat {
      bundleWords + 3
    }

    /** The byte address on the pins; the program counter wraps around. */
    function Pc(at: nat): nat
      requires Valid()
    {
      4 * (at % addresses)
    }
  }

  datatype Bundle = Bundle(words: seq<Word>, count: nat, pc: nat, last: bool)

  datatype Pins = Pins(bundle: Option<Bundle>, ready: seq<bool>, terminalClear: bool, abort: bool, redirect: bool, errorClear: bool)

  /** The registers. Addresses are word addresses without wrap-around. */
  datatype State = State(words: seq<Word>, base: nat, expected: Option<nat>, eof: bool, discarding: bool,
                         stopped: bool, terminal: nat, done: bool, error: bool)

  const Reset := State([], 0, None, false, false, false, 0, false, false)

  function First<T>(s: seq<T>, n: nat): (r: seq<T>)
    ensures r <= s && |r| <= n
  {
    if |s| <= n then s else s[..n]
  }

  function Framed(f: State): seq<Record> {
    Frame(f.words, f.base, 0, f.eof)
  }

  /** The records in the admission slots. */
  function Visible(p: Params, f: State): seq<Record> {
    First(Framed(f), p.admitSlots)
  }

  function LeadingReady(ready: seq<bool>, n: nat): (k: nat)
    ensures k <= n && k <= |ready|
  {
    if n == 0 || ready == [] || !ready[0] then 0 else 1 + LeadingReady(ready[1..], n - 1)
  }

  /** How many of the visible records transfer: a ready prefix. */
  function Transfers(p: Params, f: State, i: Pins): (k: nat)
    ensures k <= |Visible(p, f)|
  {
    if i.abort || i.redirect then 0 else LeadingReady(i.ready, |Visible(p, f)|)
  }

  predicate Found(f: State) {
    HasEnd(f.words, 0)
  }

  /** The buffered words that belong to the stream. */
  function Cut(f: State): seq<Word> {
    f.words[..Stop(f.words, 0)]
  }

  function TakenWords(p: Params, f: State, i: Pins): (n: nat)
    ensures n <= |Cut(f)|
  {
    Skip(Cut(f), 0, Transfers(p, f, i))
  }

  function Retained(p: Params, f: State, i: Pins): seq<Word> {
    Cut(f)[TakenWords(p, f, i)..]
  }

  predicate StopFetch(f: State, i: Pins) {
    !i.redirect && (f.stopped || Found(f))
  }

  predicate CountOk(p: Params, b: Bundle) {
    0 < b.count <= p.bundleWords
  }

  predicate BundleReady(p: Params, f: State, i: Pins, b: Bundle) {
    !i.abort && !i.redirect
    && (f.discarding
        || (!StopFetch(f, i) && !f.eof
            && |Retained(p, f, i)| + (if CountOk(p, b) then b.count else p.bundleWords) <= p.BufferWords()))
  }

  predicate Fires(p: Params, f: State, i: Pins) {
    i.bundle.Some? && BundleReady(p, f, i, i.bundle.value)
  }

  /** A bundle that continues the stream, or starts one. */
  predicate WellFormed(p: Params, f: State, b: Bundle)
    requires p.Valid()
  {
    CountOk(p, b) && |b.words| == p.bundleWords && b.pc % 4 == 0 && (f.expected.None? || b.pc == p.Pc(f.expected.value))
  }

  predicate Halted(f: State, i: Pins) {
    !i.redirect && f.stopped && f.words == []
  }

  predicate Idle(f: State) {
    f.words == [] && !f.eof && !f.discarding && !f.stopped
  }

  predicate DeliveryEnds(p: Params, f: State, i: Pins) {
    !Fires(p, f, i) && f.eof && Retained(p, f, i) == [] && Transfers(p, f, i) != 0
  }

  // ----- one cycle

  function AfterTransfer(p: Params, f: State, i: Pins): State {
    f.(words := Retained(p, f, i), base := f.base + TakenWords(p, f, i),
       stopped := f.stopped || Found(f), terminal := if Found(f) then f.base + Stop(f.words, 0) - 1 else f.terminal,
       done := false, error := f.error && !(i.errorClear && Idle(f)))
  }

  function AfterClear(g: State): State {
    g.(stopped := false, terminal := 0, expected := None, eof := false)
  }

  function AfterBundle(p: Params, f: State, g: State, b: Bundle): State
    requires p.Valid()
  {
    if f.discarding then
      g.(discarding := !b.last)
    else if !WellFormed(p, f, b) then
      g.(error := true, words := [], base := 0, expected := None, eof := false, discarding := !b.last)
    else
      var at := if f.expected.Some? then f.expected.value else b.pc / 4;
      g.(base := if g.words == [] then at else g.base, words := g.words + b.words[..b.count],
         expected := Some(at + b.count), eof := f.eof || b.last)
  }

  function Flushed(g: State): State {
    g.(words := [], base := 0, expected := None, eof := false, discarding := false, done := false)
  }

  function Step(p: Params, f: State, i: Pins): State
    requires p.Valid()
  {
    var g := AfterTransfer(p, f, i);
    if i.redirect then
      Flushed(g).(stopped := false, terminal := 0, error := f.error)
    else if i.abort then
      Flushed(g)
    else
      var c := if i.terminalClear && Halted(f, i) then AfterClear(g) else g;
      if Fires(p, f, i) then AfterBundle(p, f, c, i.bundle.value)
      else if DeliveryEnds(p, f, i) then c.(eof := false, expected := None, done := true)
      else c
  }

  // ----- streams

  /** One stream: its start, the words received so far, and the records that have transferred. */
  datatype Track = Track(start: nat, stream: seq<Word>, delivered: seq<Record>)

  const Fresh := Track(0, [], [])

  function Transferred(p: Params, f: State, i: Pins, t: Track): Track {
    t.(delivered := t.delivered + Framed(f)[..Transfers(p, f, i)])
  }

  function Follow(p: Params, f: State, i: Pins, t: Track): Track
    requires p.Valid()
  {
    var d := Transferred(p, f, i, t);
    if i.redirect || i.abort then Fresh
    else if Fires(p, f, i) then
      var b := i.bundle.value;
      if f.discarding then d
      else if !WellFormed(p, f, b) then Fresh
      else Track(if f.expected.Some? then t.start else b.pc / 4, d.stream + b.words[..b.count], d.delivered)
    else if DeliveryEnds(p, f, i) || (i.terminalClear && Halted(f, i)) then Fresh
    else d
  }

  /** What has transferred, followed by the framing of what is buffered, is the one-shot framing. */
  ghost predicate Agrees(t: Track, words: seq<Word>, base: nat, eof: bool) {
    Frame(t.stream, t.start, 0, eof) == t.delivered + Frame(words, base, 0, eof)
  }

  /** The same for every continuation of the stream. */
  ghost predicate AgreesOnAnyMore(t: Track, words: seq<Word>, base: nat) {
    forall more: seq<Word>, eof: bool :: Agrees(Track(t.start, t.stream + more, t.delivered), words + more, base, eof)
  }

  ghost predicate Inv(p: Params, f: State, t: Track) {
    && |f.words| <= p.BufferWords()
    && (f.expected.None? ==> f.words == [] && !f.eof && t == Fresh)
    && (f.discarding ==> f.expected.None? && !f.stopped)
    && Agrees(t, f.words, f.base, f.eof)
    && (f.expected.Some? && !f.eof && !f.stopped ==> f.expected.value == f.base + |f.words| && AgreesOnAnyMore(t, f.words, f.base))
  }

  lemma AgreesNow(t: Track, words: seq<Word>, base: nat, eof: bool)
    requires AgreesOnAnyMore(t, words, base)
    ensures Agrees(t, words, base, eof)
  {
    assert t.stream + [] == t.stream && words + [] == words;
    assert Agrees(Track(t.start, t.stream + [], t.delivered), words + [], base, eof);
  }

  lemma BundleExtends(t: Track, words: seq<Word>, base: nat, more: seq<Word>)
    requires AgreesOnAnyMore(t, words, base)
    ensures AgreesOnAnyMore(t.(stream := t.stream + more), words + more, base)
  {
    forall rest: seq<Word>, eof: bool ensures Agrees(Track(t.start, t.stream + more + rest, t.delivered), words + more + rest, base, eof) {
      assert t.stream + more + rest == t.stream + (more + rest) && words + more + rest == words + (more + rest);
      assert Agrees(Track(t.start, t.stream + (more + rest), t.delivered), words + (more + rest), base, eof);
    }
  }

  lemma FirstBundle(start: nat, words: seq<Word>)
    ensures AgreesOnAnyMore(Track(start, words, []), words, start)
  {
  }

  lemma TransferOne(t: Track, words: seq<Word>, base: nat, k: nat, n: nat, head: seq<Record>, rest: seq<Word>, more: seq<Word>, eof: bool)
    requires Agrees(Track(t.start, t.stream + more, t.delivered), words + more, base, eof)
    requires !HasEnd(words, 0) && k <= |Frame(words, base, 0, false)| && head == Frame(words, base, 0, false)[..k]
    requires n == Skip(words, 0, k) <= |words| && rest == words[n..]
    ensures Agrees(Track(t.start, t.stream + more, t.delivered + head), rest + more, base + n, eof)
  {
    TakeBeforeMore(words, base, 0, k, words + more, eof);
    DropFirst(words, more, n, rest);
    Rebased(words + more, base, base + n, n, n, 0, eof, rest + more);
    Associates(t.delivered, head, Frame(rest + more, base + n, 0, eof));
  }

  lemma DropFirst<T>(words: seq<T>, more: seq<T>, n: nat, rest: seq<T>)
    requires n <= |words| && rest == words[n..]
    ensures (words + more)[n..] == rest + more
  {
  }

  lemma Associates<T>(a: seq<T>, b: seq<T>, c: seq<T>)
    ensures a + (b + c) == a + b + c
  {
  }

  lemma TransferOpen(t: Track, words: seq<Word>, base: nat, k: nat)
    requires AgreesOnAnyMore(t, words, base) && !HasEnd(words, 0) && k <= |Frame(words, base, 0, false)|
    ensures var n := Skip(words, 0, k);
      AgreesOnAnyMore(t.(delivered := t.delivered + Frame(words, base, 0, false)[..k]), words[n..], base + n)
  {
    var n, head := Skip(words, 0, k), Frame(words, base, 0, false)[..k];
    var rest, d := words[n..], t.(delivered := t.delivered + Frame(words, base, 0, false)[..k]);
    var moved := base + n;
    forall more: seq<Word>, eof: bool ensures Agrees(Track(d.start, d.stream + more, d.delivered), rest + more, moved, eof) {
      assert Agrees(Track(t.start, t.stream + more, t.delivered), words + more, base, eof);
      TransferOne(t, words, base, k, n, head, rest, more, eof);
    }
  }

  lemma TransferCut(t: Track, words: seq<Word>, base: nat, eof: bool, cut: seq<Word>, k: nat, n: nat, head: seq<Record>, rest: seq<Word>,
                    d: Track, moved: nat)
    requires Agrees(t, words, base, eof) && k <= |Frame(words, base, 0, eof)| && cut == words[..Stop(words, 0)]
    requires head == Frame(words, base, 0, eof)[..k] && n == Skip(cut, 0, k) <= |cut| && rest == cut[n..]
    requires d == t.(delivered := t.delivered + head) && moved == base + n
    ensures Agrees(d, rest, moved, eof)
  {
    CutKeepsEnd(words, 0, cut);
    CutIsInvisible(words, base, 0, eof, cut);
    TransferWhole(t, cut, base, eof, k, n, head, rest, d, moved);
  }

  lemma TransferWhole(t: Track, cut: seq<Word>, base: nat, eof: bool, k: nat, n: nat, head: seq<Record>, rest: seq<Word>,
                      d: Track, moved: nat)
    requires Stop(cut, 0) == |cut| && Agrees(t, cut, base, eof) && k <= |Frame(cut, base, 0, eof)|
    requires head == Frame(cut, base, 0, eof)[..k] && n == Skip(cut, 0, k) <= |cut| && rest == cut[n..]
    requires d == t.(delivered := t.delivered + head) && moved == base + n
    ensures Agrees(d, rest, moved, eof)
  {
    TakeRecords(cut, base, 0, eof, k);
    Rebased(cut, base, moved, n, n, 0, eof, rest);
    JoinAgrees(t, cut, base, rest, moved, eof, k, head);
  }

  lemma JoinAgrees(t: Track, cut: seq<Word>, base: nat, rest: seq<Word>, moved: nat, eof: bool, k: nat, head: seq<Record>)
    requires Agrees(t, cut, base, eof) && k <= |Frame(cut, base, 0, eof)| && head == Frame(cut, base, 0, eof)[..k]
    requires Frame(rest, moved, 0, eof) == Frame(cut, base, 0, eof)[k..]
    ensures Agrees(t.(delivered := t.delivered + head), rest, moved, eof)
  {
    SplitAfter(t.delivered, Frame(cut, base, 0, eof), k);
  }

  lemma SplitAfter<T>(a: seq<T>, s: seq<T>, k: nat)
    requires k <= |s|
    ensures a + s[..k] + s[k..] == a + s
  {
  }

  lemma TransferShrinks(p: Params, f: State, i: Pins)
    ensures TakenWords(p, f, i) <= |Cut(f)| <= |f.words| && |Retained(p, f, i)| <= |f.words|
    ensures f.words == [] ==> Retained(p, f, i) == [] && Framed(f) == [] && Transfers(p, f, i) == 0
  {
  }

  /** A cycle's transfers keep the agreement. */
  lemma TransferKeeps(p: Params, f: State, i: Pins, t: Track)
    requires Inv(p, f, t)
    ensures var g, d := AfterTransfer(p, f, i), Transferred(p, f, i, t);
      Agrees(d, g.words, g.base, f.eof) && |g.words| <= |f.words| && (f.expected.None? ==> g.words == [] && d == Fresh)
  {
    var k, n := Transfers(p, f, i), TakenWords(p, f, i);
    TransferShrinks(p, f, i);
    var g, d := AfterTransfer(p, f, i), Transferred(p, f, i, t);
    TransferCut(t, f.words, f.base, f.eof, Cut(f), k, n, Framed(f)[..k], g.words, d, g.base);
  }

  lemma TransferKeepsOpen(p: Params, f: State, i: Pins, t: Track)
    requires Inv(p, f, t) && f.expected.Some? && !f.eof && !f.stopped && !Found(f)
    ensures var g, d := AfterTransfer(p, f, i), Transferred(p, f, i, t);
      f.expected.value == g.base + |g.words| && AgreesOnAnyMore(d, g.words, g.base)
  {
    CutKeepsEnd(f.words, 0, Cut(f));
    TransferOpen(t, f.words, f.base, Transfers(p, f, i));
  }

  /** Every cycle keeps the invariant, whatever the pins do. */
  lemma StepKeeps(p: Params, f: State, i: Pins, t: Track)
    requires p.Valid() && Inv(p, f, t)
    ensures Inv(p, Step(p, f, i), Follow(p, f, i, t))
  {
    if Takes(p, f, i) {
      BundleKeeps(p, f, i, t);
    } else {
      TransferKeeps(p, f, i, t);
      if f.expected.Some? && !f.eof && !f.stopped && !Found(f) {
        TransferKeepsOpen(p, f, i, t);
      }
    }
  }

  /** A well-formed bundle joins the stream in this cycle. */
  ghost predicate Takes(p: Params, f: State, i: Pins)
    requires p.Valid()
  {
    !i.redirect && !i.abort && Fires(p, f, i) && !f.discarding && WellFormed(p, f, i.bundle.value)
  }

  lemma {:induction false} BundleKeeps(p: Params, f: State, i: Pins, t: Track)
    requires p.Valid() && Inv(p, f, t) && Takes(p, f, i)
    ensures Inv(p, Step(p, f, i), Follow(p, f, i, t))
  {
    TransferKeeps(p, f, i, t);
    var g, d := AfterTransfer(p, f, i), Transferred(p, f, i, t);
    var b := i.bundle.value;
    var more := b.words[..b.count];
    if f.expected.Some? {
      TransferKeepsOpen(p, f, i, t);
      BundleExtends(d, g.words, g.base, more);
      AgreesNow(d.(stream := d.stream + more), g.words + more, g.base, f.eof || b.last);
    } else {
      assert g.words + more == more && [] + more == more;
      FirstBundle(b.pc / 4, more);
      AgreesNow(Track(b.pc / 4, more, []), more, b.pc / 4, f.eof || b.last);
    }
  }

  // ----- whole runs

  /** A stream that came to its end in this cycle, by EOF or by an acknowledged END. */
  ghost predicate Finishes(p: Params, f: State, i: Pins) {
    !i.redirect && !i.abort && !Fires(p, f, i) && (DeliveryEnds(p, f, i) || (i.terminalClear && Halted(f, i)))
  }

  /** The one-shot framing of everything the stream consisted of. */
  ghost predicate InFull(t: Track, eof: bool) {
    t.delivered == Frame(t.stream, t.start, 0, eof)
  }

  /** A finished stream has delivered exactly its one-shot framing. */
  lemma FinishedInFull(p: Params, f: State, i: Pins, t: Track)
    requires Inv(p, f, t) && Finishes(p, f, i)
    ensures InFull(Transferred(p, f, i, t), f.eof)
  {
    TransferKeeps(p, f, i, t);
    var d := Transferred(p, f, i, t);
    assert d.delivered + [] == d.delivered;
  }

  ghost function Run(p: Params, f: State, t: Track, cycles: seq<Pins>): (State, Track)
    requires p.Valid()
    decreases |cycles|
  {
    if cycles == [] then (f, t) else Run(p, Step(p, f, cycles[0]), Follow(p, f, cycles[0], t), cycles[1..])
  }

  lemma {:induction false} RunKeeps(p: Params, f: State, t: Track, cycles: seq<Pins>)
    requires p.Valid() && Inv(p, f, t)
    ensures var (f', t') := Run(p, f, t, cycles); Inv(p, f', t')
    decreases |cycles|
  {
    if cycles != [] {
      StepKeeps(p, f, cycles[0], t);
      RunKeeps(p, Step(p, f, cycles[0]), Follow(p, f, cycles[0], t), cycles[1..]);
    }
  }

  /** From reset, for every sequence of bundles, splits, stalls, aborts and redirects: the records
      transferred from the current stream are a prefix of the one-shot framing of its words, the buffer
      never overflows, and a stream that comes to its end has delivered the whole one-shot framing. */
  lemma IncrementalIsOneShot(p: Params, cycles: seq<Pins>, next: Pins)
    requires p.Valid()
    ensures var (f, t) := Run(p, Reset, Fresh, cycles);
      && |f.words| <= p.BufferWords()
      && t.delivered <= Frame(t.stream, t.start, 0, f.eof)
      && (Finishes(p, f, next) ==> InFull(Transferred(p, f, next, t), f.eof))
  {
    RunKeeps(p, Reset, Fresh, cycles);
    var (f, t) := Run(p, Reset, Fresh, cycles);
    if Finishes(p, f, next) {
      FinishedInFull(p, f, next, t);
    }
  }

  // ----- which records transfer

  lemma {:induction false} LeadingReadyIs(ready: seq<bool>, n: nat, j: nat)
    ensures j < LeadingReady(ready, n) <==> j < n && j < |ready| && forall m :: 0 <= m <= j ==> ready[m]
    decreases n
  {
    if n > 0 && ready != [] && ready[0] && j > 0 {
      LeadingReadyIs(ready[1..], n - 1, j - 1);
      assert forall m :: 0 <= m < |ready| - 1 ==> ready[1..][m] == ready[m + 1];
      if j < n && j < |ready| && forall m :: 0 <= m <= j - 1 ==> ready[1..][m] {
        assert forall m :: 1 <= m <= j ==> ready[m] == ready[1..][m - 1];
      }
    }
  }

  /** Slot `j` transfers exactly when it shows a record and it and all older slots are ready. */
  lemma SlotTransfers(p: Params, f: State, i: Pins, j: nat)
    ensures j < Transfers(p, f, i)
       <==> !i.abort && !i.redirect && j < |Visible(p, f)| && j < |i.ready| && forall m :: 0 <= m <= j ==> i.ready[m]
  {
    LeadingReadyIs(i.ready, |Visible(p, f)|, j);
  }

  /** What transfers leaves the stream, and nothing else does. */
  lemma TransferLeavesRest(words: seq<Word>, base: nat, eof: bool, cut: seq<Word>, k: nat, n: nat, rest: seq<Word>, moved: nat)
    requires cut == words[..Stop(words, 0)] && k <= |Frame(words, base, 0, eof)| && n == Skip(cut, 0, k) <= |cut|
    requires rest == cut[n..] && moved == base + n
    ensures Frame(rest, moved, 0, eof) == Frame(words, base, 0, eof)[k..]
  {
    CutKeepsEnd(words, 0, cut);
    CutIsInvisible(words, base, 0, eof, cut);
    TakeRecords(cut, base, 0, eof, k);
    Rebased(cut, base, moved, n, n, 0, eof, rest);
  }

  /** A cycle without bundle, flush or clear. */
  predicate Quiet(i: Pins) {
    i.bundle.None? && !i.abort && !i.redirect && !i.terminalClear
  }

  lemma TransferFrames(p: Params, f: State, i: Pins, k: nat, n: nat)
    requires k == Transfers(p, f, i) && n == TakenWords(p, f, i)
    ensures Framed(AfterTransfer(p, f, i)) == Framed(f)[k..]
  {
    TransferLeavesRest(f.words, f.base, f.eof, Cut(f), k, n, Cut(f)[n..], f.base + n);
  }

  lemma QuietStep(p: Params, f: State, i: Pins)
    requires p.Valid() && Quiet(i)
    ensures Framed(Step(p, f, i)) == Framed(f)[Transfers(p, f, i)..]
  {
    TransferFrames(p, f, i, Transfers(p, f, i), TakenWords(p, f, i));
    var g := AfterTransfer(p, f, i);
    assert Step(p, f, i).words == g.words && Step(p, f, i).base == g.base;
    assert Step(p, f, i).eof == g.eof || g.words == [];
  }

  /** The consumer takes at least the oldest record. */
  predicate TakesFirst(i: Pins) {
    i.ready != [] && i.ready[0]
  }

  /** A consumer that is ready for the oldest record gets every framed record: after as many quiet cycles as
      there are records none is left, and unless the stream ended meanwhile they have all been delivered,
      in order. */
  lemma {:induction false} ReadyStreamDrains(p: Params, f: State, t: Track, cycles: seq<Pins>)
    requires p.Valid() && |Framed(f)| <= |cycles| && forall j :: 0 <= j < |cycles| ==> Quiet(cycles[j]) && TakesFirst(cycles[j])
    ensures var (f', t') := Run(p, f, t, cycles);
      Framed(f') == [] && (!f.eof ==> t' == t.(delivered := t.delivered + Framed(f)))
    decreases |cycles|
  {
    if cycles == [] {
      assert t.delivered + Framed(f) == t.delivered;
    } else {
      var i := cycles[0];
      var g, d, k := Step(p, f, i), Follow(p, f, i, t), Transfers(p, f, i);
      QuietStep(p, f, i);
      SlotTransfers(p, f, i, 0);
      ReadyStreamDrains(p, g, d, cycles[1..]);
      SplitAfter(t.delivered, Framed(f), k);
    }
  }

  // ----- which bundles are taken, and what the flags say

  /** An END record is framed. */
  ghost predicate EndFramed(f: State, n: nat) {
    n < |Framed(f)| && IsEnd(Framed(f)[n])
  }

  lemma FoundIsFramed(f: State)
    ensures Found(f) <==> exists n: nat :: EndFramed(f, n)
    ensures Found(f) ==> EndFramed(f, |Framed(f)| - 1)
  {
    if HasEnd(f.words, 0) {
      EndComesLast(f.words, f.base, 0, f.eof);
      assert EndFramed(f, |Framed(f)| - 1);
    }
    if n: nat :| EndFramed(f, n) {
      EndIsFound(f.words, f.base, 0, f.eof, n);
    }
  }

  /** A bundle is taken exactly when the stream is open, no END is framed, and the words that this cycle's
      transfers leave, with the bundle's own, fit the buffer; a malformed count is charged in full. While
      discarding, every bundle is taken. */
  lemma BundleTaken(p: Params, f: State, i: Pins, b: Bundle)
    ensures BundleReady(p, f, i, b) <==>
      && !i.abort && !i.redirect
      && (f.discarding
          || (!f.stopped && !f.eof && (forall n: nat :: !EndFramed(f, n))
              && |AfterTransfer(p, f, i).words| + (if 0 < b.count <= p.bundleWords then b.count else p.bundleWords) <= p.bundleWords + 3))
  {
    FoundIsFramed(f);
  }

  /** A framed END stops the stream in the same cycle, and its address is kept. */
  lemma EndIsKept(p: Params, f: State, i: Pins, n: nat)
    requires p.Valid() && !i.abort && !i.redirect && !f.discarding && EndFramed(f, n)
    ensures n == |Framed(f)| - 1
    ensures Step(p, f, i).stopped && Step(p, f, i).terminal == Framed(f)[n].at
  {
    FoundIsFramed(f);
    RecordsAreFaithful(f.words, f.base, 0, f.eof, n);
    RecordsAreFaithful(f.words, f.base, 0, f.eof, |Framed(f)| - 1);
    EndComesLast(f.words, f.base, 0, f.eof);
    LastIsStop(f.words, f.base, 0, f.eof, |Framed(f)|);
  }

  lemma LastIsStop(words: seq<Word>, base: nat, cursor: nat, eof: bool, k: nat)
    requires HasEnd(words, cursor) && k == |Frame(words, base, cursor, eof)| && cursor <= |words|
    ensures k > 0 && Frame(words, base, cursor, eof)[k - 1].at == base + Stop(words, cursor) - 1
    decreases |words| - cursor
  {
    var next := Next(words, cursor);
    OneRecord(words, base, cursor, eof, next);
    if words[cursor] != END {
      LastIsStop(words, base, next, eof, k - 1);
    }
  }

  /** A stream is stopped by a framed END or not at all, until it is cleared or redirected. */
  lemma StopsOnlyAtEnd(p: Params, f: State, i: Pins)
    requires p.Valid() && Step(p, f, i).stopped
    ensures f.stopped || exists n: nat :: EndFramed(f, n)
  {
    FoundIsFramed(f);
  }

  lemma AllTransferred(words: seq<Word>, base: nat, cut: seq<Word>, k: nat, n: nat, rest: seq<Word>, framed: seq<Record>)
    requires framed == Frame(words, base, 0, true) && cut == words[..Stop(words, 0)] && k <= |framed|
    requires n == Skip(cut, 0, k) <= |cut| && rest == cut[n..]
    ensures rest == [] <==> k == |framed|
  {
    TransferLeavesRest(words, base, true, cut, k, n, rest, base + n);
    FinishedLeavesNothing(rest, base + n);
  }

  lemma FinishedLeavesNothing(words: seq<Word>, base: nat)
    ensures Frame(words, base, 0, true) == [] <==> words == []
  {
  }

  lemma DeliveryEndsIs(p: Params, f: State, i: Pins, k: nat, framed: seq<Record>, rest: seq<Word>)
    requires f.eof && !f.discarding && k == Transfers(p, f, i) && framed == Framed(f) && rest == Retained(p, f, i)
    ensures DeliveryEnds(p, f, i) <==> k == |framed| != 0
  {
    AllTransferred(f.words, f.base, Cut(f), k, TakenWords(p, f, i), rest, framed);
    assert !Fires(p, f, i);
  }

  /** Delivery is done exactly when the last record of a finished stream transfers. */
  lemma DoneMeansDelivered(p: Params, f: State, t: Track, i: Pins)
    requires p.Valid() && Inv(p, f, t)
    ensures Step(p, f, i).done <==> !i.abort && !i.redirect && f.eof && Transfers(p, f, i) == |Framed(f)| != 0
  {
    if f.eof {
      DeliveryEndsIs(p, f, i, Transfers(p, f, i), Framed(f), Retained(p, f, i));
    }
  }

  /** A redirect starts over, keeping only the error flag; an abort drops the stream, but not an END that was
      framed. Neither transfers a record or takes a bundle. */
  lemma FlushDropsStream(p: Params, f: State, i: Pins, b: Bundle)
    requires p.Valid() && (i.redirect || i.abort)
    ensures Transfers(p, f, i) == 0 && !BundleReady(p, f, i, b)
    ensures i.redirect ==> Step(p, f, i) == State([], 0, None, false, false, false, 0, false, f.error)
    ensures !i.redirect ==> var g := Step(p, f, i);
      && g.words == [] && g.expected.None? && !g.eof && !g.discarding && !g.done && g.base == 0
      && (g.stopped <==> f.stopped || exists n: nat :: EndFramed(f, n))
      && g.error == (f.error && !(i.errorClear && f.words == [] && !f.eof && !f.discarding && !f.stopped))
  {
    FoundIsFramed(f);
  }

  /** Fetch is stopped exactly while the stream is stopped or an END is framed, and the stream is halted when it
      is stopped and drained; a redirect hides both. */
  lemma StopAndHalt(f: State, i: Pins)
    ensures StopFetch(f, i) <==> !i.redirect && (f.stopped || exists n: nat :: EndFramed(f, n))
    ensures Halted(f, i) <==> !i.redirect && f.stopped && f.words == []
  {
    FoundIsFramed(f);
  }

  /** An acknowledgement does nothing before the stream is halted. */
  lemma ClearNeedsHalt(p: Params, f: State, i: Pins)
    requires p.Valid() && (!f.stopped || f.words != [])
    ensures Step(p, f, i) == Step(p, f, i.(terminalClear := false))
  {
    var j := i.(terminalClear := false);
    assert Transfers(p, f, j) == Transfers(p, f, i);
    assert AfterTransfer(p, f, j) == AfterTransfer(p, f, i) && Fires(p, f, j) == Fires(p, f, i);
  }

  /** A halted stream is cleared exactly when the END is acknowledged. */
  lemma ClearRestarts(p: Params, f: State, i: Pins)
    requires p.Valid() && f.stopped && f.words == [] && !f.discarding && !i.abort && !i.redirect
    ensures Step(p, f, i) == f.(stopped := !i.terminalClear, terminal := if i.terminalClear then 0 else f.terminal,
                                expected := if i.terminalClear then None else f.expected, eof := !i.terminalClear && f.eof, done := false)
  {
  }

  /** The bundle continues the stream: its count is in range, and it starts where the buffered words end. */
  ghost predicate Continues(p: Params, f: State, b: Bundle)
    requires p.Valid()
  {
    && 0 < b.count <= p.bundleWords && |b.words| == p.bundleWords && b.pc % 4 == 0
    && (f.expected.Some? ==> b.pc == 4 * ((f.base + |f.words|) % p.addresses))
  }

  /** A bundle that does not continue the stream raises the error flag, drops the buffer, and what follows it
      is discarded up to the last bundle; one that does is appended. The flag is only cleared when idle. */
  lemma BundleEffect(p: Params, f: State, t: Track, i: Pins, b: Bundle)
    requires p.Valid() && Inv(p, f, t) && i.bundle == Some(b) && BundleReady(p, f, i, b) && !(i.terminalClear && Halted(f, i))
    ensures var g, h := AfterTransfer(p, f, i), Step(p, f, i);
      if f.discarding then h == g.(discarding := !b.last)
      else if Continues(p, f, b) then
        && h.words == g.words + b.words[..b.count] && h.eof == b.last && !h.discarding && h.error == g.error
        && h.expected == Some(if f.expected.Some? then f.expected.value + b.count else b.pc / 4 + b.count)
      else h.error && h.words == [] && h.expected.None? && !h.eof && h.discarding == !b.last
    ensures AfterTransfer(p, f, i).error == (f.error && !(i.errorClear && f.words == [] && !f.eof && !f.discarding && !f.stopped))
  {
  }

  // ----- flow

  /** Three carry words are enough: when no record is complete, a bundle is always taken, so a split
      record cannot block itself. */
  lemma IncompleteTailTakesBundle(p: Params, f: State, t: Track, i: Pins, b: Bundle)
    requires p.Valid() && Inv(p, f, t) && !i.abort && !i.redirect
    requires Visible(p, f) == [] && !f.eof && !f.stopped && CountOk(p, b)
    ensures BundleReady(p, f, i, b)
  {
    if HasEnd(f.words, 0) {
      EndComesLast(f.words, f.base, 0, f.eof);
    } else {
      OnlyATailWaits(f.words, f.base, 0, f.eof);
    }
    assert |f.words| <= 3;
  }

  lemma FirstOfPrefix<T>(s: seq<T>, t: seq<T>, n: nat)
    requires s <= t
    ensures First(s, n) <= First(t, n)
  {
  }

  /** Nothing transfers and no bundle arrives: the words of the stream stay. */
  lemma StalledAlone(p: Params, f: State, i: Pins, g: State, cut: seq<Word>)
    requires p.Valid() && !i.abort && !i.redirect && Transfers(p, f, i) == 0 && g == Step(p, f, i) && !Fires(p, f, i)
    requires f.words != [] && cut == Cut(f)
    ensures Framed(f) == Framed(g)
  {
    assert Skip(cut, 0, 0) == 0;
    assert g.words == cut && g.base == f.base && g.eof == f.eof;
    CutIsInvisible(f.words, f.base, 0, f.eof, cut);
  }

  /** Nothing transfers and a bundle arrives behind the words of the stream. */
  lemma StalledWithBundle(p: Params, f: State, i: Pins, b: Bundle, g: State, cut: seq<Word>)
    requires p.Valid() && !i.abort && !i.redirect && Transfers(p, f, i) == 0 && g == Step(p, f, i) && Fires(p, f, i)
    requires f.words != [] && cut == Cut(f) && !f.discarding && f.expected.Some? && i.bundle == Some(b) && WellFormed(p, f, b)
    ensures Framed(f) <= Framed(g)
  {
    CutKeepsEnd(f.words, 0, cut);
    assert Skip(cut, 0, 0) == 0;
    assert g.words == f.words + b.words[..b.count] && g.base == f.base && g.eof == b.last;
    VisibleRecordsAreStable(f.words, f.base, 0, g.words, g.eof);
  }

  /** A stalled record stays in its slot, whatever arrives behind it. */
  lemma StalledRecordsStay(p: Params, f: State, t: Track, i: Pins)
    requires p.Valid() && Inv(p, f, t) && !i.abort && !i.redirect && Transfers(p, f, i) == 0
    requires i.bundle.Some? ==> WellFormed(p, f, i.bundle.value)
    ensures Visible(p, f) <= Visible(p, Step(p, f, i))
  {
    if f.words != [] {
      if Fires(p, f, i) {
        StalledWithBundle(p, f, i, i.bundle.value, Step(p, f, i), Cut(f));
      } else {
        StalledAlone(p, f, i, Step(p, f, i), Cut(f));
      }
      FirstOfPrefix(Framed(f), Framed(Step(p, f, i)), p.admitSlots);
    }
  }

  /** END behind the admission slots already stops fetch; a stopped framer takes no bundle. */
  lemma EndStopsFetch(p: Params, f: State, i: Pins, b: Bundle, n: nat)
    requires !i.redirect && !f.discarding && n < |Framed(f)| && IsEnd(Framed(f)[n])
    ensures StopFetch(f, i) && !BundleReady(p, f, i, b)
  {
    if !HasEnd(f.words, 0) {
      EndIsFound(f.words, f.base, 0, f.eof, n);
    }
  }

  lemma {:induction false} EndIsFound(words: seq<Word>, base: nat, cursor: nat, eof: bool, n: nat)
    requires n < |Frame(words, base, cursor, eof)| && IsEnd(Frame(words, base, cursor, eof)[n])
    ensures HasEnd(words, cursor)
    decreases n
  {
    if words[cursor] != END {
      EndIsFound(words, base, Next(words, cursor), eof, n - 1);
    }
  }

  // ----- the scan

  lemma FirstAppend<T>(all: seq<T>, x: T, n: nat)
    ensures First(all + [x], n) == if |First(all, n)| < n then First(all, n) + [x] else First(all, n)
  {
  }

  /** `all` are the records in front of `cursor`; behind a found END there are none. */
  ghost predicate Scanned(words: seq<Word>, base: nat, eof: bool, cursor: nat, all: seq<Record>, found: bool, boundary: nat) {
    && cursor <= |words|
    && Frame(words, base, 0, eof) == (if found then all else all + Frame(words, base, cursor, eof))
    && if found then HasEnd(words, 0) && boundary == Stop(words, 0)
       else HasEnd(words, 0) == HasEnd(words, cursor) && Stop(words, 0) == Stop(words, cursor) && boundary == |words|
  }

  lemma ScanComplete(words: seq<Word>, base: nat, eof: bool, cursor: nat, all: seq<Record>, r: Record, end: nat) returns (next: seq<Record>)
    requires Scanned(words, base, eof, cursor, all, false, |words|) && cursor < |words|
    requires end == Next(words, cursor) <= |words| && r == Whole(words, base, cursor)
    ensures next == all + [r]
    ensures words[cursor] == END ==> Scanned(words, base, eof, end, next, true, end)
    ensures words[cursor] != END ==> Scanned(words, base, eof, end, next, false, |words|)
  {
    next := all + [r];
    OneRecord(words, base, cursor, eof, end);
    Associates(all, [r], Frame(words, base, end, eof));
  }

  lemma ScanTail(words: seq<Word>, base: nat, eof: bool, cursor: nat, all: seq<Record>, r: Record) returns (next: seq<Record>)
    requires Scanned(words, base, eof, cursor, all, false, |words|) && cursor < |words| && Next(words, cursor) > |words|
    requires r == Record(base + cursor, words[cursor..], WordCount(words[cursor]))
    ensures next == (if eof then all + [r] else all) && Scanned(words, base, eof, |words|, next, false, |words|)
  {
    next := if eof then all + [r] else all;
    assert !HasEnd(words, cursor) && Stop(words, cursor) == |words|;
    assert all + [] == all;
  }

  /** Scans every buffered record, not only those that fit the `limit` admission slots. */
  method Scan(words: seq<Word>, base: nat, eof: bool, limit: nat) returns (slots: seq<Record>, found: bool, boundary: nat)
    ensures slots == First(Frame(words, base, 0, eof), limit) && found == HasEnd(words, 0) && boundary == Stop(words, 0)
  {
    slots, found, boundary := [], false, |words|;
    ghost var all: seq<Record> := [];
    var cursor: nat := 0;
    while !found && cursor < |words|
      invariant slots == First(all, limit) && (!found ==> boundary == |words|)
      invariant Scanned(words, base, eof, cursor, all, found, boundary)
      decreases !found, |words| - cursor
    {
      var required := WordCount(words[cursor]);
      var end := cursor + required;
      if end <= |words| {
        var r := Record(base + cursor, words[cursor..end], required);
        FirstAppend(all, r, limit);
        slots := if |slots| < limit then slots + [r] else slots;
        all := ScanComplete(words, base, eof, cursor, all, r, end);
        if words[cursor] == END {
          found, boundary := true, end;
        }
        cursor := end;
      } else {
        var r := Record(base + cursor, words[cursor..], required);
        FirstAppend(all, r, limit);
        all := ScanTail(words, base, eof, cursor, all, r);
        if eof {
          slots := if |slots| < limit then slots + [r] else slots;
        }
        cursor := |words|;
      }
    }
  }

  /** The ready prefix of the slots, and how many words it takes. */
  method Admit(slots: seq<Record>, ready: seq<bool>, cut: seq<Word>, base: nat, eof: bool) returns (k: nat, taken: nat)
    requires slots <= Frame(cut, base, 0, eof)
    ensures k == LeadingReady(ready, |slots|) && taken == Skip(cut, 0, k)
  {
    k, taken := 0, 0;
    while k < |slots| && k < |ready| && ready[k]
      invariant k <= |slots| && k <= |ready| && taken == Skip(cut, 0, k)
      invariant LeadingReady(ready, |slots|) == k + LeadingReady(ready[k..], |slots| - k)
    {
      RecordsAreFaithful(cut, base, 0, eof, k);
      assert ready[k..][1..] == ready[k + 1..];
      taken := taken + |slots[k].words|;
      k := k + 1;
    }
  }

  // ----- the clocked object

  class Framer {
    const p: Params
    var words: seq<Word>
    var base: nat
    var expected: Option<nat>
    var eof: bool
    var discarding: bool
    var stopped: bool
    var terminal: nat
    var done: bool
    var error: bool
    ghost var track: Track

    function Snapshot(): State
      reads this
    {
      State(words, base, expected, eof, discarding, stopped, terminal, done, error)
    }

    ghost predicate Valid()
      reads this
    {
      p.Valid() && Inv(p, Snapshot(), track)
    }

    constructor (p: Params)
      requires p.Valid()
      ensures Valid() && this.p == p && Snapshot() == Reset && track == Fresh
    {
      this.p := p;
      words, base, expected, eof, discarding, stopped, terminal, done, error := [], 0, None, false, false, false, 0, false, false;
      track := Fresh;
    }

    /** Retires the admitted words and drops what stands behind END. */
    method Shift(taken: nat, found: bool, boundary: nat, i: Pins)
      requires taken == TakenWords(p, Snapshot(), i) && found == Found(Snapshot()) && boundary == Stop(words, 0)
      modifies `words, `base, `stopped, `terminal, `done, `error
      ensures Snapshot() == AfterTransfer(p, old(Snapshot()), i)
    {
      ghost var s := Snapshot();
      assert Cut(s) == words[..boundary] && Retained(p, s, i) == words[..boundary][taken..];
      if i.errorClear && words == [] && !eof && !discarding && !stopped {
        error := false;
      }
      if found {
        stopped, terminal := true, base + boundary - 1;
      }
      words, base := words[..boundary][taken..], base + taken;
      done := false;
    }

    /** Offers the framed records and retires the ready prefix. */
    method Dequeue(i: Pins) returns (slots: seq<Record>, k: nat, found: bool)
      modifies `words, `base, `stopped, `terminal, `done, `error
      ensures slots == Visible(p, old(Snapshot())) && k == Transfers(p, old(Snapshot()), i) && found == Found(old(Snapshot()))
      ensures Snapshot() == AfterTransfer(p, old(Snapshot()), i)
    {
      var boundary, taken;
      slots, found, boundary := Scan(words, base, eof, p.admitSlots);
      k, taken := 0, 0;
      if !i.abort && !i.redirect {
        CutIsInvisible(words, base, 0, eof, Cut(Snapshot()));
        k, taken := Admit(slots, i.ready, words[..boundary], base, eof);
      }
      Shift(taken, found, boundary, i);
    }

    /** One clock edge: `slots` are the records offered, `k` how many of them transferred. */
    method Cycle(i: Pins) returns (slots: seq<Record>, k: nat, fired: bool)
      requires Valid()
      modifies this
      ensures Valid()
      ensures slots == Visible(p, old(Snapshot())) && k == Transfers(p, old(Snapshot()), i) && fired == Fires(p, old(Snapshot()), i)
      ensures Snapshot() == Step(p, old(Snapshot()), i) && track == Follow(p, old(Snapshot()), i, old(track))
    {
      StepKeeps(p, Snapshot(), i, track);
      track := Follow(p, Snapshot(), i, track);
      slots, k, fired := Edge(i);
    }

    /** The next state is decided on the registered values `f`. */
    method Edge(i: Pins) returns (slots: seq<Record>, k: nat, fired: bool)
      requires p.Valid()
      modifies `words, `base, `expected, `eof, `discarding, `stopped, `terminal, `done, `error
      ensures slots == Visible(p, old(Snapshot())) && k == Transfers(p, old(Snapshot()), i) && fired == Fires(p, old(Snapshot()), i)
      ensures Snapshot() == Step(p, old(Snapshot()), i)
    {
      var f := Snapshot();
      var found;
      slots, k, found := Dequeue(i);
      var capacity := if i.bundle.None? then 0
                      else if CountOk(p, i.bundle.value) then i.bundle.value.count else p.bundleWords;
      fired := i.bundle.Some? && !i.abort && !i.redirect
               && (f.discarding || (!(f.stopped || found) && !f.eof && |words| + capacity <= p.BufferWords()));
      if i.redirect || i.abort {
        Flush();
        if i.redirect {
          stopped, terminal, error := false, 0, f.error;
        }
      } else {
        if i.terminalClear && Halted(f, i) {
          stopped, terminal, expected, eof := false, 0, None, false;
        }
        if fired {
          Intake(f, i.bundle.value);
        } else if f.eof && words == [] && k != 0 {
          eof, expected, done := false, None, true;
        }
      }
    }

    method Flush()
      modifies `words, `base, `expected, `eof, `discarding, `done
      ensures Snapshot() == Flushed(old(Snapshot()))
    {
      words, base, expected, eof, discarding, done := [], 0, None, false, false, false;
    }

    method Intake(f: State, b: Bundle)
      requires p.Valid() && f.discarding == discarding
      modifies `words, `base, `expected, `eof, `discarding, `error
      ensures Snapshot() == AfterBundle(p, f, old(Snapshot()), b)
    {
      if discarding {
        discarding := !b.last;
      } else if !WellFormed(p, f, b) {
        error, words, base, expected, eof, discarding := true, [], 0, None, false, !b.last;
      } else {
        var at := if f.expected.Some? then f.expected.value else b.pc / 4;
        if words == [] {
          base := at;
        }
        words := words + b.words[..b.count];
        expected := Some(at + b.count);
        eof := f.eof || b.last;
      }
    }
  }
}
