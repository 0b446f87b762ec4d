/** One SIMD group's execution pipeline: an operand stage O, a result stage X, one-entry return
    buffers, and operand forwarding from both stages. */
module GroupPipeline {
  import opened Rotation
  import opened Wrappers

  // ----- register files

  datatype Registers = Registers(vrf: seq<seq<int>>, arf: seq<seq<int>>, mrf: seq<seq<bool>>)

  /** `data` over `row` in the lanes of `mask`. */
  function Merge<V>(row: seq<V>, mask: seq<bool>, data: seq<V>): (r: seq<V>)
    ensures |r| == |row|
  {
    seq(|row|, i requires 0 <= i < |row| => if i < |mask| && mask[i] && i < |data| then data[i] else row[i])
  }

  function Row<V>(file: seq<seq<V>>, address: nat): seq<V> {
    if address < |file| then file[address] else []
  }

  function WriteRow<V>(file: seq<seq<V>>, enable: bool, address: nat, mask: seq<bool>, data: seq<V>): (r: seq<seq<V>>)
    ensures |r| == |file|
  {
    if enable && address < |file| then file[address := Merge(file[address], mask, data)] else file
  }

  // ----- requests and records

  datatype Op = Lanewise(code: int) | Rearrange(expand: bool) | MaskLogic(code: int)

  /** An execution request. `controls` stands for the element mode, the immediate and the route fields. */
  datatype Exec = Exec(context: nat, tag: int, op: Op, controls: int, exportNarrow: bool, reduce: bool, reduceOp: int,
                       srcA: nat, srcB: nat, srcAcc: nat, execMask: nat, selectMask: nat,
                       writeVrf: bool, dstVrf: nat, writeArf: bool, dstArf: nat, writeMrf: bool, dstMrf: nat)

  datatype RowData = VrfRow(bytes: seq<int>) | ArfRow(words: seq<int>) | MrfRow(bits: seq<bool>) | NoFile

  datatype Request =
    | Execute(exec: Exec)
    | StateWrite(context: nat, tag: int, address: nat, mask: seq<bool>, data: RowData)
    | StateRead(context: nat, tag: int, address: nat, mask: seq<bool>)

  datatype Operands = Operands(a: seq<int>, b: seq<int>, acc: seq<int>, execMask: seq<bool>, selectMask: seq<bool>)

  /** What the datapath computes from the held operands. */
  datatype Computed = Computed(illegal: bool, narrow: seq<int>, wide: seq<int>, flags: seq<bool>,
                               execMask: seq<bool>, count: nat)

  datatype Operand = Operand(exec: Exec, operands: Operands)

  datatype Result = Result(exec: Exec, illegal: bool, narrow: seq<int>, wide: seq<int>, flags: seq<bool>,
                           writeMask: seq<bool>, arfMask: seq<bool>, narrowMask: seq<bool>, count: Option<nat>)

  datatype Kind = ExecKind | StateWriteKind

  datatype Completion = Completion(context: nat, tag: int, kind: Kind, illegal: bool, hasResult: bool)

  datatype Response = Response(context: nat, tag: int, illegal: bool, narrow: Option<(seq<int>, seq<bool>)>,
                               reduced: Option<(int, int)>, count: Option<nat>)

  datatype ReadCompletion = ReadCompletion(context: nat, tag: int, illegal: bool)

  datatype ReadResponse = ReadResponse(context: nat, tag: int, illegal: bool, data: seq<int>, mask: seq<bool>)

  /** The size of the group and its combinational units, which may be any functions. */
  datatype Config = Config(contexts: nat, lanes: nat, exportable: Op -> bool,
                           datapath: (Exec, Operands) -> Computed,
                           reduce: (int, seq<bool>, seq<int>) -> Option<(int, int)>)

  // ----- the units

  function RequiresResult(e: Exec): bool {
    e.exportNarrow || e.reduce || e.op.Rearrange?
  }

  predicate EndpointIllegal(c: Config, e: Exec) {
    e.context >= c.contexts || (e.exportNarrow && !c.exportable(e.op))
  }

  function AllLanes(c: Config): seq<bool> {
    seq(c.lanes, i => true)
  }

  /** The O stage's step: operands to result record. An illegal endpoint does not issue the datapath. */
  function Compute(c: Config, o: Operand): Result {
    var endpoint := EndpointIllegal(c, o.exec);
    var d := c.datapath(o.exec, o.operands);
    var writeMask := if o.exec.op.Lanewise? then d.execMask else AllLanes(c);
    var narrowMask := if o.exec.op.MaskLogic? then AllLanes(c) else if o.exec.op.Rearrange? then d.flags else d.execMask;
    var count := if !endpoint && o.exec.op.Rearrange? && !d.illegal then Some(d.count) else None;
    Result(o.exec, endpoint || d.illegal, d.narrow, d.wide, d.flags, writeMask, d.execMask, narrowMask, count)
  }

  function Commit(regs: Registers, r: Result): Registers {
    if r.illegal then regs else
      Registers(WriteRow(regs.vrf, r.exec.writeVrf, r.exec.dstVrf, r.writeMask, r.narrow),
                WriteRow(regs.arf, r.exec.writeArf, r.exec.dstArf, r.arfMask, r.wide),
                WriteRow(regs.mrf, r.exec.writeMrf, r.exec.dstMrf, r.writeMask, r.flags))
  }

  function ResultCompletion(r: Result): Completion {
    Completion(r.exec.context, r.exec.tag, ExecKind, r.illegal, RequiresResult(r.exec))
  }

  function ResultResponse(c: Config, r: Result): Response {
    Response(r.exec.context, r.exec.tag, r.illegal,
             if r.exec.exportNarrow && !r.illegal then Some((r.narrow, r.narrowMask)) else None,
             if r.exec.reduce && !r.illegal then c.reduce(r.exec.reduceOp, r.narrowMask, r.narrow) else None,
             if !r.illegal then r.count else None)
  }

  /** The rows that the register files present to a request. */
  function Fetch(regs: Registers, e: Exec): Operands {
    Operands(Row(regs.vrf, e.srcA), Row(regs.vrf, e.srcB), Row(regs.arf, e.srcAcc), Row(regs.mrf, e.execMask), Row(regs.mrf, e.selectMask))
  }

  function Bypass<V>(raw: seq<V>, enable: bool, source: nat, destination: nat, mask: seq<bool>, data: seq<V>): seq<V> {
    if enable && source == destination then Merge(raw, mask, data) else raw
  }

  /** Operands overlaid, lane by lane, with what the producer `r` is about to write. */
  function Forward(ops: Operands, r: Result, e: Exec): Operands {
    if r.illegal then ops else
      Operands(Bypass(ops.a, r.exec.writeVrf, e.srcA, r.exec.dstVrf, r.writeMask, r.narrow),
               Bypass(ops.b, r.exec.writeVrf, e.srcB, r.exec.dstVrf, r.writeMask, r.narrow),
               Bypass(ops.acc, r.exec.writeArf, e.srcAcc, r.exec.dstArf, r.arfMask, r.wide),
               Bypass(ops.execMask, r.exec.writeMrf, e.execMask, r.exec.dstMrf, r.writeMask, r.flags),
               Bypass(ops.selectMask, r.exec.writeMrf, e.selectMask, r.exec.dstMrf, r.writeMask, r.flags))
  }

  predicate WriteIllegal(c: Config, regs: Registers, w: Request)
    requires w.StateWrite?
  {
    w.context >= c.contexts || match w.data
      case VrfRow(_) => w.address >= |regs.vrf|
      case ArfRow(_) => w.address >= |regs.arf|
      case MrfRow(_) => w.address >= |regs.mrf|
      case NoFile => true
  }

  function WriteState(c: Config, regs: Registers, w: Request): Registers
    requires w.StateWrite?
  {
    if WriteIllegal(c, regs, w) then regs else
      match w.data
      case VrfRow(bytes) => regs.(vrf := WriteRow(regs.vrf, true, w.address, w.mask, bytes))
      case ArfRow(words) => regs.(arf := WriteRow(regs.arf, true, w.address, w.mask, words))
      case MrfRow(bits) => regs.(mrf := WriteRow(regs.mrf, true, w.address, w.mask, bits))
      case NoFile => regs
  }

  predicate ReadIllegal(c: Config, regs: Registers, r: Request)
    requires r.StateRead?
  {
    r.context >= c.contexts || r.address >= |regs.vrf|
  }

  function ReadState(c: Config, regs: Registers, r: Request): ReadResponse
    requires r.StateRead?
  {
    var illegal := ReadIllegal(c, regs, r);
    ReadResponse(r.context, r.tag, illegal, if illegal then [] else Row(regs.vrf, r.address), if illegal then [] else r.mask)
  }

  // ----- one request at a time

  /** Registers, and every record produced so far on each of the four return channels. */
  datatype Outcome = Outcome(regs: Registers, cpls: seq<Completion>, rsps: seq<Response>,
                             readCpls: seq<ReadCompletion>, readRsps: seq<ReadResponse>)

  function Retire(c: Config, t: Outcome, r: Result): Outcome {
    t.(regs := Commit(t.regs, r),
       cpls := t.cpls + [ResultCompletion(r)],
       rsps := if RequiresResult(r.exec) then t.rsps + [ResultResponse(c, r)] else t.rsps)
  }

  /** The architectural meaning of a request: it reads committed registers, and is complete before the next. */
  function Perform(c: Config, t: Outcome, q: Request): Outcome {
    match q
    case Execute(e) => Retire(c, t, Compute(c, Operand(e, Fetch(t.regs, e))))
    case StateWrite(context, tag, _, _, _) =>
      t.(regs := WriteState(c, t.regs, q),
         cpls := t.cpls + [Completion(context, tag, StateWriteKind, WriteIllegal(c, t.regs, q), false)])
    case StateRead(context, tag, _, _) =>
      t.(readCpls := t.readCpls + [ReadCompletion(context, tag, ReadIllegal(c, t.regs, q))],
         readRsps := t.readRsps + [ReadState(c, t.regs, q)])
  }

  function PerformAll(c: Config, t: Outcome, qs: seq<Request>): Outcome {
    if qs == [] then t else Perform(c, PerformAll(c, t, qs[..|qs| - 1]), qs[|qs| - 1])
  }

  // ----- what performing a request changes

  /** `after` is `before` with `data` in the lanes of `mask`, every other lane as it was. */
  ghost predicate Overwritten<V>(before: seq<V>, mask: seq<bool>, data: seq<V>, after: seq<V>) {
    && |after| == |before|
    && (forall i :: 0 <= i < |before| && i < |mask| && mask[i] && i < |data| ==> after[i] == data[i])
    && (forall i :: 0 <= i < |before| && (i >= |mask| || !mask[i] || i >= |data|) ==> after[i] == before[i])
  }

  /** If `enable`, row `address` is overwritten; every other row is as it was. */
  ghost predicate RowOverwritten<V>(before: seq<seq<V>>, enable: bool, address: nat, mask: seq<bool>, data: seq<V>, after: seq<seq<V>>) {
    && |after| == |before|
    && (forall r :: 0 <= r < |before| && !(enable && r == address) ==> after[r] == before[r])
    && (enable && address < |before| ==> Overwritten(before[address], mask, data, after[address]))
  }

  /** A state write changes the selected lanes of one row of one file, or nothing when its context, file
      or address is out of range, and completes once. */
  lemma StateWriteIsMasked(c: Config, t: Outcome, q: Request)
    requires q.StateWrite?
    ensures var t' := Perform(c, t, q);
      var legal := q.context < c.contexts && match q.data
        case VrfRow(_) => q.address < |t.regs.vrf|
        case ArfRow(_) => q.address < |t.regs.arf|
        case MrfRow(_) => q.address < |t.regs.mrf|
        case NoFile => false;
      && RowOverwritten(t.regs.vrf, legal && q.data.VrfRow?, q.address, q.mask, if q.data.VrfRow? then q.data.bytes else [], t'.regs.vrf)
      && RowOverwritten(t.regs.arf, legal && q.data.ArfRow?, q.address, q.mask, if q.data.ArfRow? then q.data.words else [], t'.regs.arf)
      && RowOverwritten(t.regs.mrf, legal && q.data.MrfRow?, q.address, q.mask, if q.data.MrfRow? then q.data.bits else [], t'.regs.mrf)
      && t' == t.(regs := t'.regs, cpls := t.cpls + [Completion(q.context, q.tag, StateWriteKind, !legal, false)])
  {
  }

  /** A state read returns the addressed vector row, or an empty record when its context or address is out
      of range, and changes no register. */
  lemma StateReadReturnsRow(c: Config, t: Outcome, q: Request)
    requires q.StateRead?
    ensures var legal := q.context < c.contexts && q.address < |t.regs.vrf|;
      Perform(c, t, q) == t.(
        readCpls := t.readCpls + [ReadCompletion(q.context, q.tag, !legal)],
        readRsps := t.readRsps + [if legal then ReadResponse(q.context, q.tag, false, t.regs.vrf[q.address], q.mask)
                                  else ReadResponse(q.context, q.tag, true, [], [])])
  {
  }

  /** An execution request reads the addressed rows, and unless it is illegal writes the selected lanes of
      its destination rows: those of the execution mask, or all lanes for operations on whole rows. It
      completes once, and returns a record exactly when it exports, reduces or rearranges; an illegal one
      returns no data. */
  lemma ExecuteWritesLanes(c: Config, t: Outcome, e: Exec)
    ensures var t' := Perform(c, t, Execute(e));
      var d := c.datapath(e, Operands(Row(t.regs.vrf, e.srcA), Row(t.regs.vrf, e.srcB), Row(t.regs.arf, e.srcAcc),
                                      Row(t.regs.mrf, e.execMask), Row(t.regs.mrf, e.selectMask)));
      var endpoint := e.context < c.contexts && (e.exportNarrow ==> c.exportable(e.op));
      var legal := endpoint && !d.illegal;
      var lanes := if e.op.Lanewise? then d.execMask else seq(c.lanes, i => true);
      var narrowLanes := if e.op.Lanewise? then d.execMask else if e.op.Rearrange? then d.flags else lanes;
      var hasResult := e.exportNarrow || e.reduce || e.op.Rearrange?;
      && RowOverwritten(t.regs.vrf, legal && e.writeVrf, e.dstVrf, lanes, d.narrow, t'.regs.vrf)
      && RowOverwritten(t.regs.arf, legal && e.writeArf, e.dstArf, d.execMask, d.wide, t'.regs.arf)
      && RowOverwritten(t.regs.mrf, legal && e.writeMrf, e.dstMrf, lanes, d.flags, t'.regs.mrf)
      && t' == t.(regs := t'.regs, cpls := t.cpls + [Completion(e.context, e.tag, ExecKind, !legal, hasResult)], rsps := t'.rsps)
      && t'.rsps == if !hasResult then t.rsps
         else if !legal then t.rsps + [Response(e.context, e.tag, true, None, None, None)]
         else t.rsps + [Response(e.context, e.tag, false,
                                 if e.exportNarrow then Some((d.narrow, narrowLanes)) else None,
                                 if e.reduce then c.reduce(e.reduceOp, narrowLanes, d.narrow) else None,
                                 if e.op.Rearrange? then Some(d.count) else None)]
  {
    assert AllLanes(c) == seq(c.lanes, i => true);
  }

  // ----- the pipeline, cycle by cycle

  datatype Pipe = Pipe(regs: Registers, operand: Option<Operand>, result: Option<Result>,
                       cpl: Option<Completion>, rsp: Option<Response>,
                       readCpl: Option<ReadCompletion>, readRsp: Option<ReadResponse>, preference: nat)

  /** The request and ready pins of one cycle. */
  datatype Pins = Pins(exec: Option<Exec>, write: Option<Request>, read: Option<Request>,
                       cplReady: bool, rspReady: bool, readCplReady: bool, readRspReady: bool)
  {
    predicate Valid() {
      (write.Some? ==> write.value.StateWrite?) && (read.Some? ==> read.value.StateRead?)
    }
  }

  predicate CanPush<T>(buffer: Option<T>, ready: bool) {
    buffer.None? || ready
  }

  predicate CanRetire(p: Pipe, i: Pins) {
    p.result.Some? && CanPush(p.cpl, i.cplReady) && (RequiresResult(p.result.value.exec) ==> CanPush(p.rsp, i.rspReady))
  }

  predicate CanAdvance(p: Pipe, i: Pins) {
    p.operand.Some? && (p.result.None? || CanRetire(p, i))
  }

  predicate ExecEligible(p: Pipe, i: Pins) {
    p.operand.None? || CanAdvance(p, i)
  }

  predicate Empty(p: Pipe) {
    p.operand.None? && p.result.None?
  }

  predicate WriteEligible(p: Pipe, i: Pins) {
    Empty(p) && CanPush(p.cpl, i.cplReady)
  }

  predicate ReadEligible(p: Pipe, i: Pins) {
    Empty(p) && CanPush(p.readCpl, i.readCplReady) && CanPush(p.readRsp, i.readRspReady)
  }

  /** The request that the rotating arbiter accepts in this cycle, if any. */
  function Accepted(p: Pipe, i: Pins): (r: Option<Request>)
    requires i.Valid()
    ensures r.Some? && r.value.Execute? ==> ExecEligible(p, i)
    ensures r.Some? && r.value.StateWrite? ==> WriteEligible(p, i)
    ensures r.Some? && r.value.StateRead? ==> ReadEligible(p, i)
  {
    var exec := i.exec.Some? && ExecEligible(p, i);
    var write := i.write.Some? && WriteEligible(p, i);
    var read := i.read.Some? && ReadEligible(p, i);
    if p.preference == 0 then
      if exec then Some(Execute(i.exec.value)) else if write then i.write else if read then i.read else None
    else if p.preference == 1 then
      if write then i.write else if read then i.read else if exec then Some(Execute(i.exec.value)) else None
    else
      if read then i.read else if exec then Some(Execute(i.exec.value)) else if write then i.write else None
  }

  /** What an accepted request finds on its operand ports: the files, then X, then the O result that
      moves to X in the same cycle. */
  function Capture(c: Config, p: Pipe, i: Pins, e: Exec): Operands {
    var raw := Fetch(p.regs, e);
    var older := if p.result.Some? then Forward(raw, p.result.value, e) else raw;
    if CanAdvance(p, i) then Forward(older, Compute(c, p.operand.value), e) else older
  }

  function Popped<T>(buffer: Option<T>, ready: bool): Option<T> {
    if ready then None else buffer
  }

  function Step(c: Config, p: Pipe, i: Pins): Pipe
    requires i.Valid()
  {
    var accepted := Accepted(p, i);
    var retire := CanRetire(p, i);
    var advance := CanAdvance(p, i);
    var write := accepted.Some? && accepted.value.StateWrite?;
    var read := accepted.Some? && accepted.value.StateRead?;
    Pipe(if retire then Commit(p.regs, p.result.value) else if write then WriteState(c, p.regs, accepted.value) else p.regs,
         if accepted.Some? && accepted.value.Execute?
           then Some(Operand(accepted.value.exec, Capture(c, p, i, accepted.value.exec)))
           else if advance then None else p.operand,
         if advance then Some(Compute(c, p.operand.value)) else if retire then None else p.result,
         if retire then Some(ResultCompletion(p.result.value))
           else if write then Some(Completion(accepted.value.context, accepted.value.tag, StateWriteKind, WriteIllegal(c, p.regs, accepted.value), false))
           else Popped(p.cpl, i.cplReady),
         if retire && RequiresResult(p.result.value.exec) then Some(ResultResponse(c, p.result.value)) else Popped(p.rsp, i.rspReady),
         if read then Some(ReadCompletion(accepted.value.context, accepted.value.tag, ReadIllegal(c, p.regs, accepted.value)))
           else Popped(p.readCpl, i.readCplReady),
         if read then Some(ReadState(c, p.regs, accepted.value)) else Popped(p.readRsp, i.readRspReady),
         if accepted.None? then p.preference else
           match accepted.value case Execute(_) => 1 case StateWrite(_, _, _, _, _) => 2 case StateRead(_, _, _, _) => 0)
  }

  // ----- what a run delivers

  /** Requests accepted so far, and the records that the four sinks have taken. */
  datatype History = History(accepted: seq<Request>, cpls: seq<Completion>, rsps: seq<Response>,
                             readCpls: seq<ReadCompletion>, readRsps: seq<ReadResponse>)

  function Listed<T>(x: Option<T>): seq<T> {
    if x.Some? then [x.value] else []
  }

  function Taken<T>(buffer: Option<T>, ready: bool): seq<T> {
    if ready then Listed(buffer) else []
  }

  function Record(p: Pipe, i: Pins, h: History): History
    requires i.Valid()
  {
    History(h.accepted + Listed(Accepted(p, i)), h.cpls + Taken(p.cpl, i.cplReady), h.rsps + Taken(p.rsp, i.rspReady),
            h.readCpls + Taken(p.readCpl, i.readCplReady), h.readRsps + Taken(p.readRsp, i.readRspReady))
  }

  /** What the sinks have taken, then what waits in the buffers, then what the two stages will still do. */
  function InFlight(c: Config, p: Pipe, h: History): Outcome {
    var buffered := Outcome(p.regs, h.cpls + Listed(p.cpl), h.rsps + Listed(p.rsp),
                            h.readCpls + Listed(p.readCpl), h.readRsps + Listed(p.readRsp));
    var retired := if p.result.Some? then Retire(c, buffered, p.result.value) else buffered;
    if p.operand.Some? then Retire(c, retired, Compute(c, p.operand.value)) else retired
  }

  // ----- forwarding is reading committed registers

  lemma BypassIsWrite<V>(file: seq<seq<V>>, enable: bool, source: nat, destination: nat, mask: seq<bool>, data: seq<V>)
    ensures Bypass(Row(file, source), enable, source, destination, mask, data) == Row(WriteRow(file, enable, destination, mask, data), source)
  {
  }

  /** Overlaying a producer's lanes on the fetched rows is fetching after the producer has committed. */
  lemma ForwardIsCommit(regs: Registers, r: Result, e: Exec)
    ensures Forward(Fetch(regs, e), r, e) == Fetch(Commit(regs, r), e)
  {
    BypassIsWrite(regs.vrf, r.exec.writeVrf, e.srcA, r.exec.dstVrf, r.writeMask, r.narrow);
    BypassIsWrite(regs.vrf, r.exec.writeVrf, e.srcB, r.exec.dstVrf, r.writeMask, r.narrow);
    BypassIsWrite(regs.arf, r.exec.writeArf, e.srcAcc, r.exec.dstArf, r.arfMask, r.wide);
    BypassIsWrite(regs.mrf, r.exec.writeMrf, e.execMask, r.exec.dstMrf, r.writeMask, r.flags);
    BypassIsWrite(regs.mrf, r.exec.writeMrf, e.selectMask, r.exec.dstMrf, r.writeMask, r.flags);
  }

  /** The captured operands are those of the architectural state in which every older request is complete. */
  lemma {:induction false} CaptureSeesOlderRequests(c: Config, p: Pipe, h: History, i: Pins, e: Exec)
    requires ExecEligible(p, i)
    ensures Capture(c, p, i, e) == Fetch(InFlight(c, p, h).regs, e)
  {
    var older := if p.result.Some? then Commit(p.regs, p.result.value) else p.regs;
    if p.result.Some? {
      ForwardIsCommit(p.regs, p.result.value, e);
    }
    if p.operand.Some? {
      ForwardIsCommit(older, Compute(c, p.operand.value), e);
    }
  }

  // ----- refinement

  /** The pipeline has done, or will do, exactly what one-at-a-time execution of the accepted requests does. */
  ghost predicate Refines(c: Config, start: Registers, p: Pipe, h: History) {
    InFlight(c, p, h) == PerformAll(c, Outcome(start, [], [], [], []), h.accepted)
  }

  // ----- the four phases of a cycle

  /** Ready sinks empty their buffers. */
  function AfterSinks(p: Pipe, i: Pins): Pipe {
    p.(cpl := Popped(p.cpl, i.cplReady), rsp := Popped(p.rsp, i.rspReady),
       readCpl := Popped(p.readCpl, i.readCplReady), readRsp := Popped(p.readRsp, i.readRspReady))
  }

  /** X commits and fills the return buffers. */
  function AfterRetire(c: Config, p: Pipe): Pipe
    requires p.result.Some?
  {
    var r := p.result.value;
    p.(regs := Commit(p.regs, r), result := None, cpl := Some(ResultCompletion(r)),
       rsp := if RequiresResult(r.exec) then Some(ResultResponse(c, r)) else p.rsp)
  }

  /** O moves to X. */
  function AfterAdvance(c: Config, p: Pipe): Pipe
    requires p.operand.Some?
  {
    p.(operand := None, result := Some(Compute(c, p.operand.value)))
  }

  function AfterAccept(c: Config, p: Pipe, q: Request, ops: Operands): Pipe {
    match q
    case Execute(e) => p.(operand := Some(Operand(e, ops)), preference := 1)
    case StateWrite(context, tag, _, _, _) =>
      p.(regs := WriteState(c, p.regs, q), preference := 2,
         cpl := Some(Completion(context, tag, StateWriteKind, WriteIllegal(c, p.regs, q), false)))
    case StateRead(context, tag, _, _) =>
      p.(preference := 0, readCpl := Some(ReadCompletion(context, tag, ReadIllegal(c, p.regs, q))), readRsp := Some(ReadState(c, p.regs, q)))
  }

  function BeforeAccept(c: Config, p: Pipe, i: Pins): Pipe {
    var p1 := AfterSinks(p, i);
    var p2 := if CanRetire(p, i) then AfterRetire(c, p1) else p1;
    if CanAdvance(p, i) then AfterAdvance(c, p2) else p2
  }

  lemma StepIsPhases(c: Config, p: Pipe, i: Pins)
    requires i.Valid()
    ensures var q, p3 := Accepted(p, i), BeforeAccept(c, p, i);
      Step(c, p, i) == match q
        case None => p3
        case Some(Execute(e)) => AfterAccept(c, p3, q.value, Capture(c, p, i, e))
        case Some(_) => AfterAccept(c, p3, q.value, Operands([], [], [], [], []))
  {
  }

  lemma ListedTaken<T>(taken: seq<T>, buffer: Option<T>, ready: bool)
    ensures taken + Taken(buffer, ready) + Listed(Popped(buffer, ready)) == taken + Listed(buffer)
  {
  }

  lemma SinksKeep(c: Config, p: Pipe, i: Pins, h: History, h': History)
    requires h'.cpls == h.cpls + Taken(p.cpl, i.cplReady) && h'.rsps == h.rsps + Taken(p.rsp, i.rspReady)
    requires h'.readCpls == h.readCpls + Taken(p.readCpl, i.readCplReady) && h'.readRsps == h.readRsps + Taken(p.readRsp, i.readRspReady)
    ensures InFlight(c, AfterSinks(p, i), h') == InFlight(c, p, h)
  {
    ListedTaken(h.cpls, p.cpl, i.cplReady);
    ListedTaken(h.rsps, p.rsp, i.rspReady);
    ListedTaken(h.readCpls, p.readCpl, i.readCplReady);
    ListedTaken(h.readRsps, p.readRsp, i.readRspReady);
  }

  lemma RetireKeeps(c: Config, p: Pipe, h: History)
    requires p.result.Some? && p.cpl.None? && (RequiresResult(p.result.value.exec) ==> p.rsp.None?)
    ensures InFlight(c, AfterRetire(c, p), h) == InFlight(c, p, h)
  {
    var r := p.result.value;
    assert h.cpls + Listed(p.cpl) + [ResultCompletion(r)] == h.cpls + [ResultCompletion(r)];
    if RequiresResult(r.exec) {
      assert h.rsps + Listed(p.rsp) + [ResultResponse(c, r)] == h.rsps + [ResultResponse(c, r)];
    }
  }

  lemma AdvanceKeeps(c: Config, p: Pipe, h: History)
    requires p.operand.Some? && p.result.None?
    ensures InFlight(c, AfterAdvance(c, p), h) == InFlight(c, p, h)
  {
  }

  lemma {:induction false} PhasesKeep(c: Config, p: Pipe, i: Pins, h: History, h': History)
    requires h'.cpls == h.cpls + Taken(p.cpl, i.cplReady) && h'.rsps == h.rsps + Taken(p.rsp, i.rspReady)
    requires h'.readCpls == h.readCpls + Taken(p.readCpl, i.readCplReady) && h'.readRsps == h.readRsps + Taken(p.readRsp, i.readRspReady)
    ensures InFlight(c, BeforeAccept(c, p, i), h') == InFlight(c, p, h)
  {
    SinksKeep(c, p, i, h, h');
    var p1 := AfterSinks(p, i);
    if CanRetire(p, i) {
      RetireKeeps(c, p1, h');
    }
    if CanAdvance(p, i) {
      AdvanceKeeps(c, if CanRetire(p, i) then AfterRetire(c, p1) else p1, h');
    }
  }

  /** Accepting performs the request, given its architectural operands and free buffers. */
  lemma AcceptPerforms(c: Config, p: Pipe, h: History, q: Request, ops: Operands)
    requires p.operand.None?
    requires q.Execute? ==> ops == Fetch(InFlight(c, p, h).regs, q.exec)
    requires q.StateWrite? ==> p.result.None? && p.cpl.None?
    requires q.StateRead? ==> p.result.None? && p.readCpl.None? && p.readRsp.None?
    ensures InFlight(c, AfterAccept(c, p, q, ops), h) == Perform(c, InFlight(c, p, h), q)
  {
    if q.StateWrite? {
      assert h.cpls + Listed(p.cpl) == h.cpls;
    } else if q.StateRead? {
      assert h.readCpls + Listed(p.readCpl) == h.readCpls && h.readRsps + Listed(p.readRsp) == h.readRsps;
    }
  }

  /** A cycle moves records along and performs the request that it accepts. */
  lemma {:induction false} CycleRefines(c: Config, p: Pipe, i: Pins, h: History)
    requires i.Valid()
    ensures InFlight(c, Step(c, p, i), Record(p, i, h)) == match Accepted(p, i)
      case None => InFlight(c, p, h)
      case Some(q) => Perform(c, InFlight(c, p, h), q)
  {
    var p3, h' := BeforeAccept(c, p, i), Record(p, i, h);
    StepIsPhases(c, p, i);
    PhasesKeep(c, p, i, h, h');
    match Accepted(p, i)
    case None =>
    case Some(Execute(e)) =>
      CaptureSeesOlderRequests(c, p, h, i, e);
      AcceptPerforms(c, p3, h', Execute(e), Capture(c, p, i, e));
    case Some(q) =>
      AcceptPerforms(c, p3, h', q, Operands([], [], [], [], []));
  }

  // ----- whole runs

  function Reset(regs: Registers): Pipe {
    Pipe(regs, None, None, None, None, None, None, 0)
  }

  const Unstarted := History([], [], [], [], [])

  function Run(c: Config, p: Pipe, h: History, cycles: seq<Pins>): (Pipe, History)
    requires forall i :: i in cycles ==> i.Valid()
    decreases |cycles|
  {
    if cycles == [] then (p, h) else
      assert cycles[0] in cycles;
      Run(c, Step(c, p, cycles[0]), Record(p, cycles[0], h), cycles[1..])
  }

  lemma CycleKeepsRefinement(c: Config, start: Registers, p: Pipe, i: Pins, h: History)
    requires i.Valid() && Refines(c, start, p, h)
    ensures Refines(c, start, Step(c, p, i), Record(p, i, h))
  {
    CycleRefines(c, p, i, h);
    var all := h.accepted + Listed(Accepted(p, i));
    if Accepted(p, i).Some? {
      assert all[..|all| - 1] == h.accepted;
    } else {
      assert all == h.accepted;
    }
  }

  lemma {:induction false} RunKeepsRefinement(c: Config, start: Registers, p: Pipe, h: History, cycles: seq<Pins>)
    requires (forall i :: i in cycles ==> i.Valid()) && Refines(c, start, p, h)
    ensures var (p', h') := Run(c, p, h, cycles); Refines(c, start, p', h')
    decreases |cycles|
  {
    if cycles != [] {
      assert cycles[0] in cycles;
      CycleKeepsRefinement(c, start, p, cycles[0], h);
      RunKeepsRefinement(c, start, Step(c, p, cycles[0]), Record(p, cycles[0], h), cycles[1..]);
    }
  }

  ghost predicate Drained(p: Pipe) {
    Empty(p) && p.cpl.None? && p.rsp.None? && p.readCpl.None? && p.readRsp.None?
  }

  /** Under any request and ready pattern, each sink has taken, in order, a prefix of what one-at-a-time
      execution of the accepted requests produces; when nothing is in flight, all of it, and the
      register files are those of one-at-a-time execution. */
  lemma {:induction false} RunRefinesSequential(c: Config, start: Registers, cycles: seq<Pins>)
    requires forall i :: i in cycles ==> i.Valid()
    ensures var (p, h) := Run(c, Reset(start), Unstarted, cycles);
      var t := PerformAll(c, Outcome(start, [], [], [], []), h.accepted);
      && h.cpls <= t.cpls && h.rsps <= t.rsps && h.readCpls <= t.readCpls && h.readRsps <= t.readRsps
      && (Empty(p) ==> p.regs == t.regs)
      && (Drained(p) ==> t == Outcome(p.regs, h.cpls, h.rsps, h.readCpls, h.readRsps))
  {
    RunKeepsRefinement(c, start, Reset(start), Unstarted, cycles);
    var (p, h) := Run(c, Reset(start), Unstarted, cycles);
    Prefixes(c, p, h);
  }

  lemma Prefixes(c: Config, p: Pipe, h: History)
    ensures var t := InFlight(c, p, h);
      && h.cpls <= t.cpls && h.rsps <= t.rsps && h.readCpls <= t.readCpls && h.readRsps <= t.readRsps
      && (Empty(p) ==> p.regs == t.regs)
      && (Drained(p) ==> t == Outcome(p.regs, h.cpls, h.rsps, h.readCpls, h.readRsps))
  {
  }

  // ----- flow

  /** A request of class `kind` is there and could go now: an execution request when O is empty or its
      operation moves on, because X is empty or finds room for its records; a state transfer when both
      stages are empty and its records find room. The classes are in the order of the rotation. */
  predicate Requested(p: Pipe, i: Pins, kind: nat) {
    match kind
    case 0 => i.exec.Some? && (p.operand.None? || p.result.None?
                               || ((p.cpl.None? || i.cplReady) && (RequiresResult(p.result.value.exec) ==> p.rsp.None? || i.rspReady)))
    case 1 => i.write.Some? && p.operand.None? && p.result.None? && (p.cpl.None? || i.cplReady)
    case 2 => i.read.Some? && p.operand.None? && p.result.None? && (p.readCpl.None? || i.readCplReady) && (p.readRsp.None? || i.readRspReady)
    case _ => false
  }

  function ClassOf(q: Request): nat {
    match q case Execute(_) => 0 case StateWrite(_, _, _, _, _) => 1 case StateRead(_, _, _, _) => 2
  }

  /** The arbiter grants whenever some request is eligible, and then the class nearest to its preference,
      which moves to just behind that class; so each grant to another class brings a waiting one nearer. */
  lemma ArbiterRotates(c: Config, p: Pipe, i: Pins, waiting: nat)
    requires i.Valid() && p.preference < 3 && Requested(p, i, waiting)
    ensures Accepted(p, i).Some?
    ensures var q := Accepted(p, i).value; var k := ClassOf(q);
      && Requested(p, i, k) && q == (if k == 0 then Execute(i.exec.value) else if k == 1 then i.write.value else i.read.value)
      && Distance(p.preference, k, 3) <= Distance(p.preference, waiting, 3)
      && Step(c, p, i).preference == (k + 1) % 3
      && (k != waiting ==> Distance(Step(c, p, i).preference, waiting, 3) < Distance(p.preference, waiting, 3))
  {
  }

  /** After reset execution requests are preferred. */
  lemma ResetPrefersExecution(regs: Registers, i: Pins)
    requires i.Valid() && i.exec.Some?
    ensures Accepted(Reset(regs), i) == Some(Execute(i.exec.value))
  {
  }

  lemma NothingIsGranted(c: Config, p: Pipe, i: Pins)
    requires i.Valid() && p.preference < 3 && forall k: nat :: !Requested(p, i, k)
    ensures Accepted(p, i).None? && Step(c, p, i).preference == p.preference
  {
    assert !Requested(p, i, 0) && !Requested(p, i, 1) && !Requested(p, i, 2);
  }

  const Idle := Pins(None, None, None, true, true, true, true)

  /** Three idle cycles with ready sinks empty the pipeline from any state. */
  lemma DrainsInThreeCycles(c: Config, p: Pipe)
    ensures Drained(Step(c, Step(c, Step(c, p, Idle), Idle), Idle))
  {
    var p1 := Step(c, p, Idle);
    assert p1.operand.None? && p1.readCpl.None? && p1.readRsp.None?;
    var p2 := Step(c, p1, Idle);
    assert Empty(p2);
  }

  /** With ready sinks, an execution request that is alone is accepted in every cycle. */
  lemma FullRate(p: Pipe, i: Pins)
    requires i.exec.Some? && i.write.None? && i.read.None? && i.cplReady && i.rspReady
    ensures Accepted(p, i) == Some(Execute(i.exec.value))
  {
  }

  /** A record that its sink does not take stays as it is. */
  lemma HeldRecordsAreStable(c: Config, p: Pipe, i: Pins)
    requires i.Valid()
    ensures p.cpl.Some? && !i.cplReady ==> Step(c, p, i).cpl == p.cpl
    ensures p.rsp.Some? && !i.rspReady ==> Step(c, p, i).rsp == p.rsp
    ensures p.readCpl.Some? && !i.readCplReady ==> Step(c, p, i).readCpl == p.readCpl
    ensures p.readRsp.Some? && !i.readRspReady ==> Step(c, p, i).readRsp == p.readRsp
  {
  }

  /** While execution requests keep coming and O is full, no state transfer is accepted, whatever the
      arbiter prefers: it needs both stages empty. */
  lemma {:induction false} StateTransfersWait(c: Config, p: Pipe, h: History, cycles: seq<Pins>)
    requires p.operand.Some? && forall i :: i in cycles ==> i.Valid() && i.exec.Some?
    ensures var (_, h') := Run(c, p, h, cycles);
      h.accepted <= h'.accepted && forall k :: |h.accepted| <= k < |h'.accepted| ==> h'.accepted[k].Execute?
    decreases |cycles|
  {
    if cycles != [] {
      assert cycles[0] in cycles;
      var p', h1 := Step(c, p, cycles[0]), Record(p, cycles[0], h);
      assert p'.operand.Some?;
      StateTransfersWait(c, p', h1, cycles[1..]);
    }
  }

  // ----- the clocked object

  class GroupWrapper {
    const config: Config
    var regs: Registers
    var operand: Option<Operand>
    var result: Option<Result>
    var cpl: Option<Completion>
    var rsp: Option<Response>
    var readCpl: Option<ReadCompletion>
    var readRsp: Option<ReadResponse>
    var preference: nat

    ghost const start: Registers
    ghost var history: History

    function Snapshot(): Pipe
      reads this
    {
      Pipe(regs, operand, result, cpl, rsp, readCpl, readRsp, preference)
    }

    ghost predicate Valid()
      reads this
    {
      Refines(config, start, Snapshot(), history)
    }

    constructor (config: Config, regs: Registers)
      ensures Valid() && this.config == config && start == regs && Snapshot() == Reset(regs) && history == Unstarted
    {
      this.config := config;
      this.regs := regs;
      start := regs;
      operand, result, cpl, rsp, readCpl, readRsp, preference := None, None, None, None, None, None, 0;
      history := Unstarted;
    }

    method TakeSinks(i: Pins)
      modifies `cpl, `rsp, `readCpl, `readRsp
      ensures Snapshot() == AfterSinks(old(Snapshot()), i)
    {
      if i.cplReady { cpl := None; }
      if i.rspReady { rsp := None; }
      if i.readCplReady { readCpl := None; }
      if i.readRspReady { readRsp := None; }
    }

    method RetireResult()
      requires result.Some?
      modifies `cpl, `rsp, `regs, `result
      ensures Snapshot() == AfterRetire(config, old(Snapshot()))
    {
      cpl := Some(ResultCompletion(result.value));
      if RequiresResult(result.value.exec) {
        rsp := Some(ResultResponse(config, result.value));
      }
      regs := Commit(regs, result.value);
      result := None;
    }

    method AcceptRequest(q: Request, ops: Operands)
      modifies `operand, `cpl, `regs, `readCpl, `readRsp, `preference
      ensures Snapshot() == AfterAccept(config, old(Snapshot()), q, ops)
    {
      match q {
        case Execute(e) =>
          operand := Some(Operand(e, ops));
          preference := 1;
        case StateWrite(context, tag, _, _, _) =>
          cpl := Some(Completion(context, tag, StateWriteKind, WriteIllegal(config, regs, q), false));
          regs := WriteState(config, regs, q);
          preference := 2;
        case StateRead(context, tag, _, _) =>
          readCpl := Some(ReadCompletion(context, tag, ReadIllegal(config, regs, q)));
          readRsp := Some(ReadState(config, regs, q));
          preference := 0;
      }
    }

    method AdvanceOperand()
      requires operand.Some?
      modifies `operand, `result
      ensures Snapshot() == AfterAdvance(config, old(Snapshot()))
    {
      result := Some(Compute(config, operand.value));
      operand := None;
    }

    /** The registers' clock edge. Acceptance and operand capture are decided on the registered state;
        then a retiring X is replaced by an advancing O, and that by the accepted request. */
    method Edge(i: Pins) returns (accepted: Option<Request>)
      requires i.Valid()
      modifies `regs, `operand, `result, `cpl, `rsp, `readCpl, `readRsp, `preference
      ensures accepted == Accepted(old(Snapshot()), i) && Snapshot() == Step(config, old(Snapshot()), i)
    {
      StepIsPhases(config, Snapshot(), i);
      accepted := Accepted(Snapshot(), i);
      var retire, advance := CanRetire(Snapshot(), i), CanAdvance(Snapshot(), i);
      var ops := Operands([], [], [], [], []);
      if accepted.Some? && accepted.value.Execute? {
        ops := Capture(config, Snapshot(), i, accepted.value.exec);
      }
      TakeSinks(i);
      if retire {
        RetireResult();
      }
      if advance {
        AdvanceOperand();
      }
      if accepted.Some? {
        AcceptRequest(accepted.value, ops);
      }
    }

    /** A cycle keeps the refinement. */
    method Cycle(i: Pins) returns (accepted: Option<Request>)
      requires Valid() && i.Valid()
      modifies this
      ensures Valid() && accepted == Accepted(old(Snapshot()), i)
      ensures Snapshot() == Step(config, old(Snapshot()), i)
      ensures history == Record(old(Snapshot()), i, old(history))
    {
      CycleKeepsRefinement(config, start, Snapshot(), i, history);
      history := Record(Snapshot(), i, history);
      accepted := Edge(i);
    }
  }
}
