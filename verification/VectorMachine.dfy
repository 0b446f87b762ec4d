/** The vector actions used by the FFT program: sixteen byte lanes, four accumulator rows, indexed
    and unit-stride memory transfers, and a single program counter. */
module VectorMachine {
  import opened ByteMemory
  import opened SimdExec

  const LANES := 16

  type Row = seq<int>

  datatype Action =
    | Li(rd: nat, imm: int)
    | Addi(rd: nat, rs: nat, imm: int)
    | Bltu(rs: nat, rt: nat, target: nat)
    | VLoad(base: nat, vd: nat)
    | VStore(base: nat, vs: nat, offset: int)
    | VGather(base: nat, vd: nat, vi: nat)
    | VScatter(base: nat, vs: nat, vi: nat)
    | Mul(va: nat, vb: nat, dst: nat)
    | Mac(va: nat, vb: nat, src: nat, dst: nat)
    | Wadd(va: nat, vb: nat, src: nat, dst: nat, align: nat)
    | Nclip(src: nat, shift: nat, vd: nat)
    | AddByte(va: nat, vd: nat, imm: int)
    | End

  /** Scalar registers, vector rows, accumulator rows and byte memory. */
  datatype State = State(pc: nat, regs: seq<int>, vrf: seq<Row>, arf: seq<Row>, mem: seq<int>) {
    predicate Valid() {
      && |regs| == 16 && |vrf| == 16 && |arf| == 4
      && (forall r :: 0 <= r < 16 ==> |vrf[r]| == LANES)
      && (forall r :: 0 <= r < 4 ==> |arf[r]| == LANES)
    }
  }

  function LoadRow(mem: seq<int>, base: int): (r: Row)
    ensures |r| == LANES
  {
    seq(LANES, j => Peek(mem, base + j))
  }

  function GatherRow(mem: seq<int>, base: int, index: Row): (r: Row)
    requires |index| == LANES
    ensures |r| == LANES
  {
    seq(LANES, j requires 0 <= j < LANES => Peek(mem, base + index[j]))
  }

  /** Lanes are written in ascending order, so a later lane wins. */
  function Scatter(mem: seq<int>, base: int, index: Row, data: Row, lanes: nat): (r: seq<int>)
    requires |index| == |data| == LANES && lanes <= LANES
    ensures |r| == |mem|
  {
    if lanes == 0 then mem
    else Poke(Scatter(mem, base, index, data, lanes - 1), base + index[lanes - 1], data[lanes - 1])
  }

  function Identity(): (r: Row)
    ensures |r| == LANES
  {
    seq(LANES, j => j)
  }

  function MulRow(a: Row, b: Row): (r: Row)
    requires |a| == |b| == LANES
    ensures |r| == LANES
  {
    seq(LANES, j requires 0 <= j < LANES => MulS(a[j], b[j]))
  }

  function MacRow(a: Row, b: Row, acc: Row): (r: Row)
    requires |a| == |b| == |acc| == LANES
    ensures |r| == LANES
  {
    seq(LANES, j requires 0 <= j < LANES => MacS(a[j], b[j], acc[j]))
  }

  function WaddRow(a: Row, b: Row, acc: Row, align: nat): (r: Row)
    requires |a| == |b| == |acc| == LANES
    ensures |r| == LANES
  {
    seq(LANES, j requires 0 <= j < LANES => WaddS(a[j], b[j], acc[j], align))
  }

  function NclipRow(acc: Row, shift: nat): (r: Row)
    requires |acc| == LANES
    ensures |r| == LANES
  {
    seq(LANES, j requires 0 <= j < LANES => NclipS(acc[j], shift))
  }

  function AddRow(a: Row, imm: int): (r: Row)
    requires |a| == LANES
    ensures |r| == LANES
  {
    seq(LANES, j requires 0 <= j < LANES => U8(a[j] + imm))
  }

  /** The action falls through to the next one; its register numbers are in range. */
  predicate Advances(a: Action) {
    match a
    case Li(rd, _) => rd < 16
    case Addi(rd, rs, _) => rd < 16 && rs < 16
    case Bltu(_, _, _) => false
    case VLoad(base, vd) => base < 16 && vd < 16
    case VStore(base, vs, _) => base < 16 && vs < 16
    case VGather(base, vd, vi) => base < 16 && vd < 16 && vi < 16
    case VScatter(base, vs, vi) => base < 16 && vs < 16 && vi < 16
    case Mul(va, vb, dst) => va < 16 && vb < 16 && dst < 4
    case Mac(va, vb, src, dst) => va < 16 && vb < 16 && src < 4 && dst < 4
    case Wadd(va, vb, src, dst, _) => va < 16 && vb < 16 && src < 4 && dst < 4
    case Nclip(src, _, vd) => src < 4 && vd < 16
    case AddByte(va, vd, _) => va < 16 && vd < 16
    case End => false
  }

  function SetRow(s: State, vd: nat, row: Row): (r: State)
    requires s.Valid() && vd < 16 && |row| == LANES
    ensures r.Valid() && r.mem == s.mem && r.regs == s.regs && r.arf == s.arf && r.vrf == s.vrf[vd := row]
  {
    s.(pc := s.pc + 1, vrf := s.vrf[vd := row])
  }

  function SetAcc(s: State, dst: nat, row: Row): (r: State)
    requires s.Valid() && dst < 4 && |row| == LANES
    ensures r.Valid() && r.mem == s.mem && r.regs == s.regs && r.vrf == s.vrf && r.arf == s.arf[dst := row]
  {
    s.(pc := s.pc + 1, arf := s.arf[dst := row])
  }

  function SetMem(s: State, mem: seq<int>): (r: State)
    requires s.Valid()
    ensures r.Valid() && r.mem == mem && r.regs == s.regs && r.vrf == s.vrf && r.arf == s.arf
  {
    s.(pc := s.pc + 1, mem := mem)
  }

  function SetReg(s: State, rd: nat, value: int): (r: State)
    requires s.Valid() && rd < 16
    ensures r.Valid() && r.mem == s.mem && r.vrf == s.vrf && r.arf == s.arf && r.regs == s.regs[rd := value]
  {
    s.(pc := s.pc + 1, regs := s.regs[rd := value])
  }

  /** The one update that an advancing action makes. */
  function Effect(s: State, a: Action): (r: State)
    requires s.Valid() && Advances(a)
    ensures r.Valid() && r.pc == s.pc + 1
  {
    match a
    case Li(rd, imm) => SetReg(s, rd, imm)
    case Addi(rd, rs, imm) => SetReg(s, rd, s.regs[rs] + imm)
    case VLoad(base, vd) => SetRow(s, vd, LoadRow(s.mem, s.regs[base]))
    case VStore(base, vs, offset) => SetMem(s, Scatter(s.mem, s.regs[base] + offset, Identity(), s.vrf[vs], LANES))
    case VGather(base, vd, vi) => SetRow(s, vd, GatherRow(s.mem, s.regs[base], s.vrf[vi]))
    case VScatter(base, vs, vi) => SetMem(s, Scatter(s.mem, s.regs[base], s.vrf[vi], s.vrf[vs], LANES))
    case Mul(va, vb, dst) => SetAcc(s, dst, MulRow(s.vrf[va], s.vrf[vb]))
    case Mac(va, vb, src, dst) => SetAcc(s, dst, MacRow(s.vrf[va], s.vrf[vb], s.arf[src]))
    case Wadd(va, vb, src, dst, align) => SetAcc(s, dst, WaddRow(s.vrf[va], s.vrf[vb], s.arf[src], align))
    case Nclip(src, shift, vd) => SetRow(s, vd, NclipRow(s.arf[src], shift))
    case AddByte(va, vd, imm) => SetRow(s, vd, AddRow(s.vrf[va], imm))
  }

  /** One action. An action with a register number out of range leaves the state alone. */
  function Exec(s: State, a: Action): (r: State)
    requires s.Valid()
    ensures r.Valid()
  {
    if Advances(a) then Effect(s, a)
    else if a.Bltu? && a.rs < 16 && a.rt < 16 then
      s.(pc := if s.regs[a.rs] < s.regs[a.rt] then a.target else s.pc + 1)
    else s
  }

  /** `steps` actions of a program; running off its end stops. */
  function Run(program: seq<Action>, s: State, steps: nat): (r: State)
    requires s.Valid()
    ensures r.Valid()
    decreases steps, program
  {
    if steps == 0 || s.pc >= |program| then s
    else Run(program, Exec(s, program[s.pc]), steps - 1)
  }

  lemma {:induction false} RunSplit(program: seq<Action>, s: State, steps: nat, m: nat, n: nat)
    requires s.Valid() && steps == m + n
    ensures Run(program, s, steps) == Run(program, Run(program, s, m), n)
    decreases m
  {
    if m > 0 && s.pc < |program| {
      RunSplit(program, Exec(s, program[s.pc]), steps - 1, m - 1, n);
    } else if m > 0 {
      assert Run(program, s, m) == s;
    }
  }

  /** Straight-line execution of a list of actions. */
  function ExecAll(s: State, actions: seq<Action>): (r: State)
    requires s.Valid()
    ensures r.Valid()
    decreases |actions|
  {
    if actions == [] then s else ExecAll(Exec(s, actions[0]), actions[1..])
  }

  lemma {:induction false} ExecAllConcat(s: State, xs: seq<Action>, ys: seq<Action>)
    requires s.Valid()
    ensures ExecAll(s, xs + ys) == ExecAll(ExecAll(s, xs), ys)
    decreases |xs|
  {
    if xs == [] {
      assert xs + ys == ys;
    } else {
      assert (xs + ys)[1..] == xs[1..] + ys;
      ExecAllConcat(Exec(s, xs[0]), xs[1..], ys);
    }
  }

  /** Actions that only advance the program counter run in sequence. */
  lemma {:induction false} RunStraight(program: seq<Action>, s: State, xs: seq<Action>)
    requires s.Valid() && s.pc + |xs| <= |program| && program[s.pc..s.pc + |xs|] == xs
    requires forall i :: 0 <= i < |xs| ==> Advances(xs[i])
    ensures Run(program, s, |xs|) == ExecAll(s, xs) && ExecAll(s, xs).pc == s.pc + |xs|
    decreases |xs|
  {
    if xs != [] {
      assert program[s.pc] == program[s.pc..s.pc + |xs|][0] == xs[0] && Advances(xs[0]);
      var next := Exec(s, xs[0]);
      assert next.pc == s.pc + 1;
      assert program[next.pc..next.pc + |xs[1..]|] == program[s.pc..s.pc + |xs|][1..];
      RunStraight(program, next, xs[1..]);
    }
  }

  lemma Exec3(s: State, a: Action, b: Action, c: Action)
    requires s.Valid()
    ensures ExecAll(s, [a, b, c]) == Exec(Exec(Exec(s, a), b), c)
  {
    var xs := [a, b, c];
    assert xs[1..] == [b, c] && [b, c][1..] == [c] && [c][1..] == [];
    assert ExecAll(Exec(Exec(s, a), b), [c]) == Exec(Exec(Exec(s, a), b), c);
  }

  lemma {:induction false} Exec4(s: State, a: Action, b: Action, c: Action, d: Action)
    requires s.Valid()
    ensures ExecAll(s, [a, b, c, d]) == Exec(Exec(Exec(Exec(s, a), b), c), d)
  {
    assert [a, b, c, d][1..] == [b, c, d];
    Exec3(Exec(s, a), b, c, d);
  }
}
