/** Indexed vector loads and stores: one aligned four-byte bus beat per selected lane, in ascending
    group and lane order, stopping at the first fault. */
module IndexedMemory {
  import opened Arith
  import opened ByteMemory
  import opened Wrappers

  const ROW := 4

  type Row = seq<int>

  datatype Status = Ok | BadAddress | MemoryFault

  datatype Completion = Completion(status: Status, faultAddress: Option<nat>, completed: set<nat>, failed: set<nat>,
                                   committed: nat, partial: bool)

  // ----- lanes in order

  /** The selected groups, lowest first. */
  function Selected(mask: seq<bool>, from: nat): (r: seq<nat>)
    ensures forall k :: 0 <= k < |r| ==> from <= r[k] < |mask| && mask[r[k]]
    ensures forall j, k :: 0 <= j < k < |r| ==> r[j] < r[k]
    decreases |mask| - from
  {
    if from >= |mask| then [] else if mask[from] then [from] + Selected(mask, from + 1) else Selected(mask, from + 1)
  }

  ghost predicate Rows(groups: seq<nat>, rows: seq<Row>) {
    forall k :: 0 <= k < |groups| ==> groups[k] < |rows| && |rows[groups[k]]| == ROW
  }

  /** The bytes of one row per selected group, in the order in which the engine visits them. */
  function Flat(groups: seq<nat>, rows: seq<Row>): (r: seq<int>)
    requires Rows(groups, rows)
    ensures |r| == ROW * |groups|
  {
    if groups == [] then [] else
      assert groups[0] < |rows|;
      rows[groups[0]] + Flat(groups[1..], rows)
  }

  lemma {:induction false} FlatAt(groups: seq<nat>, rows: seq<Row>, k: nat, lane: nat)
    requires Rows(groups, rows) && k < |groups| && lane < ROW
    ensures Flat(groups, rows)[ROW * k + lane] == rows[groups[k]][lane]
    decreases k
  {
    if k > 0 {
      FlatAt(groups[1..], rows, k - 1, lane);
    }
  }

  // ----- what memory should hold

  /** Bytes written one after the other. */
  function Written(mem: seq<int>, base: nat, index: seq<int>, data: seq<int>, n: nat): (r: seq<int>)
    requires n <= |index| && n <= |data|
    ensures |r| == |mem|
  {
    if n == 0 then mem else Poke(Written(mem, base, index, data, n - 1), base + index[n - 1], data[n - 1])
  }

  /** The last of the first `n` lanes that points at `address`. */
  function LastWriter(base: nat, index: seq<int>, n: nat, address: nat): (r: Option<nat>)
    requires n <= |index|
    ensures r.Some? ==> r.value < n && base + index[r.value] == address && forall j :: r.value < j < n ==> base + index[j] != address
    ensures r.None? ==> forall j :: 0 <= j < n ==> base + index[j] != address
  {
    if n == 0 then None else if base + index[n - 1] == address then Some(n - 1) else LastWriter(base, index, n - 1, address)
  }

  /** Duplicate offsets are deterministic: the last lane wins, and other bytes are untouched. */
  lemma {:induction false} LastWriterWins(mem: seq<int>, base: nat, index: seq<int>, data: seq<int>, n: nat, address: nat)
    requires n <= |index| == |data| && address < |mem|
    ensures Written(mem, base, index, data, n)[address]
         == match LastWriter(base, index, n, address) case Some(j) => data[j] case None => mem[address]
  {
    if n > 0 {
      LastWriterWins(mem, base, index, data, n - 1, address);
    }
  }

  /** Gathering through the index that scattered returns, lane by lane, the winner for its address; with
      distinct offsets that is the lane's own byte. */
  lemma GatherAfterScatter(mem: seq<int>, base: nat, index: seq<int>, data: seq<int>, lane: nat)
    requires |index| == |data| && (forall j :: 0 <= j < |index| ==> 0 <= base + index[j] < |mem|) && lane < |index|
    ensures var w := LastWriter(base, index, |index|, base + index[lane]);
      w.Some? && w.value >= lane && Written(mem, base, index, data, |index|)[base + index[lane]] == data[w.value]
    ensures (forall j, k :: 0 <= j < k < |index| ==> index[j] != index[k])
        ==> Written(mem, base, index, data, |index|)[base + index[lane]] == data[lane]
  {
    LastWriterWins(mem, base, index, data, |index|, base + index[lane]);
  }

  // ----- one bus beat

  /** A store beat: the strobed bytes of an aligned word. */
  method StoreWord(mem: array<int>, address: nat, word: Row, strobe: seq<bool>)
    requires |word| == |strobe| == ROW && address + ROW <= mem.Length
    modifies mem
    ensures forall a :: 0 <= a < mem.Length ==>
      mem[a] == if address <= a < address + ROW && strobe[a - address] then word[a - address] else old(mem[a])
  {
    for lane := 0 to ROW
      invariant forall a :: 0 <= a < mem.Length ==>
        mem[a] == if address <= a < address + lane && strobe[a - address] then word[a - address] else old(mem[a])
    {
      if strobe[lane] {
        mem[address + lane] := word[lane];
      }
    }
  }

  function Align(address: nat): (r: nat)
    ensures r <= address < r + ROW && r % ROW == 0
  {
    address - address % ROW
  }

  lemma AlignInside(address: nat, limit: nat)
    requires address < limit && limit % ROW == 0
    ensures Align(address) + ROW <= limit
  {
  }

  /** One byte through a one-hot strobed beat. */
  method StoreByte(mem: array<int>, address: nat, byte: int)
    requires address < mem.Length && mem.Length % ROW == 0
    modifies mem
    ensures mem[..] == old(mem[..])[address := byte]
  {
    AlignInside(address, mem.Length);
    var lane := address % ROW;
    StoreWord(mem, Align(address), seq(ROW, i => if i == lane then byte else 0), seq(ROW, i => i == lane));
  }

  /** One byte out of an aligned beat. */
  method LoadByte(mem: array<int>, address: nat) returns (byte: int)
    requires address < mem.Length && mem.Length % ROW == 0
    ensures byte == mem[address]
  {
    AlignInside(address, mem.Length);
    var word := mem[Align(address)..Align(address) + ROW];
    byte := word[address % ROW];
  }

  // ----- where a command stops

  /** Lane `r` does not reach memory: its address leaves the address space, or its beat faults. */
  predicate Stops(limit: nat, base: nat, index: seq<int>, faults: set<nat>, r: nat)
    requires r < |index|
  {
    base + index[r] >= limit || r in faults
  }

  /** How many lanes succeed from `r` on, as a position. */
  function StopAt(limit: nat, base: nat, index: seq<int>, faults: set<nat>, r: nat): (f: nat)
    requires r <= |index|
    ensures r <= f <= |index| && (f < |index| ==> Stops(limit, base, index, faults, f))
    ensures forall j :: r <= j < f ==> !Stops(limit, base, index, faults, j)
    decreases |index| - r
  {
    if r == |index| || Stops(limit, base, index, faults, r) then r else StopAt(limit, base, index, faults, r + 1)
  }

  predicate Bytes(s: seq<int>) {
    forall j :: 0 <= j < |s| ==> 0 <= s[j] < 256
  }

  ghost predicate ByteRows(groups: seq<nat>, rows: seq<Row>) {
    Rows(groups, rows) && forall k :: 0 <= k < |groups| ==> Bytes(rows[groups[k]])
  }

  function SetOf(groups: seq<nat>, n: nat): set<nat>
    requires n <= |groups|
  {
    set k | 0 <= k < n :: groups[k]
  }

  /** The report of a command on `groups` that stops at lane `f`; `committed` bytes are done. */
  ghost predicate Reports(c: Completion, groups: seq<nat>, limit: nat, base: nat, index: seq<int>, f: nat, committed: nat)
    requires f <= |index| == ROW * |groups|
  {
    && c.committed == committed
    && c.completed == SetOf(groups, f / ROW)
    && c.partial == (f < |index| && committed != 0)
    && if f == |index| then c.status == Ok && c.faultAddress == None && c.failed == {}
       else c.failed == {groups[f / ROW]}
            && if base + index[f] >= limit then c.status == BadAddress && c.faultAddress == None
               else c.status == MemoryFault && c.faultAddress == Some(base + index[f])
  }

  // ----- the commands

  /** Position in the visit order: group `k` of the selected ones, then lane. */
  lemma SelectedStep(mask: seq<bool>, g: nat, groups: seq<nat>, k: nat)
    requires g < |mask| && k <= |groups| && groups[k..] == Selected(mask, g)
    ensures mask[g] ==> k < |groups| && groups[k] == g && groups[k + 1..] == Selected(mask, g + 1)
    ensures !mask[g] ==> groups[k..] == Selected(mask, g + 1)
  {
    if mask[g] {
      assert groups[k..][0] == g && groups[k + 1..] == groups[k..][1..];
    }
  }

  /** What one lane of the visit order is. */
  ghost predicate LaneIs(groups: seq<nat>, rows: seq<Row>, flat: seq<int>, k: nat)
    requires Rows(groups, rows) && k < |groups| && |flat| == ROW * |groups|
  {
    forall lane :: 0 <= lane < ROW ==> flat[ROW * k + lane] == rows[groups[k]][lane]
  }

  lemma FlatLanes(groups: seq<nat>, rows: seq<Row>, k: nat)
    requires Rows(groups, rows) && k < |groups|
    ensures LaneIs(groups, rows, Flat(groups, rows), k)
  {
    forall lane: nat | lane < ROW ensures Flat(groups, rows)[ROW * k + lane] == rows[groups[k]][lane] {
      FlatAt(groups, rows, k, lane);
    }
  }

  /** Nothing stops before `n`, so memory reaches at least there. */
  ghost predicate Clear(limit: nat, base: nat, index: seq<int>, faults: set<nat>, n: nat) {
    n <= |index| && forall j :: 0 <= j < n ==> !Stops(limit, base, index, faults, j)
  }

  lemma StopsHere(limit: nat, base: nat, index: seq<int>, faults: set<nat>, f: nat)
    requires Clear(limit, base, index, faults, f) && (f < |index| ==> Stops(limit, base, index, faults, f))
    ensures StopAt(limit, base, index, faults, 0) == f
  {
    var g := StopAt(limit, base, index, faults, 0);
    assert !(g < f) && !(f < g);
  }

  /** The report of a command that stops in `group`. */
  function Failure(address: nat, limit: nat, group: nat, completed: set<nat>, committed: nat): Completion {
    if address >= limit then Completion(BadAddress, None, completed, {group}, committed, committed != 0)
    else Completion(MemoryFault, Some(address), completed, {group}, committed, committed != 0)
  }

  lemma {:induction false} WrittenOn(mem: seq<int>, base: nat, index: seq<int>, data: seq<int>, k: nat, indexRow: Row, dataRow: Row, n: nat)
    requires n <= ROW == |indexRow| == |dataRow| && ROW * k + ROW <= |index| == |data|
    requires forall lane :: 0 <= lane < ROW ==> index[ROW * k + lane] == indexRow[lane] && data[ROW * k + lane] == dataRow[lane]
    ensures Written(mem, base, index, data, ROW * k + n) == Written(Written(mem, base, index, data, ROW * k), base, indexRow, dataRow, n)
  {
    if n > 0 {
      WrittenOn(mem, base, index, data, k, indexRow, dataRow, n - 1);
    }
  }

  /** Of the lanes of a row, the first `n` reach memory, and the next one, if any, does not. */
  ghost predicate LanesClear(limit: nat, base: nat, row: Row, faults: set<nat>, first: nat, n: nat)
    requires n <= |row|
  {
    forall lane :: 0 <= lane < n ==> base + row[lane] < limit && first + lane !in faults
  }

  ghost predicate RowStops(limit: nat, base: nat, row: Row, faults: set<nat>, first: nat, n: nat)
    requires |row| == ROW
  {
    && n <= ROW && LanesClear(limit, base, row, faults, first, n)
    && (n < ROW ==> base + row[n] >= limit || first + n in faults)
  }

  ghost predicate IsWritten(before: seq<int>, base: nat, index: seq<int>, data: seq<int>, n: nat, now: seq<int>) {
    n <= |index| && n <= |data| && now == Written(before, base, index, data, n)
  }

  /** The lanes of one row, from request number `first` on, up to the first that stops. */
  method ScatterRow(mem: array<int>, base: nat, index: Row, data: Row, faults: set<nat>, first: nat) returns (n: nat)
    requires mem.Length % ROW == 0 && |index| == |data| == ROW && Bytes(index)
    modifies mem
    ensures RowStops(mem.Length, base, index, faults, first, n) && IsWritten(old(mem[..]), base, index, data, n, mem[..])
  {
    n := 0;
    while n < ROW
      invariant n <= ROW && IsWritten(old(mem[..]), base, index, data, n, mem[..])
      invariant LanesClear(mem.Length, base, index, faults, first, n)
    {
      var address := base + index[n];
      if address >= mem.Length || first + n in faults {
        return;
      }
      StoreByte(mem, address, data[n]);
      n := n + 1;
    }
  }

  method GatherRow(mem: array<int>, base: nat, index: Row, faults: set<nat>, first: nat) returns (n: nat, row: Row)
    requires mem.Length % ROW == 0 && |index| == ROW && Bytes(index)
    ensures RowStops(mem.Length, base, index, faults, first, n)
    ensures n == ROW ==> Gathered(mem[..], base, index, row)
  {
    n, row := 0, seq(ROW, i => 0);
    while n < ROW
      invariant n <= ROW == |row| && LanesClear(mem.Length, base, index, faults, first, n)
      invariant forall lane :: 0 <= lane < n ==> row[lane] == mem[base + index[lane]]
    {
      var address := base + index[n];
      if address >= mem.Length || first + n in faults {
        return;
      }
      var byte := LoadByte(mem, address);
      row := row[n := byte];
      n := n + 1;
    }
  }

  /** The lanes of group number `k` that succeeded extend the clear prefix; a lane that did not ends it. */
  lemma RowClear(limit: nat, base: nat, index: seq<int>, faults: set<nat>, k: nat, row: Row, n: nat)
    requires |row| == ROW && ROW * k + ROW <= |index| && Clear(limit, base, index, faults, ROW * k)
    requires forall lane :: 0 <= lane < ROW ==> index[ROW * k + lane] == row[lane]
    requires RowStops(limit, base, row, faults, ROW * k, n)
    ensures Clear(limit, base, index, faults, ROW * k + n)
    ensures n < ROW ==> StopAt(limit, base, index, faults, 0) == ROW * k + n && (ROW * k + n) / ROW == k
  {
    forall j | 0 <= j < ROW * k + n ensures !Stops(limit, base, index, faults, j) {
      if j >= ROW * k {
        assert index[j] == row[j - ROW * k];
      }
    }
    if n < ROW {
      StopsHere(limit, base, index, faults, ROW * k + n);
    }
  }

  lemma FailureReports(groups: seq<nat>, limit: nat, base: nat, index: seq<int>, k: nat, n: nat, address: nat, committed: nat)
    requires |index| == ROW * |groups| && k < |groups| && n < ROW && address == base + index[ROW * k + n]
    ensures Reports(Failure(address, limit, groups[k], SetOf(groups, k), committed), groups, limit, base, index, ROW * k + n, committed)
  {
  }

  lemma SuccessReports(groups: seq<nat>, limit: nat, base: nat, index: seq<int>)
    requires |index| == ROW * |groups|
    ensures Reports(Completion(Ok, None, SetOf(groups, |groups|), {}, |index|, false), groups, limit, base, index, |index|, |index|)
  {
  }

  lemma SetOfMore(groups: seq<nat>, k: nat)
    requires k < |groups|
    ensures SetOf(groups, k + 1) == SetOf(groups, k) + {groups[k]}
  {
  }

  /** `flat` lists the rows of `groups`. */
  ghost predicate Lists(groups: seq<nat>, rows: seq<Row>, flat: seq<int>) {
    && Rows(groups, rows) && |flat| == ROW * |groups|
    && forall k :: 0 <= k < |groups| ==> LaneIs(groups, rows, flat, k)
  }

  lemma FlatLists(groups: seq<nat>, rows: seq<Row>)
    requires Rows(groups, rows)
    ensures Lists(groups, rows, Flat(groups, rows))
  {
    forall k | 0 <= k < |groups| ensures LaneIs(groups, rows, Flat(groups, rows), k) {
      FlatLanes(groups, rows, k);
    }
  }

  /** The scan has visited the first `k` of the selected groups. */
  ghost predicate Visited(mask: seq<bool>, groups: seq<nat>, g: nat, k: nat, completed: set<nat>) {
    k <= |groups| && groups[k..] == Selected(mask, g) && completed == SetOf(groups, k)
  }

  lemma VisitNext(mask: seq<bool>, groups: seq<nat>, g: nat, k: nat, completed: set<nat>)
    requires Visited(mask, groups, g, k, completed) && g < |mask|
    ensures mask[g] ==> k < |groups| && groups[k] == g && Visited(mask, groups, g + 1, k + 1, completed + {g})
    ensures !mask[g] ==> Visited(mask, groups, g + 1, k, completed)
  {
    SelectedStep(mask, g, groups, k);
    if mask[g] {
      SetOfMore(groups, k);
    }
  }

  lemma AllVisited(mask: seq<bool>, groups: seq<nat>, k: nat, completed: set<nat>)
    requires Visited(mask, groups, |mask|, k, completed)
    ensures k == |groups| && completed == SetOf(groups, |groups|)
  {
    assert groups[k..] == [];
  }

  /** The first `n` lanes have reached memory. */
  ghost predicate Stored(base: nat, index: seq<int>, data: seq<int>, faults: set<nat>, before: seq<int>, now: seq<int>, n: nat) {
    |index| == |data| && Clear(|now|, base, index, faults, n) && IsWritten(before, base, index, data, n, now)
  }

  lemma RowStored(base: nat, index: seq<int>, data: seq<int>, faults: set<nat>, before: seq<int>, now: seq<int>,
                  k: nat, indexRow: Row, dataRow: Row, n: nat, after: seq<int>)
    requires |indexRow| == |dataRow| == ROW && ROW * k + ROW <= |index| && Stored(base, index, data, faults, before, now, ROW * k)
    requires forall lane :: 0 <= lane < ROW ==> index[ROW * k + lane] == indexRow[lane] && data[ROW * k + lane] == dataRow[lane]
    requires RowStops(|now|, base, indexRow, faults, ROW * k, n) && IsWritten(now, base, indexRow, dataRow, n, after)
    ensures Stored(base, index, data, faults, before, after, ROW * k + n)
    ensures n < ROW ==> StopAt(|now|, base, index, faults, 0) == ROW * k + n
  {
    WrittenOn(before, base, index, data, k, indexRow, dataRow, n);
    RowClear(|now|, base, index, faults, k, indexRow, n);
  }

  method ScatterGroups(mem: array<int>, mask: seq<bool>, base: nat, indexRows: seq<Row>, dataRows: seq<Row>, faults: set<nat>,
                       ghost groups: seq<nat>, ghost index: seq<int>, ghost data: seq<int>)
    returns (c: Completion, ghost f: nat)
    requires mem.Length % ROW == 0 && Visited(mask, groups, 0, 0, {}) && ByteRows(groups, indexRows)
    requires Lists(groups, indexRows, index) && Lists(groups, dataRows, data)
    modifies mem
    ensures f <= |index| && f == StopAt(mem.Length, base, index, faults, 0)
    ensures mem[..] == Written(old(mem[..]), base, index, data, f)
    ensures Reports(c, groups, mem.Length, base, index, f, f)
  {
    ghost var before := mem[..];
    ghost var k: nat := 0;
    var completed: set<nat> := {};
    var committed: nat := 0;
    for g := 0 to |mask|
      invariant Visited(mask, groups, g, k, completed) && committed == ROW * k
      invariant Stored(base, index, data, faults, before, mem[..], committed)
    {
      VisitNext(mask, groups, g, k, completed);
      if mask[g] {
        ghost var now := mem[..];
        assert LaneIs(groups, indexRows, index, k) && LaneIs(groups, dataRows, data, k);
        var n := ScatterRow(mem, base, indexRows[g], dataRows[g], faults, committed);
        RowStored(base, index, data, faults, before, now, k, indexRows[g], dataRows[g], n, mem[..]);
        committed := committed + n;
        if n < ROW {
          var address := base + indexRows[g][n];
          f, c := committed, Failure(address, mem.Length, g, completed, committed);
          FailureReports(groups, mem.Length, base, index, k, n, address, f);
          return;
        }
        completed := completed + {g};
        k := k + 1;
      }
    }
    AllVisited(mask, groups, k, completed);
    f := committed;
    StopsHere(mem.Length, base, index, faults, f);
    SuccessReports(groups, mem.Length, base, index);
    c := Completion(Ok, None, completed, {}, committed, false);
  }

  /** VSCATTER. Memory ends as if the lanes in front of the first stop had been written one by one in
      group and lane order, and the report names exactly that prefix. */
  method Scatter(mem: array<int>, mask: seq<bool>, base: nat, indexRows: seq<Row>, dataRows: seq<Row>, faults: set<nat>)
    returns (c: Completion, ghost f: nat)
    requires mem.Length % ROW == 0 && ByteRows(Selected(mask, 0), indexRows) && ByteRows(Selected(mask, 0), dataRows)
    modifies mem
    ensures var groups := Selected(mask, 0);
      var index := Flat(groups, indexRows);
      && f <= |index| && f == StopAt(mem.Length, base, index, faults, 0)
      && mem[..] == Written(old(mem[..]), base, index, Flat(groups, dataRows), f)
      && Reports(c, groups, mem.Length, base, index, f, f)
  {
    ghost var groups := Selected(mask, 0);
    FlatLists(groups, indexRows);
    FlatLists(groups, dataRows);
    c, f := ScatterGroups(mem, mask, base, indexRows, dataRows, faults, groups, Flat(groups, indexRows), Flat(groups, dataRows));
  }

  /** A row of bytes fetched through an index row. */
  ghost predicate Gathered(mem: seq<int>, base: nat, index: Row, row: Row) {
    |index| == |row| == ROW && forall lane :: 0 <= lane < ROW ==> 0 <= base + index[lane] < |mem| && row[lane] == mem[base + index[lane]]
  }

  /** The first `k` selected groups have their rows, the others theirs of before. */
  ghost predicate RowsDone(mem: seq<int>, base: nat, indexRows: seq<Row>, groups: seq<nat>, before: seq<Row>, rows: seq<Row>, k: nat)
    requires Rows(groups, indexRows) && k <= |groups|
  {
    && |rows| == |before|
    && (forall h :: 0 <= h < |rows| && h !in SetOf(groups, k) ==> rows[h] == before[h])
    && forall j :: 0 <= j < k ==> groups[j] < |rows| && Gathered(mem, base, indexRows[groups[j]], rows[groups[j]])
  }

  lemma RowAdded(mem: seq<int>, base: nat, indexRows: seq<Row>, groups: seq<nat>, before: seq<Row>, rows: seq<Row>, k: nat, row: Row)
    requires Rows(groups, indexRows) && k < |groups| && RowsDone(mem, base, indexRows, groups, before, rows, k)
    requires groups[k] < |rows| && Gathered(mem, base, indexRows[groups[k]], row) && forall j :: 0 <= j < k ==> groups[j] != groups[k]
    ensures RowsDone(mem, base, indexRows, groups, before, rows[groups[k] := row], k + 1)
  {
    SetOfMore(groups, k);
  }

  method GatherGroups(mem: array<int>, mask: seq<bool>, base: nat, indexRows: seq<Row>, before: seq<Row>, faults: set<nat>,
                      ghost groups: seq<nat>, ghost index: seq<int>)
    returns (c: Completion, rows: seq<Row>, ghost f: nat)
    requires mem.Length % ROW == 0 && Visited(mask, groups, 0, 0, {}) && ByteRows(groups, indexRows) && Rows(groups, before)
    requires Lists(groups, indexRows, index) && forall j, k :: 0 <= j < k < |groups| ==> groups[j] != groups[k]
    ensures f <= |index| && f == StopAt(mem.Length, base, index, faults, 0)
    ensures Reports(c, groups, mem.Length, base, index, f, ROW * (f / ROW))
    ensures RowsDone(mem[..], base, indexRows, groups, before, rows, f / ROW)
  {
    ghost var k: nat := 0;
    var completed: set<nat> := {};
    var committed: nat := 0;
    rows := before;
    for g := 0 to |mask|
      invariant Visited(mask, groups, g, k, completed) && committed == ROW * k
      invariant Clear(mem.Length, base, index, faults, committed)
      invariant RowsDone(mem[..], base, indexRows, groups, before, rows, k)
    {
      VisitNext(mask, groups, g, k, completed);
      if mask[g] {
        assert LaneIs(groups, indexRows, index, k);
        var n, row := GatherRow(mem, base, indexRows[g], faults, committed);
        RowClear(mem.Length, base, index, faults, k, indexRows[g], n);
        if n < ROW {
          f := committed + n;
          FailureReports(groups, mem.Length, base, index, k, n, base + indexRows[g][n], committed);
          c := Failure(base + indexRows[g][n], mem.Length, g, completed, committed);
          return;
        }
        RowAdded(mem[..], base, indexRows, groups, before, rows, k, row);
        rows := rows[g := row];
        completed := completed + {g};
        committed := committed + ROW;
        k := k + 1;
      }
    }
    AllVisited(mask, groups, k, completed);
    f := committed;
    StopsHere(mem.Length, base, index, faults, f);
    SuccessReports(groups, mem.Length, base, index);
    c := Completion(Ok, None, completed, {}, committed, false);
  }

  /** VGATHER. The rows of the completed groups hold the bytes that their lanes address; a row is written
      only when all its lanes have arrived, and every other row is as before. */
  method Gather(mem: array<int>, mask: seq<bool>, base: nat, indexRows: seq<Row>, before: seq<Row>, faults: set<nat>)
    returns (c: Completion, rows: seq<Row>, ghost f: nat)
    requires mem.Length % ROW == 0 && ByteRows(Selected(mask, 0), indexRows) && Rows(Selected(mask, 0), before)
    ensures var groups := Selected(mask, 0);
      var index := Flat(groups, indexRows);
      && f <= |index| && f == StopAt(mem.Length, base, index, faults, 0)
      && Reports(c, groups, mem.Length, base, index, f, ROW * (f / ROW))
      && RowsDone(mem[..], base, indexRows, groups, before, rows, f / ROW)
  {
    ghost var groups := Selected(mask, 0);
    FlatLists(groups, indexRows);
    c, rows, f := GatherGroups(mem, mask, base, indexRows, before, faults, groups, Flat(groups, indexRows));
  }
}
