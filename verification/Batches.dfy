/** The schedule of the vectorised transform: every stage's butterflies, cut into batches of sixteen. */
module Batches {
  import opened Arith
  import opened Bits
  import opened Fft
  import opened VectorMachine

  datatype Batch = Batch(stage: nat, number: nat, aIndices: seq<nat>, bIndices: seq<nat>, twiddleIndices: seq<nat>)

  /** The butterflies of stage `s` (counted from one) over `2^L` points. */
  function Schedule(L: nat, s: nat): seq<Place>
    requires 0 < s <= L
  {
    StageWhole(L, s);
    StagePlaces(Pow2(L), Pow2(s - 1), Pow2(L - s))
  }

  /** The butterflies of the first `s` stages. */
  function AllPlaces(L: nat, s: nat): seq<Place>
    requires s <= L
  {
    if s == 0 then [] else AllPlaces(L, s - 1) + Schedule(L, s)
  }

  lemma StageWhole(L: nat, s: nat)
    requires 0 < s <= L
    ensures Whole(Pow2(L), 2 * Pow2(s - 1)) && Pow2(s - 1) * Pow2(L - s) == Pow2(L - 1)
    ensures Shape(Pow2(L), s, Pow2(L - s), Pow2(L - 1))
  {
    Pow2Add(s - 1, L - s);
    Pow2Add(L - s, s);
    WholePower(L - s, Pow2(s));
  }

  lemma {:induction false} WholePower(q: nat, size: nat)
    requires size > 0
    ensures Pow2(q) * size >= 0 && Whole(Pow2(q) * size, size)
  {
    if q == 0 {
      assert Whole(0, size) && Pow2(0) * size == size;
    } else {
      WholePower(q - 1, size);
      assert Pow2(q) * size == Pow2(q - 1) * size + Pow2(q - 1) * size;
      WholeSum(Pow2(q - 1) * size, Pow2(q - 1) * size, size);
    }
  }

  lemma {:induction false} StagePlacesLength(n: nat, half: nat, step: nat)
    requires half > 0 && Whole(n, 2 * half)
    ensures 2 * |StagePlaces(n, half, step)| == n
    decreases n
  {
    if n > 0 {
      StagePlacesLength(n - 2 * half, half, step);
    }
  }

  // ----- the butterflies of a stage touch every element at most once

  predicate Apart(p: Place, q: Place) { p.a != q.a && p.a != q.b && p.b != q.a && p.b != q.b }

  predicate Distinct(ps: seq<Place>) {
    forall i, j :: 0 <= i < j < |ps| ==> Apart(ps[i], ps[j])
  }

  predicate Within(ps: seq<Place>, lo: nat, hi: nat) {
    forall i :: 0 <= i < |ps| ==> lo <= ps[i].a < hi && lo <= ps[i].b < hi
  }

  lemma DistinctConcat(ps: seq<Place>, qs: seq<Place>, m: nat, n: nat)
    requires Distinct(ps) && Distinct(qs) && Within(ps, 0, m) && Within(qs, m, n) && m <= n
    ensures Distinct(ps + qs) && Within(ps + qs, 0, n)
  {
  }

  lemma {:induction false} StageDistinct(n: nat, half: nat, step: nat)
    requires half > 0 && Whole(n, 2 * half)
    ensures Distinct(StagePlaces(n, half, step)) && Within(StagePlaces(n, half, step), 0, n)
    decreases n
  {
    if n > 0 {
      StageDistinct(n - 2 * half, half, step);
      DistinctConcat(StagePlaces(n - 2 * half, half, step), Block(n - 2 * half, half, step), n - 2 * half, n);
    }
  }

  /** The schedule as a list is the stages as a function. */
  lemma {:induction false} ScheduleIsStages<T, W>(v: seq<T>, L: nat, s: nat, tw: seq<W>, op: Operation<T, W>)
    requires s <= L && L > 0 && |v| == Pow2(L) && |tw| == Pow2(L - 1)
    requires Shape(|v|, s, Pow2(L - s), |tw|)
    ensures AllFit(AllPlaces(L, s), |v|, |tw|)
    ensures ApplyAll(v, AllPlaces(L, s), tw, op) == Stages(v, s, Pow2(L - s), tw, op)
  {
    if s > 0 {
      StageWhole(L, s);
      ShapeDown(|v|, s, Pow2(L - s), |tw|);
      ScheduleIsStages(v, L, s - 1, tw, op);
      StageFits(|v|, Pow2(s - 1), Pow2(L - s), |v|, |tw|);
      ApplyAllConcat(v, AllPlaces(L, s - 1), Schedule(L, s), tw, op);
    }
  }

  // ----- batches

  /** Batches per stage. */
  function PerStage(L: nat): nat
    requires L >= 5
  {
    Pow2(L - 5)
  }

  /** Batches before stage `s`. */
  function Before(L: nat, s: nat): nat
    requires L >= 5
  {
    if s == 0 then 0 else Before(L, s - 1) + PerStage(L)
  }

  lemma {:induction false} BeforeIsProduct(L: nat, s: nat)
    requires L >= 5
    ensures Before(L, s) == s * PerStage(L)
  {
    if s > 0 {
      BeforeIsProduct(L, s - 1);
      assert s * PerStage(L) == (s - 1) * PerStage(L) + PerStage(L);
    }
  }

  lemma {:induction false} BeforeMonotone(L: nat, s: nat, t: nat)
    requires L >= 5 && s <= t
    ensures Before(L, s) <= Before(L, t)
  {
    if s < t {
      BeforeMonotone(L, s, t - 1);
    }
  }

  lemma {:induction false} AllPlacesLength(L: nat, s: nat)
    requires 5 <= L && s <= L
    ensures |AllPlaces(L, s)| == LANES * Before(L, s)
  {
    if s > 0 {
      AllPlacesLength(L, s - 1);
      StageLength(L, s);
    }
  }

  lemma StageLength(L: nat, s: nat)
    requires 5 <= L && 0 < s <= L
    ensures |Schedule(L, s)| == LANES * PerStage(L)
  {
    StageWhole(L, s);
    StagePlacesLength(Pow2(L), Pow2(s - 1), Pow2(L - s));
    Pow2Add(L - 5, 5);
    assert Pow2(2) == 4 && Pow2(4) == 16 && Pow2(5) == 32;
  }

  function BatchPlaces(L: nat, s: nat, number: nat): (ps: seq<Place>)
    requires 5 <= L && s <= L && number < Before(L, s)
    ensures |ps| == LANES
  {
    AllPlacesLength(L, s);
    AllPlaces(L, s)[LANES * number..LANES * number + LANES]
  }

  /** No batch crosses a stage, so its butterflies touch distinct elements. */
  lemma {:induction false} BatchDistinct(L: nat, s: nat, number: nat)
    requires 5 <= L && s <= L && number < Before(L, s)
    ensures Distinct(BatchPlaces(L, s, number))
    decreases s
  {
    AllPlacesLength(L, s - 1);
    AllPlacesLength(L, s);
    var before := AllPlaces(L, s - 1);
    if number < Before(L, s - 1) {
      BatchDistinct(L, s - 1, number);
      assert BatchPlaces(L, s, number) == BatchPlaces(L, s - 1, number);
    } else {
      StageWhole(L, s);
      StageDistinct(Pow2(L), Pow2(s - 1), Pow2(L - s));
      var i := LANES * number - |before|;
      StageLength(L, s);
      SliceOfConcat(before, Schedule(L, s), i);
    }
  }

  lemma SliceOfConcat(ps: seq<Place>, qs: seq<Place>, i: nat)
    requires i + LANES <= |qs| && Distinct(qs)
    ensures (ps + qs)[|ps| + i..|ps| + i + LANES] == qs[i..i + LANES]
    ensures Distinct(qs[i..i + LANES])
  {
  }

  /** Batch `b` carries the index lists of the batch with its number, and its number lies in its stage. */
  predicate Describes(b: Batch, L: nat, number: nat)
    requires 5 <= L && number < Before(L, L)
  {
    var ps := BatchPlaces(L, L, number);
    && b.number == number && Before(L, b.stage) <= number < Before(L, b.stage + 1)
    && |b.aIndices| == |b.bIndices| == |b.twiddleIndices| == LANES
    && forall i :: 0 <= i < LANES ==> Place(b.aIndices[i], b.bIndices[i], b.twiddleIndices[i]) == ps[i]
  }

  /** The loops over blocks and lanes of one stage. */
  method StageButterflies(n: nat, half: nat, step: nat) returns (butterflies: seq<Place>)
    requires half > 0 && Whole(n, 2 * half)
    ensures butterflies == StagePlaces(n, half, step)
  {
    butterflies := [];
    var base := 0;
    while base < n
      invariant base <= n && Whole(base, 2 * half) && Whole(n - base, 2 * half)
      invariant butterflies == StagePlaces(base, half, step)
    {
      ghost var before, block := butterflies, Block(base, half, step);
      for lane := 0 to half
        invariant butterflies == before + block[..lane]
      {
        MulNonNegative(lane, step);
        butterflies := butterflies + [Place(base + lane, base + lane + half, lane * step)];
        assert block[..lane + 1] == block[..lane] + [block[lane]];
      }
      assert block[..half] == block;
      base := base + 2 * half;
    }
  }

  ghost predicate DescribedFrom(batches: seq<Batch>, L: nat, first: nat)
    requires 5 <= L
  {
    forall k :: 0 <= k < |batches| ==> first + k < Before(L, L) && Describes(batches[k], L, first + k)
  }

  /** The loop that cuts one stage into batches, numbered from `first` on. */
  method StageBatches(L: nat, stage: nat, butterflies: seq<Place>, first: nat) returns (batches: seq<Batch>)
    requires 5 <= L && stage < L && butterflies == Schedule(L, stage + 1) && first == Before(L, stage)
    requires first + PerStage(L) <= Before(L, L)
    ensures |batches| == PerStage(L) && DescribedFrom(batches, L, first)
  {
    batches := [];
    StageLength(L, stage + 1);
    for n := 0 to PerStage(L)
      invariant |batches| == n && DescribedFrom(batches, L, first)
    {
      var offset := LANES * n;
      var group := butterflies[offset..offset + LANES];
      var b := Batch(stage, first + n,
                     seq(LANES, i requires 0 <= i < LANES => group[i].a),
                     seq(LANES, i requires 0 <= i < LANES => group[i].b),
                     seq(LANES, i requires 0 <= i < LANES => group[i].t));
      BatchDescribed(L, stage, n, group, b);
      batches := batches + [b];
    }
  }

  lemma BatchDescribed(L: nat, stage: nat, n: nat, group: seq<Place>, b: Batch)
    requires 5 <= L && stage < L && n < PerStage(L) && |Schedule(L, stage + 1)| == LANES * PerStage(L)
    requires group == Schedule(L, stage + 1)[LANES * n..LANES * n + LANES]
    requires b.stage == stage && b.number == Before(L, stage) + n
    requires |b.aIndices| == |b.bIndices| == |b.twiddleIndices| == LANES
    requires forall i :: 0 <= i < LANES ==> Place(b.aIndices[i], b.bIndices[i], b.twiddleIndices[i]) == group[i]
    ensures b.number < Before(L, L) && Describes(b, L, b.number)
  {
    StageSlice(L, stage, n);
    StepsOfStage(L, stage);
    SameBatch(b, L, group);
  }

  lemma SameBatch(b: Batch, L: nat, group: seq<Place>)
    requires 5 <= L && b.number < Before(L, L) && group == BatchPlaces(L, L, b.number)
    requires Before(L, b.stage) <= b.number < Before(L, b.stage + 1)
    requires |b.aIndices| == |b.bIndices| == |b.twiddleIndices| == LANES
    requires forall i :: 0 <= i < LANES ==> Place(b.aIndices[i], b.bIndices[i], b.twiddleIndices[i]) == group[i]
    ensures Describes(b, L, b.number)
  {
  }

  method MakeBatches(L: nat) returns (batches: seq<Batch>)
    requires 5 <= L
    ensures |batches| == L * PerStage(L) == Before(L, L) && DescribedFrom(batches, L, 0)
  {
    batches := [];
    var stageSize := 2;
    for stage := 0 to L
      invariant stageSize == Pow2(stage + 1)
      invariant |batches| == Before(L, stage) <= Before(L, L)
      invariant DescribedFrom(batches, L, 0)
    {
      StepsOfStage(L, stage);
      var butterflies := StageButterflies(Pow2(L), stageSize / 2, Pow2(L) / stageSize);
      var more := StageBatches(L, stage, butterflies, |batches|);
      batches := batches + more;
      stageSize := stageSize * 2;
    }
    BeforeIsProduct(L, L);
  }

  lemma StepsOfStage(L: nat, stage: nat)
    requires 5 <= L && stage < L
    ensures Pow2(stage + 1) / 2 == Pow2(stage) && Pow2(L) / Pow2(stage + 1) == Pow2(L - stage - 1)
    ensures Whole(Pow2(L), 2 * Pow2(stage))
    ensures Before(L, stage + 1) == Before(L, stage) + PerStage(L) <= Before(L, L)
  {
    StageWhole(L, stage + 1);
    Pow2Add(stage + 1, L - stage - 1);
    MulDivMod(Pow2(stage + 1), Pow2(L - stage - 1));
    BeforeMonotone(L, stage + 1, L);
  }

  /** Batch `group` of a stage is that slice of the stage's schedule. */
  lemma {:induction false} StageSlice(L: nat, stage: nat, group: nat)
    requires 5 <= L && stage < L && group < PerStage(L)
    ensures |Schedule(L, stage + 1)| == LANES * PerStage(L)
    ensures Before(L, stage) + group < Before(L, L)
    ensures BatchPlaces(L, L, Before(L, stage) + group)
         == Schedule(L, stage + 1)[LANES * group..LANES * group + LANES]
  {
    BeforeMonotone(L, stage + 1, L);
    StageLength(L, stage + 1);
    AllPlacesLength(L, stage);
    AllPlacesLength(L, L);
    AllPlacesPrefix(L, stage + 1, L);
    SliceOfPrefix(AllPlaces(L, L), AllPlaces(L, stage), Schedule(L, stage + 1), LANES * group, LANES * (Before(L, stage) + group));
  }

  lemma SliceOfPrefix(all: seq<Place>, ps: seq<Place>, qs: seq<Place>, i: nat, at: nat)
    requires ps + qs <= all && i + LANES <= |qs| && at == |ps| + i
    ensures all[at..at + LANES] == qs[i..i + LANES]
  {
    assert all[at..at + LANES] == (ps + qs)[at..at + LANES];
  }

  lemma {:induction false} AllPlacesPrefix(L: nat, s: nat, t: nat)
    requires s <= t <= L
    ensures |AllPlaces(L, s)| <= |AllPlaces(L, t)| && AllPlaces(L, t)[..|AllPlaces(L, s)|] == AllPlaces(L, s)
  {
    if s < t {
      AllPlacesPrefix(L, s, t - 1);
    }
  }

  // ----- the index tables

  /** The index lists of the first `n` batches, joined: three tables, one for each operand of a butterfly. */
  datatype Tables = Tables(a: seq<nat>, b: seq<nat>, t: seq<nat>)

  function Joined(batches: seq<Batch>, n: nat): Tables
    requires n <= |batches|
  {
    if n == 0 then Tables([], [], []) else
      var before := Joined(batches, n - 1);
      Tables(before.a + batches[n - 1].aIndices, before.b + batches[n - 1].bIndices, before.t + batches[n - 1].twiddleIndices)
  }

  /** Row `i` of the tables is the `i`-th butterfly of `ps`. */
  ghost predicate TablesList(tables: Tables, ps: seq<Place>) {
    |tables.a| == |tables.b| == |tables.t| == |ps| && forall i :: 0 <= i < |ps| ==> Place(tables.a[i], tables.b[i], tables.t[i]) == ps[i]
  }

  /** The batches' index lists, joined, are exactly the butterflies of the whole schedule in order. */
  lemma BatchesListSchedule(L: nat, batches: seq<Batch>)
    requires 5 <= L && |batches| == Before(L, L) && DescribedFrom(batches, L, 0)
    ensures TablesList(Joined(batches, |batches|), AllPlaces(L, L))
  {
    AllPlacesLength(L, L);
    JoinedLists(L, batches, |batches|);
    assert AllPlaces(L, L)[..LANES * |batches|] == AllPlaces(L, L);
  }

  lemma {:induction false} JoinedLists(L: nat, batches: seq<Batch>, n: nat)
    requires 5 <= L && n <= |batches| == Before(L, L) && DescribedFrom(batches, L, 0) && |AllPlaces(L, L)| == LANES * Before(L, L)
    ensures TablesList(Joined(batches, n), AllPlaces(L, L)[..LANES * n])
    decreases n
  {
    if n > 0 {
      JoinedLists(L, batches, n - 1);
      assert Describes(batches[n - 1], L, 0 + (n - 1));
      MoreRows(Joined(batches, n - 1), batches[n - 1], AllPlaces(L, L), LANES * (n - 1));
    }
  }

  lemma MoreRows(tables: Tables, b: Batch, all: seq<Place>, at: nat)
    requires at + LANES <= |all| && TablesList(tables, all[..at])
    requires |b.aIndices| == |b.bIndices| == |b.twiddleIndices| == LANES
    requires forall i :: 0 <= i < LANES ==> Place(b.aIndices[i], b.bIndices[i], b.twiddleIndices[i]) == all[at..at + LANES][i]
    ensures TablesList(Tables(tables.a + b.aIndices, tables.b + b.bIndices, tables.t + b.twiddleIndices), all[..at + LANES])
  {
    assert all[..at + LANES] == all[..at] + all[at..at + LANES];
  }

  /** Building the tables from the schedule. */
  method MakeTables(L: nat) returns (tables: Tables)
    requires 5 <= L
    ensures TablesList(tables, AllPlaces(L, L))
  {
    var batches := MakeBatches(L);
    BatchesListSchedule(L, batches);
    tables := Joined(batches, |batches|);
  }
}
