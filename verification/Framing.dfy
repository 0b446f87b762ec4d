/** Variable-length records in a stream of 32-bit words, cut at the first END header. */
module Framing {
  import Arith

  /** A 32-bit word is a number below `0x1_0000_0000`; nothing here depends on the bound. */
  type Word = int

  datatype Class = ExecClass | MemoryClass | ControlClass | UndefinedClass

  const MEMORY := 0xB
  const CONTROL := 0xC
  const END: Word := 0xC000_0000

  function Major(w: Word): int {
    w / 0x1000_0000
  }

  function ClassOf(w: Word): Class {
    var m := Major(w);
    if 1 <= m <= 10 then ExecClass else if m == MEMORY then MemoryClass else if m == CONTROL then ControlClass else UndefinedClass
  }

  /** An EXEC base word that owns the word after it. */
  predicate ExtensionRequired(w: Word) {
    match Major(w)
    case 1 => w / 32 % 2 == 1
    case 2 => w / 64 % 2 == 1
    case 3 => w / 256 % 2 == 1
    case 4 => w / 256 % 2 == 1
    case 6 => true
    case 7 => w / 512 % 2 == 1
    case _ => false
  }

  /** The length of the record that a header starts. */
  function WordCount(header: Word): (n: nat)
    ensures 1 <= n <= 4 && (header == END ==> n == 1)
  {
    match ClassOf(header)
    case ExecClass => if ExtensionRequired(header) then 2 else 1
    case MemoryClass => 1 + header / 0x400_0000 % 4
    case ControlClass => 1 + header / 0x400_0000 % 4
    case UndefinedClass => 1
  }

  /** Where an EXEC format keeps its extension bit, as the weight of that bit. */
  predicate ExtensionWeight(format: nat, weight: nat) {
    || (format == 1 && weight == 32)
    || (format == 2 && weight == 64)
    || (format == 3 && weight == 256)
    || (format == 4 && weight == 256)
    || (format == 7 && weight == 512)
  }

  /** A header put together from its fields: the length is one word and the body words for memory and
      control records; for EXEC records it is two words exactly when the format's extension bit is set. */
  lemma HeaderLength(major: nat, body: nat, low: nat)
    requires (major == MEMORY || major == CONTROL) && body < 4 && low < 0x400_0000
    ensures var w := major * 0x1000_0000 + body * 0x400_0000 + low;
      WordCount(w) == 1 + body && ClassOf(w) == if major == MEMORY then MemoryClass else ControlClass
  {
  }

  lemma ExtendedLength(format: nat, weight: nat, high: nat, flag: nat, low: nat)
    requires ExtensionWeight(format, weight) && flag <= 1 && low < weight && 2 * weight * high + flag * weight + low < 0x1000_0000
    ensures var w := format * 0x1000_0000 + 2 * weight * high + flag * weight + low; WordCount(w) == 1 + flag && ClassOf(w) == ExecClass
  {
    var w := format * 0x1000_0000 + 2 * weight * high + flag * weight + low;
    assert Major(w) == format;
    if weight == 32 {
      BitOf(w, 32, format * 0x40_0000 + high, flag, low);
    } else if weight == 64 {
      BitOf(w, 64, format * 0x20_0000 + high, flag, low);
    } else if weight == 256 {
      BitOf(w, 256, format * 0x8_0000 + high, flag, low);
    } else {
      BitOf(w, 512, format * 0x4_0000 + high, flag, low);
    }
  }

  lemma BitOf(w: Word, weight: nat, above: nat, flag: nat, low: nat)
    requires weight > 0 && w == weight * (2 * above + flag) + low && flag <= 1 && low < weight
    ensures w / weight % 2 == flag
  {
    Arith.DivModUnique(w, weight, 2 * above + flag, low);
  }

  /** Multiply-accumulate with an immediate always owns the next word; every other header without an
      extension bit is alone. */
  lemma FixedLength(major: nat, low: nat)
    requires major < 16 && low < 0x1000_0000 && major != MEMORY && major != CONTROL && forall weight: nat :: !ExtensionWeight(major, weight)
    ensures var w := major * 0x1000_0000 + low;
      WordCount(w) == (if major == 6 then 2 else 1) && ClassOf(w) == if 1 <= major <= 10 then ExecClass else UndefinedClass
  {
    assert Major(major * 0x1000_0000 + low) == major;
    assert !ExtensionWeight(major, 32) && !ExtensionWeight(major, 64) && !ExtensionWeight(major, 256) && !ExtensionWeight(major, 512);
  }

  /** `at` is the word address of the header, counted without wrap-around. `required` is what the
      header asks for; a truncated record has fewer words. */
  datatype Record = Record(at: nat, words: seq<Word>, required: nat)

  predicate IsEnd(r: Record) {
    r.words != [] && r.words[0] == END
  }

  /** Where the record that starts at `cursor` ends. */
  function Next(words: seq<Word>, cursor: nat): (r: nat)
    requires cursor < |words|
    ensures cursor < r
  {
    cursor + WordCount(words[cursor])
  }

  function Whole(words: seq<Word>, base: nat, cursor: nat): Record
    requires cursor < |words| && Next(words, cursor) <= |words|
  {
    Record(base + cursor, words[cursor..Next(words, cursor)], WordCount(words[cursor]))
  }

  /** One-shot framing from the header at `cursor`, for words whose first has address `base`. Complete
      records up to and including the first END; at the end of the stream an incomplete last record
      comes out with the words that are there, otherwise it waits. */
  function Frame(words: seq<Word>, base: nat, cursor: nat, eof: bool): seq<Record>
    decreases |words| - cursor
  {
    if cursor >= |words| then []
    else if Next(words, cursor) > |words| then
      (if eof then [Record(base + cursor, words[cursor..], WordCount(words[cursor]))] else [])
    else if words[cursor] == END then [Whole(words, base, cursor)]
    else [Whole(words, base, cursor)] + Frame(words, base, Next(words, cursor), eof)
  }

  /** An END header stands at a record boundary, at or after `cursor`. */
  predicate HasEnd(words: seq<Word>, cursor: nat)
    decreases |words| - cursor
  {
    cursor < |words| && (words[cursor] == END || HasEnd(words, Next(words, cursor)))
  }

  /** Where the stream stops: behind END, or with the last word. */
  function Stop(words: seq<Word>, cursor: nat): (r: nat)
    requires cursor <= |words|
    ensures cursor <= r <= |words|
    decreases |words| - cursor
  {
    if cursor == |words| then cursor
    else if Next(words, cursor) > |words| then |words|
    else if words[cursor] == END then cursor + 1
    else Stop(words, Next(words, cursor))
  }

  /** Where the header after `k` records is. */
  function Skip(words: seq<Word>, cursor: nat, k: nat): (r: nat)
    requires cursor <= |words|
    ensures cursor <= r <= |words|
    decreases k
  {
    if k == 0 || cursor == |words| then cursor
    else if Next(words, cursor) > |words| then |words|
    else Skip(words, Next(words, cursor), k - 1)
  }

  lemma ConsSlices<T>(x: T, tail: seq<T>, k: nat, j: nat)
    requires k == j + 1 <= |tail| + 1
    ensures ([x] + tail)[..k] == [x] + tail[..j] && ([x] + tail)[k..] == tail[j..]
  {
  }

  lemma JoinMore<T>(x: T, tail: seq<T>, k: nat, j: nat, moreTail: seq<T>, rest: seq<T>)
    requires k == j + 1 <= |tail| + 1 && moreTail == tail[..j] + rest
    ensures [x] + moreTail == ([x] + tail)[..k] + rest
  {
    ConsSlices(x, tail, k, j);
  }

  /** A complete record that lies within a prefix is the same record in the longer stream. */
  lemma SameRecord(words: seq<Word>, all: seq<Word>, base: nat, cursor: nat)
    requires cursor < |words| && words <= all && Next(words, cursor) <= |words|
    ensures all[cursor] == words[cursor] && Next(all, cursor) == Next(words, cursor)
    ensures Whole(all, base, cursor) == Whole(words, base, cursor)
  {
  }

  /** One step into the stream. */
  lemma {:induction false} OneRecord(words: seq<Word>, base: nat, cursor: nat, eof: bool, next: nat)
    requires cursor < |words| && next == Next(words, cursor) <= |words|
    ensures words[cursor] == END ==> Frame(words, base, cursor, eof) == [Whole(words, base, cursor)] && Stop(words, cursor) == next
    ensures words[cursor] != END ==>
      && Frame(words, base, cursor, eof) == [Whole(words, base, cursor)] + Frame(words, base, next, eof)
      && HasEnd(words, cursor) == HasEnd(words, next) && Stop(words, cursor) == Stop(words, next)
  {
  }

  lemma {:induction false} SkipFirst(words: seq<Word>, cursor: nat, next: nat, k: nat, j: nat)
    requires cursor < |words| && next == Next(words, cursor) <= |words| && k == j + 1
    ensures Skip(words, cursor, k) == Skip(words, next, j)
  {
    assert j == k - 1;
  }

  // ----- cutting at END

  lemma {:induction false} CutKeepsEnd(words: seq<Word>, cursor: nat, cut: seq<Word>)
    requires cursor <= |words| && cut == words[..Stop(words, cursor)]
    ensures Stop(cut, cursor) == |cut| && HasEnd(cut, cursor) == HasEnd(words, cursor)
    ensures !HasEnd(words, cursor) ==> cut == words
    decreases |words| - cursor
  {
    if cursor < |words| {
      var next := Next(words, cursor);
      if next > |words| {
        assert cut == words;
      } else {
        OneRecord(words, 0, cursor, false, next);
        SameRecord(cut, words, 0, cursor);
        OneRecord(cut, 0, cursor, false, next);
        if words[cursor] != END {
          CutKeepsEnd(words, next, cut);
        }
      }
    }
  }

  /** Words after END have no influence. */
  lemma {:induction false} CutIsInvisible(words: seq<Word>, base: nat, cursor: nat, eof: bool, cut: seq<Word>)
    requires cursor <= |words| && cut == words[..Stop(words, cursor)]
    ensures Frame(cut, base, cursor, eof) == Frame(words, base, cursor, eof)
    decreases |words| - cursor
  {
    if cursor < |words| {
      var next := Next(words, cursor);
      if next > |words| {
        assert cut == words;
      } else {
        OneRecord(words, base, cursor, eof, next);
        SameRecord(cut, words, base, cursor);
        OneRecord(cut, base, cursor, eof, next);
        if words[cursor] != END {
          CutIsInvisible(words, base, next, eof, cut);
        }
      }
    }
  }

  /** Counting from the first word that is left instead of the first word of the stream. */
  lemma {:induction false} Rebased(words: seq<Word>, base: nat, moved: nat, d: nat, at: nat, cursor: nat, eof: bool, rest: seq<Word>)
    requires d <= |words| && rest == words[d..] && cursor <= |rest| && at == d + cursor && moved == base + d
    ensures Frame(rest, moved, cursor, eof) == Frame(words, base, at, eof)
    decreases |words| - cursor
  {
    if cursor < |rest| {
      var next, far := Next(rest, cursor), Next(words, at);
      RebasedRecord(words, base, moved, d, at, cursor, rest);
      if next <= |rest| {
        OneRecord(rest, moved, cursor, eof, next);
        OneRecord(words, base, at, eof, far);
        if rest[cursor] != END {
          Rebased(words, base, moved, d, far, next, eof, rest);
        }
      }
    }
  }

  lemma RebasedRecord(words: seq<Word>, base: nat, moved: nat, d: nat, at: nat, cursor: nat, rest: seq<Word>)
    requires d <= |words| && rest == words[d..] && cursor < |rest| && at == d + cursor && moved == base + d
    ensures rest[cursor] == words[at] && moved + cursor == base + at && rest[cursor..] == words[at..]
    ensures Next(words, at) == d + Next(rest, cursor)
    ensures Next(rest, cursor) <= |rest| ==> Whole(rest, moved, cursor) == Whole(words, base, at)
  {
  }

  // ----- taking records from the front

  /** The framing of what is left after the first `k` records of a cut stream. */
  lemma {:induction false} TakeRecords(words: seq<Word>, base: nat, cursor: nat, eof: bool, k: nat)
    requires cursor <= |words| && k <= |Frame(words, base, cursor, eof)| && Stop(words, cursor) == |words|
    ensures Frame(words, base, Skip(words, cursor, k), eof) == Frame(words, base, cursor, eof)[k..]
    decreases k
  {
    if k > 0 && Next(words, cursor) <= |words| {
      var next := Next(words, cursor);
      OneRecord(words, base, cursor, eof, next);
      SkipFirst(words, cursor, next, k, k - 1);
      if words[cursor] != END {
        TakeRecords(words, base, next, eof, k - 1);
        ConsSlices(Whole(words, base, cursor), Frame(words, base, next, eof), k, k - 1);
      }
    }
  }

  lemma {:induction false} SkipStaysCut(words: seq<Word>, cursor: nat, k: nat)
    requires cursor <= |words| && Stop(words, cursor) == |words|
    ensures Stop(words, Skip(words, cursor, k)) == |words|
    ensures HasEnd(words, Skip(words, cursor, k)) ==> HasEnd(words, cursor)
    decreases k
  {
    if k > 0 && cursor < |words| && Next(words, cursor) <= |words| {
      var next := Next(words, cursor);
      OneRecord(words, 0, cursor, false, next);
      SkipFirst(words, cursor, next, k, k - 1);
      SkipStaysCut(words, next, k - 1);
    }
  }

  /** Taking complete records commutes with more words arriving. */
  lemma TakeBeforeMore(words: seq<Word>, base: nat, cursor: nat, k: nat, all: seq<Word>, eof: bool)
    requires cursor <= |words| && k <= |Frame(words, base, cursor, false)| && !HasEnd(words, cursor) && words <= all
    ensures var to := Skip(words, cursor, k);
      && !HasEnd(words, to)
      && Frame(all, base, cursor, eof) == Frame(words, base, cursor, false)[..k] + Frame(all, base, to, eof)
  {
    TakeUpTo(words, base, cursor, k, Frame(words, base, cursor, false), Skip(words, cursor, k), all, eof);
  }

  lemma {:induction false} TakeUpTo(words: seq<Word>, base: nat, cursor: nat, k: nat, records: seq<Record>, to: nat, all: seq<Word>, eof: bool)
    requires cursor <= |words| && records == Frame(words, base, cursor, false) && k <= |records| && to == Skip(words, cursor, k)
    requires !HasEnd(words, cursor) && words <= all
    ensures !HasEnd(words, to)
    ensures Frame(all, base, cursor, eof) == records[..k] + Frame(all, base, to, eof)
    decreases k
  {
    if k > 0 {
      var next := Next(words, cursor);
      var tail := Frame(words, base, next, false);
      OneRecord(words, base, cursor, false, next);
      SameRecord(words, all, base, cursor);
      OneRecord(all, base, cursor, eof, next);
      SkipFirst(words, cursor, next, k, k - 1);
      TakeUpTo(words, base, next, k - 1, tail, to, all, eof);
      JoinMore(Whole(words, base, cursor), tail, k, k - 1, Frame(all, base, next, eof), Frame(all, base, to, eof));
    }
  }

  /** Once END is in, more words change nothing. */
  lemma {:induction false} MoreAfterEnd(words: seq<Word>, base: nat, cursor: nat, all: seq<Word>, eof: bool, eof': bool)
    requires HasEnd(words, cursor) && words <= all
    ensures Frame(all, base, cursor, eof) == Frame(words, base, cursor, eof')
    decreases |words| - cursor
  {
    var next := Next(words, cursor);
    SameRecord(words, all, base, cursor);
    OneRecord(words, base, cursor, eof', next);
    OneRecord(all, base, cursor, eof, next);
    if words[cursor] != END {
      MoreAfterEnd(words, base, next, all, eof, eof');
    }
  }

  /** Records that are visible stay what they are while later words arrive. */
  lemma {:induction false} VisibleRecordsAreStable(words: seq<Word>, base: nat, cursor: nat, all: seq<Word>, eof: bool)
    requires cursor <= |words| && words <= all
    ensures Frame(words, base, cursor, false) <= Frame(all, base, cursor, eof)
  {
    if HasEnd(words, cursor) {
      MoreAfterEnd(words, base, cursor, all, eof, false);
    } else {
      TakeBeforeMore(words, base, cursor, |Frame(words, base, cursor, false)|, all, eof);
    }
  }

  // ----- what one-shot framing means

  /** `r` is the run of words between `from` and `to`; its first word is the header that fixes its
      length, and it is short of that length only as the last record of a finished stream. */
  ghost predicate Faithful(words: seq<Word>, base: nat, eof: bool, r: Record, last: bool, from: nat, to: nat) {
    && from < to <= |words| && r.words == words[from..to] && r.at == base + from
    && |r.words| <= r.required == WordCount(words[from])
    && (|r.words| < r.required ==> eof && last && to == |words|)
    && (!last ==> !IsEnd(r))
  }

  /** One-shot framing neither loses, nor invents, nor reinterprets a word. */
  lemma RecordsAreFaithful(words: seq<Word>, base: nat, cursor: nat, eof: bool, i: nat)
    requires cursor <= |words| && i < |Frame(words, base, cursor, eof)|
    ensures var all := Frame(words, base, cursor, eof);
      Faithful(words, base, eof, all[i], i == |all| - 1, Skip(words, cursor, i), Skip(words, cursor, i + 1))
  {
    RecordIsFaithful(words, base, cursor, eof, Frame(words, base, cursor, eof), i, i + 1, Skip(words, cursor, i), Skip(words, cursor, i + 1));
  }

  lemma {:induction false} RecordIsFaithful(words: seq<Word>, base: nat, cursor: nat, eof: bool, all: seq<Record>, i: nat, k: nat, from: nat, to: nat)
    requires cursor <= |words| && all == Frame(words, base, cursor, eof) && i < |all| && k == i + 1
    requires from == Skip(words, cursor, i) && to == Skip(words, cursor, k)
    ensures Faithful(words, base, eof, all[i], i == |all| - 1, from, to)
    decreases i
  {
    var next := Next(words, cursor);
    if next <= |words| {
      OneRecord(words, base, cursor, eof, next);
      SkipFirst(words, cursor, next, k, i);
      if i > 0 {
        SkipFirst(words, cursor, next, i, i - 1);
        var tail := Frame(words, base, next, eof);
        RecordIsFaithful(words, base, next, eof, tail, i - 1, i, from, to);
        ConsAt(Whole(words, base, cursor), tail, i, i - 1);
      }
    }
  }

  lemma ConsAt<T>(x: T, tail: seq<T>, i: nat, j: nat)
    requires i == j + 1 <= |tail|
    ensures ([x] + tail)[i] == tail[j] && (i == |[x] + tail| - 1 <==> j == |tail| - 1)
  {
  }

  /** An END that stands at a record boundary is the last record. */
  lemma {:induction false} EndComesLast(words: seq<Word>, base: nat, cursor: nat, eof: bool)
    requires HasEnd(words, cursor)
    ensures var all := Frame(words, base, cursor, eof);
      all != [] && IsEnd(all[|all| - 1]) && Skip(words, cursor, |all|) == Stop(words, cursor)
    decreases |words| - cursor
  {
    var next, all := Next(words, cursor), Frame(words, base, cursor, eof);
    OneRecord(words, base, cursor, eof, next);
    if words[cursor] != END {
      var tail := Frame(words, base, next, eof);
      EndComesLast(words, base, next, eof);
      SkipFirst(words, cursor, next, |all|, |tail|);
      ConsAt(Whole(words, base, cursor), tail, |tail|, |tail| - 1);
    } else {
      SkipFirst(words, cursor, next, 1, 0);
    }
  }

  /** Without an END, framing stops only in front of a record that is still incomplete. */
  lemma {:induction false} OnlyATailWaits(words: seq<Word>, base: nat, cursor: nat, eof: bool)
    requires cursor <= |words| && !HasEnd(words, cursor)
    ensures var to := Skip(words, cursor, |Frame(words, base, cursor, eof)|);
      to == |words| || (!eof && |words| - to < WordCount(words[to]))
    decreases |words| - cursor
  {
    if cursor < |words| && Next(words, cursor) <= |words| {
      var next := Next(words, cursor);
      OneRecord(words, base, cursor, eof, next);
      OnlyATailWaits(words, base, next, eof);
      SkipFirst(words, cursor, next, |Frame(words, base, cursor, eof)|, |Frame(words, base, next, eof)|);
    }
  }
}
