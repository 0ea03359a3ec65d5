/** The event log of sde_dbg_evtlog.c: a ring of 2048 entries under 32-bit markers, and a dump
    that prints one entry per call until it has caught up. */
module EventLog {

  const SDE_EVTLOG_PRINT_ENTRY: nat := 256
  const SDE_EVTLOG_ENTRY: nat := 2048

  /** How far the log may run on while a dump is printing without overwriting what it prints. */
  const SLACK: nat := 1792

  function U32(x: int): (r: nat)
    ensures r < 0x1_0000_0000
  {
    x % 0x1_0000_0000
  }

  datatype Option<T> = None | Some(value: T)

  datatype Event = Event(name: string, line: int, data: seq<int>)

  datatype Marks = Marks(first: nat, last: nat, lastDump: nat, next: nat)

  ghost predicate InRange(m: Marks) {
    m.first < 0x1_0000_0000 && m.last < 0x1_0000_0000 && m.lastDump < 0x1_0000_0000 && m.next < 0x1_0000_0000
  }

  /** _sde_evtlog_dump_calc_range: the markers after the call, and whether there is an entry to print. */
  function CalcRange(m: Marks, update: bool, full: bool): (bool, Marks) {
    var max := if full then SDE_EVTLOG_ENTRY else SDE_EVTLOG_PRINT_ENTRY;
    var m1 := m.(first := m.next, lastDump := if update then m.last else m.lastDump);
    if m1.lastDump == m1.first then (false, m1)
    else
      var m2 := if m1.lastDump >= m1.first then m1
                else
                  var f := m1.first % SDE_EVTLOG_ENTRY;
                  m1.(first := f,
                      lastDump := if m1.lastDump < f then U32(m1.lastDump + SDE_EVTLOG_ENTRY) else m1.lastDump);
      var m3 := if U32(m2.lastDump - m2.first) > max then m2.(first := U32(m2.lastDump - max)) else m2;
      (true, m3.(next := U32(m3.first + 1)))
  }

  /** While the counters have not wrapped, a call prints the next entry up to the mark and
      skips all but the newest ones. */
  lemma RangeIsPlain(m: Marks, update: bool, full: bool)
    requires InRange(m) && m.next <= (if update then m.last else m.lastDump)
    ensures var (go, r) := CalcRange(m, update, full);
            var end := if update then m.last else m.lastDump;
            var max := if full then SDE_EVTLOG_ENTRY else SDE_EVTLOG_PRINT_ENTRY;
            && r.last == m.last && r.lastDump == end
            && (go <==> m.next < end)
            && (go ==> r.first == (if end - m.next > max then end - max else m.next) && r.next == r.first + 1 <= end)
            && (!go ==> r.next == m.next)
  {
  }

  lemma RingDistinct(i: nat, n: nat)
    requires i < n < i + SDE_EVTLOG_ENTRY
    ensures i % SDE_EVTLOG_ENTRY != n % SDE_EVTLOG_ENTRY
  {
  }

  class Log {
    const logs: array<Event>
    var first: nat
    var last: nat
    var lastDump: nat
    var curr: nat
    var next: nat
    ghost var history: seq<Event>

    ghost function MarksNow(): Marks
      reads this
    {
      Marks(first, last, lastDump, next)
    }

    /** The ring holds the newest 2048 events, each in its place. */
    ghost predicate Valid()
      reads this, logs
    {
      && logs.Length == SDE_EVTLOG_ENTRY
      && |history| < 0x1_0000_0000
      && last == |history| && curr == last % SDE_EVTLOG_ENTRY
      && next <= last && InRange(MarksNow())
      && forall i :: 0 <= i < last && last <= i + SDE_EVTLOG_ENTRY ==> logs[i % SDE_EVTLOG_ENTRY] == history[i]
    }

    constructor (zero: Event)
      ensures Valid() && fresh(logs) && history == [] && next == 0
    {
      logs := new Event[SDE_EVTLOG_ENTRY](_ => zero);
      first, last, lastDump, curr, next, history := 0, 0, 0, 0, 0, [];
    }

    /** sde_evtlog_log; wanted says that the area is enabled and no filter drops the event. */
    method Record(e: Event, wanted: bool)
      requires Valid() && |history| + 1 < 0x1_0000_0000
      modifies this`curr, this`last, this`history, logs
      ensures Valid() && next == old(next) && lastDump == old(lastDump) && first == old(first)
      ensures history == if wanted then old(history) + [e] else old(history)
    {
      if !wanted { return; }
      logs[curr] := e;
      forall i | 0 <= i < last && last < i + SDE_EVTLOG_ENTRY ensures i % SDE_EVTLOG_ENTRY != curr {
        RingDistinct(i, last);
      }
      curr := (curr + 1) % SDE_EVTLOG_ENTRY;
      last := U32(last + 1);
      history := history + [e];
    }

    method CalcMarks(update: bool, full: bool) returns (go: bool)
      modifies this`first, this`lastDump, this`next
      ensures (go, MarksNow()) == CalcRange(old(MarksNow()), update, full)
    {
      hide U32;
      var max := if full then SDE_EVTLOG_ENTRY else SDE_EVTLOG_PRINT_ENTRY;
      first := next;
      if update { lastDump := last; }
      if lastDump == first { return false; }
      if lastDump < first {
        first := first % SDE_EVTLOG_ENTRY;
        if lastDump < first { lastDump := U32(lastDump + SDE_EVTLOG_ENTRY); }
      }
      if U32(lastDump - first) > max { first := U32(lastDump - max); }
      next := U32(first + 1);
      go := true;
    }

    /** sde_evtlog_dump_to_buffer: the entry printed, if any. */
    method DumpToBuffer(update: bool, full: bool) returns (out: Option<Event>)
      requires Valid() && next <= (if update then last else lastDump) && (update || lastDump <= last)
      requires !update ==> last <= NextPrinted(next, lastDump, full) + SDE_EVTLOG_ENTRY
      modifies this`first, this`lastDump, this`next
      ensures Valid() && lastDump == (if update then last else old(lastDump))
      ensures out.Some? <==> old(next) < lastDump
      ensures out.None? ==> next == old(next)
      ensures out.Some? ==> old(next) < next <= lastDump && out.value == history[next - 1]
      ensures out.Some? ==> next - 1 == NextPrinted(old(next), lastDump, full)
    {
      RangeIsPlain(MarksNow(), update, full);
      var go := CalcMarks(update, full);
      if !go { return None; }
      out := Some(logs[first % SDE_EVTLOG_ENTRY]);
    }

    method RecordAll(es: seq<Event>)
      requires Valid() && |history| + |es| < 0x1_0000_0000
      modifies this`curr, this`last, this`history, logs
      ensures Valid() && next == old(next) && lastDump == old(lastDump) && first == old(first)
      ensures history == old(history) + es
    {
      for i := 0 to |es|
        invariant Valid() && next == old(next) && lastDump == old(lastDump) && first == old(first)
        invariant history == old(history) + es[..i]
      {
        Record(es[i], true);
        assert es[..i + 1] == es[..i] + [es[i]];
      }
      assert es[..|es|] == es;
    }

    /** One round of the dump: an entry printed, if there is one, and the events logged after it. */
    method PrintNext(update: bool, more: seq<Event>) returns (out: Option<Event>)
      requires Valid() && |history| + |more| < 0x1_0000_0000
      requires next <= (if update then last else lastDump) && (update || lastDump <= last)
      requires !update ==> last <= NextPrinted(next, lastDump, false) + SDE_EVTLOG_ENTRY
      modifies this, logs
      ensures Valid() && lastDump == (if update then old(last) else old(lastDump))
      ensures out.Some? <==> old(next) < lastDump
      ensures out.None? ==> next == old(next) && history == old(history)
      ensures out.Some? ==>
                old(next) < next <= lastDump && next <= |old(history)| && out.value == old(history)[next - 1]
      ensures out.Some? ==> next - 1 == NextPrinted(old(next), lastDump, false) && history == old(history) + more
    {
      out := DumpToBuffer(update, false);
      if out.Some? { RecordAll(more); }
    }

    /** sde_evtlog_dump_all, with the events that are logged after each entry it prints: it
        stops by itself and prints the newest entries that were not printed before, at most
        256, each once and in order. */
    method DumpAll(noise: seq<seq<Event>>) returns (printed: seq<Event>)
      requires Valid() && |Flat(noise)| <= SLACK && |history| + |Flat(noise)| < 0x1_0000_0000
      modifies this, logs
      ensures Valid() && next == |old(history)|
      ensures printed == old(history)[NextPrinted(old(next), |old(history)|, false)..]
      ensures history == old(history) + Flat(Arrived(noise, |printed|))
    {
      hide Flat, Arrived, U32, NextPrinted;
      printed := [];
      ghost var end := last;
      ghost var start := NextPrinted(next, end, false);
      var update := true;
      FlatNone(noise);
      while true
        invariant Valid() && history == old(history) + Flat(Arrived(noise, |printed|))
        invariant |Flat(Arrived(noise, |printed|))| <= |Flat(noise)|
        invariant update ==> next == old(next) && printed == [] && history == old(history)
        invariant !update ==> lastDump == end && start < next <= end && printed == old(history)[start..next]
        decreases if update then 1 else 0, end - next
      {
        var more := if |printed| < |noise| then noise[|printed|] else [];
        JoinStep(old(history), noise, |printed|);
        var out := PrintNext(update, more);
        if out.None? { break; }
        OneLonger(old(history), start, next);
        printed := printed + [out.value];
        update := false;
      }
      assert old(history)[..end] == old(history);
    }

    /** Any logging and dumping: every dump prints the newest 256 of the events logged since the
        one before, or all if they are fewer, and nothing else is printed. */
    method Session(ops: seq<Op>) returns (printed: seq<Event>)
      requires Valid() && |history| + Logged(ops) < 0x1_0000_0000
      requires forall i :: 0 <= i < |ops| && ops[i].Dump? ==> |Flat(ops[i].noise)| <= SLACK
      modifies this, logs
      ensures Valid()
      ensures Book(history, next, printed) == Kept(Book(old(history), old(next), []), ops)
    {
      printed := [];
      for i := 0 to |ops|
        invariant Valid() && |history| + Logged(ops[i..]) < 0x1_0000_0000
        invariant Book(history, next, printed) == Kept(Book(old(history), old(next), []), ops[..i])
      {
        hide Flat;
        assert ops[i..][1..] == ops[i + 1..];
        assert ops[..i + 1][..i] == ops[..i];
        match ops[i]
        case Put(e, wanted) => Record(e, wanted);
        case Dump(noise) =>
          ghost var size := NextPrinted(next, |history|, false);
          ArrivedFits(noise, |history| - size);
          var more := DumpAll(noise);
          printed := printed + more;
      }
      assert ops[..|ops|] == ops;
    }
  }

  // ----- what a session prints -----

  datatype Op = Put(e: Event, wanted: bool) | Dump(noise: seq<seq<Event>>)

  /** Everything logged, how much of it before the last dump, and everything printed. */
  datatype Book = Book(history: seq<Event>, dumped: nat, printed: seq<Event>)

  function Entered(b: Book, op: Op): (r: Book)
    requires b.dumped <= |b.history|
    ensures r.dumped <= |r.history| && b.history <= r.history
  {
    match op
    case Put(e, wanted) => if wanted then b.(history := b.history + [e]) else b
    case Dump(noise) =>
      var p := b.history[NextPrinted(b.dumped, |b.history|, false)..];
      Book(b.history + Flat(Arrived(noise, |p|)), |b.history|, b.printed + p)
  }

  function Kept(b: Book, ops: seq<Op>): (r: Book)
    requires b.dumped <= |b.history|
    ensures r.dumped <= |r.history| && b.history <= r.history
  {
    if ops == [] then b else Entered(Kept(b, ops[..|ops| - 1]), ops[|ops| - 1])
  }

  /** Over a whole session no event is printed twice, and what is printed comes in the order in
      which it was logged. */
  lemma {:induction false} PrintedInOrder(b: Book, ops: seq<Op>, at: seq<nat>) returns (at': seq<nat>)
    requires b.dumped <= |b.history| && Printed(b.history, b.printed, at, b.dumped)
    ensures var r := Kept(b, ops); Printed(r.history, r.printed, at', r.dumped)
  {
    hide Printed, Flat;
    if ops == [] { return at; }
    at' := PrintedInOrder(b, ops[..|ops| - 1], at);
    var q := Kept(b, ops[..|ops| - 1]);
    var r := Entered(q, ops[|ops| - 1]);
    if ops[|ops| - 1].Dump? {
      var start := NextPrinted(q.dumped, |q.history|, false);
      PrintedGrows(q.history, q.printed, at', q.dumped, start);
      at' := at' + Places(start, |q.history|);
    }
    PrintedStays(q.history, r.history, r.printed, at', r.dumped);
  }

  function Places(start: nat, end: nat): (r: seq<nat>)
    requires start <= end
    ensures |r| == end - start && forall k :: 0 <= k < |r| ==> r[k] == start + k
  {
    seq(end - start, k => start + k)
  }

  /** at gives the place of every printed event in the history, increasing and below bound. */
  ghost predicate Printed(history: seq<Event>, printed: seq<Event>, at: seq<nat>, bound: nat) {
    && |at| == |printed|
    && (forall k :: 0 <= k < |at| ==> at[k] < bound && at[k] < |history| && printed[k] == history[at[k]])
    && (forall j, k :: 0 <= j < k < |at| ==> at[j] < at[k])
  }

  lemma PrintedStays(was: seq<Event>, now: seq<Event>, printed: seq<Event>, at: seq<nat>, bound: nat)
    requires was <= now && Printed(was, printed, at, bound)
    ensures Printed(now, printed, at, bound)
  {
  }

  lemma PrintedGrows(was: seq<Event>, printed: seq<Event>, at: seq<nat>, bound: nat, start: nat)
    requires Printed(was, printed, at, bound) && bound <= start <= |was|
    ensures Printed(was, printed + was[start..], at + Places(start, |was|), |was|)
  {
    var more := at + Places(start, |was|);
    forall k | 0 <= k < |more| ensures more[k] < |was| && (printed + was[start..])[k] == was[more[k]] {
    }
  }

  function Logged(ops: seq<Op>): nat {
    if ops == [] then 0
    else (match ops[0] case Put(_, _) => 1 case Dump(noise) => |Flat(noise)|) + Logged(ops[1..])
  }

  lemma OneLonger(h: seq<Event>, start: nat, next: nat)
    requires start < next <= |h|
    ensures h[start..next] == h[start..next - 1] + [h[next - 1]]
  {
  }

  /** The events that were logged behind the first n printed entries. */
  function Arrived(noise: seq<seq<Event>>, n: nat): seq<seq<Event>> {
    if n < |noise| then noise[..n] else noise
  }

  function Flat(noise: seq<seq<Event>>): seq<Event> {
    if noise == [] then [] else Flat(noise[..|noise| - 1]) + noise[|noise| - 1]
  }

  lemma FlatNone(noise: seq<seq<Event>>)
    ensures Flat(Arrived(noise, 0)) == []
  {
  }

  lemma {:induction false} ArrivedFits(noise: seq<seq<Event>>, n: nat)
    ensures |Flat(Arrived(noise, n))| <= |Flat(noise)|
    decreases |noise|
  {
    if n < |noise| {
      var front := noise[..|noise| - 1];
      ArrivedFits(front, n);
      assert Arrived(front, n) == Arrived(noise, n);
    }
  }

  lemma FlatStep(noise: seq<seq<Event>>, n: nat)
    ensures Flat(Arrived(noise, n + 1)) == Flat(Arrived(noise, n)) + if n < |noise| then noise[n] else []
    ensures |Flat(Arrived(noise, n + 1))| <= |Flat(noise)|
  {
    ArrivedFits(noise, n + 1);
    if n < |noise| {
      assert noise[..n + 1][..n] == noise[..n];
      assert Arrived(noise, n + 1) == noise[..n + 1] && Arrived(noise, n) == noise[..n];
    } else {
      assert Flat(noise) + [] == Flat(noise);
    }
  }

  lemma JoinStep(h: seq<Event>, noise: seq<seq<Event>>, n: nat)
    ensures var more := if n < |noise| then noise[n] else [];
            && h + Flat(Arrived(noise, n)) + more == h + Flat(Arrived(noise, n + 1))
            && |Flat(Arrived(noise, n))| + |more| == |Flat(Arrived(noise, n + 1))| <= |Flat(noise)|
  {
    FlatStep(noise, n);
  }

  /** The first entry a dump up to end prints when those before start are printed. */
  function NextPrinted(start: nat, end: nat, full: bool): (n: nat)
    requires start <= end
    ensures start <= n <= end
    ensures !full ==> if end - start < 256 then n == start else end - n == 256
    ensures full ==> if end - start < 2048 then n == start else end - n == 2048
  {
    var max := if full then SDE_EVTLOG_ENTRY else SDE_EVTLOG_PRINT_ENTRY;
    if end - start > max then end - max else start
  }
}
