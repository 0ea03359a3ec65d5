/** What a dump of the event log prints for any markers, also after the 32-bit counters have
    wrapped, and exactly when that is what it should print. */
module EventLogWrap {
  import opened EventLog

  function Min(a: nat, b: nat): nat {
    if a < b then a else b
  }

  // ----- one dump -----

  /** Bounds the calls that are still to come. */
  function Fuel(m: Marks): nat {
    if m.next <= m.lastDump then m.lastDump - m.next
    else if m.next % SDE_EVTLOG_ENTRY == m.lastDump then 5000
    else 4000
  }

  lemma FuelDrops(m: Marks)
    requires InRange(m) && CalcRange(m, false, false).0
    ensures InRange(CalcRange(m, false, false).1) && Fuel(CalcRange(m, false, false).1) < Fuel(m)
  {
    var r := CalcRange(m, false, false).1;
    var f := m.next % SDE_EVTLOG_ENTRY;
    NearMark(m);
    hide CalcRange, U32;
    if r.lastDump < r.next {
      assert r.lastDump == f && r.next == f + 1 && (f + 1) % SDE_EVTLOG_ENTRY != f;
    }
  }

  /** A call comes within 256 entries of its mark, but for a marker that is a round ahead of it. */
  lemma NearMark(m: Marks)
    requires InRange(m) && CalcRange(m, false, false).0
    ensures var r, f := CalcRange(m, false, false).1, m.next % SDE_EVTLOG_ENTRY;
            && InRange(r)
            && (if m.lastDump == f && m.lastDump < m.next then r.lastDump == f && r.next == f + 1
                else r.next <= r.lastDump && r.lastDump - r.next < SDE_EVTLOG_PRINT_ENTRY)
            && (m.next <= m.lastDump ==> r.lastDump == m.lastDump && m.next < r.next)
  {
  }

  /** The slots that the calls after the first one print, and the markers they leave. */
  function Rest(m: Marks): (seq<nat>, Marks)
    requires InRange(m)
    decreases Fuel(m)
  {
    var (go, r) := CalcRange(m, false, false);
    if !go then ([], r)
    else
      FuelDrops(m);
      var (more, end) := Rest(r);
      ([r.first % SDE_EVTLOG_ENTRY] + more, end)
  }

  /** The slots a dump prints and the markers it leaves: it ends for all markers. */
  function Dump(m: Marks): (seq<nat>, Marks)
    requires InRange(m)
  {
    var (go, r) := CalcRange(m, true, false);
    if !go then ([], r)
    else
      assert InRange(r);
      var (more, end) := Rest(r);
      ([r.first % SDE_EVTLOG_ENTRY] + more, end)
  }

  /** The slots of the c newest events. */
  function Newest(last: nat, c: nat): (r: seq<nat>)
    ensures |r| == c
  {
    seq(c, k requires 0 <= k < c => (last - c + k) % SDE_EVTLOG_ENTRY)
  }

  /** How many entries the call computes to be missing. */
  function Believed(m: Marks): nat {
    var f := m.next % SDE_EVTLOG_ENTRY;
    if m.next <= m.last then m.last - m.next
    else if m.last < f then m.last + SDE_EVTLOG_ENTRY - f
    else m.last - f
  }

  /** The marker stands one or more rounds of the ring ahead of the last event. */
  predicate Ahead(m: Marks) {
    m.last < m.next && m.next % SDE_EVTLOG_ENTRY == m.last
  }

  // ----- what it prints -----

  /** An entry and then the calls up to the mark, when at most 256 are missing. */
  lemma {:induction false} RestIsPlain(m: Marks)
    requires InRange(m) && m.next <= m.lastDump && m.lastDump - m.next <= SDE_EVTLOG_PRINT_ENTRY
    ensures Rest(m).0 == Newest(m.lastDump, m.lastDump - m.next)
    ensures Rest(m).1.next == m.lastDump && Rest(m).1.last == m.last && InRange(Rest(m).1)
    decreases m.lastDump - m.next
  {
    RangeIsPlain(m, false, false);
    var (go, r) := CalcRange(m, false, false);
    if go {
      RestIsPlain(r);
      var n := m.lastDump - m.next;
      assert Newest(m.lastDump, n) == [r.first % SDE_EVTLOG_ENTRY] + Newest(m.lastDump, n - 1);
    } else {
      assert Newest(m.lastDump, 0) == [];
    }
  }

  lemma RoundAhead(last: nat, c: nat)
    ensures Newest(last + SDE_EVTLOG_ENTRY, c) == Newest(last, c)
  {
    forall k | 0 <= k < c ensures Newest(last + SDE_EVTLOG_ENTRY, c)[k] == Newest(last, c)[k] {
    }
  }

  /** One call that has an entry to print, and everything after it. */
  lemma OneThenRest(r: Marks, last: nat)
    requires InRange(r) && r.next == r.first + 1 && r.first < r.lastDump
             && r.lastDump - r.first <= SDE_EVTLOG_PRINT_ENTRY
    requires r.lastDump == last || r.lastDump == last + SDE_EVTLOG_ENTRY
    ensures [r.first % SDE_EVTLOG_ENTRY] + Rest(r).0 == Newest(last, r.lastDump - r.first)
    ensures Rest(r).1.next == r.lastDump && Rest(r).1.last == r.last && InRange(Rest(r).1)
  {
    hide Rest;
    RestIsPlain(r);
    var n := r.lastDump - r.first;
    RoundAhead(last, n);
    assert Newest(r.lastDump, n) == [r.first % SDE_EVTLOG_ENTRY] + Newest(r.lastDump, n - 1);
  }

  /** The first call of a dump whose marker is not ahead. */
  lemma FirstCall(m: Marks)
    requires InRange(m) && !Ahead(m)
    ensures var (go, r) := CalcRange(m, true, false);
            && InRange(r) && r.last == m.last && (go <==> m.next != m.last)
            && (!go ==> r.next == m.last)
            && (go ==> r.next == r.first + 1 && r.first < r.lastDump)
            && (go ==> r.lastDump == if m.last < m.next % SDE_EVTLOG_ENTRY && m.last < m.next
                                     then m.last + SDE_EVTLOG_ENTRY else m.last)
            && (go ==> r.lastDump - r.first == Min(SDE_EVTLOG_PRINT_ENTRY, Believed(m)))
  {
    hide U32;
    var f := m.next % SDE_EVTLOG_ENTRY;
    var first := if m.next <= m.last then m.next else f;
    var end := if m.next > m.last && m.last < f then m.last + SDE_EVTLOG_ENTRY else m.last;
    if m.next != m.last {
      SmallU32(m.last + if m.last < f then SDE_EVTLOG_ENTRY else 0);
      assert end - first == Believed(m) > 0;
      SmallU32(end - first);
      if end - first > SDE_EVTLOG_PRINT_ENTRY { SmallU32(end - SDE_EVTLOG_PRINT_ENTRY); }
      SmallU32(end - Min(SDE_EVTLOG_PRINT_ENTRY, end - first) + 1);
    }
  }

  /** What any dump prints and leaves, whatever its markers: the newest events as far as it
      believes them missing; but if the marker is ahead, one entry nobody logged and then the
      newest 256 once more. */
  lemma DumpPrints(m: Marks)
    requires InRange(m)
    ensures var (slots, end) := Dump(m);
            var c := Min(SDE_EVTLOG_PRINT_ENTRY, Believed(m));
            && slots == (if Ahead(m) then [m.last] + Newest(m.last, SDE_EVTLOG_PRINT_ENTRY) else Newest(m.last, c))
            && InRange(end) && end.last == m.last
            && (end.next == m.last || (end.next == m.last + SDE_EVTLOG_ENTRY && m.last < SDE_EVTLOG_ENTRY))
            && (!Ahead(m) ==> (end.next != m.last <==> m.last < m.next % SDE_EVTLOG_ENTRY && m.last < m.next))
  {
    if Ahead(m) {
      AheadPrints(m);
    } else {
      hide Rest, Newest, CalcRange, Ahead;
      FirstCall(m);
      var (go, r) := CalcRange(m, true, false);
      if go { OneThenRest(r, m.last); }
      else { NothingNewest(m); }
    }
  }

  lemma NothingNewest(m: Marks)
    requires m.next == m.last
    ensures Newest(m.last, Min(SDE_EVTLOG_PRINT_ENTRY, Believed(m))) == []
  {
  }

  lemma AheadPrints(m: Marks)
    requires InRange(m) && Ahead(m)
    ensures var (slots, end) := Dump(m);
            && slots == [m.last] + Newest(m.last, SDE_EVTLOG_PRINT_ENTRY)
            && InRange(end) && end.last == m.last
            && (end.next == m.last || (end.next == m.last + SDE_EVTLOG_ENTRY && m.last < SDE_EVTLOG_ENTRY))
  {
    hide Rest, Newest, CalcRange;
    AheadCalls(m);
    var r := CalcRange(m, true, false).1;
    OneThenRest(CalcRange(r, false, false).1, m.last);
    RestStep(r);
  }

  /** The first call finds an entry where there is none, the second goes back a whole round. */
  lemma AheadCalls(m: Marks)
    requires InRange(m) && Ahead(m)
    ensures m.last < SDE_EVTLOG_ENTRY && CalcRange(m, true, false) == (true, Marks(m.last, m.last, m.last, m.last + 1))
    ensures var (go, q) := CalcRange(Marks(m.last, m.last, m.last, m.last + 1), false, false);
            && go && q.first + SDE_EVTLOG_PRINT_ENTRY == q.lastDump && q.next == q.first + 1 && q.last == m.last
            && q.lastDump == (if m.last == SDE_EVTLOG_ENTRY - 1 then m.last else m.last + SDE_EVTLOG_ENTRY)
  {
    hide U32;
    SmallU32(0);
    SmallU32(m.last + 1);
    SecondCall(m.last);
  }

  lemma SecondCall(f: nat)
    requires f < SDE_EVTLOG_ENTRY
    ensures var (go, q) := CalcRange(Marks(f, f, f, f + 1), false, false);
            && go && q.first + SDE_EVTLOG_PRINT_ENTRY == q.lastDump && q.next == q.first + 1 && q.last == f
            && q.lastDump == (if f == SDE_EVTLOG_ENTRY - 1 then f else f + SDE_EVTLOG_ENTRY)
  {
    hide U32;
    var e := if f == SDE_EVTLOG_ENTRY - 1 then f else f + SDE_EVTLOG_ENTRY;
    var g := (f + 1) % SDE_EVTLOG_ENTRY;
    assert g == if f == SDE_EVTLOG_ENTRY - 1 then 0 else f + 1;
    SmallU32(f + SDE_EVTLOG_ENTRY);
    SmallU32(e - g);
    SmallU32(e - SDE_EVTLOG_PRINT_ENTRY);
    SmallU32(e - SDE_EVTLOG_PRINT_ENTRY + 1);
  }

  lemma RestStep(m: Marks)
    requires InRange(m) && CalcRange(m, false, false).0
    ensures var r := CalcRange(m, false, false).1;
            InRange(r) && Rest(m) == ([r.first % SDE_EVTLOG_ENTRY] + Rest(r).0, Rest(r).1)
  {
  }

  /** With u events logged since the last dump, a dump prints exactly the newest 256 of them, or
      all if they are fewer, if and only if the marker is not ahead and the call computes the
      right number, up to 256. */
  lemma DumpIsExactIff(m: Marks, u: nat)
    requires InRange(m)
    ensures Dump(m).0 == Newest(m.last, Min(SDE_EVTLOG_PRINT_ENTRY, u))
            <==> !Ahead(m) && Min(SDE_EVTLOG_PRINT_ENTRY, Believed(m)) == Min(SDE_EVTLOG_PRINT_ENTRY, u)
  {
    hide Dump, Ahead, Believed;
    DumpPrints(m);
    var c, d := Min(SDE_EVTLOG_PRINT_ENTRY, Believed(m)), Min(SDE_EVTLOG_PRINT_ENTRY, u);
    assert |Newest(m.last, c)| == c && |Newest(m.last, d)| == d;
    if Ahead(m) { assert |Dump(m).0| == 257; }
  }

  /** Read off the two markers alone, when the marker is what it stands for: exact if they have
      not crossed; if the last event is in an earlier place of the ring than the marker, when at
      most one round or at least 256 events are missing; otherwise when its place is at least
      256 behind. */
  lemma MarkersTell(m: Marks)
    requires InRange(m)
    ensures var u, f := U32(m.last - m.next), m.next % SDE_EVTLOG_ENTRY;
            Dump(m).0 == Newest(m.last, Min(SDE_EVTLOG_PRINT_ENTRY, u))
            <==> || m.next <= m.last
                 || (m.last < f && (u <= SDE_EVTLOG_ENTRY || m.last + SDE_EVTLOG_ENTRY - f >= SDE_EVTLOG_PRINT_ENTRY))
                 || (f <= m.last < m.next && m.last - f >= SDE_EVTLOG_PRINT_ENTRY)
  {
    hide Dump, Newest;
    var u, f := U32(m.last - m.next), m.next % SDE_EVTLOG_ENTRY;
    DumpIsExactIff(m, u);
    if m.last < m.next {
      assert u == m.last - m.next + 0x1_0000_0000;
      Rounds(m, u, f);
    }
  }

  /** The distance of crossed markers and the distance in the ring differ by whole rounds. */
  lemma Rounds(m: Marks, u: nat, f: nat)
    requires InRange(m) && m.last < m.next && u == m.last - m.next + 0x1_0000_0000 && f == m.next % SDE_EVTLOG_ENTRY
    ensures m.last < f ==>
              (u - (m.last + SDE_EVTLOG_ENTRY - f)) % SDE_EVTLOG_ENTRY == 0 && u >= m.last + SDE_EVTLOG_ENTRY - f
    ensures f <= m.last ==> u >= m.last - f + SDE_EVTLOG_ENTRY
  {
    var q := m.next / SDE_EVTLOG_ENTRY;
    assert m.next == q * SDE_EVTLOG_ENTRY + f && q < 0x20_0000;
    assert u == m.last - f + (0x20_0000 - q) * SDE_EVTLOG_ENTRY;
  }

  // ----- whole histories -----

  datatype Op = Log | DumpAll

  /** The markers, how many events were logged, and how many of them before the last dump. */
  datatype Life = Life(marks: Marks, logged: nat, dumped: nat)

  function Step(l: Life, op: Op): Life
    requires InRange(l.marks)
  {
    match op
    case Log => l.(marks := l.marks.(last := U32(l.marks.last + 1)), logged := l.logged + 1)
    case DumpAll => Life(Dump(l.marks).1, l.logged, l.logged)
  }

  lemma StepInRange(l: Life, op: Op)
    requires InRange(l.marks)
    ensures InRange(Step(l, op).marks)
  {
    if op == DumpAll { DumpPrints(l.marks); }
  }

  function Run(ops: seq<Op>): (l: Life)
    ensures InRange(l.marks)
  {
    if ops == [] then Life(Marks(0, 0, 0, 0), 0, 0)
    else
      StepInRange(Run(ops[..|ops| - 1]), ops[|ops| - 1]);
      Step(Run(ops[..|ops| - 1]), ops[|ops| - 1])
  }

  /** The marker of the last event counts modulo 2^32; that of the last dump does so too, or it
      stands one round of the ring too far. */
  ghost predicate Tracks(l: Life) {
    && l.dumped <= l.logged && l.marks.last == U32(l.logged)
    && (l.marks.next == U32(l.dumped) || Shifted(l))
    && (Shifted(l) ==> l.dumped >= 0x1_0000_0000)
  }

  predicate Shifted(l: Life) {
    l.marks.next == U32(l.dumped) + SDE_EVTLOG_ENTRY && U32(l.dumped) < SDE_EVTLOG_ENTRY
  }

  lemma NextU32(n: nat)
    ensures U32(U32(n) + 1) == U32(n + 1)
  {
  }

  lemma StepTracks(l: Life, op: Op)
    requires InRange(l.marks) && Tracks(l)
    ensures Tracks(Step(l, op))
  {
    NextU32(l.logged);
    if l.logged < 0x1_0000_0000 {
      SmallU32(l.logged);
      SmallU32(l.dumped);
    }
    hide Dump, U32;
    DumpPrints(l.marks);
  }

  lemma {:induction false} RunsTrack(ops: seq<Op>)
    ensures Tracks(Run(ops))
  {
    hide Tracks, Step;
    if ops == [] {
      assert Tracks(Run(ops)) by { NothingTracks(); }
    } else {
      RunsTrack(ops[..|ops| - 1]);
      StepTracks(Run(ops[..|ops| - 1]), ops[|ops| - 1]);
    }
  }

  lemma NothingTracks()
    ensures Tracks(Life(Marks(0, 0, 0, 0), 0, 0))
  {
  }

  /** In every history, wraps included: a dump prints exactly the newest 256 events logged since
      the one before, or all of them if they are fewer, if and only if the marker is not ahead
      and the number computed from the markers is right up to 256. */
  lemma EveryDumpIsExactIff(ops: seq<Op>)
    ensures var l := Run(ops);
            var u := l.logged - l.dumped;
            && u >= 0
            && (Dump(l.marks).0 == Newest(l.marks.last, Min(SDE_EVTLOG_PRINT_ENTRY, u))
                <==> !Ahead(l.marks)
                     && Min(SDE_EVTLOG_PRINT_ENTRY, Believed(l.marks)) == Min(SDE_EVTLOG_PRINT_ENTRY, u))
  {
    RunsTrack(ops);
    DumpIsExactIff(Run(ops).marks, Run(ops).logged - Run(ops).dumped);
  }

  /** With fewer than 2^32 events logged the condition always holds. */
  lemma FewEventsAreExact(ops: seq<Op>)
    requires Run(ops).logged < 0x1_0000_0000
    ensures var l := Run(ops);
            l.logged >= l.dumped
            && Dump(l.marks).0 == Newest(l.marks.last, Min(SDE_EVTLOG_PRINT_ENTRY, l.logged - l.dumped))
  {
    hide Dump, Newest;
    var l := Run(ops);
    RunsTrack(ops);
    SmallU32(l.logged);
    SmallU32(l.dumped);
    DumpIsExactIff(l.marks, l.logged - l.dumped);
  }

  lemma SmallU32(n: nat)
    requires n < 0x1_0000_0000
    ensures U32(n) == n
  {
  }

  /** After any dump whose markers had crossed with the last event in an earlier place of the
      ring, a dump with nothing new prints 257 entries. */
  lemma CrossedDumpRepeats(m: Marks)
    requires InRange(m) && m.last < m.next % SDE_EVTLOG_ENTRY && m.last < m.next
    ensures var end := Dump(m).1;
            InRange(end) && end.last == m.last && Ahead(end)
            && Dump(end).0 == [m.last] + Newest(m.last, SDE_EVTLOG_PRINT_ENTRY)
  {
    hide Dump, Newest;
    DumpPrints(m);
    DumpPrints(Dump(m).1);
  }

  function Logs(n: nat): seq<Op> {
    seq(n, _ => Log)
  }

  lemma {:induction false} LogsCount(ops: seq<Op>, n: nat)
    ensures var l, g := Run(ops), Run(ops + Logs(n));
            g == l.(marks := l.marks.(last := U32(l.marks.last + n)), logged := l.logged + n)
  {
    hide U32, Dump;
    if n == 0 {
      assert ops + Logs(0) == ops;
      SmallU32(Run(ops).marks.last);
    } else {
      LogsCount(ops, n - 1);
      var all := ops + Logs(n);
      assert all[..|all| - 1] == ops + Logs(n - 1);
      NextSum(Run(ops).marks.last, n - 1);
    }
  }

  lemma NextSum(x: nat, n: nat)
    ensures U32(U32(x + n) + 1) == U32(x + (n + 1))
  {
    NextU32(x + n);
  }

  lemma DumpLast(ops: seq<Op>)
    ensures Run(ops + [DumpAll]) == Step(Run(ops), DumpAll)
  {
    assert (ops + [DumpAll])[..|ops|] == ops;
  }

  /** Such a state is reached: a dump ten events before the wrap and another five after it. */
  lemma AheadIsReached()
    ensures exists ops :: Ahead(Run(ops).marks) && Run(ops).logged == Run(ops).dumped
  {
    hide Run, Dump, Logs, U32, Newest;
    var a := 0x1_0000_0000 - 10;
    var ops := [] + Logs(a);
    LogsCount([], a);
    Begin();
    SmallU32(a);
    DumpLast(ops);
    DumpPrints(Run(ops).marks);
    LogsCount(ops + [DumpAll], 15);
    var more := ops + [DumpAll] + Logs(15);
    WrapsToFive();
    DumpLast(more);
    CrossedDumpRepeats(Run(more).marks);
    assert Ahead(Run(more + [DumpAll]).marks);
  }

  lemma Begin()
    ensures Run([]) == Life(Marks(0, 0, 0, 0), 0, 0)
  {
  }

  lemma WrapsToFive()
    ensures U32(0x1_0000_0000 - 10 + 15) == 5
  {
  }
}
