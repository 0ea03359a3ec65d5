/** Safety of the HDCP 2.2 transmitter: driver and trusted application stay in step, the
    messages come in protocol order, and the client hears one verdict per session. */
module HdcpSafety {
  import opened HdcpProtocol

  // ----- what the environment keeps to -----

  /** The client starts a session only when the works that continue a previous one are done,
      begins authentication once per session, reports a sent message only while its newest
      request is a send, and sets the encryption level of a receiver only after success;
      the trusted application answers in protocol order, and repeats a locality challenge
      after a timeout only where the driver's table says so too. */
  predicate Allowed(h: State, s: Step) {
    match s
    case Wakeup(Start) => MsgSent !in h.works && SendType !in h.works && StartAuth !in h.works
    case Wakeup(BeginAuth) => h.lastMsg == Invalid
    case Wakeup(SendSuccess) => h.xport == Sending
    case Wakeup(MinEncLevel) => h.repeater || Success in h.trace
    case Wakeup(_) => true
    case RunWork(a) => h.works != [] && Conforming(h, h.works[0], a)
  }

  predicate Conforming(h: State, w: Work, a: Answers) {
    match w
    case StartAuth => StartAuthAnswer(h.tz, a.tz)
    case MsgRecvd =>
      ProcessAnswer(h.tz, h.lastMsg, a.tz) && QueryAnswer(AfterProcess(h.tz, h.lastMsg, a.tz), a.query)
    case Stream => QueryAnswer(h.tz, a.tz)
    case Timeout => h.off || a.tz.Fail? || TimeoutFits(h, a.tz)
    case _ => true
  }

  /** A challenge is repeated while the driver waits for L' of an earlier repetition; any other
      answer replaces the response only while no message is on its way. */
  predicate TimeoutFits(h: State, r: Reply) {
    var resp := Produced(h, r).resp;
    && (resp == LcInit ==> h.lastMsg == LcSendLPrime && h.resendLcInit)
    && (resp != h.resp ==> h.lastMsg == Invalid || SinkMessage(h.lastMsg))
  }

  predicate Disciplined(h: State, steps: seq<Step>)
    decreases |steps|
  {
    steps == [] ||
    (Enabled(h, steps[0]) && Allowed(h, steps[0]) && Disciplined(Apply(h, steps[0]), steps[1..]))
  }

  lemma DisciplinedIsValid(h: State, steps: seq<Step>)
    requires Disciplined(h, steps)
    ensures ValidRun(h, steps)
    decreases |steps|
  {
    if steps != [] { DisciplinedIsValid(Apply(h, steps[0]), steps[1..]); }
  }

  // ----- what is promised of the trace -----

  predicate SinkMessage(m: Msg) {
    m in {AkeSendCert, AkeSendHPrime, AkeSendPairingInfo, LcSendLPrime, RepSendRecvIdList, RepStreamReady}
  }

  /** The slot the driver picked from its own table is the message the application wrote
      or waits for; a plain link poll waits for nothing. */
  predicate InStep(o: Out) {
    match o
    case Send(slot, payload) => slot == payload && slot != Invalid && !SinkMessage(slot)
    case Recv(slot, awaited) => slot == awaited && SinkMessage(slot)
    case Poll(slot, awaited) =>
      (slot == awaited == RepSendRecvIdList) || (slot == SkeSendTypeId && awaited == Invalid)
    case _ => true
  }

  ghost predicate AllInStep(trace: seq<Out>) {
    forall k :: 0 <= k < |trace| ==> InStep(trace[k])
  }

  function Slot(o: Out): Msg {
    match o
    case Send(slot, _) => slot
    case Recv(slot, _) => slot
    case Poll(slot, _) => slot
    case _ => Invalid
  }

  predicate Milestone(k: nat, m: Msg) {
    match k
    case 0 => m == AkeInit
    case 1 => m == AkeSendCert
    case 2 => m == AkeNoStoredKm || m == AkeStoredKm
    case 3 => m == AkeSendHPrime
    case 4 => m == LcInit
    case 5 => m == LcSendLPrime
    case _ => false
  }

  /** How many of the six milestones the trace has passed, in order. */
  function Stage(trace: seq<Out>): (n: nat)
    ensures n <= 6
  {
    if trace == [] then 0
    else
      var n := Stage(trace[..|trace| - 1]);
      if Milestone(n, Slot(trace[|trace| - 1])) then n + 1 else n
  }

  lemma StageStep(trace: seq<Out>, o: Out)
    ensures Stage(trace + [o]) == Stage(trace) + if Milestone(Stage(trace), Slot(o)) then 1 else 0
  {
    assert (trace + [o])[..|trace|] == trace;
  }

  predicate Late(o: Out) {
    o == Success ||
    Slot(o) in {SkeSendEks, SkeSendTypeId, RepSendRecvIdList, RepSendAck, RepStreamManage, RepStreamReady}
  }

  ghost predicate LateOnlyAfterAll(trace: seq<Out>) {
    forall k :: 0 <= k < |trace| && Late(trace[k]) ==> Stage(trace[..k]) == 6
  }

  // ----- the invariant -----

  predicate NoRepeats(works: seq<Work>) {
    works == [] || (works[0] !in works[1..] && NoRepeats(works[1..]))
  }

  predicate InitFirst(works: seq<Work>) {
    works == [] || ((works[0] == StartAuth ==> Init !in works[1..]) && InitFirst(works[1..]))
  }

  /** The message the application waits for after the driver's last message, once that is answered. */
  function Expected(h: State): Msg {
    match h.lastMsg
    case AkeInit => AkeSendCert
    case AkeNoStoredKm => AkeSendHPrime
    case AkeStoredKm => AkeSendHPrime
    case LcInit => LcSendLPrime
    case SkeSendEks => if h.repeater then RepSendRecvIdList else Invalid
    case SkeSendTypeId => Invalid
    case RepSendAck => RepSendRecvIdList
    case RepStreamManage => RepStreamReady
    case m => m
  }

  function Reached(m: Msg): nat {
    match m
    case Invalid => 0
    case AkeInit => 1
    case AkeSendCert => 2
    case AkeNoStoredKm => 3
    case AkeStoredKm => 3
    case AkeSendHPrime => 4
    case AkeSendPairingInfo => 4
    case LcInit => 5
    case _ => 6
  }

  /** The message automaton of the driver agrees with that of the application. */
  predicate Agree(h: State) {
    var m := h.lastMsg;
    && (m != Invalid && !SinkMessage(m) ==> h.resp == m)
    && (m != Invalid ==> h.tz.awaiting == Expected(h) || Abandoned(h))
    && (m in {AkeNoStoredKm, AkeStoredKm, AkeSendHPrime} ==> h.noStoredKm == h.tz.noStored)
    && (m == AkeNoStoredKm || m == AkeSendPairingInfo ==> h.noStoredKm)
    && (m == AkeStoredKm ==> !h.noStoredKm)
    && (Reached(m) < 6 || m == LcSendLPrime || m == SkeSendTypeId ==> !h.repeater)
    && (m in {RepSendRecvIdList, RepSendAck, RepStreamManage, RepStreamReady} ==> h.repeater)
  }

  /** A stream query failed after the last stream was accepted: the session is being torn down. */
  predicate Abandoned(h: State) {
    h.lastMsg == RepStreamReady && h.tz.awaiting == RepSendRecvIdList && (h.off || Clean in h.works)
  }

  predicate Queues(h: State) {
    && NoRepeats(h.works) && InitFirst(h.works)
    && (Init in h.works || StartAuth in h.works ==> h.lastMsg == Invalid)
    && (MsgSent in h.works || h.xport == Sending ==> h.lastMsg != Invalid && !SinkMessage(h.lastMsg))
    && (SendType in h.works ==> h.lastMsg == SkeSendTypeId)
    && (Success in h.trace && !h.repeater ==> h.lastMsg == SkeSendTypeId)
  }

  ghost predicate Traced(h: State) {
    AllInStep(h.trace) && LateOnlyAfterAll(h.trace) && Stage(h.trace) >= Reached(h.lastMsg)
  }

  ghost predicate Inv(h: State) {
    Agree(h) && Queues(h) && Traced(h)
  }

  // ----- the work list -----

  lemma CancelKeeps(works: seq<Work>, w: Work)
    requires NoRepeats(works) && InitFirst(works)
    ensures NoRepeats(Cancel(works, w)) && InitFirst(Cancel(works, w))
    ensures w !in Cancel(works, w)
    ensures forall v :: v != w ==> (v in Cancel(works, w) <==> v in works)
  {
    if works != [] {
      CancelKeeps(works[1..], w);
      var rest := Cancel(works[1..], w);
      if works[0] == w {
        assert Cancel(works, w) == rest;
      } else {
        assert Cancel(works, w) == [works[0]] + rest;
        assert ([works[0]] + rest)[1..] == rest;
      }
    }
  }

  lemma AppendKeeps(works: seq<Work>, w: Work)
    requires NoRepeats(works) && InitFirst(works) && w !in works
    requires w == Init ==> StartAuth !in works
    ensures NoRepeats(works + [w]) && InitFirst(works + [w])
  {
    if works != [] {
      AppendKeeps(works[1..], w);
      assert (works + [w])[1..] == works[1..] + [w];
    }
  }

  lemma PushKeeps(works: seq<Work>, w: Work)
    requires NoRepeats(works) && InitFirst(works) && w != Init
    ensures NoRepeats(Push(works, w)) && InitFirst(Push(works, w))
  {
    if w !in works { AppendKeeps(works, w); }
  }

  lemma RequeueKeeps(works: seq<Work>, w: Work)
    requires NoRepeats(works) && InitFirst(works)
    requires w == Init ==> StartAuth !in works
    ensures var q := Cancel(works, w) + [w];
            NoRepeats(q) && InitFirst(q) && forall v :: v in q <==> v in works || v == w
  {
    CancelKeeps(works, w);
    AppendKeeps(Cancel(works, w), w);
  }

  // ----- the trace -----

  lemma Appended(trace: seq<Out>, o: Out)
    requires AllInStep(trace) && LateOnlyAfterAll(trace)
    requires InStep(o) && (Late(o) ==> Stage(trace) == 6)
    ensures AllInStep(trace + [o]) && LateOnlyAfterAll(trace + [o])
    ensures Stage(trace + [o]) >= Stage(trace)
    ensures Milestone(Stage(trace), Slot(o)) ==> Stage(trace + [o]) == Stage(trace) + 1
  {
    StageStep(trace, o);
    var t := trace + [o];
    forall k | 0 <= k < |t| && Late(t[k]) ensures Stage(t[..k]) == 6 {
      assert t[..k] == trace[..k];
      assert k == |trace| ==> trace[..k] == trace;
    }
  }

  lemma ToldKeeps(h: State, o: Out)
    requires Inv(h)
    requires o == Success || o == Failed || o == RxInfo
    requires o == Success ==> Reached(h.lastMsg) == 6 && (h.repeater || h.lastMsg == SkeSendTypeId)
    ensures Inv(Told(h, o))
    ensures forall w :: w in h.works ==> w in Told(h, o).works
  {
    hide Traced, Agree;
    var r := Told(h, o);
    assert Core(r) == Core(h) && r.trace == h.trace + [o];
    assert Agree(r) by { AgreeByCore(r, h); }
    assert Queues(r) by { PushKeeps(h.works, Wait); }
    ToldTraced(h, r, o);
  }

  lemma ToldTraced(h: State, r: State, o: Out)
    requires Traced(h) && InStep(o) && Slot(o) == Invalid && (Late(o) ==> Reached(h.lastMsg) == 6)
    requires r.trace == h.trace + [o] && r.lastMsg == h.lastMsg
    ensures Traced(r)
  {
    hide InStep, Late, Slot;
    Appended(h.trace, o);
  }

  /** What a request needs from the application's side for both to stay in step. */
  predicate Answered(h: State, q: Request) {
    var next := NextMessage(h, q == AskSend);
    && next != Invalid
    && (q == AskSend ==> h.resp == next && !SinkMessage(next))
    && (q == AskRecv ==> SinkMessage(next))
    && (q == AskPoll ==> next == RepSendRecvIdList || next == SkeSendTypeId)
    && Agree(h.(lastMsg := next)) && !Abandoned(h.(lastMsg := next))
    && (Reached(h.lastMsg) >= Reached(next) || Milestone(Reached(h.lastMsg), next))
  }

  function Asked(h: State, q: Request): Out {
    var next := NextMessage(h, q == AskSend);
    if q == AskSend then Send(next, h.resp)
    else if q == AskRecv then Recv(next, h.tz.awaiting) else Poll(next, h.tz.awaiting)
  }

  lemma AskShape(h: State, q: Request)
    requires (q == AskSend || q == AskRecv || q == AskPoll) && NextMessage(h, q == AskSend) != Invalid
    ensures var r := WakeupClient(h, q);
            r.trace == h.trace + [Asked(h, q)]
            && (r.works == h.works || r.works == Push(h.works, Wait))
            && r.xport == (if q == AskSend then Sending else if q == AskRecv then Receiving else Polling)
            && Core(r) == Core(h.(lastMsg := NextMessage(h, q == AskSend))) && r.authenticated == h.authenticated
  {
  }

  /** The fields that Agree reads apart from the work list. */
  function Core(h: State): (Msg, Msg, bool, bool, Tz, bool) {
    (h.lastMsg, h.resp, h.noStoredKm, h.repeater, h.tz, h.off)
  }

  lemma AgreeByCore(h: State, g: State)
    requires Core(h) == Core(g) && Agree(g)
    requires Clean in g.works ==> Clean in h.works
    ensures Agree(h)
  {
  }

  predicate Unhindered(h: State, next: Msg) {
    && NoRepeats(h.works) && InitFirst(h.works) && Init !in h.works && StartAuth !in h.works
    && (MsgSent in h.works ==> !SinkMessage(next))
    && (SendType in h.works || (Success in h.trace && !h.repeater) ==> next == SkeSendTypeId)
  }

  lemma AskQueues(h: State, r: State, o: Out)
    requires Unhindered(h, r.lastMsg) && r.lastMsg != Invalid
    requires r.works == h.works || r.works == Push(h.works, Wait)
    requires r.trace == h.trace + [o] && o != Success && r.repeater == h.repeater
    requires r.xport == Sending ==> !SinkMessage(r.lastMsg)
    ensures Queues(r)
  {
    PushKeeps(h.works, Wait);
  }

  lemma AskInStep(h: State, q: Request)
    requires (q == AskSend || q == AskRecv || q == AskPoll) && Answered(h, q)
    ensures InStep(Asked(h, q))
  {
  }

  lemma AskKeeps(h: State, q: Request)
    requires q == AskSend || q == AskRecv || q == AskPoll
    requires Answered(h, q) && Traced(h) && Unhindered(h, NextMessage(h, q == AskSend))
    ensures Inv(WakeupClient(h, q))
  {
    hide Traced, WakeupClient, Queues, NextMessage, InStep, Agree, Unhindered;
    var next := NextMessage(h, q == AskSend);
    var o := Asked(h, q);
    var r := WakeupClient(h, q);
    AskShape(h, q);
    AgreeByCore(r, h.(lastMsg := next));
    AskQueues(h, r, o);
    AskInStep(h, q);
    TracedByAsk(h, r, o, next);
  }

  lemma TracedByAsk(h: State, r: State, o: Out, next: Msg)
    requires Traced(h) && InStep(o) && Slot(o) == next && next != Invalid
    requires Reached(h.lastMsg) >= Reached(next) || Milestone(Reached(h.lastMsg), next)
    requires r.trace == h.trace + [o] && r.lastMsg == next
    ensures Traced(r)
  {
    hide InStep;
    assert Late(o) ==> Stage(h.trace) == 6;
    Appended(h.trace, o);
  }

  // ----- each work keeps the invariant -----

  lemma PushInv(h: State, w: Work)
    requires Inv(h) && w !in {Init, StartAuth, MsgSent, SendType}
    ensures Inv(h.(works := Push(h.works, w)))
  {
    hide Traced;
    PushKeeps(h.works, w);
    var g := h.(works := Push(h.works, w));
    AgreeByCore(g, h);
    assert Traced(g) by { TracedByTrace(h, g); }
  }

  lemma TracedByTrace(h: State, g: State)
    requires Traced(h) && g.trace == h.trace && Reached(g.lastMsg) <= Reached(h.lastMsg)
    ensures Traced(g)
  {
  }

  lemma KeyKeeps(h: State, accepted: bool)
    requires Inv(h) && Reached(h.lastMsg) == 6 && (h.repeater || h.lastMsg == SkeSendTypeId)
    requires !NeedsWait(h.(authenticated := true))
    ensures Inv(SetHwKey(h, accepted))
    ensures Core(SetHwKey(h, accepted)) == Core(h) && SetHwKey(h, accepted).works == h.works
  {
    var g := h.(authenticated := true);
    assert Inv(g) by { hide Told; TracedByTrace(h, g); }
    hide Inv;
    if !h.authenticated && accepted { ToldKeeps(g, Success); }
  }

  lemma TypeSent(h: State, a: Answers)
    requires Inv(h) && MsgSent !in h.works && !h.off && h.lastMsg == SkeSendTypeId
    ensures Inv(RunMsgSent(h, a))
  {
    hide Traced, WakeupClient;
    KeyKeeps(h, a.encryption);
    AskKeeps(SetHwKey(h, a.encryption), AskPoll);
  }

  lemma EksSent(h: State, a: Answers)
    requires Inv(h) && MsgSent !in h.works && !h.off && h.lastMsg == SkeSendEks
    ensures Inv(RunMsgSent(h, a))
  {
    hide Traced, WakeupClient;
    if h.repeater { AskKeeps(h, AskPoll); }
    else {
      var g := h.(resp := SkeSendTypeId);
      TracedByTrace(h, g);
      AskKeeps(g, AskSend);
    }
  }

  lemma AckSent(h: State, a: Answers)
    requires Inv(h) && MsgSent !in h.works && !h.off && h.lastMsg == RepSendAck
    ensures Inv(RunMsgSent(h, a))
  {
    hide Traced, WakeupClient;
    if h.updateStream {
      PushInv(h, Stream);
      var g := h.(works := Push(h.works, Stream));
      TracedByTrace(g, g.(updateStream := false));
    } else { AskKeeps(h, AskPoll); }
  }

  lemma SentKeeps(h: State, a: Answers)
    requires Inv(h) && MsgSent !in h.works
    requires h.lastMsg != Invalid && !SinkMessage(h.lastMsg)
    ensures Inv(RunMsgSent(h, a))
  {
    hide Traced, WakeupClient;
    if !h.off {
      match h.resp
      case SkeSendTypeId => TypeSent(h, a);
      case SkeSendEks => EksSent(h, a);
      case RepSendAck => AckSent(h, a);
      case _ => AskKeeps(h, AskRecv);
    }
  }

  // A message of the sink arrived.
  lemma RecvdFails(h: State, a: Answers)
    requires Inv(h) && !h.off && !a.empty && a.tz.Fail?
    ensures Inv(RunMsgRecvd(h, a))
  {
    PushInv(h, Clean);
  }

  lemma PrimeRecvd(h: State, a: Answers)
    requires Inv(h) && !h.off && !a.empty && Conforming(h, MsgRecvd, a) && !a.tz.Fail?
    requires h.lastMsg == AkeSendHPrime && h.noStoredKm
    ensures Inv(RunMsgRecvd(h, a))
  {
    hide Traced, WakeupClient;
    var h1 := Produced(h.(tz := AfterProcess(h.tz, h.lastMsg, a.tz)), a.tz);
    TracedByTrace(h, h1);
    AskKeeps(h1, AskRecv);
  }

  lemma StreamAccepted(h: State, a: Answers)
    requires Inv(h) && !h.off && !a.empty && Conforming(h, MsgRecvd, a) && !a.tz.Fail?
    requires h.lastMsg == RepStreamReady && a.tz.out != RepStreamManage
    ensures Inv(RunMsgRecvd(h, a))
  {
    hide Traced, WakeupClient;
    var h1 := Produced(h.(tz := AfterProcess(h.tz, h.lastMsg, a.tz)), a.tz);
    if h1.resendStreamManage {
      if a.query.Fail? {
        var g := h.(works := Push(h.works, Clean));
        PushInv(h, Clean);
        TracedByTrace(g, h1.(works := g.works));
      } else {
        var g := Queried(h1, a.query);
        TracedByTrace(h, g);
        AskKeeps(g, AskSend);
      }
    } else {
      KeyRecvd(h, h1, a);
    }
  }

  lemma KeyRecvd(h: State, h1: State, a: Answers)
    requires Inv(h) && !h.off && h.lastMsg == RepStreamReady
    requires h1 == h.(tz := h.tz.(awaiting := RepSendRecvIdList))
    ensures Inv(WakeupClient(SetHwKey(h1, a.encryption), AskPoll))
  {
    hide Traced, WakeupClient;
    KeyKeeps(h, a.encryption);
    var k := SetHwKey(h, a.encryption);
    var k1 := SetHwKey(h1, a.encryption);
    KeyCommutes(h, h1.tz, a.encryption);
    TracedByTrace(k, k1);
    AskKeeps(k1, AskPoll);
  }

  lemma KeyCommutes(h: State, tz: Tz, accepted: bool)
    ensures SetHwKey(h.(tz := tz), accepted) == SetHwKey(h, accepted).(tz := tz)
  {
  }

  function Prepared(h: State, a: Answers): State
    requires !a.tz.Fail?
  {
    var h1 := Produced(h.(tz := AfterProcess(h.tz, h.lastMsg, a.tz)), a.tz);
    var h2 := h1.(resendLcInit := h.lastMsg == LcSendLPrime && a.tz.out == LcInit,
                  noStoredKm := a.tz.out == AkeNoStoredKm);
    if a.tz.out == SkeSendEks then h2.(repeater := a.tz.repeater, updateStream := true) else h2
  }

  predicate Continues(h: State, a: Answers) {
    && !h.off && !a.empty && Conforming(h, MsgRecvd, a) && !a.tz.Fail?
    && !(h.lastMsg == AkeSendHPrime && h.noStoredKm)
    && (h.lastMsg == RepStreamReady ==> a.tz.out == RepStreamManage)
    && h.lastMsg != RepSendRecvIdList
  }

  lemma CertPrepared(h: State, a: Answers)
    requires Agree(h) && Continues(h, a) && h.lastMsg == AkeSendCert
    ensures Answered(Prepared(h, a), AskSend)
  {
    var unstored := a.tz.out == AkeNoStoredKm;
    assert Prepared(h, a) ==
      h.(resp := a.tz.out, resendLcInit := false, noStoredKm := unstored,
         tz := h.tz.(awaiting := AkeSendHPrime, noStored := unstored));
    hide Prepared;
  }

  lemma PrimePrepared(h: State, a: Answers)
    requires Agree(h) && Continues(h, a) && h.lastMsg == AkeSendHPrime
    ensures Answered(Prepared(h, a), AskSend)
  {
  }

  lemma PairingPrepared(h: State, a: Answers)
    requires Agree(h) && Continues(h, a) && h.lastMsg == AkeSendPairingInfo
    ensures Answered(Prepared(h, a), AskSend)
  {
  }

  lemma RetryPrepared(h: State, a: Answers)
    requires Agree(h) && Continues(h, a) && h.lastMsg == LcSendLPrime && a.tz.out == LcInit
    ensures Answered(Prepared(h, a), AskSend)
  {
    assert Prepared(h, a) == h.(resp := LcInit, resendLcInit := true, noStoredKm := false);
    hide Prepared, Continues;
  }

  lemma EksPrepared(h: State, a: Answers)
    requires Agree(h) && Continues(h, a) && h.lastMsg == LcSendLPrime && a.tz.out == SkeSendEks
    ensures Answered(Prepared(h, a), AskSend)
  {
    assert Prepared(h, a) ==
      h.(resp := SkeSendEks, resendLcInit := false, noStoredKm := false, repeater := a.tz.repeater,
         updateStream := true,
         tz := h.tz.(awaiting := if a.tz.repeater then RepSendRecvIdList else Invalid, repeater := a.tz.repeater))
      by { hide Agree; }
    hide Prepared, Continues;
  }

  lemma ReadyPrepared(h: State, a: Answers)
    requires Agree(h) && Continues(h, a) && h.lastMsg == RepStreamReady
    ensures Answered(Prepared(h, a), AskSend)
  {
  }

  lemma PreparedAnswers(h: State, a: Answers)
    requires Agree(h) && Continues(h, a)
    ensures SinkMessage(h.lastMsg) && Answered(Prepared(h, a), AskSend)
  {
    hide Answered, Agree, Prepared;
    match h.lastMsg
    case AkeSendCert => CertPrepared(h, a);
    case AkeSendHPrime => PrimePrepared(h, a);
    case AkeSendPairingInfo => PairingPrepared(h, a);
    case LcSendLPrime => if a.tz.out == LcInit { RetryPrepared(h, a); } else { EksPrepared(h, a); }
    case RepStreamReady => ReadyPrepared(h, a);
    case _ => assert false;
  }

  lemma PreparedFrame(h: State, a: Answers)
    requires !a.tz.Fail?
    ensures var g := Prepared(h, a); g.works == h.works && g.trace == h.trace && g.lastMsg == h.lastMsg
  {
    hide AfterProcess, Produced;
    ProducedFrame(h.(tz := AfterProcess(h.tz, h.lastMsg, a.tz)), a.tz);
  }

  lemma ProducedFrame(h: State, r: Reply)
    ensures var g := Produced(h, r); g.works == h.works && g.trace == h.trace && g.lastMsg == h.lastMsg
  {
  }

  /** Success comes after the keys, so what follows is a message of a repeater. */
  lemma SinkRepeats(h: State, a: Answers)
    requires Agree(h) && Queues(h) && Continues(h, a) && SinkMessage(h.lastMsg) && Success in h.trace
    ensures h.repeater && Prepared(h, a).repeater
  {
    hide AfterProcess;
    assert h.lastMsg == RepSendRecvIdList || h.lastMsg == RepStreamReady;
  }

  lemma PreparedQueues(h: State, a: Answers)
    requires Queues(h) && !a.tz.Fail? && SinkMessage(h.lastMsg)
    requires Answered(Prepared(h, a), AskSend) && (Success in h.trace ==> h.repeater && Prepared(h, a).repeater)
    ensures Unhindered(Prepared(h, a), NextMessage(Prepared(h, a), true))
  {
    hide Answered, NextMessage, Prepared, Continues, Agree;
    var g := Prepared(h, a);
    PreparedFrame(h, a);
    AnsweredSends(g);
  }

  lemma AnsweredSends(g: State)
    requires Answered(g, AskSend)
    ensures !SinkMessage(NextMessage(g, true))
  {
    hide NextMessage, Agree;
  }

  lemma PreparedShape(h: State, a: Answers)
    requires Agree(h) && Continues(h, a)
    ensures RunMsgRecvd(h, a) == WakeupClient(Prepared(h, a), AskSend)
  {
    hide WakeupClient;
  }

  /** Whatever the application answers in order goes out as the message the driver's table
      names, and that is what the driver remembers. */
  lemma AnswerGoesOutAsItself(h: State, a: Answers)
    requires Agree(h) && Continues(h, a)
    ensures RunMsgRecvd(h, a).trace == h.trace + [Send(a.tz.out, a.tz.out)]
    ensures RunMsgRecvd(h, a).lastMsg == a.tz.out && !SinkMessage(a.tz.out)
  {
    hide WakeupClient, RunMsgRecvd, Agree, Answered, Prepared, Asked;
    ResponseIsTheAnswer(h, a);
    PreparedShape(h, a);
    PreparedFrame(h, a);
    PreparedAnswers(h, a);
    AnsweredFits(Prepared(h, a));
  }

  lemma AnsweredFits(g: State)
    requires Answered(g, AskSend)
    ensures WakeupClient(g, AskSend).trace == g.trace + [Send(g.resp, g.resp)]
    ensures WakeupClient(g, AskSend).lastMsg == g.resp && !SinkMessage(g.resp)
  {
    hide Agree, NextMessage;
    AskShape(g, AskSend);
  }

  lemma ResponseIsTheAnswer(h: State, a: Answers)
    requires Agree(h) && Continues(h, a)
    ensures Prepared(h, a).resp == a.tz.out
  {
  }

  lemma NextRecvd(h: State, a: Answers)
    requires Inv(h) && Continues(h, a)
    ensures Inv(RunMsgRecvd(h, a))
  {
    hide Traced, WakeupClient, Answered, RunMsgRecvd, Unhindered, Agree;
    var g := Prepared(h, a);
    PreparedShape(h, a);
    PreparedAnswers(h, a);
    PreparedFrame(h, a);
    if Success in h.trace { SinkRepeats(h, a); }
    PreparedQueues(h, a);
    TracedByTrace(h, g);
    AskKeeps(g, AskSend);
  }

  lemma ListShape(h: State, a: Answers)
    requires !h.off && !a.empty && a.tz.Reply? && a.tz.out == RepSendAck && h.lastMsg == RepSendRecvIdList
    ensures RunMsgRecvd(h, a) == WakeupClient(AckState(h), AskSend)
  {
    hide WakeupClient;
    assert WakeupClient(h.(resp := RepSendAck, resendLcInit := false), TellRxInfo)
           == Told(h, RxInfo).(resp := RepSendAck, resendLcInit := false) by {
      TellCommutes(h);
    }
  }

  lemma TellCommutes(h: State)
    ensures WakeupClient(h.(resp := RepSendAck, resendLcInit := false), TellRxInfo) ==
            Told(h, RxInfo).(resp := RepSendAck, resendLcInit := false)
  {
  }

  /** The state in which the acknowledgement is sent. */
  function AckState(h: State): State {
    Told(h, RxInfo).(resp := RepSendAck, resendLcInit := false, noStoredKm := false)
  }

  lemma ListRecvd(h: State, a: Answers)
    requires Inv(h) && !h.off && !a.empty && Conforming(h, MsgRecvd, a) && !a.tz.Fail?
    requires h.lastMsg == RepSendRecvIdList
    ensures Inv(RunMsgRecvd(h, a))
  {
    hide Traced, WakeupClient, RunMsgRecvd, Told;
    ListShape(h, a);
    ToldKeeps(h, RxInfo);
    var g := Told(h, RxInfo);
    assert g.lastMsg == RepSendRecvIdList by { ToldCore(h, RxInfo); }
    TracedByTrace(g, AckState(h));
    AskKeeps(AckState(h), AskSend);
  }

  lemma ToldCore(h: State, o: Out)
    ensures Core(Told(h, o)) == Core(h)
  {
  }

  lemma RecvdKeeps(h: State, a: Answers)
    requires Inv(h) && Conforming(h, MsgRecvd, a)
    ensures Inv(RunMsgRecvd(h, a))
  {
    hide Inv, Conforming;
    if h.off || a.empty {
    } else if a.tz.Fail? {
      RecvdFails(h, a);
    } else if h.lastMsg == AkeSendHPrime && h.noStoredKm {
      PrimeRecvd(h, a);
    } else if h.lastMsg == RepStreamReady && a.tz.out != RepStreamManage {
      StreamAccepted(h, a);
    } else if h.lastMsg == RepSendRecvIdList {
      ListRecvd(h, a);
    } else {
      NextRecvd(h, a);
    }
  }

  // The other works.
  /** Asking for the streams once more, from any state of a repeater. */
  lemma StreamAnswered(h: State, r: Reply)
    requires Agree(h) && h.repeater && QueryAnswer(h.tz, r) && !r.Fail?
    ensures Reached(h.lastMsg) == 6 && Answered(Queried(h, r).(lastMsg := RepSendAck), AskSend)
  {
  }

  lemma StreamUnhindered(h: State, r: Reply)
    requires Agree(h) && Queues(h) && h.repeater && !r.Fail?
    ensures var g := Queried(h, r).(lastMsg := RepSendAck); Unhindered(g, NextMessage(g, true))
  {
    assert h.lastMsg != Invalid && h.lastMsg != SkeSendTypeId;
    hide Agree;
    var g := Queried(h, r).(lastMsg := RepSendAck);
    assert g.works == h.works && g.trace == h.trace && g.repeater == h.repeater;
    assert NextMessage(g, true) == RepStreamManage;
    hide Queried, NextMessage;
  }

  lemma StreamKeeps(h: State, a: Answers)
    requires Inv(h) && QueryAnswer(h.tz, a.tz)
    ensures Inv(RunStream(h, a))
  {
    hide Traced, WakeupClient, Answered, Agree, Unhindered, Queues;
    if !h.off && h.repeater && (h.authenticated || h.resp == RepSendAck) && !a.tz.Fail? {
      var g := Queried(h, a.tz).(lastMsg := RepSendAck);
      StreamAnswered(h, a.tz);
      StreamUnhindered(h, a.tz);
      TracedByTrace(h, g);
      AskKeeps(g, AskSend);
    }
  }

  lemma TypeKeeps(h: State)
    requires Inv(h) && h.lastMsg == SkeSendTypeId
    ensures Inv(RunSendType(h))
  {
    hide Traced, WakeupClient;
    var g := h.(resp := SkeSendTypeId);
    TracedByTrace(h, g);
    if !h.off && !h.repeater { AskKeeps(g, AskSend); }
  }

  lemma StartKeeps(h: State, a: Answers)
    requires Inv(h) && h.lastMsg == Invalid && StartAuth !in h.works && Init !in h.works
    requires StartAuthAnswer(h.tz, a.tz)
    ensures Inv(RunStartAuth(h, a))
  {
    hide Traced, WakeupClient;
    if a.tz.Fail? {
      PushInv(h, Clean);
    } else {
      var g := h.(resp := a.tz.out, tz := h.tz.(awaiting := AkeSendCert));
      TracedByTrace(h, g);
      AskKeeps(g, AskSend);
    }
  }

  lemma TimeoutAnswered(h: State, r: Reply)
    requires Agree(h) && h.lastMsg == LcSendLPrime && h.resendLcInit && r.Reply? && Produced(h, r).resp == LcInit
    ensures var g := Produced(h, r);
            Answered(g, AskSend) && NextMessage(g, true) == LcInit && g.works == h.works && g.trace == h.trace
            && g.lastMsg == h.lastMsg && g.repeater == h.repeater
  {
  }

  lemma ReplacedKeeps(h: State, r: Reply)
    requires Inv(h) && Produced(h, r).resp != LcInit
    requires Produced(h, r).resp != h.resp ==> h.lastMsg == Invalid || SinkMessage(h.lastMsg)
    ensures Inv(Produced(h, r))
  {
    hide Traced;
    TracedByTrace(h, Produced(h, r));
  }

  lemma TimeoutKeeps(h: State, a: Answers)
    requires Inv(h) && Conforming(h, Timeout, a)
    ensures Inv(RunTimeout(h, a))
  {
    hide Traced, WakeupClient, Answered, Agree, Produced;
    if h.off {
    } else if a.tz.Fail? {
      PushInv(h, Clean);
    } else if Produced(h, a.tz).resp == LcInit {
      TimeoutAnswered(h, a.tz);
      TracedByTrace(h, Produced(h, a.tz));
      AskKeeps(Produced(h, a.tz), AskSend);
    } else {
      ReplacedKeeps(h, a.tz);
    }
  }

  lemma InitKeeps(h: State, a: Answers)
    requires Inv(h) && h.lastMsg == Invalid
    ensures Inv(RunInit(h, a))
  {
    hide Traced;
    if a.tz.Fail? { PushInv(h, Clean); }
    else { TracedByTrace(h, RunInit(h, a)); }
  }

  lemma Halted(h: State, running: bool)
    requires Inv(h)
    ensures Inv(h.(tz := h.tz.(running := running))) && Inv(h.(authenticated := false))
  {
    hide Traced;
    TracedByTrace(h, h.(tz := h.tz.(running := running)));
    TracedByTrace(h, h.(authenticated := false));
  }

  lemma CleanKeeps(h: State)
    requires Inv(h.(off := true))
    ensures Inv(RunClean(h))
  {
    hide Inv, Told;
    var g := h.(off := true, authenticated := false);
    Halted(h.(off := true), false);
    Halted(g, false);
    ToldKeeps(g, Failed);
    Halted(Told(g, Failed), false);
  }

  lemma Popped(h: State)
    requires Inv(h) && h.works != []
    ensures var g := h.(works := h.works[1..]);
            Inv(if h.works[0] == Clean then g.(off := true) else g) && h.works[0] !in g.works
  {
    hide Traced;
    var g := h.(works := h.works[1..]);
    TracedByTrace(h, g);
    TracedByTrace(h, g.(off := true));
  }

  lemma WorkKeeps(h: State, a: Answers)
    requires Inv(h) && h.works != [] && Conforming(h, h.works[0], a)
    ensures Inv(Worked(h, a))
  {
    hide Traced, WakeupClient, RunMsgSent, RunMsgRecvd, RunStream, RunStartAuth, RunSendType, RunClean, RunInit,
         RunTimeout, Agree;
    var g := h.(works := h.works[1..]);
    Popped(h);
    match h.works[0]
    case Init => InitKeeps(g, a);
    case StartAuth => assert Init !in g.works; StartKeeps(g, a);
    case MsgSent => SentKeeps(g, a);
    case MsgRecvd => RecvdKeeps(g, a);
    case Clean =>
      CleanKeeps(g);
    case Stream => StreamKeeps(g, a);
    case SendType => TypeKeeps(g);
    case ManageStream => ManageKeeps(g, a);
    case Wait => if !g.off && a.timedOut { PushInv(g, Clean); }
    case Timeout => TimeoutKeeps(g, a);
  }

  lemma ManageKeeps(h: State, a: Answers)
    requires Inv(h)
    ensures Inv(RunManageStream(h, a))
  {
    hide Traced;
    if a.streamsChanged {
      if h.authenticated { PushInv(h, Stream); }
      else { TracedByTrace(h, h.(resendStreamManage := true)); }
    }
  }

  // ----- commands -----

  lemma RequeueInv(h: State, w: Work)
    requires Inv(h)
    requires match w
             case Init => false
             case StartAuth => h.lastMsg == Invalid
             case MsgSent => h.lastMsg != Invalid && !SinkMessage(h.lastMsg)
             case SendType => h.lastMsg == SkeSendTypeId
             case _ => true
    ensures Inv(h.(works := Cancel(h.works, w) + [w]))
  {
    hide Traced;
    var g := h.(works := Cancel(h.works, w) + [w]);
    RequeueKeeps(h.works, w);
    TracedByTrace(h, g);
    AgreeByCore(g, h);
  }

  lemma CancelInv(h: State, w: Work)
    requires Inv(h) && w != Clean
    ensures Inv(h.(works := Cancel(h.works, w)))
  {
    hide Traced;
    var g := h.(works := Cancel(h.works, w));
    CancelKeeps(h.works, w);
    TracedByTrace(h, g);
    AgreeByCore(g, h);
  }

  lemma IdleInv(h: State, off: bool)
    requires Inv(h)
    requires h.off ==> off
    ensures Inv(h.(xport := Idle, off := off))
  {
    hide Traced;
    TracedByTrace(h, h.(xport := Idle, off := off));
  }

  lemma CommandKeeps(h: State, c: Command)
    requires Inv(h) && Allowed(h, Wakeup(c))
    ensures Inv(Commanded(h, c))
  {
    hide Inv, Cancel, Push;
    match c
    case Start => StartSession(h);
    case BeginAuth => RequeueInv(h, StartAuth);
    case Stop => TornDown(h, true);
    case Disable => if h.off { IdleInv(h, true); } else { TornDown(h, true); }
    case SendSuccess =>
      SendingMeans(h);
      Reported(h, MsgSent);
    case RecvSuccess => Reported(h, MsgRecvd);
    case RecvTimeout => Reported(h, Timeout);
    case LinkFailed => TornDown(h, h.off);
    case QueryStream => RequeueInv(h, Stream);
    case MinEncLevel =>
      SendingMeans(h);
      if !h.repeater { RequeueInv(h, SendType); }
      else {
        CancelInv(h, SendType);
        RequeueInv(h.(works := Cancel(h.works, SendType)), Stream);
      }
    case ChangeStreams(changed) =>
      if changed { RequeueInv(h, ManageStream); } else { CancelInv(h, ManageStream); }
  }

  lemma TornDown(h: State, off: bool)
    requires Inv(h) && (h.off ==> off)
    ensures Inv(h.(off := off, works := Push(h.works, Clean), xport := Idle))
  {
    hide Inv, Push;
    PushInv(h, Clean);
    IdleInv(h.(works := Push(h.works, Clean)), off);
  }

  lemma Reported(h: State, w: Work)
    requires Inv(h) && (w == MsgSent || w == MsgRecvd || w == Timeout)
    requires w == MsgSent ==> h.lastMsg != Invalid && !SinkMessage(h.lastMsg)
    ensures Inv(h.(works := Cancel(h.works, w) + [w], xport := Idle))
  {
    hide Inv, Cancel;
    RequeueInv(h, w);
    IdleInv(h.(works := Cancel(h.works, w) + [w]), h.off);
  }

  lemma SendingMeans(h: State)
    requires Inv(h)
    ensures h.xport == Sending ==> h.lastMsg != Invalid && !SinkMessage(h.lastMsg)
    ensures Success in h.trace && !h.repeater ==> h.lastMsg == SkeSendTypeId
  {
  }

  lemma StartSession(h: State)
    requires Inv(h) && Allowed(h, Wakeup(Start))
    ensures Inv(Commanded(h, Start))
  {
    RequeueKeeps(h.works, Init);
  }

  // ----- whole runs -----

  lemma StepKeeps(h: State, s: Step)
    requires Inv(h) && Enabled(h, s) && Allowed(h, s)
    ensures Inv(Apply(h, s))
  {
    hide Inv, Worked, Commanded, Conforming;
    match s
    case Wakeup(c) => CommandKeeps(h, c);
    case RunWork(a) => WorkKeeps(h, a);
  }

  lemma {:induction false} RunKeeps(h: State, steps: seq<Step>)
    requires Inv(h) && Disciplined(h, steps)
    ensures ValidRun(h, steps) && Inv(Exec(h, steps))
    decreases |steps|
  {
    hide Inv, Allowed, Apply;
    DisciplinedIsValid(h, steps);
    if steps != [] {
      StepKeeps(h, steps[0]);
      RunKeeps(Apply(h, steps[0]), steps[1..]);
    }
  }
}
