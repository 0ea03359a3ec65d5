/** What the HDCP 2.2 transmitter promises of every run, and where it breaks its word. */
module HdcpVerdicts {
  import opened HdcpProtocol
  import opened HdcpSafety

  // ----- disciplined runs -----

  lemma RegisteredInv()
    ensures Inv(Registered)
  {
  }

  /** Every message goes out, comes in or is polled for under the slot the application means,
      and at rest the driver's last message is the one the application wrote or waits for. */
  lemma DriverStaysInStep(steps: seq<Step>)
    requires Disciplined(Registered, steps)
    ensures ValidRun(Registered, steps)
    ensures var h := Exec(Registered, steps);
            && (forall k :: 0 <= k < |h.trace| ==> InStep(h.trace[k]))
            && (h.lastMsg != Invalid && !SinkMessage(h.lastMsg) ==> h.resp == h.lastMsg)
            && (SinkMessage(h.lastMsg) ==>
                  h.tz.awaiting == h.lastMsg ||
                  (h.lastMsg == RepStreamReady && h.tz.awaiting == RepSendRecvIdList && (h.off || Clean in h.works)))
  {
    RegisteredInv();
    RunKeeps(Registered, steps);
  }

  /** The places of the first n milestones in the trace. */
  ghost predicate Passed(trace: seq<Out>, at: seq<nat>) {
    && (forall i :: 0 <= i < |at| ==> at[i] < |trace| && Milestone(i, Slot(trace[at[i]])))
    && (forall i, j :: 0 <= i < j < |at| ==> at[i] < at[j])
  }

  lemma {:induction false} StagePlaces(trace: seq<Out>) returns (at: seq<nat>)
    ensures |at| == Stage(trace) && Passed(trace, at)
    decreases |trace|
  {
    if trace == [] { return []; }
    var before := trace[..|trace| - 1];
    at := StagePlaces(before);
    if Milestone(|at|, Slot(trace[|trace| - 1])) { at := at + [|trace| - 1]; }
  }

  /** Session keys, repeater messages and success come only after initialisation, certificate,
      master key, H', locality challenge and L', in this order and in the same session. */
  lemma KeysFollowTheHandshake(steps: seq<Step>, k: nat)
    requires Disciplined(Registered, steps) && ValidRun(Registered, steps)
    requires k < |Exec(Registered, steps).trace| && Late(Exec(Registered, steps).trace[k])
    ensures exists at: seq<nat> :: |at| == 6 && Passed(Exec(Registered, steps).trace[..k], at)
  {
    RegisteredInv();
    RunKeeps(Registered, steps);
    var trace := Exec(Registered, steps).trace;
    assert Stage(trace[..k]) == 6;
    var at := StagePlaces(trace[..k]);
  }

  // ----- all runs -----

  function Count(trace: seq<Out>, o: Out): nat {
    if trace == [] then 0 else (if trace[|trace| - 1] == o then 1 else 0) + Count(trace[..|trace| - 1], o)
  }

  lemma CountStep(trace: seq<Out>, e: Out, o: Out)
    ensures Count(trace + [e], o) == Count(trace, o) + if e == o then 1 else 0
  {
    assert (trace + [e])[..|trace|] == trace;
  }

  predicate OneVerdict(h: State) {
    && Count(h.trace, Failed) <= 1 && (Count(h.trace, Failed) == 1 ==> h.off)
    && Count(h.trace, Success) <= 1 && (Count(h.trace, Success) == 1 ==> h.authenticated || h.off)
  }

  /** What a step of the thread does to verdicts and flags. */
  ghost predicate VerdictStep(h: State, g: State) {
    && Count(g.trace, Success) == Count(h.trace, Success) + (if g.authenticated && !h.authenticated then 1 else 0)
    && Count(g.trace, Failed) == Count(h.trace, Failed) + (if g.off && !h.off then 1 else 0)
    && (h.off ==> g.off && (g.authenticated ==> h.authenticated))
    && (h.authenticated && !g.authenticated ==> g.off)
  }

  /** What a request adds to the trace. */
  function Emitted(h: State, q: Request): (out: seq<Out>)
    ensures |out| <= 1
            && (out != [] ==> (out[0] == Success <==> q == TellSuccess) && (out[0] == Failed <==> q == TellFailed))
    ensures q == TellSuccess || q == TellFailed ==> out != []
  {
    match q
    case NoRequest => []
    case TellSuccess => [Success]
    case TellFailed => [Failed]
    case TellRxInfo => [RxInfo]
    case _ => if NextMessage(h, q == AskSend) == Invalid then [] else [Asked(h, q)]
  }

  lemma DeadEndEmits(h: State, q: Request)
    requires (q == AskSend || q == AskRecv || q == AskPoll) && NextMessage(h, q == AskSend) == Invalid
    ensures var g := WakeupClient(h, q); g.off == h.off && g.authenticated == h.authenticated && g.trace == h.trace
  {
    hide NextMessage, Told;
  }

  lemma TellEmits(h: State, o: Out)
    ensures var g := Told(h, o); g.off == h.off && g.authenticated == h.authenticated && g.trace == h.trace + [o]
  {
  }

  lemma AskEmits(h: State, q: Request)
    requires (q == AskSend || q == AskRecv || q == AskPoll) && NextMessage(h, q == AskSend) != Invalid
    ensures var g := WakeupClient(h, q);
            g.off == h.off && g.authenticated == h.authenticated && g.trace == h.trace + [Asked(h, q)]
  {
    hide WakeupClient, NextMessage;
    AskShape(h, q);
  }

  lemma WakeupEmits(h: State, q: Request)
    ensures var g := WakeupClient(h, q);
            g.off == h.off && g.authenticated == h.authenticated && g.trace == h.trace + Emitted(h, q)
  {
    hide NextMessage, Asked, Told;
    assert h.trace + [] == h.trace;
    match q
    case NoRequest =>
    case TellSuccess => TellEmits(h, Success);
    case TellFailed => TellEmits(h, Failed);
    case TellRxInfo => TellEmits(h, RxInfo);
    case _ =>
      hide WakeupClient;
      if NextMessage(h, q == AskSend) == Invalid { DeadEndEmits(h, q); } else { AskEmits(h, q); }
  }

  lemma WakeupVerdicts(h: State, q: Request)
    ensures var g := WakeupClient(h, q);
            && g.off == h.off && g.authenticated == h.authenticated
            && Count(g.trace, Success) == Count(h.trace, Success) + (if q == TellSuccess then 1 else 0)
            && Count(g.trace, Failed) == Count(h.trace, Failed) + (if q == TellFailed then 1 else 0)
  {
    hide Count, Emitted, WakeupClient;
    WakeupEmits(h, q);
    var out := Emitted(h, q);
    if out == [] {
      assert h.trace + out == h.trace;
    } else {
      CountStep(h.trace, out[0], Success);
      CountStep(h.trace, out[0], Failed);
      assert out == [out[0]];
    }
  }

  /** Only the fields that no verdict reads differ. */
  predicate Quieted(h: State, g: State) {
    g.trace == h.trace && g.off == h.off && g.authenticated == h.authenticated
  }

  lemma AskVerdicts(h: State, g: State, q: Request)
    requires Quieted(h, g) && q != TellSuccess && q != TellFailed
    ensures VerdictStep(h, WakeupClient(g, q))
    ensures WakeupClient(g, q).authenticated == h.authenticated && WakeupClient(g, q).off == h.off
  {
    hide Count, WakeupClient;
    WakeupVerdicts(g, q);
  }

  lemma KeyVerdicts(h: State, g: State, accepted: bool, q: Request)
    requires Quieted(h, g) && !h.off && q != TellSuccess && q != TellFailed
    ensures VerdictStep(h, WakeupClient(SetHwKey(g, accepted), q))
  {
    hide Count, WakeupClient;
    WakeupVerdicts(g.(authenticated := true), TellSuccess);
    WakeupVerdicts(SetHwKey(g, accepted), q);
  }

  lemma SentVerdicts(h: State, a: Answers)
    ensures VerdictStep(h, RunMsgSent(h, a))
  {
    hide WakeupClient, Count, SetHwKey;
    if !h.off {
      match h.resp
      case SkeSendTypeId => KeyVerdicts(h, h, a.encryption, AskPoll);
      case SkeSendEks =>
        AskVerdicts(h, h, AskPoll);
        AskVerdicts(h, h.(resp := SkeSendTypeId), AskSend);
      case RepSendAck => AskVerdicts(h, h, AskPoll);
      case _ => AskVerdicts(h, h, AskRecv);
    }
  }

  lemma Composed(h: State, mid: State, g: State)
    requires VerdictStep(h, mid) && VerdictStep(mid, g)
    requires g.authenticated == mid.authenticated && g.off == mid.off
    ensures VerdictStep(h, g)
  {
  }

  lemma ForwardedVerdicts(h: State, g: State, msg: Msg, r: Reply)
    requires Quieted(h, g) && r.Reply?
    ensures VerdictStep(h, Forwarded(g, msg, r))
  {
    hide WakeupClient, Count;
    var h2 := g.(resendLcInit := msg == LcSendLPrime && r.out == LcInit);
    AskVerdicts(h, h2, TellRxInfo);
    var h3 := if msg == RepSendRecvIdList then WakeupClient(h2, TellRxInfo) else h2;
    var h5 := Learned(h3, r);
    assert Forwarded(g, msg, r) == WakeupClient(h5, AskSend);
    assert Quieted(h3, h5);
    hide Forwarded, Quieted;
    AskVerdicts(h3, h5, AskSend);
    Composed(h, h3, WakeupClient(h5, AskSend));
  }

  lemma ProducedQuietly(h: State, tz: Tz, r: Reply)
    ensures Quieted(h, Produced(h.(tz := tz), r))
  {
  }

  lemma RecvdVerdicts(h: State, a: Answers)
    ensures VerdictStep(h, RunMsgRecvd(h, a))
  {
    hide WakeupClient, Count, SetHwKey, AfterProcess, Forwarded, Produced, Queried;
    if !h.off && !a.empty && !a.tz.Fail? {
      var tz := AfterProcess(h.tz, h.lastMsg, a.tz);
      var h1 := Produced(h.(tz := tz), a.tz);
      ProducedQuietly(h, tz, a.tz);
      if h.lastMsg == AkeSendHPrime && h.noStoredKm {
        AskVerdicts(h, h1, AskRecv);
      } else if h.lastMsg == RepStreamReady && a.tz.out != RepStreamManage {
        if !h1.resendStreamManage { KeyVerdicts(h, h1, a.encryption, AskPoll); }
        else if !a.query.Fail? { QueriedVerdicts(h, h1, a.query); }
      } else {
        ForwardedVerdicts(h, h1, h.lastMsg, a.tz);
      }
    } else if !h.off && !a.empty {
      ProducedQuietly(h, AfterProcess(h.tz, h.lastMsg, a.tz), a.tz);
    }
  }

  lemma QueriedVerdicts(h: State, g: State, r: Reply)
    requires Quieted(h, g) && !r.Fail?
    ensures VerdictStep(h, WakeupClient(Queried(g, r), AskSend))
    ensures VerdictStep(h, WakeupClient(Queried(g, r).(lastMsg := RepSendAck), AskSend))
  {
    AskVerdicts(h, Queried(g, r), AskSend);
    AskVerdicts(h, Queried(g, r).(lastMsg := RepSendAck), AskSend);
  }

  lemma OtherVerdicts(h: State, a: Answers)
    ensures VerdictStep(h, RunStream(h, a)) && VerdictStep(h, RunSendType(h)) && VerdictStep(h, RunStartAuth(h, a))
  {
    hide WakeupClient, Count, Queried;
    if !a.tz.Fail? {
      QueriedVerdicts(h, h, a.tz);
      AskVerdicts(h, h.(resp := a.tz.out, tz := h.tz.(awaiting := AkeSendCert)), AskSend);
    }
    AskVerdicts(h, h.(resp := SkeSendTypeId), AskSend);
  }

  lemma TimeoutVerdicts(h: State, a: Answers)
    ensures VerdictStep(h, RunTimeout(h, a))
  {
    hide WakeupClient, Count, Produced;
    if !a.tz.Fail? {
      ProducedQuietly(h, h.tz, a.tz);
      assert h.(tz := h.tz) == h;
      AskVerdicts(h, Produced(h, a.tz), AskSend);
    }
  }

  lemma SilentVerdicts(h: State, a: Answers)
    ensures Quieted(h, RunInit(h, a)) && Quieted(h, RunManageStream(h, a)) && Quieted(h, RunWait(h, a))
  {
  }

  lemma CleanVerdicts(h: State)
    ensures VerdictStep(h, RunClean(h))
  {
    hide WakeupClient, Count;
    WakeupVerdicts(h.(authenticated := false, off := true), TellFailed);
  }

  lemma WorkVerdicts(h: State, a: Answers)
    requires h.works != []
    ensures VerdictStep(h, Worked(h, a))
  {
    hide WakeupClient, Count, RunMsgSent, RunMsgRecvd, RunStartAuth, RunStream, RunSendType, RunClean, RunManageStream,
         RunInit, RunWait, RunTimeout;
    var g := h.(works := h.works[1..]);
    OtherVerdicts(g, a);
    SilentVerdicts(g, a);
    match h.works[0]
    case Init =>
    case StartAuth =>
    case MsgSent => SentVerdicts(g, a);
    case MsgRecvd => RecvdVerdicts(g, a);
    case Clean => CleanVerdicts(g);
    case Stream =>
    case SendType =>
    case ManageStream =>
    case Wait =>
    case Timeout => TimeoutVerdicts(g, a);
  }

  /** Whatever the client and the application do: at most one failure and one success a
      session, a failed session stays off and a successful one is authenticated or off. */
  lemma {:induction false} OneVerdictPerSession(h: State, steps: seq<Step>)
    requires ValidRun(h, steps) && OneVerdict(h)
    ensures OneVerdict(Exec(h, steps))
    decreases |steps|
  {
    if steps != [] {
      var g := Apply(h, steps[0]);
      assert OneVerdict(g) by {
        hide Worked, Count, Cancel;
        match steps[0]
        case RunWork(a) => WorkVerdicts(h, a);
        case Wakeup(c) => CommandVerdicts(h, c);
      }
      OneVerdictPerSession(g, steps[1..]);
    }
  }

  lemma CommandVerdicts(h: State, c: Command)
    ensures var g := Commanded(h, c);
            if c == Start then Count(g.trace, Failed) == Count(g.trace, Success) == 0
            else g.trace == h.trace && g.authenticated == h.authenticated && (h.off ==> g.off)
  {
    hide Cancel;
  }

  /** How often authenticated rose since the last start, given that it had risen n times. */
  function Rises(h: State, steps: seq<Step>, n: nat): nat
    requires ValidRun(h, steps)
    decreases |steps|
  {
    if steps == [] then n else
    var g := Apply(h, steps[0]);
    Rises(g, steps[1..],
          if steps[0] == Wakeup(Start) then 0 else n + if g.authenticated && !h.authenticated then 1 else 0)
  }

  /** The client hears of success exactly when authenticated becomes true. */
  lemma {:induction false} SuccessMarksAuthentication(h: State, steps: seq<Step>)
    requires ValidRun(h, steps)
    ensures Count(Exec(h, steps).trace, Success) == Rises(h, steps, Count(h.trace, Success))
    decreases |steps|
  {
    hide Apply, Count, Enabled;
    if steps != [] {
      StepRises(h, steps[0]);
      SuccessMarksAuthentication(Apply(h, steps[0]), steps[1..]);
    }
  }

  lemma StepRises(h: State, s: Step)
    requires Enabled(h, s)
    ensures var g := Apply(h, s);
            Count(g.trace, Success) ==
            if s == Wakeup(Start) then 0
            else Count(h.trace, Success) + if g.authenticated && !h.authenticated then 1 else 0
  {
    hide Worked, Commanded, Count;
    match s
    case RunWork(a) => WorkVerdicts(h, a);
    case Wakeup(c) => CommandVerdicts(h, c);
  }
}
