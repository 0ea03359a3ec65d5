/** How a session of the HDCP 2.2 transmitter ends: whatever the application rejects, and every
    response that stays out, tears the session down, and the client hears of the failure once
    unless it had turned the session off itself. */
module HdcpEnding {
  import opened HdcpProtocol
  import opened HdcpVerdicts

  /** The work now to run meets a rejection by the application, or a response did not come in time. */
  predicate Rejected(h: State, a: Answers) {
    h.works != [] &&
    match h.works[0]
    case Init => a.tz.Fail?
    case StartAuth => a.tz.Fail?
    case Timeout => !h.off && a.tz.Fail?
    case Wait => !h.off && a.timedOut
    case MsgRecvd =>
      !h.off && !a.empty && (
      || a.tz.Fail?
      || (h.lastMsg == RepStreamReady && a.tz.out != RepStreamManage && h.resendStreamManage && a.query.Fail?))
    case _ => false
  }

  /** The commands by which the client ends the session. */
  predicate Ends(h: State, c: Command) {
    c == Stop || c == LinkFailed || (c == Disable && !h.off)
  }

  // ----- one step -----

  /** What a step does that neither turns the session off nor is to: works are only added. */
  predicate SameWorks(h: State, g: State) {
    g.off == h.off && (Clean in g.works <==> Clean in h.works) && h.works <= g.works
  }

  lemma ToldWorks(h: State, o: Out)
    ensures SameWorks(h, Told(h, o))
  {
  }

  lemma WakeupWorks(h: State, q: Request)
    ensures SameWorks(h, WakeupClient(h, q))
  {
    hide NextMessage, Told;
    match q
    case NoRequest =>
    case TellSuccess => ToldWorks(h, Success);
    case TellFailed => ToldWorks(h, Failed);
    case TellRxInfo => ToldWorks(h, RxInfo);
    case _ => AskWorks(h, q);
  }

  lemma AskWorks(h: State, q: Request)
    requires q == AskSend || q == AskRecv || q == AskPoll
    ensures SameWorks(h, WakeupClient(h, q))
  {
    hide NextMessage, Told;
    var next := NextMessage(h, q == AskSend);
    var g := h.(lastMsg := next, resendStreamManage := h.resendStreamManage && h.lastMsg != RepStreamManage);
    ToldWorks(g.(xport := Sending), Send(next, h.resp));
    ToldWorks(g.(xport := Receiving), Recv(next, h.tz.awaiting));
    ToldWorks(g.(xport := Polling), Poll(next, h.tz.awaiting));
  }

  lemma KeyWorks(h: State, accepted: bool)
    ensures SameWorks(h, SetHwKey(h, accepted))
  {
    hide WakeupClient;
    WakeupWorks(h.(authenticated := true), TellSuccess);
  }

  lemma SentWorks(h: State, a: Answers)
    ensures SameWorks(h, RunMsgSent(h, a))
  {
    hide WakeupClient, SetHwKey;
    KeyWorks(h, a.encryption);
    WakeupWorks(SetHwKey(h, a.encryption), AskPoll);
    WakeupWorks(h, AskPoll);
    WakeupWorks(h.(resp := SkeSendTypeId), AskSend);
    WakeupWorks(h, AskRecv);
  }

  lemma AskSame(h: State, g: State, q: Request)
    requires SameWorks(h, g)
    ensures SameWorks(h, WakeupClient(g, q))
  {
    hide WakeupClient;
    WakeupWorks(g, q);
  }

  lemma LearnedSame(h: State, r: Reply)
    requires r.Reply?
    ensures SameWorks(h, Learned(h, r))
  {
  }

  lemma ForwardedWorks(h: State, g: State, msg: Msg, r: Reply)
    requires SameWorks(h, g) && r.Reply?
    ensures SameWorks(h, Forwarded(g, msg, r))
  {
    hide WakeupClient, Learned;
    var h2 := g.(resendLcInit := msg == LcSendLPrime && r.out == LcInit);
    assert SameWorks(h, h2);
    hide SameWorks;
    AskSame(h, h2, TellRxInfo);
    var h3 := if msg == RepSendRecvIdList then WakeupClient(h2, TellRxInfo) else h2;
    LearnedSame(h3, r);
    SameTwice(h, h3, Learned(h3, r));
    AskSame(h, Learned(h3, r), AskSend);
  }

  lemma SameTwice(h: State, mid: State, g: State)
    requires SameWorks(h, mid) && SameWorks(mid, g)
    ensures SameWorks(h, g)
  {
  }

  lemma ProducedSame(h: State, tz: Tz, r: Reply)
    ensures var g := Produced(h.(tz := tz), r);
            SameWorks(h, g) && g.resendStreamManage == h.resendStreamManage && g.works == h.works
  {
  }

  lemma QueriedSame(h: State, g: State, r: Reply)
    requires SameWorks(h, g) && !r.Fail?
    ensures SameWorks(h, WakeupClient(Queried(g, r), AskSend))
    ensures SameWorks(h, WakeupClient(Queried(g, r).(lastMsg := RepSendAck), AskSend))
  {
    AskSame(h, Queried(g, r), AskSend);
    AskSame(h, Queried(g, r).(lastMsg := RepSendAck), AskSend);
  }

  lemma KeySame(h: State, g: State, accepted: bool, q: Request)
    requires SameWorks(h, g)
    ensures SameWorks(h, WakeupClient(SetHwKey(g, accepted), q))
  {
    hide WakeupClient, SetHwKey;
    KeyWorks(g, accepted);
    AskSame(h, SetHwKey(g, accepted), q);
  }

  /** What of a received message is rejected. */
  predicate Refused(h: State, a: Answers) {
    !h.off && !a.empty && (
      || a.tz.Fail?
      || (h.lastMsg == RepStreamReady && a.tz.out != RepStreamManage && h.resendStreamManage && a.query.Fail?))
  }

  lemma RecvdWorks(h: State, a: Answers)
    ensures Clean in RunMsgRecvd(h, a).works <==> Clean in h.works || Refused(h, a)
    ensures RunMsgRecvd(h, a).off == h.off && h.works <= RunMsgRecvd(h, a).works
  {
    hide WakeupClient, SetHwKey, AfterProcess, Forwarded, Produced, Queried;
    if !h.off && !a.empty {
      var tz := AfterProcess(h.tz, h.lastMsg, a.tz);
      var h1 := Produced(h.(tz := tz), a.tz);
      ProducedSame(h, tz, a.tz);
      if a.tz.Fail? {
      } else if h.lastMsg == AkeSendHPrime && h.noStoredKm {
        AskSame(h, h1, AskRecv);
      } else if h.lastMsg == RepStreamReady && a.tz.out != RepStreamManage {
        if !h1.resendStreamManage { KeySame(h, h1, a.encryption, AskPoll); }
        else if !a.query.Fail? { QueriedSame(h, h1, a.query); }
      } else {
        ForwardedWorks(h, h1, h.lastMsg, a.tz);
      }
    }
  }

  lemma StreamWorks(h: State, a: Answers)
    ensures SameWorks(h, RunStream(h, a))
    ensures SameWorks(h, RunSendType(h))
    ensures SameWorks(h, RunManageStream(h, a))
  {
    hide WakeupClient;
    WakeupWorks(h.(resp := SkeSendTypeId), AskSend);
    if !a.tz.Fail? { WakeupWorks(Queried(h, a.tz).(lastMsg := RepSendAck), AskSend); }
  }

  lemma CleanWorks(h: State)
    ensures (Clean in RunClean(h).works <==> Clean in h.works) && RunClean(h).off && h.works <= RunClean(h).works
  {
    hide WakeupClient;
    WakeupWorks(h.(authenticated := false, off := true), TellFailed);
  }

  lemma TimeoutWorks(h: State, a: Answers)
    ensures Clean in RunTimeout(h, a).works <==> Clean in h.works || (!h.off && a.tz.Fail?)
    ensures RunTimeout(h, a).off == h.off && h.works <= RunTimeout(h, a).works
  {
    hide WakeupClient;
    WakeupWorks(Produced(h, a.tz), AskSend);
  }

  lemma StartWorks(h: State, a: Answers)
    ensures Clean in RunStartAuth(h, a).works <==> Clean in h.works || a.tz.Fail?
    ensures Clean in RunInit(h, a).works <==> Clean in h.works || a.tz.Fail?
    ensures Clean in RunWait(h, a).works <==> Clean in h.works || (!h.off && a.timedOut)
    ensures RunStartAuth(h, a).off == RunInit(h, a).off == RunWait(h, a).off == h.off
    ensures h.works <= RunStartAuth(h, a).works && h.works <= RunInit(h, a).works && h.works <= RunWait(h, a).works
  {
    hide WakeupClient;
    if !a.tz.Fail? { WakeupWorks(h.(resp := a.tz.out, tz := h.tz.(awaiting := AkeSendCert)), AskSend); }
  }

  lemma CancelSpares(works: seq<Work>, w: Work)
    ensures forall v :: v != w ==> (v in Cancel(works, w) <==> v in works)
  {
  }

  /** The session is torn down for these reasons and no other. */
  lemma CleanExactly(h: State, s: Step)
    requires Enabled(h, s)
    ensures Clean in Apply(h, s).works <==>
              match s
              case RunWork(a) => Clean in h.works[1..] || Rejected(h, a)
              case Wakeup(c) => Clean in h.works || Ends(h, c)
  {
    match s
    case Wakeup(c) => CommandWorks(h, c);
    case RunWork(a) => WorkWorks(h, a);
  }

  lemma CommandWorks(h: State, c: Command)
    ensures Clean in Commanded(h, c).works <==> Clean in h.works || Ends(h, c)
    ensures c != Start ==> (Commanded(h, c).off <==> h.off || c == Stop || c == Disable)
  {
    hide Cancel;
    match c
    case Start => CancelSpares(h.works, Init);
    case BeginAuth => CancelSpares(h.works, StartAuth);
    case Stop =>
    case Disable =>
    case SendSuccess => CancelSpares(h.works, MsgSent);
    case RecvSuccess => CancelSpares(h.works, MsgRecvd);
    case RecvTimeout => CancelSpares(h.works, Timeout);
    case LinkFailed =>
    case QueryStream => CancelSpares(h.works, Stream);
    case MinEncLevel =>
      CancelSpares(h.works, SendType);
      CancelSpares(Cancel(h.works, SendType), Stream);
    case ChangeStreams(_) => CancelSpares(h.works, ManageStream);
  }

  lemma WorkWorks(h: State, a: Answers)
    requires h.works != []
    ensures Clean in Worked(h, a).works <==> Clean in h.works[1..] || Rejected(h, a)
    ensures Worked(h, a).off <==> h.off || h.works[0] == Clean
    ensures h.works[1..] <= Worked(h, a).works
  {
    hide RunMsgSent, RunMsgRecvd, RunStream, RunSendType, RunClean, RunManageStream, RunTimeout, RunStartAuth, RunInit,
         RunWait;
    var g := h.(works := h.works[1..]);
    match h.works[0]
    case Init => StartWorks(g, a);
    case StartAuth => StartWorks(g, a);
    case MsgSent => SentWorks(g, a);
    case MsgRecvd => RecvdWorks(g, a);
    case Clean => CleanWorks(g);
    case Stream => StreamWorks(g, a);
    case SendType => StreamWorks(g, a);
    case ManageStream => StreamWorks(g, a);
    case Wait => StartWorks(g, a);
    case Timeout => TimeoutWorks(g, a);
  }

  /** What is rejected tears the session down, without another word to the client for now. */
  lemma RejectionIsCleaned(h: State, a: Answers)
    requires Rejected(h, a)
    ensures Enabled(h, RunWork(a))
    ensures var g := Apply(h, RunWork(a)); Clean in g.works && g.off == h.off && g.trace == h.trace
  {
    hide RunMsgSent, RunMsgRecvd, RunStream, RunSendType, RunClean, RunManageStream, RunTimeout, RunStartAuth, RunInit,
         RunWait, Refused;
    WorkWorks(h, a);
    var g := h.(works := h.works[1..]);
    match h.works[0]
    case MsgRecvd => RefusedQuietly(g, a);
    case StartAuth => FailedQuietly(g, a);
    case Timeout => FailedQuietly(g, a);
    case _ => SilentVerdicts(g, a);
  }

  lemma RefusedQuietly(h: State, a: Answers)
    requires !h.off && !a.empty && (a.tz.Fail? || (h.lastMsg == RepStreamReady && a.tz.out != RepStreamManage
                                                   && h.resendStreamManage && a.query.Fail?))
    ensures RunMsgRecvd(h, a).trace == h.trace
  {
    hide WakeupClient, SetHwKey, AfterProcess, Forwarded, Produced;
    ProducedQuietly(h, AfterProcess(h.tz, h.lastMsg, a.tz), a.tz);
    ProducedSame(h, AfterProcess(h.tz, h.lastMsg, a.tz), a.tz);
  }

  lemma FailedQuietly(h: State, a: Answers)
    requires a.tz.Fail?
    ensures RunTimeout(h, a).trace == RunStartAuth(h, a).trace == h.trace
  {
    hide WakeupClient;
  }

  // ----- runs -----

  ghost predicate NoStart(steps: seq<Step>) {
    forall k :: 0 <= k < |steps| ==> steps[k] != Wakeup(Start)
  }

  /** The client turns the session off while it is on. */
  predicate CutShort(h: State, steps: seq<Step>)
    requires ValidRun(h, steps)
    decreases |steps|
  {
    steps != [] &&
    ((!h.off && (steps[0] == Wakeup(Stop) || steps[0] == Wakeup(Disable))) || CutShort(Apply(h, steps[0]), steps[1..]))
  }

  /** How many works the thread ran. */
  function Rounds(steps: seq<Step>): nat {
    if steps == [] then 0 else (if steps[0].RunWork? then 1 else 0) + Rounds(steps[1..])
  }

  // ----- messages with a deadline -----

  /** The sink has a time to answer. */
  predicate Due(h: State) {
    h.lastMsg == AkeSendHPrime || h.lastMsg == AkeSendPairingInfo
    || (h.lastMsg == RepSendRecvIdList && !h.authenticated)
  }

  /** Whenever the client is told to get a message that the sink has a time for, the wait is queued. */
  lemma RepliesAreAwaited(h: State, s: Step)
    requires Enabled(h, s) && s != Wakeup(Start)
    ensures var g := Apply(h, s); |g.trace| > |h.trace| && Due(g) ==> Wait in g.works
  {
    hide RunMsgSent, RunMsgRecvd, RunStream, RunSendType, RunClean, RunManageStream, RunTimeout, RunStartAuth, RunInit,
         RunWait, Due;
    match s
    case Wakeup(c) => CommandVerdicts(h, c);
    case RunWork(a) =>
      var g := h.(works := h.works[1..]);
      SilentVerdicts(g, a);
      match h.works[0]
      case Init =>
      case StartAuth => StartSpeaks(g, a);
      case MsgSent => SentSpeaks(g, a);
      case MsgRecvd => RecvdSpeaks(g, a);
      case Clean => CleanSpeaks(g);
      case Stream => StreamSpeaks(g, a);
      case SendType => StreamSpeaks(g, a);
      case ManageStream =>
      case Wait =>
      case Timeout => StartSpeaks(g, a);
  }

  /** Nothing was said, or the wait is queued if it is due. */
  predicate Guarded(h: State, g: State) {
    g.trace == h.trace || (Due(g) ==> Wait in g.works)
  }

  lemma ToldSpeaks(h: State, o: Out)
    ensures Due(Told(h, o)) ==> Wait in Told(h, o).works
  {
  }

  lemma AtTheEnd(g: State)
    ensures g.lastMsg == Invalid ==> !Due(g)
    ensures !Due(g.(lastMsg := Invalid)) && !Due(g.(lastMsg := Invalid, resendStreamManage := false))
  {
  }

  lemma Speaks(g: State, q: Request)
    requires q != NoRequest
    ensures var r := WakeupClient(g, q); Due(r) ==> Wait in r.works
  {
    hide NextMessage, Told, Due;
    match q
    case TellSuccess => ToldSpeaks(g, Success);
    case TellFailed => ToldSpeaks(g, Failed);
    case TellRxInfo => ToldSpeaks(g, RxInfo);
    case _ =>
      var next := NextMessage(g, q == AskSend);
      AtTheEnd(g);
      var g' := g.(lastMsg := next, resendStreamManage := g.resendStreamManage && g.lastMsg != RepStreamManage);
      ToldSpeaks(g'.(xport := Sending), Send(next, g.resp));
      ToldSpeaks(g'.(xport := Receiving), Recv(next, g.tz.awaiting));
      ToldSpeaks(g'.(xport := Polling), Poll(next, g.tz.awaiting));
  }

  lemma SentSpeaks(h: State, a: Answers)
    ensures Guarded(h, RunMsgSent(h, a))
  {
    hide WakeupClient, SetHwKey, Due;
    Speaks(SetHwKey(h, a.encryption), AskPoll);
    Speaks(h, AskPoll);
    Speaks(h.(resp := SkeSendTypeId), AskSend);
    Speaks(h, AskRecv);
  }

  lemma RecvdSpeaks(h: State, a: Answers)
    ensures Guarded(h, RunMsgRecvd(h, a))
  {
    hide WakeupClient, SetHwKey, AfterProcess, Forwarded, Due, Produced, Queried;
    if !h.off && !a.empty {
      var tz := AfterProcess(h.tz, h.lastMsg, a.tz);
      var h1 := Produced(h.(tz := tz), a.tz);
      ProducedQuietly(h, tz, a.tz);
      if a.tz.Fail? {
      } else if h.lastMsg == AkeSendHPrime && h.noStoredKm {
        Speaks(h1, AskRecv);
      } else if h.lastMsg == RepStreamReady && a.tz.out != RepStreamManage {
        if h1.resendStreamManage { Speaks(Queried(h1, a.query), AskSend); }
        else { Speaks(SetHwKey(h1, a.encryption), AskPoll); }
      } else {
        ForwardedSpeaks(h1, h.lastMsg, a.tz);
      }
    }
  }

  lemma ForwardedSpeaks(h: State, msg: Msg, r: Reply)
    requires r.Reply?
    ensures var g := Forwarded(h, msg, r); Due(g) ==> Wait in g.works
  {
    hide WakeupClient, Due, Learned;
    var h2 := h.(resendLcInit := msg == LcSendLPrime && r.out == LcInit);
    Speaks(Learned(if msg == RepSendRecvIdList then WakeupClient(h2, TellRxInfo) else h2, r), AskSend);
  }

  lemma StreamSpeaks(h: State, a: Answers)
    ensures Guarded(h, RunStream(h, a)) && Guarded(h, RunSendType(h))
  {
    hide WakeupClient, Due;
    Speaks(Queried(h, a.tz).(lastMsg := RepSendAck), AskSend);
    Speaks(h.(resp := SkeSendTypeId), AskSend);
  }

  lemma StartSpeaks(h: State, a: Answers)
    ensures Guarded(h, RunStartAuth(h, a)) && Guarded(h, RunTimeout(h, a))
  {
    hide WakeupClient, Due;
    if !a.tz.Fail? {
      Speaks(h.(resp := a.tz.out, tz := h.tz.(awaiting := AkeSendCert)), AskSend);
      Speaks(Produced(h, a.tz), AskSend);
    }
  }

  lemma CleanSpeaks(h: State)
    ensures Guarded(h, RunClean(h))
  {
    hide WakeupClient;
    Speaks(h.(authenticated := false, off := true), TellFailed);
  }

  // ----- what becomes of a session that is to be torn down -----

  lemma StepEnds(h: State, s: Step)
    requires Enabled(h, s) && s != Wakeup(Start) && (h.off || Clean in h.works)
    ensures var g := Apply(h, s);
            && (g.off || Clean in g.works)
            && (h.off ==> g.off)
            && (!h.off && g.off <==>
                  !h.off && (s == Wakeup(Stop) || s == Wakeup(Disable) || (s.RunWork? && h.works[0] == Clean)))
            && Count(g.trace, Failed) == Count(h.trace, Failed)
                                         + if !h.off && s.RunWork? && h.works[0] == Clean then 1 else 0
  {
    hide Commanded, Worked, Count, Rejected;
    match s
    case Wakeup(c) =>
      CommandWorks(h, c);
      CommandVerdicts(h, c);
    case RunWork(a) =>
      WorkWorks(h, a);
      WorkVerdicts(h, a);
      assert h.works == [h.works[0]] + h.works[1..];
  }

  /** From a session that is off or about to be torn down, until the next START: it stays so, and
      once it is off the client has heard of one failure, unless it was off before or the client
      turned it off. */
  lemma {:induction false} Ending(h: State, steps: seq<Step>)
    requires ValidRun(h, steps) && NoStart(steps) && (h.off || Clean in h.works)
    ensures var g := Exec(h, steps);
            && (g.off || Clean in g.works)
            && (h.off ==> g.off && !CutShort(h, steps)) && (CutShort(h, steps) ==> g.off)
            && Count(g.trace, Failed) == Count(h.trace, Failed)
                                         + if g.off && !h.off && !CutShort(h, steps) then 1 else 0
    decreases |steps|
  {
    hide Apply, Count, Enabled;
    if steps != [] {
      StepEnds(h, steps[0]);
      Ending(Apply(h, steps[0]), steps[1..]);
    }
  }

  // ----- and when -----

  /** The place of the first clean work, or the length of the list. */
  function Place(works: seq<Work>): (n: nat)
    ensures n <= |works| && (n < |works| <==> Clean in works)
  {
    if works == [] || works[0] == Clean then 0 else 1 + Place(works[1..])
  }

  lemma {:induction false} PlaceInLonger(works: seq<Work>, more: seq<Work>)
    requires works <= more && Clean in works
    ensures Place(more) == Place(works)
    decreases works
  {
    if works[0] != Clean {
      assert works[1..] <= more[1..];
      PlaceInLonger(works[1..], more[1..]);
    }
  }

  lemma {:induction false} PlaceAfterCancel(works: seq<Work>, w: Work)
    requires w != Clean && Clean in works
    ensures Clean in Cancel(works, w) && Place(Cancel(works, w)) <= Place(works)
  {
    if works[0] == Clean {
    } else {
      PlaceAfterCancel(works[1..], w);
      if works[0] != w { assert Cancel(works, w)[1..] == Cancel(works[1..], w) && Cancel(works, w)[0] == works[0]; }
      else { assert Cancel(works, w) == Cancel(works[1..], w); }
    }
  }

  lemma CancelledPlace(works: seq<Work>, w: Work)
    requires w != Clean && Clean in works
    ensures Clean in Cancel(works, w) + [w] && Place(Cancel(works, w) + [w]) <= Place(works)
    ensures Clean in Cancel(works, w) && Place(Cancel(works, w)) <= Place(works)
  {
    PlaceAfterCancel(works, w);
    PlaceInLonger(Cancel(works, w), Cancel(works, w) + [w]);
  }

  lemma CommandPlace(h: State, c: Command)
    requires Clean in h.works
    ensures Clean in Commanded(h, c).works && Place(Commanded(h, c).works) <= Place(h.works)
  {
    hide Cancel, Place;
    match c
    case Start => CancelledPlace(h.works, Init);
    case BeginAuth => CancelledPlace(h.works, StartAuth);
    case Stop =>
    case Disable =>
    case SendSuccess => CancelledPlace(h.works, MsgSent);
    case RecvSuccess => CancelledPlace(h.works, MsgRecvd);
    case RecvTimeout => CancelledPlace(h.works, Timeout);
    case LinkFailed =>
    case QueryStream => CancelledPlace(h.works, Stream);
    case MinEncLevel =>
      CancelledPlace(h.works, SendType);
      CancelledPlace(Cancel(h.works, SendType), Stream);
    case ChangeStreams(_) => CancelledPlace(h.works, ManageStream);
  }

  /** The thread comes to the clean work, whatever the client puts in its way. */
  lemma {:induction false} CleanComesUp(h: State, steps: seq<Step>)
    requires ValidRun(h, steps) && NoStart(steps) && (h.off || Clean in h.works)
    ensures h.off || Place(h.works) < Rounds(steps) ==> Exec(h, steps).off
    decreases |steps|
  {
    hide Commanded, Worked, Count, Rejected, CutShort;
    if h.off {
      Ending(h, steps);
    } else if steps != [] {
      var g := Apply(h, steps[0]);
      StepEnds(h, steps[0]);
      match steps[0] {
        case Wakeup(c) => CommandPlace(h, c);
        case RunWork(a) =>
          WorkWorks(h, a);
          if h.works[0] != Clean { PlaceInLonger(h.works[1..], g.works); }
      }
      CleanComesUp(g, steps[1..]);
    }
  }

  /** A session that is to be torn down: until the next START it is off or still to be torn
      down; when no clean work is left it is off, and it is at the latest when the thread has
      run as many works as there were; the client hears of exactly one failure, or of none if
      it turned the session off first. */
  lemma TornDownSessionsEnd(before: seq<Step>, after: seq<Step>)
    requires ValidRun(Registered, before)
    requires var h := Exec(Registered, before); !h.off && Clean in h.works && ValidRun(h, after) && NoStart(after)
    ensures var h := Exec(Registered, before);
            var g := Exec(h, after);
            && Count(h.trace, Failed) == 0
            && (g.off || Clean in g.works)
            && (Rounds(after) >= |h.works| ==> g.off)
            && Count(g.trace, Failed) == if g.off && !CutShort(h, after) then 1 else 0
  {
    hide Exec, Count, Rejected, CutShort, NoStart;
    NothingYet();
    OneVerdictPerSession(Registered, before);
    var h := Exec(Registered, before);
    Ending(h, after);
    CleanComesUp(h, after);
  }

  lemma NothingYet()
    ensures OneVerdict(Registered)
  {
  }

  /** So ends every session in which the application rejects something or a response stays out. */
  lemma RejectedSessionsEnd(before: seq<Step>, a: Answers, after: seq<Step>)
    requires ValidRun(Registered, before)
    requires var h := Exec(Registered, before);
             !h.off && Rejected(h, a) && ValidRun(Apply(h, RunWork(a)), after) && NoStart(after)
    ensures var h := Apply(Exec(Registered, before), RunWork(a));
            var g := Exec(h, after);
            && !h.off && Clean in h.works && h.trace == Exec(Registered, before).trace
            && (g.off || Clean in g.works)
            && (Rounds(after) >= |h.works| ==> g.off)
            && Count(g.trace, Failed) == if g.off && !CutShort(h, after) then 1 else 0
  {
    hide Apply, Count, Rejected, CutShort, NoStart, Rounds;
    var h := Exec(Registered, before);
    RejectionIsCleaned(h, a);
    OneStepMore(Registered, before, RunWork(a));
    TornDownSessionsEnd(before + [RunWork(a)], after);
  }

  lemma {:induction false} OneStepMore(h: State, steps: seq<Step>, s: Step)
    requires ValidRun(h, steps) && Enabled(Exec(h, steps), s)
    ensures ValidRun(h, steps + [s]) && Exec(h, steps + [s]) == Apply(Exec(h, steps), s)
    decreases |steps|
  {
    hide Apply;
    if steps == [] {
      assert [s][1..] == [];
    } else {
      assert (steps + [s])[1..] == steps[1..] + [s];
      OneStepMore(Apply(h, steps[0]), steps[1..], s);
    }
  }
}
