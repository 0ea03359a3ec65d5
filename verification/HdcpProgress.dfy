/** How the HDCP 2.2 transmitter moves on: what goes out after every message of a session, in
    the order of the specification, and exactly when a session is left without anything that
    could carry it further. */
module HdcpProgress {
  import opened HdcpProtocol
  import opened HdcpSafety
  import opened HdcpEnding

  // ----- after every message -----

  lemma Asks(h: State, q: Request)
    requires (q == AskSend || q == AskRecv || q == AskPoll) && NextMessage(h, q == AskSend) != Invalid
    ensures var g := WakeupClient(h, q);
            && g.trace == h.trace + [Asked(h, q)] && g.lastMsg == NextMessage(h, q == AskSend)
            && g.xport == (if q == AskSend then Sending else if q == AskRecv then Receiving else Polling)
            && g.off == h.off && g.repeater == h.repeater && h.works <= g.works
  {
    hide NextMessage;
  }

  lemma KeyTells(h: State, accepted: bool)
    ensures var g := SetHwKey(h, accepted);
            && g.trace == h.trace + (if accepted && !h.authenticated then [Success] else [])
            && g.lastMsg == h.lastMsg && g.resp == h.resp && g.tz == h.tz && g.repeater == h.repeater && g.off == h.off
            && h.works <= g.works
            && g.noStoredKm == h.noStoredKm && g.resendLcInit == h.resendLcInit
  {
    assert h.trace + [] == h.trace;
  }

  /** What has to follow when the message the driver wrote last is out. */
  lemma SentMovesOn(h: State, a: Answers)
    requires Agree(h) && !h.off && h.lastMsg != Invalid && !SinkMessage(h.lastMsg)
    ensures var g := RunMsgSent(h, a);
            match h.lastMsg
            case AkeInit => g.trace == h.trace + [Recv(AkeSendCert, AkeSendCert)]
            case AkeNoStoredKm => g.trace == h.trace + [Recv(AkeSendHPrime, AkeSendHPrime)]
            case AkeStoredKm => g.trace == h.trace + [Recv(AkeSendHPrime, AkeSendHPrime)]
            case LcInit => g.trace == h.trace + [Recv(LcSendLPrime, LcSendLPrime)]
            case SkeSendEks =>
              g.trace == h.trace + [if h.repeater then Poll(RepSendRecvIdList, RepSendRecvIdList)
                                    else Send(SkeSendTypeId, SkeSendTypeId)]
            case SkeSendTypeId =>
              g.trace == h.trace + (if a.encryption && !h.authenticated then [Success] else [])
                         + [Poll(SkeSendTypeId, Invalid)]
            case RepSendAck =>
              if h.updateStream then g.trace == h.trace && Stream in g.works
              else g.trace == h.trace + [Poll(RepSendRecvIdList, RepSendRecvIdList)]
            case RepStreamManage => g.trace == h.trace + [Recv(RepStreamReady, RepStreamReady)]
            case _ => true
  {
    hide WakeupClient, SetHwKey;
    match h.lastMsg
    case SkeSendTypeId =>
      KeyTells(h, a.encryption);
      Asks(SetHwKey(h, a.encryption), AskPoll);
    case SkeSendEks =>
      if h.repeater { Asks(h, AskPoll); } else { Asks(h.(resp := SkeSendTypeId), AskSend); }
    case RepSendAck =>
      if !h.updateStream { Asks(h, AskPoll); }
    case _ => Asks(h, AskRecv);
  }

  /** What has to follow when a message of the sink is in and the application accepts it. */
  lemma ReceivedMovesOn(h: State, a: Answers)
    requires Agree(h) && !h.off && !a.empty && Conforming(h, MsgRecvd, a) && !a.tz.Fail?
    ensures var g := RunMsgRecvd(h, a);
            match h.lastMsg
            case AkeSendCert =>
              (a.tz.out == AkeNoStoredKm || a.tz.out == AkeStoredKm) && g.trace == h.trace + [Send(a.tz.out, a.tz.out)]
            case AkeSendHPrime =>
              g.trace == h.trace + [if h.noStoredKm then Recv(AkeSendPairingInfo, AkeSendPairingInfo)
                                    else Send(LcInit, LcInit)]
            case AkeSendPairingInfo => g.trace == h.trace + [Send(LcInit, LcInit)]
            case LcSendLPrime =>
              (a.tz.out == LcInit || a.tz.out == SkeSendEks) && g.trace == h.trace + [Send(a.tz.out, a.tz.out)]
            case RepSendRecvIdList => g.trace == h.trace + [RxInfo] + [Send(RepSendAck, RepSendAck)]
            case RepStreamReady =>
              if a.tz.out == RepStreamManage then g.trace == h.trace + [Send(RepStreamManage, RepStreamManage)]
              else if !h.resendStreamManage then
                g.trace == h.trace + (if a.encryption && !h.authenticated then [Success] else [])
                           + [Poll(RepSendRecvIdList, RepSendRecvIdList)]
              else !a.query.Fail? ==> g.trace == h.trace + [Send(RepStreamManage, RepStreamManage)]
            case _ => false
  {
    hide WakeupClient, SetHwKey, RunMsgRecvd;
    if h.lastMsg == AkeSendHPrime && h.noStoredKm {
      PairingFollows(h, a);
    } else if h.lastMsg == RepSendRecvIdList {
      AckFollows(h, a);
    } else if h.lastMsg == RepStreamReady && a.tz.out != RepStreamManage {
      StreamsFollow(h, a);
    } else {
      AnswerGoesOutAsItself(h, a);
    }
  }

  lemma PairingFollows(h: State, a: Answers)
    requires Agree(h) && !h.off && !a.empty && Conforming(h, MsgRecvd, a) && !a.tz.Fail?
    requires h.lastMsg == AkeSendHPrime && h.noStoredKm
    ensures RunMsgRecvd(h, a).trace == h.trace + [Recv(AkeSendPairingInfo, AkeSendPairingInfo)]
  {
    hide WakeupClient;
    Asks(Produced(h.(tz := AfterProcess(h.tz, h.lastMsg, a.tz)), a.tz), AskRecv);
  }

  lemma AckFollows(h: State, a: Answers)
    requires Agree(h) && !h.off && !a.empty && Conforming(h, MsgRecvd, a) && !a.tz.Fail?
    requires h.lastMsg == RepSendRecvIdList
    ensures RunMsgRecvd(h, a).trace == h.trace + [RxInfo] + [Send(RepSendAck, RepSendAck)]
  {
    ListShape(h, a);
    hide WakeupClient, RunMsgRecvd;
    Asks(AckState(h), AskSend);
  }

  lemma StreamsFollow(h: State, a: Answers)
    requires Agree(h) && !h.off && !a.empty && Conforming(h, MsgRecvd, a) && !a.tz.Fail?
    requires h.lastMsg == RepStreamReady && a.tz.out != RepStreamManage
    ensures var g := RunMsgRecvd(h, a);
            if !h.resendStreamManage then
              g.trace == h.trace + (if a.encryption && !h.authenticated then [Success] else [])
                         + [Poll(RepSendRecvIdList, RepSendRecvIdList)]
            else !a.query.Fail? ==> g.trace == h.trace + [Send(RepStreamManage, RepStreamManage)]
  {
    hide WakeupClient, SetHwKey;
    var h1 := Produced(h.(tz := AfterProcess(h.tz, h.lastMsg, a.tz)), a.tz);
    if !h.resendStreamManage {
      KeyTells(h1, a.encryption);
      Asks(SetHwKey(h1, a.encryption), AskPoll);
    } else if !a.query.Fail? {
      Asks(Queried(h1, a.query), AskSend);
    }
  }

  /** And a stream query the application answers goes out. */
  lemma QueryMovesOn(h: State, a: Answers)
    requires !h.off && h.repeater && (h.authenticated || h.resp == RepSendAck) && QueryAnswer(h.tz, a.tz) && !a.tz.Fail?
    ensures RunStream(h, a).trace == h.trace + [Send(RepStreamManage, RepStreamManage)]
  {
    hide WakeupClient;
    Asks(Queried(h, a.tz).(lastMsg := RepSendAck), AskSend);
  }

  /** A change of streams while they are being announced is announced in its turn if it comes
      while the answer of the sink is out, and only then: one that comes while the announcement
      itself is on its way is forgotten when the driver goes on to the answer. */
  lemma StreamChangeCountsIff(h: State, change: Answers, sent: Answers, b: Answers)
    requires Agree(h) && !h.off && !h.authenticated && change.streamsChanged
    requires h.lastMsg == RepStreamManage || h.lastMsg == RepStreamReady
    requires var r := AnswerAwaited(h, change, sent);
             !b.empty && Conforming(r, MsgRecvd, b) && !b.tz.Fail? && b.tz.out != RepStreamManage && !b.query.Fail?
    ensures var r := AnswerAwaited(h, change, sent);
            && r.lastMsg == RepStreamReady
            && (RunMsgRecvd(r, b).trace == r.trace + [Send(RepStreamManage, RepStreamManage)]
                <==> h.lastMsg == RepStreamReady)
  {
    hide RunMsgRecvd, SetHwKey;
    var r := AnswerAwaited(h, change, sent);
    AwaitedInStep(h, change, sent);
    hide AnswerAwaited, Agree;
    StreamsFollow(r, b);
    var t := RunMsgRecvd(r, b).trace;
    if h.lastMsg == RepStreamManage {
      assert t[|t| - 1] == Poll(RepSendRecvIdList, RepSendRecvIdList);
    }
  }

  /** The change, and the announcement out if it was on its way. */
  function AnswerAwaited(h: State, change: Answers, sent: Answers): State {
    var g := RunManageStream(h, change);
    if h.lastMsg == RepStreamManage then RunMsgSent(g, sent) else g
  }

  lemma AwaitedInStep(h: State, change: Answers, sent: Answers)
    requires Agree(h) && !h.off && !h.authenticated && change.streamsChanged
    requires h.lastMsg == RepStreamManage || h.lastMsg == RepStreamReady
    ensures var r := AnswerAwaited(h, change, sent);
            && r.lastMsg == RepStreamReady && !r.off && Agree(r)
            && (r.resendStreamManage <==> h.lastMsg == RepStreamReady)
  {
  }

  /** A change of streams of an authenticated repeater is queried, and the answer goes out. */
  lemma ChangeMovesOn(h: State, change: Answers, works: seq<Work>, b: Answers)
    requires !h.off && h.repeater && h.authenticated && change.streamsChanged && QueryAnswer(h.tz, b.tz) && !b.tz.Fail?
    ensures var g := RunManageStream(h, change);
            && Stream in g.works && g.trace == h.trace
            && RunStream(g.(works := works), b).trace == h.trace + [Send(RepStreamManage, RepStreamManage)]
  {
    var g := RunManageStream(h, change);
    QueryMovesOn(g.(works := works), b);
    hide RunStream;
  }

  /** What the client reports or asks for is taken up: the work for it is last in the list, behind
      everything else, and stands there once. */
  lemma CommandsAreQueued(h: State, c: Command)
    requires c != Stop && c != Disable && c != LinkFailed && c != ChangeStreams(false)
    ensures var w := match c
                     case Start => Init
                     case BeginAuth => StartAuth
                     case SendSuccess => MsgSent
                     case RecvSuccess => MsgRecvd
                     case RecvTimeout => Timeout
                     case QueryStream => Stream
                     case MinEncLevel => if h.repeater then Stream else SendType
                     case _ => ManageStream;
            var g := Commanded(h, c).works;
            g != [] && g[|g| - 1] == w && w !in g[..|g| - 1]
            && forall v :: v != w && !(c == MinEncLevel && v == SendType) ==> (v in g <==> v in h.works)
  {
    hide Cancel;
    match c
    case Start => Requeued(h.works, Init);
    case BeginAuth => Requeued(h.works, StartAuth);
    case SendSuccess => Requeued(h.works, MsgSent);
    case RecvSuccess => Requeued(h.works, MsgRecvd);
    case RecvTimeout => Requeued(h.works, Timeout);
    case QueryStream => Requeued(h.works, Stream);
    case MinEncLevel =>
      Requeued(h.works, SendType);
      Requeued(Cancel(h.works, SendType), Stream);
    case ChangeStreams(_) => Requeued(h.works, ManageStream);
  }

  lemma Requeued(works: seq<Work>, w: Work)
    ensures var g := Cancel(works, w) + [w];
            g[|g| - 1] == w && w !in g[..|g| - 1] && forall v :: v != w ==> (v in g <==> v in works)
    ensures forall v :: v != w ==> (v in Cancel(works, w) <==> v in works)
  {
    CancelSpares(works, w);
    CancelsAll(works, w);
    assert (Cancel(works, w) + [w])[..|Cancel(works, w)|] == Cancel(works, w);
  }

  lemma CancelsAll(works: seq<Work>, w: Work)
    ensures w !in Cancel(works, w)
  {
  }

  // ----- sessions that stand still -----

  /** A work that, when it runs, carries the session on or ends it; a wait does not, as every
      report of the client answers it. */
  predicate Carries(h: State, w: Work) {
    w == MsgSent || w == MsgRecvd || w == Timeout || w == Clean || (w == Stream && h.repeater)
  }

  /** The client has an open request, or there is a work that carries the session on, or there is
      no session, or it has not begun to authenticate. */
  predicate Going(h: State) {
    h.off || h.lastMsg == Invalid || h.xport != Idle || exists w :: w in h.works && Carries(h, w)
  }

  /** The work does nothing for the session: a message of length zero, a timeout that the
      application does not answer with a new challenge, a stream query that fails or is refused. */
  predicate Leaves(h: State, a: Answers)
    requires h.works != []
  {
    match h.works[0]
    case MsgRecvd => a.empty
    case Timeout => a.tz.Reply? && (if a.tz.out == Invalid then h.resp else a.tz.out) != LcInit
    case Stream => h.repeater && (a.tz.Fail? || (!h.authenticated && h.resp != RepSendAck))
    case _ => false
  }

  /** After such a work nothing is left: no request is open and no other work carries on. */
  predicate Standstill(h: State, s: Step) {
    match s
    case Wakeup(_) => false
    case RunWork(a) =>
      && !h.off && h.lastMsg != Invalid && h.xport == Idle
      && h.works != [] && Leaves(h, a) && forall w :: w in h.works[1..] ==> !Carries(h, w)
  }

  /** In step, a session comes to a standstill in these cases and no other; it never falls back
      to its beginning. */
  lemma StandsStillExactly(h: State, s: Step)
    requires Inv(h) && Going(h) && Enabled(h, s) && Allowed(h, s)
    ensures Going(Apply(h, s)) <==> !Standstill(h, s)
    ensures h.lastMsg != Invalid && s != Wakeup(Start) ==> Apply(h, s).lastMsg != Invalid
  {
    hide Worked, Commanded, Inv;
    match s
    case Wakeup(c) => CommandGoes(h, c);
    case RunWork(a) =>
      if h.off { OffGoes(h, a); }
      else if h.lastMsg == Invalid { NotBegun(h, a); }
      else { WorkMatters(h, a); }
  }

  lemma CommandGoes(h: State, c: Command)
    requires Going(h) && Allowed(h, Wakeup(c))
    ensures Going(Commanded(h, c)) && (c == Start || Commanded(h, c).lastMsg == h.lastMsg)
  {
    hide Cancel;
    var g := Commanded(h, c);
    match c
    case Start =>
    case BeginAuth =>
    case Stop =>
    case Disable =>
    case SendSuccess => assert MsgSent in g.works;
    case RecvSuccess => assert MsgRecvd in g.works;
    case RecvTimeout => assert Timeout in g.works;
    case LinkFailed => assert Clean in g.works;
    case QueryStream =>
      CancelSpares(h.works, Stream);
      CarriedOver(h, g);
    case MinEncLevel =>
      CancelSpares(h.works, SendType);
      CancelSpares(Cancel(h.works, SendType), Stream);
      CarriedOver(h, g);
    case ChangeStreams(_) =>
      CancelSpares(h.works, ManageStream);
      CarriedOver(h, g);
  }

  lemma CarriedOver(h: State, g: State)
    requires Going(h) && g.off == h.off && g.lastMsg == h.lastMsg && g.xport == h.xport && g.repeater == h.repeater
    requires forall w :: w in h.works && Carries(h, w) ==> w in g.works
    ensures Going(g)
  {
    if w :| w in h.works && Carries(h, w) { assert w in g.works && Carries(g, w); }
  }

  /** The work moved the session on: a request is open, or it ends, or the streams are queried. */
  predicate Moved(g: State) {
    g.lastMsg != Invalid && (g.xport != Idle || g.off || Clean in g.works || (Stream in g.works && g.repeater))
  }

  /** It left the session where it was. */
  predicate Stayed(h: State, g: State) {
    g.lastMsg == h.lastMsg && g.xport == h.xport && g.off == h.off && g.repeater == h.repeater && h.works <= g.works
  }

  lemma AskMoves(g: State, q: Request)
    requires (q == AskSend || q == AskRecv || q == AskPoll) && Answered(g, q)
    ensures Moved(WakeupClient(g, q))
  {
    hide Agree, NextMessage, WakeupClient;
    Asks(g, q);
  }

  lemma SentMoves(h: State, a: Answers)
    requires Agree(h) && !h.off && h.lastMsg != Invalid && !SinkMessage(h.lastMsg)
    ensures Moved(RunMsgSent(h, a))
  {
    hide WakeupClient, SetHwKey;
    match h.lastMsg
    case SkeSendTypeId =>
      KeyTells(h, a.encryption);
      AskMoves(SetHwKey(h, a.encryption), AskPoll);
    case SkeSendEks =>
      if h.repeater { AskMoves(h, AskPoll); } else { AskMoves(h.(resp := SkeSendTypeId), AskSend); }
    case RepSendAck =>
      if !h.updateStream { AskMoves(h, AskPoll); }
    case _ => AskMoves(h, AskRecv);
  }

  lemma RecvdMoves(h: State, a: Answers)
    requires Agree(h) && !h.off && !a.empty && Conforming(h, MsgRecvd, a) && h.lastMsg != Invalid
    ensures Moved(RunMsgRecvd(h, a))
  {
    hide RunMsgRecvd, Moved, Agree;
    if a.tz.Fail? { RejectionMoves(h, a); }
    else if h.lastMsg == AkeSendHPrime && h.noStoredKm { PairingMoves(h, a); }
    else if h.lastMsg == RepSendRecvIdList { AckMoves(h, a); }
    else if h.lastMsg == RepStreamReady && a.tz.out != RepStreamManage { StreamsMove(h, a); }
    else { NextMoves(h, a); }
  }

  lemma RejectionMoves(h: State, a: Answers)
    requires !h.off && !a.empty && a.tz.Fail? && h.lastMsg != Invalid
    ensures Moved(RunMsgRecvd(h, a))
  {
  }

  lemma PairingMoves(h: State, a: Answers)
    requires Agree(h) && !h.off && !a.empty && Conforming(h, MsgRecvd, a) && !a.tz.Fail?
    requires h.lastMsg == AkeSendHPrime && h.noStoredKm
    ensures Moved(RunMsgRecvd(h, a))
  {
    hide WakeupClient;
    AskMoves(Produced(h.(tz := AfterProcess(h.tz, h.lastMsg, a.tz)), a.tz), AskRecv);
  }

  lemma AckMoves(h: State, a: Answers)
    requires Agree(h) && !h.off && !a.empty && Conforming(h, MsgRecvd, a) && !a.tz.Fail?
    requires h.lastMsg == RepSendRecvIdList
    ensures Moved(RunMsgRecvd(h, a))
  {
    hide WakeupClient, RunMsgRecvd;
    ListShape(h, a);
    AskMoves(AckState(h), AskSend);
  }

  lemma NextMoves(h: State, a: Answers)
    requires Agree(h) && Continues(h, a)
    ensures Moved(RunMsgRecvd(h, a))
  {
    hide WakeupClient, RunMsgRecvd, Agree, Prepared, Answered, Moved;
    PreparedShape(h, a);
    PreparedAnswers(h, a);
    AskMoves(Prepared(h, a), AskSend);
  }

  lemma StreamsMove(h: State, a: Answers)
    requires Agree(h) && !h.off && !a.empty && Conforming(h, MsgRecvd, a) && !a.tz.Fail?
    requires h.lastMsg == RepStreamReady && a.tz.out != RepStreamManage
    ensures Moved(RunMsgRecvd(h, a))
  {
    hide WakeupClient, SetHwKey;
    var h1 := Produced(h.(tz := AfterProcess(h.tz, h.lastMsg, a.tz)), a.tz);
    if !h.resendStreamManage {
      KeyTells(h1, a.encryption);
      AskMoves(SetHwKey(h1, a.encryption), AskPoll);
    } else if !a.query.Fail? {
      AskMoves(Queried(h1, a.query), AskSend);
    }
  }

  lemma StreamMoves(h: State, a: Answers)
    requires Agree(h) && !h.off && QueryAnswer(h.tz, a.tz)
    ensures if h.repeater && (h.authenticated || h.resp == RepSendAck) && !a.tz.Fail? then Moved(RunStream(h, a))
            else RunStream(h, a) == h
  {
    hide WakeupClient;
    if h.repeater && (h.authenticated || h.resp == RepSendAck) && !a.tz.Fail? {
      StreamAnswered(h, a.tz);
      AskMoves(Queried(h, a.tz).(lastMsg := RepSendAck), AskSend);
    }
  }

  lemma TypeMoves(h: State)
    requires Agree(h) && !h.off && h.lastMsg == SkeSendTypeId
    ensures Moved(RunSendType(h))
  {
    hide WakeupClient;
    AskMoves(h.(resp := SkeSendTypeId), AskSend);
  }

  lemma TimeoutMoves(h: State, a: Answers)
    requires Agree(h) && !h.off && h.lastMsg != Invalid && Conforming(h, Timeout, a)
    ensures if a.tz.Reply? && (if a.tz.out == Invalid then h.resp else a.tz.out) != LcInit
            then Stayed(h, RunTimeout(h, a)) && RunTimeout(h, a).works == h.works else Moved(RunTimeout(h, a))
  {
    hide WakeupClient, Agree;
    if a.tz.Reply? && Produced(h, a.tz).resp == LcInit {
      TimeoutAnswered(h, a.tz);
      AskMoves(Produced(h, a.tz), AskSend);
    }
  }

  lemma StartMoves(h: State, a: Answers)
    requires Agree(h) && h.lastMsg == Invalid && StartAuthAnswer(h.tz, a.tz)
    ensures if a.tz.Fail? then RunStartAuth(h, a).lastMsg == Invalid else Moved(RunStartAuth(h, a))
  {
    hide WakeupClient;
    if !a.tz.Fail? { AskMoves(h.(resp := a.tz.out, tz := h.tz.(awaiting := AkeSendCert)), AskSend); }
  }

  lemma ManageStays(h: State, a: Answers)
    ensures Stayed(h, RunManageStream(h, a))
  {
  }

  lemma WaitStays(h: State, a: Answers)
    ensures Stayed(h, RunWait(h, a))
  {
  }

  lemma InitStays(h: State, a: Answers)
    ensures Stayed(h, RunInit(h, a))
  {
    hide WakeupClient;
    if a.tz.Fail? { assert RunInit(h, a) == h.(works := Push(h.works, Clean)); }
    else { assert RunInit(h, a) == h.(tz := h.tz.(running := true, awaiting := Invalid)); }
    hide RunInit;
  }

  /** Before authentication begins nothing asks for more than that. */
  lemma NotBegun(h: State, a: Answers)
    requires Inv(h) && !h.off && h.lastMsg == Invalid && h.works != [] && Conforming(h, h.works[0], a)
    ensures Going(Worked(h, a))
  {
    hide Traced, WakeupClient, RunMsgSent, SetHwKey, RunManageStream, RunWait, RunInit;
    var g := h.(works := h.works[1..]);
    assert h.works[0] != MsgSent && h.works[0] != SendType;
    match h.works[0]
    case Init => InitStays(g, a);
    case StartAuth => StartMoves(g, a);
    case MsgRecvd =>
    case Clean => CleanWorks(g);
    case Stream =>
    case ManageStream => ManageStays(g, a);
    case Wait => WaitStays(g, a);
    case Timeout =>
  }

  /** Nor does a session that is off lose its place. */
  lemma OffStays(h: State, a: Answers)
    requires Inv(h) && h.off && h.works != [] && h.lastMsg != Invalid
    ensures Worked(h, a).off && Worked(h, a).lastMsg != Invalid
  {
    hide Traced, WakeupClient, SetHwKey, RunManageStream, RunWait, RunInit;
    var g := h.(works := h.works[1..]);
    ManageStays(g, a);
    WaitStays(g, a);
    InitStays(g, a);
  }

  /** A work of a session that is on and under way. */
  lemma WorkGoes(h: State, a: Answers)
    requires Inv(h) && !h.off && h.lastMsg != Invalid && h.works != [] && Conforming(h, h.works[0], a)
    ensures var g := h.(works := h.works[1..]);
            var r := Worked(h, a);
            if h.works[0] == Clean then r.off && r.lastMsg != Invalid
            else if Leaves(h, a) then Stayed(g, r) && r.works == g.works
            else if Carries(h, h.works[0]) then Moved(r)
            else Stayed(g, r) || Moved(r)
  {
    hide Traced, RunMsgSent, RunMsgRecvd, RunStream, RunStartAuth, RunSendType, RunInit, RunTimeout, RunWait,
         RunManageStream, Moved, Stayed;
    var g := h.(works := h.works[1..]);
    assert h.works[0] != Clean ==> Agree(g) by { if h.works[0] != Clean { AgreeByCore(g, h); } }
    assert h.works[0] == SendType ==> h.lastMsg == SkeSendTypeId;
    assert h.works[0] == MsgSent ==> !SinkMessage(h.lastMsg);
    assert h.works[0] != Init && h.works[0] != StartAuth;
    ConformsAlike(h, h.works[1..], h.works[0], a);
    hide Agree, Queues;
    match h.works[0]
    case MsgSent => SentMoves(g, a);
    case MsgRecvd => if !a.empty { RecvdMoves(g, a); } else { EmptyStays(g, a); }
    case Clean => CleanOff(g);
    case Stream => StreamMoves(g, a); StaysItself(g);
    case SendType => TypeMoves(g);
    case ManageStream => ManageStays(g, a);
    case Wait => WaitStays(g, a);
    case Timeout =>
      hide Conforming;
      TimeoutMoves(g, a);
  }

  lemma ConformsAlike(h: State, works: seq<Work>, w: Work, a: Answers)
    ensures Conforming(h, w, a) <==> Conforming(h.(works := works), w, a)
  {
  }

  lemma CleanLeavesNothing(h: State, a: Answers)
    requires h.works != [] && h.works[0] == Clean
    ensures !Leaves(h, a)
  {
  }

  lemma StaysItself(h: State)
    ensures Stayed(h, h)
  {
  }

  lemma EmptyStays(h: State, a: Answers)
    requires a.empty
    ensures RunMsgRecvd(h, a) == h && Stayed(h, h)
  {
  }

  lemma CleanOff(h: State)
    requires h.lastMsg != Invalid
    ensures RunClean(h).off && RunClean(h).lastMsg != Invalid
  {
  }

  lemma WorkMatters(h: State, a: Answers)
    requires Inv(h) && Going(h) && !h.off && h.lastMsg != Invalid && h.works != [] && Conforming(h, h.works[0], a)
    ensures Going(Worked(h, a)) <==> !Standstill(h, RunWork(a))
    ensures Worked(h, a).lastMsg != Invalid
  {
    hide Inv, Worked, Leaves, Conforming;
    WorkGoes(h, a);
    WorkWorks(h, a);
    var r := Worked(h, a);
    assert h.works == [h.works[0]] + h.works[1..];
    if h.works[0] == Clean {
      CleanLeavesNothing(h, a);
    } else if Leaves(h, a) {
      forall w ensures w in r.works && Carries(r, w) <==> w in h.works[1..] && Carries(h, w) {
      }
    } else if Moved(r) {
      if Clean in r.works { assert Carries(r, Clean); }
      if Stream in r.works && r.repeater { assert Carries(r, Stream); }
    } else if h.xport == Idle {
      var w :| w in h.works && Carries(h, w);
      assert w in r.works && Carries(r, w);
    }
  }

  lemma OffGoes(h: State, a: Answers)
    requires Inv(h) && h.off && h.works != []
    ensures Worked(h, a).off && (h.lastMsg != Invalid ==> Worked(h, a).lastMsg != Invalid)
  {
    hide Inv, Worked;
    WorkWorks(h, a);
    if h.lastMsg != Invalid { OffStays(h, a); }
  }

  /** So in a disciplined run without such a step no session comes to a standstill. */
  lemma {:induction false} SessionsGoOn(steps: seq<Step>)
    requires Disciplined(Registered, steps) && ValidRun(Registered, steps) && NeverLeft(Registered, steps)
    ensures Going(Exec(Registered, steps))
  {
    RunGoesOn(Registered, steps);
  }

  predicate NeverLeft(h: State, steps: seq<Step>)
    requires ValidRun(h, steps)
    decreases |steps|
  {
    steps == [] || (!Standstill(h, steps[0]) && NeverLeft(Apply(h, steps[0]), steps[1..]))
  }

  lemma {:induction false} RunGoesOn(h: State, steps: seq<Step>)
    requires Inv(h) && Going(h) && Disciplined(h, steps) && ValidRun(h, steps) && NeverLeft(h, steps)
    ensures Going(Exec(h, steps))
    decreases |steps|
  {
    hide Inv, Going, Allowed, Apply, Enabled, Standstill;
    if steps != [] {
      StepKeeps(h, steps[0]);
      StandsStillExactly(h, steps[0]);
      RunGoesOn(Apply(h, steps[0]), steps[1..]);
    }
  }
}
