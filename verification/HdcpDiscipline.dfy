/** Where the HDCP 2.2 transmitter leaves the protocol: exactly when a message goes out under a
    wrong description, and for every clause that its environment keeps to, a run that falls out
    of step without it. */
module HdcpDiscipline {
  import opened HdcpProtocol
  import opened HdcpSafety
  import HdcpProgress

  // ----- which states describe the message rightly -----

  /** A change of the encryption level goes out as a type message exactly when the session
      keys are the last thing sent or the type was announced before. */
  lemma TypeFitsOnlyAfterTheKeys(h: State)
    requires !h.off && !h.repeater
    ensures RunSendType(h).trace == h.trace + [Send(SkeSendTypeId, SkeSendTypeId)]
            <==> h.lastMsg == SkeSendEks || h.lastMsg == SkeSendTypeId
  {
    var next := NextMessage(h.(resp := SkeSendTypeId), true);
    var t := RunSendType(h).trace;
    if next == Invalid { assert |t| == |h.trace|; } else { assert t[|h.trace|] == Send(next, SkeSendTypeId); }
  }

  /** After a timeout the new locality challenge goes out under its own description exactly
      in these states; in every other the driver describes it as a different message, or
      drops it because its table has no next message. */
  lemma TimeoutResendsTheChallenge(h: State, a: Answers)
    requires !h.off && !a.tz.Fail? && Produced(h, a.tz).resp == LcInit
    ensures RunTimeout(h, a).trace == h.trace + [Send(LcInit, LcInit)]
            <==> h.lastMsg == AkeSendPairingInfo
                 || (h.lastMsg == AkeSendHPrime && !h.noStoredKm)
                 || (h.lastMsg == LcSendLPrime && h.resendLcInit)
  {
    var g := Produced(h, a.tz);
    assert g.trace == h.trace && g.lastMsg == h.lastMsg;
    NextIsChallenge(h);
    assert NextMessage(g, true) == NextMessage(h, true);
    hide NextMessage, Produced, NeedsWait;
    var next := NextMessage(g, true);
    var t := WakeupClient(g, AskSend).trace;
    if next == Invalid {
      assert t == h.trace && |t| != |h.trace + [Send(LcInit, LcInit)]|;
    } else {
      assert t == h.trace + [Send(next, LcInit)];
      assert t[|h.trace|] == Send(next, LcInit);
    }
  }

  lemma NextIsChallenge(h: State)
    ensures NextMessage(h, true) == LcInit
            <==> h.lastMsg == AkeSendPairingInfo
                 || (h.lastMsg == AkeSendHPrime && !h.noStoredKm)
                 || (h.lastMsg == LcSendLPrime && h.resendLcInit)
  {
  }

  /** A sent message that is handled only after START: whatever the message was, the driver goes
      out of step. */
  lemma StaleSendFallsOutOfStep(h: State, a: Answers)
    requires h.works != [] && h.works[0] == MsgSent && Init !in h.works
    ensures var s := Commanded(h, Start); s.works != [] && !AllInStep(Worked(s, a).trace)
  {
    var s := Commanded(h, Start);
    CancelNothing(h.works, Init);
    assert s.works == h.works + [Init] && s.works[0] == MsgSent;
    StaleSent(s.(works := s.works[1..]), a);
  }

  lemma StaleSent(h: State, a: Answers)
    requires !h.off && h.lastMsg == Invalid && !h.repeater && !h.updateStream
    ensures !AllInStep(RunMsgSent(h, a).trace)
  {
    hide WakeupClient, SetHwKey, AllInStep;
    match h.resp
    case SkeSendTypeId =>
      KeyLeaves(h, a.encryption);
      LostAsk(SetHwKey(h, a.encryption), AskPoll);
    case SkeSendEks => LostAsk(h.(resp := SkeSendTypeId), AskSend);
    case RepSendAck => LostAsk(h, AskPoll);
    case _ => LostAsk(h, AskRecv);
  }

  lemma KeyLeaves(h: State, accepted: bool)
    ensures SetHwKey(h, accepted).lastMsg == h.lastMsg
  {
  }

  /** At the beginning of a session only AKE_INIT itself can go out rightly. */
  lemma LostAsk(h: State, q: Request)
    requires h.lastMsg == Invalid && (q == AskSend || q == AskRecv || q == AskPoll)
    requires q == AskSend ==> h.resp != AkeInit
    ensures !AllInStep(WakeupClient(h, q).trace)
  {
    AskShape(h, q);
    var t := WakeupClient(h, q).trace;
    hide WakeupClient;
    assert t[|h.trace|] == Asked(h, q) && !InStep(Asked(h, q));
  }

  lemma CancelNothing(works: seq<Work>, w: Work)
    requires w !in works
    ensures Cancel(works, w) == works
  {
  }

  // ----- runs -----

  const Quiet := Answers(Fail, Fail, false, false, false, false)

  function Answer(m: Msg): Step {
    RunWork(Quiet.(tz := Reply(m, false)))
  }

  lemma {:induction false} Joined(h: State, a: seq<Step>, b: seq<Step>)
    requires Disciplined(h, a) && ValidRun(h, a) && Disciplined(Exec(h, a), b)
    ensures Disciplined(h, a + b) && ValidRun(h, a + b) && ValidRun(Exec(h, a), b)
    ensures Exec(h, a + b) == Exec(Exec(h, a), b)
    decreases |a|
  {
    DisciplinedIsValid(Exec(h, a), b);
    if a == [] { assert a + b == b; }
    else {
      assert (a + b)[1..] == a[1..] + b;
      Joined(Apply(h, a[0]), a[1..], b);
    }
  }

  /** A disciplined run leads from h to g. */
  ghost predicate Leads(h: State, g: State) {
    exists steps :: Disciplined(h, steps) && ValidRun(h, steps) && Exec(h, steps) == g
  }

  lemma Nowhere(h: State)
    ensures Leads(h, h)
  {
    assert Disciplined(h, []) && ValidRun(h, []) && Exec(h, []) == h;
  }

  lemma Then(h: State, mid: State, s: Step, g: State)
    requires Leads(h, mid) && Enabled(mid, s) && Allowed(mid, s) && Apply(mid, s) == g
    ensures Leads(h, g)
  {
    var steps :| Disciplined(h, steps) && ValidRun(h, steps) && Exec(h, steps) == mid;
    assert Disciplined(g, []) && ValidRun(g, []);
    assert [s][1..] == [];
    assert Disciplined(mid, [s]) && ValidRun(mid, [s]) && Exec(mid, [s]) == g;
    Joined(h, steps, [s]);
  }

  /** The clause of Allowed that step s breaks in h is needed: h is reached by a disciplined run,
      and after s, with discipline again, a message goes under a wrong description. */
  ghost predicate Needed(h: State, s: Step) {
    && Leads(Registered, h) && Enabled(h, s) && !Allowed(h, s)
    && exists g :: Leads(Apply(h, s), g) && !AllInStep(g.trace)
  }

  // ----- the states of a session with a receiver whose master key is stored -----

  const Started: State := Registered.(off := false, tz := Tz(true, Invalid, false, false))

  /** AKE_INIT is on its way. */
  const Begun: State :=
    Started.(lastMsg := AkeInit, resp := AkeInit, xport := Sending, tz := Tz(true, AkeSendCert, false, false),
             trace := [Send(AkeInit, AkeInit)])

  /** Waiting for the certificate. */
  const Offered: State :=
    Begun.(lastMsg := AkeSendCert, xport := Receiving, trace := Begun.trace + [Recv(AkeSendCert, AkeSendCert)])

  const KeySent: State :=
    Offered.(lastMsg := AkeStoredKm, resp := AkeStoredKm, xport := Sending,
             tz := Offered.tz.(awaiting := AkeSendHPrime),
             trace := Offered.trace + [Send(AkeStoredKm, AkeStoredKm)])

  /** Waiting for H'. */
  const Keyed: State :=
    KeySent.(lastMsg := AkeSendHPrime, xport := Receiving, works := [Wait],
             trace := KeySent.trace + [Recv(AkeSendHPrime, AkeSendHPrime)])

  const Challenge: State :=
    Keyed.(lastMsg := LcInit, resp := LcInit, works := [], xport := Sending, tz := Keyed.tz.(awaiting := LcSendLPrime),
           trace := Keyed.trace + [Send(LcInit, LcInit)])

  /** Waiting for L' of the first locality challenge. */
  const Challenged: State :=
    Challenge.(lastMsg := LcSendLPrime, xport := Receiving,
               trace := Challenge.trace + [Recv(LcSendLPrime, LcSendLPrime)])

  const EksSent: State :=
    Challenged.(lastMsg := SkeSendEks, resp := SkeSendEks, xport := Sending, tz := Challenged.tz.(awaiting := Invalid),
                updateStream := true, trace := Challenged.trace + [Send(SkeSendEks, SkeSendEks)])

  const TypeSent: State :=
    EksSent.(lastMsg := SkeSendTypeId, resp := SkeSendTypeId,
             trace := EksSent.trace + [Send(SkeSendTypeId, SkeSendTypeId)])

  /** The receiver is authenticated and its link is polled. */
  const Secured: State :=
    TypeSent.(authenticated := true, xport := Polling,
              trace := TypeSent.trace + [Success, Poll(SkeSendTypeId, Invalid)])

  // ----- the states of a session with a repeater -----

  const KeysShared: State :=
    Challenged.(lastMsg := SkeSendEks, resp := SkeSendEks, xport := Sending, repeater := true, updateStream := true,
                tz := Challenged.tz.(awaiting := RepSendRecvIdList, repeater := true),
                trace := Challenged.trace + [Send(SkeSendEks, SkeSendEks)])

  /** Polling for the list of receivers. */
  const ListPolled: State :=
    KeysShared.(lastMsg := RepSendRecvIdList, xport := Polling, works := [Wait],
                trace := KeysShared.trace + [Poll(RepSendRecvIdList, RepSendRecvIdList)])

  const Acknowledged: State :=
    ListPolled.(lastMsg := RepSendAck, resp := RepSendAck, xport := Sending,
                trace := ListPolled.trace + [RxInfo, Send(RepSendAck, RepSendAck)])

  /** The streams are to be queried. */
  const Asking: State := Acknowledged.(works := [Stream], xport := Idle, updateStream := false)

  /** The streams are being announced. */
  const Announcing: State :=
    Asking.(lastMsg := RepStreamManage, resp := RepStreamManage, works := [], xport := Sending,
            tz := Asking.tz.(awaiting := RepStreamReady),
            trace := Asking.trace + [Send(RepStreamManage, RepStreamManage)])

  /** The client reports that the message is out, and the work runs. */
  lemma AfterSent(h: State, a: Answers, g: State)
    requires Leads(Registered, h) && h.works == [] && h.xport == Sending
    requires Worked(h.(works := [MsgSent], xport := Idle), a) == g
    ensures Leads(Registered, g)
  {
    hide Leads, Worked;
    var mid := h.(works := [MsgSent], xport := Idle);
    Then(Registered, h, Wakeup(SendSuccess), mid);
    Then(Registered, mid, RunWork(a), g);
  }

  /** The client reports a message of the sink, and the application answers in order. */
  lemma AfterRecvd(h: State, m: Msg, g: State)
    requires Leads(Registered, h) && h.works == []
    requires var mid := h.(works := [MsgRecvd], xport := Idle);
             Allowed(mid, Answer(m)) && Worked(mid, Quiet.(tz := Reply(m, false))) == g
    ensures Leads(Registered, g)
  {
    hide Leads, Worked, Conforming;
    var mid := h.(works := [MsgRecvd], xport := Idle);
    Then(Registered, h, Wakeup(RecvSuccess), mid);
    Then(Registered, mid, Answer(m), g);
  }

  lemma StartedReached()
    ensures Leads(Registered, Started)
  {
    hide Leads;
    var h := Registered.(off := false, works := [Init]);
    Nowhere(Registered);
    Then(Registered, Registered, Wakeup(Start), h);
    Then(Registered, h, Answer(Invalid), Started);
  }

  lemma BegunReached()
    ensures Leads(Registered, Started.(works := [StartAuth])) && Leads(Registered, Begun)
  {
    hide Leads;
    StartedReached();
    var h := Started.(works := [StartAuth]);
    Then(Registered, Started, Wakeup(BeginAuth), h);
    Then(Registered, h, Answer(AkeInit), Begun);
  }

  lemma OfferedReached()
    ensures Leads(Registered, Offered)
  {
    hide Leads;
    BegunReached();
    AfterSent(Begun, Quiet, Offered);
  }

  lemma KeyedReached()
    ensures Leads(Registered, Keyed)
  {
    hide Leads;
    OfferedReached();
    AfterRecvd(Offered, AkeStoredKm, KeySent);
    AfterSent(KeySent, Quiet, Keyed);
  }

  lemma ChallengedReached()
    ensures Leads(Registered, Challenged)
  {
    hide Leads;
    KeyedReached();
    var h := Keyed.(works := []);
    Then(Registered, Keyed, RunWork(Quiet), h);
    AfterRecvd(h, LcInit, Challenge);
    AfterSent(Challenge, Quiet, Challenged);
  }

  lemma TypeSentReached()
    ensures Leads(Registered, TypeSent)
  {
    hide Leads;
    ChallengedReached();
    AfterRecvd(Challenged, SkeSendEks, EksSent);
    AfterSent(EksSent, Quiet, TypeSent);
  }

  lemma SecuredReached()
    ensures Leads(Registered, Secured)
  {
    hide Leads;
    TypeSentReached();
    AfterSent(TypeSent, Quiet.(encryption := true), Secured);
  }

  lemma ListPolledReached()
    ensures Leads(Registered, ListPolled.(works := []))
  {
    hide Leads;
    SharedReached();
    AfterSent(KeysShared, Quiet, ListPolled);
    Then(Registered, ListPolled, RunWork(Quiet), ListPolled.(works := []));
  }

  lemma SharedReached()
    ensures Leads(Registered, KeysShared)
  {
    hide Leads;
    ChallengedReached();
    var h := Challenged.(works := [MsgRecvd], xport := Idle);
    Then(Registered, Challenged, Wakeup(RecvSuccess), h);
    Then(Registered, h, RunWork(Quiet.(tz := Reply(SkeSendEks, true))), KeysShared);
  }

  lemma AskingReached()
    ensures Leads(Registered, Asking)
  {
    hide Leads;
    AcknowledgedReached();
    AfterSent(Acknowledged.(works := []), Quiet, Asking);
  }

  lemma AcknowledgedReached()
    ensures Leads(Registered, Acknowledged.(works := []))
  {
    hide Leads;
    ListPolledReached();
    AfterRecvd(ListPolled.(works := []), RepSendAck, Acknowledged);
    Then(Registered, Acknowledged, RunWork(Quiet), Acknowledged.(works := []));
  }

  /** A disciplined run announces the streams of a repeater before it is authenticated. */
  lemma AnnouncingReached()
    ensures Leads(Registered, Announcing)
    ensures !Announcing.off && !Announcing.authenticated && Announcing.lastMsg == RepStreamManage
  {
    hide Leads;
    AskingReached();
    Then(Registered, Asking, Answer(RepStreamManage), Announcing);
  }

  /** A session comes to a standstill in disciplined runs: on a message of length zero, and on a
      timeout that the application answers with nothing, and on a stream query that fails. */
  lemma StandstillIsReached()
    ensures exists h: State :: h.works == [MsgRecvd] && Leads(Registered, h)
                               && HdcpProgress.Standstill(h, RunWork(Quiet.(empty := true)))
    ensures exists h: State :: h.works == [Timeout] && Leads(Registered, h)
                               && HdcpProgress.Standstill(h, Answer(Invalid))
    ensures exists h: State :: h.works == [Stream] && Leads(Registered, h)
                               && HdcpProgress.Standstill(h, RunWork(Quiet))
  {
    hide Leads;
    OfferedReached();
    var h := Offered.(works := [MsgRecvd], xport := Idle);
    var g := Offered.(works := [Timeout], xport := Idle);
    Then(Registered, Offered, Wakeup(RecvSuccess), h);
    Then(Registered, Offered, Wakeup(RecvTimeout), g);
    assert HdcpProgress.Standstill(h, RunWork(Quiet.(empty := true)));
    assert HdcpProgress.Standstill(g, Answer(Invalid));
    AskingReached();
    assert HdcpProgress.Standstill(Asking, RunWork(Quiet));
  }

  // ----- every clause is needed -----

  /** The last output of g is out of step. */
  lemma Broken(h: State, s: Step, g: State)
    requires Leads(Registered, h) && Enabled(h, s) && !Allowed(h, s) && Leads(Apply(h, s), g)
    requires g.trace != [] && !InStep(g.trace[|g.trace| - 1])
    ensures Needed(h, s)
  {
    assert !AllInStep(g.trace);
  }

  /** START with a sent message still to be handled: the queue holds nothing else. */
  lemma StartWaitsForSent()
    ensures exists h: State :: h.works == [MsgSent] && Needed(h, Wakeup(Start))
  {
    hide Leads, Needed;
    BegunReached();
    var h := Begun.(works := [MsgSent], xport := Idle);
    Then(Registered, Begun, Wakeup(SendSuccess), h);
    var s := Apply(h, Wakeup(Start));
    assert s.works == [MsgSent, Init] && s.trace == [] && s.lastMsg == Invalid;
    var g := Apply(s, RunWork(Quiet));
    Nowhere(s);
    Then(s, s, RunWork(Quiet), g);
    assert g.trace == [Recv(AkeInit, AkeSendCert)];
    Broken(h, Wakeup(Start), g);
  }

  /** START with an authentication still to be begun: the application starts again behind it. */
  lemma StartWaitsForAuth()
    ensures exists h: State :: h.works == [StartAuth] && Needed(h, Wakeup(Start))
  {
    hide Leads, Needed;
    BegunReached();
    var h := Started.(works := [StartAuth]);
    var s := h.(works := [StartAuth, Init]);
    assert Apply(h, Wakeup(Start)) == s;
    RestartUnderWay();
    var s3 := Begun.(works := [MsgSent], xport := Idle, tz := Tz(true, Invalid, false, false));
    var g := Apply(s3, RunWork(Quiet));
    Then(s, s3, RunWork(Quiet), g);
    assert g.trace == [Send(AkeInit, AkeInit), Recv(AkeSendCert, Invalid)];
    Broken(h, Wakeup(Start), g);
  }

  lemma RestartUnderWay()
    ensures Leads(Started.(works := [StartAuth, Init]),
                  Begun.(works := [MsgSent], xport := Idle, tz := Tz(true, Invalid, false, false)))
  {
    hide Leads;
    var s := Started.(works := [StartAuth, Init]);
    var s1 := Begun.(works := [Init]);
    var s2 := Begun.(tz := Tz(true, Invalid, false, false));
    Nowhere(s);
    Then(s, s, Answer(AkeInit), s1);
    Then(s, s1, Answer(Invalid), s2);
    Then(s, s2, Wakeup(SendSuccess), s2.(works := [MsgSent], xport := Idle));
  }

  /** START with a type message still to be sent. */
  lemma StartWaitsForType()
    ensures exists h: State :: h.works == [SendType] && Needed(h, Wakeup(Start))
  {
    hide Leads, Needed;
    SecuredReached();
    var h := Secured.(works := [SendType]);
    assert Secured.trace[|TypeSent.trace|] == Success;
    Then(Registered, Secured, Wakeup(MinEncLevel), h);
    var s := Apply(h, Wakeup(Start));
    assert s.works == [SendType, Init] && s.trace == [] && s.lastMsg == Invalid;
    var g := Apply(s, RunWork(Quiet));
    Nowhere(s);
    Then(s, s, RunWork(Quiet), g);
    assert g.trace == [Send(AkeInit, SkeSendTypeId)];
    Broken(h, Wakeup(Start), g);
  }

  /** A second START_AUTH in a session. */
  lemma AuthBeginsOnce()
    ensures Needed(Begun, Wakeup(BeginAuth))
  {
    hide Leads, Needed;
    BegunReached();
    var s := Begun.(works := [StartAuth]);
    assert Apply(Begun, Wakeup(BeginAuth)) == s;
    var g := Apply(s, Answer(AkeInit));
    Nowhere(s);
    Then(s, s, Answer(AkeInit), g);
    assert g.trace == Begun.trace + [Send(AkeSendCert, AkeInit)];
    Broken(Begun, Wakeup(BeginAuth), g);
  }

  /** A sent message reported while one is received. */
  lemma SentOnlyWhileSending()
    ensures Needed(Offered, Wakeup(SendSuccess))
  {
    hide Leads, Needed;
    OfferedReached();
    var s := Offered.(works := [MsgSent], xport := Idle);
    assert Apply(Offered, Wakeup(SendSuccess)) == s;
    var g := Apply(s, RunWork(Quiet));
    Nowhere(s);
    Then(s, s, RunWork(Quiet), g);
    assert g.trace == Offered.trace + [Recv(AkeStoredKm, AkeSendCert)];
    Broken(Offered, Wakeup(SendSuccess), g);
  }

  /** The encryption level of a receiver set before success. */
  lemma LevelOnlyAfterSuccess()
    ensures Needed(Offered, Wakeup(MinEncLevel))
  {
    hide Leads, Needed;
    OfferedReached();
    var s := Offered.(works := [SendType]);
    assert Apply(Offered, Wakeup(MinEncLevel)) == s;
    var g := Apply(s, RunWork(Quiet));
    Nowhere(s);
    Then(s, s, RunWork(Quiet), g);
    assert g.trace == Offered.trace + [Send(AkeStoredKm, SkeSendTypeId)];
    Broken(Offered, Wakeup(MinEncLevel), g);
  }

  /** A receive timeout answered with a new challenge while the driver waits for the first L':
      the challenge goes out described as the session keys. */
  lemma TimeoutFallsOutOfStep()
    ensures exists h: State :: h.works == [Timeout] && Needed(h, Answer(LcInit))
    ensures Send(SkeSendEks, LcInit) in RunTimeout(Challenged, Quiet.(tz := Reply(LcInit, false))).trace
  {
    hide Leads, Needed, Apply, Allowed, Enabled;
    var h := Challenged.(works := [Timeout], xport := Idle);
    ChallengeTimedOut();
    ChallengeAsKeys();
    var g := Apply(h, Answer(LcInit));
    Nowhere(g);
    assert g.trace[|g.trace| - 1] == Send(SkeSendEks, LcInit);
    Broken(h, Answer(LcInit), g);
    SentAsKeys();
  }

  lemma ChallengeAsKeys()
    ensures var h := Challenged.(works := [Timeout], xport := Idle);
            Enabled(h, Answer(LcInit)) && !Allowed(h, Answer(LcInit))
            && Apply(h, Answer(LcInit)).trace == Challenged.trace + [Send(SkeSendEks, LcInit)]
  {
    hide Leads;
  }

  lemma ChallengeTimedOut()
    ensures Leads(Registered, Challenged.(works := [Timeout], xport := Idle))
  {
    hide Leads;
    ChallengedReached();
    Then(Registered, Challenged, Wakeup(RecvTimeout), Challenged.(works := [Timeout], xport := Idle));
  }

  lemma SentAsKeys()
    ensures Send(SkeSendEks, LcInit) in RunTimeout(Challenged, Quiet.(tz := Reply(LcInit, false))).trace
  {
    assert RunTimeout(Challenged, Quiet.(tz := Reply(LcInit, false))).trace[|Challenged.trace|]
           == Send(SkeSendEks, LcInit);
  }

  /** A timeout whose answer replaces the response while a message is on its way. */
  lemma TimeoutSparesMessages()
    ensures exists h: State :: h.works == [Timeout, MsgSent] && Needed(h, Answer(SkeSendTypeId))
  {
    hide Leads, Needed;
    var h := Begun.(works := [Timeout, MsgSent], xport := Idle);
    LateTimeout();
    LostResponse(h);
  }

  lemma LateTimeout()
    ensures Leads(Registered, Begun.(works := [Timeout, MsgSent], xport := Idle))
  {
    hide Leads;
    EarlyTimeout();
    var h := Begun.(works := [Timeout]);
    Then(Registered, h, Wakeup(SendSuccess), Begun.(works := [Timeout, MsgSent], xport := Idle));
  }

  lemma EarlyTimeout()
    ensures Leads(Registered, Begun.(works := [Timeout]))
  {
    hide Leads;
    BegunReached();
    var h := Started.(works := [StartAuth, Timeout]);
    Then(Registered, Started.(works := [StartAuth]), Wakeup(RecvTimeout), h);
    Then(Registered, h, Answer(AkeInit), Begun.(works := [Timeout]));
  }

  lemma LostResponse(h: State)
    requires Leads(Registered, h) && h == Begun.(works := [Timeout, MsgSent], xport := Idle)
    ensures Needed(h, Answer(SkeSendTypeId))
  {
    hide Leads, Needed;
    var s := Begun.(works := [MsgSent], xport := Idle, resp := SkeSendTypeId);
    ResponseLost(h);
    hide Apply, Allowed;
    var g := s.(works := [], lastMsg := AkeSendCert, xport := Polling,
                trace := Begun.trace + [Poll(AkeSendCert, AkeSendCert)]);
    Nowhere(s);
    PolledInstead(s, g);
    Then(s, s, RunWork(Quiet), g);
    assert g.trace[|g.trace| - 1] == Poll(AkeSendCert, AkeSendCert);
    Broken(h, Answer(SkeSendTypeId), g);
  }

  lemma PolledInstead(s: State, g: State)
    requires s == Begun.(works := [MsgSent], xport := Idle, resp := SkeSendTypeId)
    requires g == s.(works := [], lastMsg := AkeSendCert, xport := Polling,
                     trace := Begun.trace + [Poll(AkeSendCert, AkeSendCert)])
    ensures Allowed(s, RunWork(Quiet)) && Apply(s, RunWork(Quiet)) == g
  {
    var w := s.(works := []);
    assert s.works[1..] == [];
    assert SetHwKey(w, false) == w;
    assert WakeupClient(w, AskPoll) == g;
  }

  lemma ResponseLost(h: State)
    requires h == Begun.(works := [Timeout, MsgSent], xport := Idle)
    ensures !Allowed(h, Answer(SkeSendTypeId))
    ensures Apply(h, Answer(SkeSendTypeId)) == Begun.(works := [MsgSent], xport := Idle, resp := SkeSendTypeId)
  {
  }
}
