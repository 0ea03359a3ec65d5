/** The transmitter in its own form: a control structure whose fields the works update in
    place.  Each method takes the control structure through a step of HdcpProtocol; commands
    and works that the environment is allowed keep the driver in step with the application. */
module HdcpDriver {
  import opened HdcpProtocol
  import opened HdcpSafety
  import opened HdcpEnding

  class Transmitter {
    var lastMsg: Msg
    var resp: Msg
    var noStoredKm: bool
    var authenticated: bool
    var resendLcInit: bool
    var resendStreamManage: bool
    var repeater: bool
    var updateStream: bool
    var off: bool
    var works: seq<Work>
    var xport: Transport
    var tz: Tz
    var trace: seq<Out>

    ghost function View(): State
      reads this
    {
      State(lastMsg, resp, noStoredKm, authenticated, resendLcInit, resendStreamManage, repeater, updateStream, off,
            works, xport, tz, trace)
    }

    /** The message automaton of the driver agrees with that of the application, and so does
        every message that went out or came in since START. */
    ghost predicate Valid()
      reads this
    {
      Inv(View())
    }

    constructor ()
      ensures Valid() && View() == Registered
    {
      lastMsg, resp, noStoredKm, authenticated := Invalid, Invalid, false, false;
      resendLcInit, resendStreamManage, repeater, updateStream, off := false, false, false, false, true;
      works, xport, tz, trace := [], Idle, Tz(false, Invalid, false, false), [];
    }

    method GetNextMessage(sending: bool) returns (next: Msg)
      modifies this`resendStreamManage
      ensures next == NextMessage(old(View()), sending)
      ensures resendStreamManage == (old(resendStreamManage) && lastMsg != RepStreamManage)
    {
      match lastMsg
      case Invalid => return AkeInit;
      case AkeInit => return AkeSendCert;
      case AkeSendCert => return if noStoredKm then AkeNoStoredKm else AkeStoredKm;
      case AkeStoredKm => return AkeSendHPrime;
      case AkeNoStoredKm => return AkeSendHPrime;
      case AkeSendHPrime => return if noStoredKm then AkeSendPairingInfo else LcInit;
      case AkeSendPairingInfo => return LcInit;
      case LcInit => return LcSendLPrime;
      case LcSendLPrime => return if resendLcInit then LcInit else SkeSendEks;
      case RepSendRecvIdList => return RepSendAck;
      case RepStreamManage =>
        resendStreamManage := false;
        return RepStreamReady;
      case _ =>
        if !repeater { return if lastMsg == SkeSendEks || lastMsg == SkeSendTypeId then SkeSendTypeId else Invalid; }
        return if sending then RepStreamManage else RepSendRecvIdList;
    }

    method Execute(w: Work)
      modifies this`works
      ensures works == Push(old(works), w)
    {
      if w !in works { works := works + [w]; }
    }

    method Tell(o: Out)
      modifies this`works, this`trace
      ensures View() == Told(old(View()), o)
    {
      trace := trace + [o];
      if lastMsg == AkeSendHPrime || lastMsg == AkeSendPairingInfo || (lastMsg == RepSendRecvIdList && !authenticated) {
        Execute(Wait);
      }
    }

    method Ask(q: Request)
      requires q == AskSend || q == AskRecv || q == AskPoll
      modifies this`lastMsg, this`resendStreamManage, this`works, this`xport, this`trace
      ensures View() == WakeupClient(old(View()), q)
    {
      hide NextMessage, Told;
      lastMsg := GetNextMessage(q == AskSend);
      if lastMsg == Invalid { return; }
      if q == AskSend {
        xport := Sending;
        Tell(Send(lastMsg, resp));
      } else if q == AskRecv {
        xport := Receiving;
        Tell(Recv(lastMsg, tz.awaiting));
      } else {
        xport := Polling;
        Tell(Poll(lastMsg, tz.awaiting));
      }
    }

    method Wakeup(q: Request)
      modifies this`lastMsg, this`resendStreamManage, this`works, this`xport, this`trace
      ensures View() == WakeupClient(old(View()), q)
    {
      hide NextMessage, Told;
      match q
      case NoRequest =>
      case TellSuccess => Tell(Success);
      case TellFailed => Tell(Failed);
      case TellRxInfo => Tell(RxInfo);
      case _ => Ask(q);
    }

    method EnableEncryption(accepted: bool)
      modifies this`authenticated, this`lastMsg, this`resendStreamManage, this`works, this`xport, this`trace
      ensures View() == SetHwKey(old(View()), accepted)
      ensures authenticated == (old(authenticated) || accepted)
      ensures trace == old(trace) + if authenticated && !old(authenticated) then [Success] else []
    {
      if authenticated || !accepted { return; }
      authenticated := true;
      Wakeup(TellSuccess);
    }

    method OnMsgSent(a: Answers)
      modifies this
      ensures View() == RunMsgSent(old(View()), a)
    {
      hide WakeupClient, SetHwKey;
      if off { return; }
      var q := NoRequest;
      match resp {
        case SkeSendTypeId =>
          EnableEncryption(a.encryption);
          q := AskPoll;
        case SkeSendEks =>
          if repeater { q := AskPoll; }
          else {
            resp := SkeSendTypeId;
            Wakeup(AskSend);
          }
        case RepSendAck =>
          if updateStream {
            Execute(Stream);
            updateStream := false;
          } else { q := AskPoll; }
        case _ => q := AskRecv;
      }
      if q != NoRequest { Wakeup(q); }
    }

    method OnMsgRecvd(a: Answers)
      modifies this
      ensures View() == RunMsgRecvd(old(View()), a)
      ensures !old(off) && !a.empty && a.tz.Fail? ==> Clean in works && trace == old(trace)
    {
      hide WakeupClient, SetHwKey, Forwarded, AfterProcess;
      if off || a.empty { return; }
      var msg := lastMsg;
      tz := AfterProcess(tz, msg, a.tz);
      if a.tz.Fail? { Execute(Clean); return; }
      if a.tz.out != Invalid { resp := a.tz.out; }
      if msg == AkeSendHPrime && noStoredKm { Wakeup(AskRecv); return; }
      if msg == RepStreamReady && a.tz.out != RepStreamManage { StreamDone(a); return; }
      Forward(msg, a.tz);
    }

    method StreamDone(a: Answers)
      modifies this
      ensures View() == if old(resendStreamManage) then
                          if a.query.Fail? then old(View()).(works := Push(old(works), Clean))
                          else WakeupClient(Queried(old(View()), a.query), AskSend)
                        else WakeupClient(SetHwKey(old(View()), a.encryption), AskPoll)
    {
      if resendStreamManage {
        if a.query.Fail? { Execute(Clean); return; }
        resp := a.query.out;
        tz := tz.(awaiting := RepStreamReady);
        Wakeup(AskSend);
        return;
      }
      EnableEncryption(a.encryption);
      Wakeup(AskPoll);
    }

    method Learn(r: Reply)
      requires r.Reply?
      modifies this`noStoredKm, this`repeater, this`updateStream
      ensures View() == Learned(old(View()), r)
    {
      noStoredKm := r.out == AkeNoStoredKm;
      if r.out == SkeSendEks {
        repeater := r.repeater;
        updateStream := true;
      }
    }

    method Forward(msg: Msg, r: Reply)
      requires r.Reply?
      modifies this
      ensures View() == Forwarded(old(View()), msg, r)
    {
      hide WakeupClient, Learned;
      resendLcInit := msg == LcSendLPrime && r.out == LcInit;
      if msg == RepSendRecvIdList { Wakeup(TellRxInfo); }
      Learn(r);
      Wakeup(AskSend);
    }

    method SendStreams(r: Reply)
      requires r.Reply?
      modifies this
      ensures View() == WakeupClient(Queried(old(View()), r).(lastMsg := RepSendAck), AskSend)
    {
      hide WakeupClient;
      resp := r.out;
      tz := tz.(awaiting := RepStreamReady);
      lastMsg := RepSendAck;
      Wakeup(AskSend);
    }

    method OnStream(a: Answers)
      modifies this
      ensures View() == RunStream(old(View()), a)
    {
      hide WakeupClient;
      if off || !repeater { return; }
      if !authenticated && resp != RepSendAck { return; }
      if a.tz.Fail? { return; }
      SendStreams(a.tz);
    }

    method OnSendType()
      modifies this
      ensures View() == RunSendType(old(View()))
    {
      if off || repeater { return; }
      resp := SkeSendTypeId;
      Wakeup(AskSend);
    }

    method OnClean()
      modifies this
      ensures View() == RunClean(old(View()))
    {
      authenticated := false;
      var was := off;
      off := true;
      if !was { Wakeup(TellFailed); }
      tz := tz.(running := false);
    }

    method OnStartAuth(a: Answers)
      modifies this
      ensures View() == RunStartAuth(old(View()), a)
      ensures a.tz.Fail? ==> Clean in works && trace == old(trace)
    {
      if a.tz.Fail? { Execute(Clean); return; }
      resp := a.tz.out;
      tz := tz.(awaiting := AkeSendCert);
      Wakeup(AskSend);
    }

    method OnTimeout(a: Answers)
      modifies this
      ensures View() == RunTimeout(old(View()), a)
      ensures !old(off) && a.tz.Fail? ==> Clean in works && trace == old(trace)
    {
      hide WakeupClient;
      if off { return; }
      if a.tz.Fail? { Execute(Clean); return; }
      if a.tz.out != Invalid { resp := a.tz.out; }
      if resp == LcInit { Wakeup(AskSend); }
    }

    method OnOther(w: Work, a: Answers)
      requires w == Init || w == ManageStream || w == Wait
      modifies this
      ensures View() == if w == Init then RunInit(old(View()), a)
                        else if w == ManageStream then RunManageStream(old(View()), a)
                        else RunWait(old(View()), a)
      ensures w == Init && a.tz.Fail? ==> Clean in works && trace == old(trace)
      ensures w == Wait && !off && a.timedOut ==> Clean in works && trace == old(trace)
    {
      if w == Init {
        if a.tz.Fail? { Execute(Clean); }
        else { tz := tz.(running := true, awaiting := Invalid); }
      } else if w == ManageStream {
        if a.streamsChanged {
          if authenticated { Execute(Stream); }
          else if lastMsg == RepStreamManage || lastMsg == RepStreamReady { resendStreamManage := true; }
        }
      } else if !off && a.timedOut {
        Execute(Clean);
      }
    }

    /** The worker thread takes the oldest work.  If the application answers it in protocol
        order, driver and application stay in step; if it rejects it, the session is torn down. */
    method RunOne(a: Answers)
      requires works != []
      modifies this
      ensures View() == Worked(old(View()), a)
      ensures old(Valid() && Conforming(View(), works[0], a)) ==> Valid()
      ensures old(Rejected(View(), a)) ==> Clean in works && trace == old(trace)
    {
      hide Inv, Conforming, Worked, Rejected;
      if Rejected(View(), a) { RejectionIsCleaned(View(), a); }
      if Valid() && Conforming(View(), works[0], a) { WorkKeeps(View(), a); }
      RunWork(a);
    }

    method RunWork(a: Answers)
      requires works != []
      modifies this
      ensures View() == Worked(old(View()), a)
    {
      hide RunMsgSent, RunMsgRecvd, RunStream, RunSendType, RunClean, RunManageStream, RunTimeout, RunStartAuth,
           RunInit, RunWait;
      var w := works[0];
      works := works[1..];
      if w == StartAuth { OnStartAuth(a); }
      else if w == MsgSent { OnMsgSent(a); }
      else if w == MsgRecvd { OnMsgRecvd(a); }
      else if w == Clean { OnClean(); }
      else if w == Stream { OnStream(a); }
      else if w == SendType { OnSendType(); }
      else if w == Timeout { OnTimeout(a); }
      else { OnOther(w, a); }
    }

    method CancelWork(w: Work)
      modifies this`works
      ensures works == Cancel(old(works), w)
    {
      works := Cancel(works, w);
    }

    method StartSession()
      modifies this
      ensures View() == Commanded(old(View()), Start)
    {
      hide Cancel;
      CancelWork(Init);
      noStoredKm, repeater, updateStream, lastMsg, off := false, false, false, Invalid, false;
      xport, trace := Idle, [];
      works := works + [Init];
    }

    method Requeue(w: Work)
      modifies this`works
      ensures works == Cancel(old(works), w) + [w]
    {
      CancelWork(w);
      works := works + [w];
    }

    method Halt(always: bool)
      modifies this`off, this`xport, this`works
      ensures View() == Commanded(old(View()), if always then Stop else Disable)
    {
      hide Cancel;
      if always || !off { Execute(Clean); }
      off, xport := true, Idle;
    }

    method Report(c: Command)
      requires c == SendSuccess || c == RecvSuccess || c == RecvTimeout || c == LinkFailed
      modifies this`xport, this`works
      ensures View() == Commanded(old(View()), c)
    {
      hide Cancel;
      xport := Idle;
      if c == SendSuccess { Requeue(MsgSent); }
      else if c == RecvSuccess { Requeue(MsgRecvd); }
      else if c == RecvTimeout { Requeue(Timeout); }
      else { Execute(Clean); }
    }

    /** sde_hdcp_2x_wakeup: one command of the client.  A command it is allowed keeps driver and
        application in step. */
    method Command(c: Command)
      modifies this
      ensures View() == Commanded(old(View()), c)
      ensures old(Valid() && Allowed(View(), HdcpProtocol.Wakeup(c))) ==> Valid()
    {
      hide Inv, Allowed, Commanded;
      if Valid() && Allowed(View(), HdcpProtocol.Wakeup(c)) { CommandKeeps(View(), c); }
      Obey(c);
    }

    method Obey(c: Command)
      modifies this
      ensures View() == Commanded(old(View()), c)
    {
      hide Cancel;
      if c == Start { StartSession(); }
      else if c == Stop || c == Disable { Halt(c == Stop); }
      else if c == SendSuccess || c == RecvSuccess || c == RecvTimeout || c == LinkFailed { Report(c); }
      else if c == BeginAuth { Requeue(StartAuth); }
      else if c == QueryStream { Requeue(Stream); }
      else if c == MinEncLevel {
        CancelWork(SendType);
        if !repeater { works := works + [SendType]; }
        else { Requeue(Stream); }
      } else {
        CancelWork(ManageStream);
        if c.changed { works := works + [ManageStream]; }
      }
    }

    /** A whole life of the transmitter: as long as client and application keep to what they are
        allowed, every message since START went out, came in or was polled for under the
        description of the message the application meant, and key messages and success only
        after the full handshake. */
    method Live(steps: seq<Step>)
      requires Valid() && Disciplined(View(), steps)
      modifies this
      ensures Valid() && ValidRun(old(View()), steps) && View() == Exec(old(View()), steps)
      ensures forall k :: 0 <= k < |trace| ==> InStep(trace[k])
      ensures forall k :: 0 <= k < |trace| && Late(trace[k]) ==> Stage(trace[..k]) == 6
    {
      DisciplinedIsValid(View(), steps);
      for i := 0 to |steps|
        invariant Valid() && Disciplined(View(), steps[i..]) && ValidRun(View(), steps[i..])
        invariant ValidRun(old(View()), steps) && Exec(View(), steps[i..]) == Exec(old(View()), steps)
      {
        hide Inv, InStep, Late, Allowed;
        assert steps[i..][0] == steps[i] && steps[i..][1..] == steps[i + 1..];
        TakeStep(steps[i]);
      }
      assert steps[|steps|..] == [];
    }

    method TakeStep(s: Step)
      requires Valid() && Enabled(View(), s) && Allowed(View(), s)
      modifies this
      ensures Valid() && View() == Apply(old(View()), s)
    {
      hide Inv;
      match s
      case Wakeup(c) => Command(c);
      case RunWork(a) => RunOne(a);
    }
  }
}
