/** The HDCP 2.2 transmitter of sde_hdcp_2x.c as a state machine: the fields of its
    control structure, the work list of its thread, the display client it drives and
    the trusted application that produces and checks the messages. */
module HdcpProtocol {

  datatype Msg =
    | Invalid | AkeInit | AkeSendCert | AkeNoStoredKm | AkeStoredKm | AkeSendHPrime | AkeSendPairingInfo
    | LcInit | LcSendLPrime | SkeSendEks | RepSendRecvIdList | RepSendAck | RepStreamManage | RepStreamReady
    | SkeSendTypeId

  datatype Work = Init | StartAuth | MsgSent | MsgRecvd | Clean | Stream | SendType | ManageStream | Wait | Timeout

  /** What the driver tells its client.  A message is sent with the description of slot
      and the bytes of payload; a message is received or polled with the description of
      slot while the trusted application waits for awaited. */
  datatype Out =
    | Send(slot: Msg, payload: Msg)
    | Recv(slot: Msg, awaited: Msg)
    | Poll(slot: Msg, awaited: Msg)
    | Success | Failed | RxInfo

  /** The request of the client that is still open; a newer one replaces it. */
  datatype Transport = Idle | Sending | Receiving | Polling

  /** The trusted application: the sink message it waits for, and what it knows of the sink. */
  datatype Tz = Tz(running: bool, awaiting: Msg, noStored: bool, repeater: bool)

  /** Its answer to one call; Invalid stands for an empty response. */
  datatype Reply = Fail | Reply(out: Msg, repeater: bool)

  datatype State = State(
    lastMsg: Msg, resp: Msg,
    noStoredKm: bool, authenticated: bool, resendLcInit: bool, resendStreamManage: bool,
    repeater: bool, updateStream: bool, off: bool,
    works: seq<Work>, xport: Transport, tz: Tz,
    trace: seq<Out>)      // since the last START

  // ----- the trusted application, in HDCP 2.2 message order -----

  predicate StartAuthAnswer(tz: Tz, r: Reply) {
    r.Fail? || (tz.running && r.out == AkeInit)
  }

  predicate QueryAnswer(tz: Tz, r: Reply) {
    r.Fail? || (tz.running && tz.repeater && r.out == RepStreamManage)
  }

  predicate ProcessAnswer(tz: Tz, m: Msg, r: Reply) {
    r.Fail? || (tz.running && m == tz.awaiting && m != Invalid &&
                match m
                case AkeSendCert => r.out == AkeNoStoredKm || r.out == AkeStoredKm
                case AkeSendHPrime => r.out == if tz.noStored then Invalid else LcInit
                case AkeSendPairingInfo => r.out == LcInit
                case LcSendLPrime => r.out == LcInit || r.out == SkeSendEks
                case RepSendRecvIdList => r.out == RepSendAck
                case RepStreamReady => r.out == RepStreamManage || r.out == Invalid
                case _ => false)
  }

  function AfterProcess(tz: Tz, m: Msg, r: Reply): Tz {
    if r.Fail? then tz else
    match m
    case AkeSendCert => tz.(awaiting := AkeSendHPrime, noStored := r.out == AkeNoStoredKm)
    case AkeSendHPrime => tz.(awaiting := if tz.noStored then AkeSendPairingInfo else LcSendLPrime)
    case AkeSendPairingInfo => tz.(awaiting := LcSendLPrime)
    case LcSendLPrime =>
      if r.out == LcInit then tz
      else tz.(awaiting := if r.repeater then RepSendRecvIdList else Invalid, repeater := r.repeater)
    case RepStreamReady => if r.out == RepStreamManage then tz else tz.(awaiting := RepSendRecvIdList)
    case _ => tz
  }

  // ----- the driver -----

  function Push(works: seq<Work>, w: Work): seq<Work> {
    if w in works then works else works + [w]
  }

  function Cancel(works: seq<Work>, w: Work): seq<Work> {
    if works == [] then [] else (if works[0] == w then [] else [works[0]]) + Cancel(works[1..], w)
  }

  /** sde_hdcp_2x_get_next_message. */
  function NextMessage(h: State, sending: bool): Msg {
    match h.lastMsg
    case Invalid => AkeInit
    case AkeInit => AkeSendCert
    case AkeSendCert => if h.noStoredKm then AkeNoStoredKm else AkeStoredKm
    case AkeStoredKm => AkeSendHPrime
    case AkeNoStoredKm => AkeSendHPrime
    case AkeSendHPrime => if h.noStoredKm then AkeSendPairingInfo else LcInit
    case AkeSendPairingInfo => LcInit
    case LcInit => LcSendLPrime
    case LcSendLPrime => if h.resendLcInit then LcInit else SkeSendEks
    case SkeSendEks => if !h.repeater then SkeSendTypeId else AfterAck(h, sending)
    case SkeSendTypeId => if !h.repeater then SkeSendTypeId else AfterAck(h, sending)
    case RepStreamReady => AfterAck(h, sending)
    case RepSendAck => AfterAck(h, sending)
    case RepSendRecvIdList => RepSendAck
    case RepStreamManage => RepStreamReady
  }

  function AfterAck(h: State, sending: bool): Msg {
    if !h.repeater then Invalid else if sending then RepStreamManage else RepSendRecvIdList
  }

  datatype Request = NoRequest | AskSend | AskRecv | AskPoll | TellSuccess | TellFailed | TellRxInfo

  function NeedsWait(h: State): bool {
    h.lastMsg == AkeSendHPrime || h.lastMsg == AkeSendPairingInfo
    || (h.lastMsg == RepSendRecvIdList && !h.authenticated)
  }

  function Told(h: State, o: Out): State {
    h.(trace := h.trace + [o], works := if NeedsWait(h) then Push(h.works, Wait) else h.works)
  }

  /** sde_hdcp_2x_wakeup_client. */
  function WakeupClient(h: State, q: Request): State {
    match q
    case NoRequest => h
    case TellSuccess => Told(h, Success)
    case TellFailed => Told(h, Failed)
    case TellRxInfo => Told(h, RxInfo)
    case _ =>
      var next := NextMessage(h, q == AskSend);
      var h' := h.(lastMsg := next, resendStreamManage := h.resendStreamManage && h.lastMsg != RepStreamManage);
      if next == Invalid then h' else
      match q
      case AskSend => Told(h'.(xport := Sending), Send(next, h.resp))
      case AskRecv => Told(h'.(xport := Receiving), Recv(next, h.tz.awaiting))
      case _ => Told(h'.(xport := Polling), Poll(next, h.tz.awaiting))
  }

  /** The answers of the environment while one work runs. */
  datatype Answers = Answers(
    tz: Reply,              // to the call the work makes
    query: Reply,           // to the extra stream query of msg_recvd
    encryption: bool,       // hardware key accepted
    empty: bool,            // zero-length message from the client
    streamsChanged: bool,   // manage_stream closed or opened a stream
    timedOut: bool)         // no response in time

  function SetHwKey(h: State, accepted: bool): State {
    if h.authenticated || !accepted then h
    else WakeupClient(h.(authenticated := true), TellSuccess)
  }

  function RunMsgSent(h: State, a: Answers): State {
    if h.off then h else
    match h.resp
    case SkeSendTypeId => WakeupClient(SetHwKey(h, a.encryption), AskPoll)
    case SkeSendEks =>
      if h.repeater then WakeupClient(h, AskPoll)
      else WakeupClient(h.(resp := SkeSendTypeId), AskSend)
    case RepSendAck =>
      if h.updateStream then h.(works := Push(h.works, Stream), updateStream := false)
      else WakeupClient(h, AskPoll)
    case _ => WakeupClient(h, AskRecv)
  }

  function Produced(h: State, r: Reply): State {
    if r.Fail? || r.out == Invalid then h else h.(resp := r.out)
  }

  function Queried(h: State, r: Reply): State {
    if r.Fail? then h else h.(resp := r.out, tz := h.tz.(awaiting := RepStreamReady))
  }

  function RunMsgRecvd(h: State, a: Answers): State {
    if h.off || a.empty then h else
    var msg := h.lastMsg;
    var h1 := Produced(h.(tz := AfterProcess(h.tz, msg, a.tz)), a.tz);
    if a.tz.Fail? then h1.(works := Push(h1.works, Clean))
    else if msg == AkeSendHPrime && h.noStoredKm then WakeupClient(h1, AskRecv)
    else if msg == RepStreamReady && a.tz.out != RepStreamManage then
      if h1.resendStreamManage then
        if a.query.Fail? then h1.(works := Push(h1.works, Clean))
        else WakeupClient(Queried(h1, a.query), AskSend)
      else WakeupClient(SetHwKey(h1, a.encryption), AskPoll)
    else Forwarded(h1, msg, a.tz)
  }

  /** The answer of the application goes out as the next message. */
  function Forwarded(h: State, msg: Msg, r: Reply): State
    requires r.Reply?
  {
    var h2 := h.(resendLcInit := msg == LcSendLPrime && r.out == LcInit);
    var h3 := if msg == RepSendRecvIdList then WakeupClient(h2, TellRxInfo) else h2;
    WakeupClient(Learned(h3, r), AskSend)
  }

  function Learned(h: State, r: Reply): State
    requires r.Reply?
  {
    var g := h.(noStoredKm := r.out == AkeNoStoredKm);
    if r.out == SkeSendEks then g.(repeater := r.repeater, updateStream := true) else g
  }

  function RunStream(h: State, a: Answers): State {
    if h.off || !h.repeater || (!h.authenticated && h.resp != RepSendAck) || a.tz.Fail? then h
    else WakeupClient(Queried(h, a.tz).(lastMsg := RepSendAck), AskSend)
  }

  function RunSendType(h: State): State {
    if h.off || h.repeater then h else WakeupClient(h.(resp := SkeSendTypeId), AskSend)
  }

  function RunStartAuth(h: State, a: Answers): State {
    if a.tz.Fail? then h.(works := Push(h.works, Clean))
    else WakeupClient(h.(resp := a.tz.out, tz := h.tz.(awaiting := AkeSendCert)), AskSend)
  }

  function RunInit(h: State, a: Answers): State {
    if a.tz.Fail? then h.(works := Push(h.works, Clean))
    else h.(tz := h.tz.(running := true, awaiting := Invalid))
  }

  function RunClean(h: State): State {
    var h1 := h.(authenticated := false, off := true);
    var h2 := if h.off then h1 else WakeupClient(h1, TellFailed);
    h2.(tz := h2.tz.(running := false))
  }

  function RunManageStream(h: State, a: Answers): State {
    if !a.streamsChanged then h
    else if h.authenticated then h.(works := Push(h.works, Stream))
    else if h.lastMsg == RepStreamManage || h.lastMsg == RepStreamReady then h.(resendStreamManage := true)
    else h
  }

  function RunWait(h: State, a: Answers): State {
    if h.off || !a.timedOut then h else h.(works := Push(h.works, Clean))
  }

  /** The receive timeout: whatever stands in the response afterwards is sent if it is LC_INIT. */
  function RunTimeout(h: State, a: Answers): State {
    if h.off then h
    else if a.tz.Fail? then h.(works := Push(h.works, Clean))
    else
      var h1 := Produced(h, a.tz);
      if h1.resp == LcInit then WakeupClient(h1, AskSend) else h1
  }

  // ----- steps -----

  datatype Command = Start | BeginAuth | Stop | Disable | SendSuccess | RecvSuccess | RecvTimeout | LinkFailed
                   | QueryStream | MinEncLevel | ChangeStreams(changed: bool)

  datatype Step = Wakeup(c: Command) | RunWork(a: Answers)

  /** sde_hdcp_2x_wakeup. */
  function Commanded(h: State, c: Command): State {
    match c
    case Start =>
      h.(noStoredKm := false, repeater := false, updateStream := false, lastMsg := Invalid, off := false,
         works := Cancel(h.works, Init) + [Init], xport := Idle, trace := [])
    case BeginAuth => h.(works := Cancel(h.works, StartAuth) + [StartAuth])
    case Stop => h.(off := true, works := Push(h.works, Clean), xport := Idle)
    case Disable => h.(off := true, works := if h.off then h.works else Push(h.works, Clean), xport := Idle)
    case SendSuccess => h.(works := Cancel(h.works, MsgSent) + [MsgSent], xport := Idle)
    case RecvSuccess => h.(works := Cancel(h.works, MsgRecvd) + [MsgRecvd], xport := Idle)
    case RecvTimeout => h.(works := Cancel(h.works, Timeout) + [Timeout], xport := Idle)
    case LinkFailed => h.(works := Push(h.works, Clean), xport := Idle)
    case QueryStream => h.(works := Cancel(h.works, Stream) + [Stream])
    case MinEncLevel =>
      var works := Cancel(h.works, SendType);
      if !h.repeater then h.(works := works + [SendType])
      else h.(works := Cancel(works, Stream) + [Stream])
    case ChangeStreams(changed) =>
      var works := Cancel(h.works, ManageStream);
      h.(works := if changed then works + [ManageStream] else works)
  }

  function Worked(h: State, a: Answers): State
    requires h.works != []
  {
    var h' := h.(works := h.works[1..]);
    match h.works[0]
    case Init => RunInit(h', a)
    case StartAuth => RunStartAuth(h', a)
    case MsgSent => RunMsgSent(h', a)
    case MsgRecvd => RunMsgRecvd(h', a)
    case Clean => RunClean(h')
    case Stream => RunStream(h', a)
    case SendType => RunSendType(h')
    case ManageStream => RunManageStream(h', a)
    case Wait => RunWait(h', a)
    case Timeout => RunTimeout(h', a)
  }

  predicate Enabled(h: State, s: Step) {
    s.RunWork? ==> h.works != []
  }

  function Apply(h: State, s: Step): State
    requires Enabled(h, s)
  {
    match s
    case Wakeup(c) => Commanded(h, c)
    case RunWork(a) => Worked(h, a)
  }

  predicate ValidRun(h: State, steps: seq<Step>)
    decreases |steps|
  {
    steps == [] || (Enabled(h, steps[0]) && ValidRun(Apply(h, steps[0]), steps[1..]))
  }

  function Exec(h: State, steps: seq<Step>): State
    requires ValidRun(h, steps)
    decreases |steps|
  {
    if steps == [] then h else Exec(Apply(h, steps[0]), steps[1..])
  }

  /** The state after registration. */
  const Registered: State :=
    State(Invalid, Invalid, false, false, false, false, false, false, true, [], Idle,
          Tz(false, Invalid, false, false), [])
}
