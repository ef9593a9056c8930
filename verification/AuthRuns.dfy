/** Whole runs of authenticated calls: every constructor, every sequence of caller actions and server replies. */
module AuthRuns {
  import opened Amounts
  import opened Options
  import opened AuthHandlers

  // ----- constructors -----

  datatype Support = NoSupport | Lite | Full

  datatype Session = Session(device: bool, enabled: seq<string>, watchOnly: bool, liquid: bool, hwSupport: Support)

  datatype TwoFactorGoal = Enable | Disable | SetEmail(address: string) | AlreadySet | Inconsistent

  /** The calls, with the arguments that matter to the state machine. */
  datatype Kind =
    | Register | LoginCall | LoginWithPin | CreateSubaccount(noRecovery: bool) | AckSystemMessage
    | SignTransaction(isSweep: bool) | GetReceiveAddress | CreateTransaction | NeedsUnblind(action: string)
    | ChangeSettings(nlocktime: Option<nat>) | ChangeTwoFactor(toUpdate: string, goal: TwoFactorGoal)
    | ChangeLimits(isDecrease: bool, total: nat)
    | RemoveAccount | CancelReset | CsvTime(value: nat) | Nlocktime(value: nat) | TwoFactorReset
    | SendTransaction(satoshi: nat, fee: nat, changeIdx: int, limit: nat, previousFee: Option<nat>)

  function Methods(s: Session): seq<string> {
    if s.watchOnly then [] else s.enabled
  }

  /** Hardware calls start by asking the device, others by making the call. */
  function StartHw(h: Handler, poll: bool): Handler {
    if h.hw && poll then SetData(h, h.action).(state := ResolveCode) else h.(state := MakeCall)
  }

  function ConstructSend(k: Kind, s: Session): Handler
    requires k.SendTransaction?
  {
    var methods := Methods(s);
    var required := methods != [];
    var spend := if s.liquid then Opaque else Spend((k.satoshi + k.fee) % TWO_TO_64, k.fee, k.changeIdx);
    var h := Init("send_raw_tx", s.device, methods, Send(required, s.liquid, false, 0, spend));
    if s.liquid then (if h.state.MakeCall? then CreateSendData(h) else h)
    else if k.previousFee.Some? && k.previousFee.value >= k.fee then SetError(h, "assertion failure")
    else
      var bump := if k.previousFee.Some? then k.fee - k.previousFee.value else 0;
      var delta := if bump != 0 then bump else spend.amount;
      var under := required && k.limit != 0 && delta <= k.limit;
      var h' := h.(impl := Send(required, false, under, bump, spend), state := if under then MakeCall else h.state);
      if h'.state.MakeCall? then CreateSendData(h') else h'
  }

  predicate AsksDevice(k: Kind) {
    || k.Register? || k.LoginCall? || k.LoginWithPin? || k.CreateSubaccount? || k.AckSystemMessage?
    || k.SignTransaction? || k.GetReceiveAddress? || k.CreateTransaction? || k.NeedsUnblind?
  }

  /** Constructors of the calls that may involve a hardware device. */
  function ConstructForDevice(k: Kind, s: Session): Handler
    requires AsksDevice(k)
  {
    var m := Methods(s);
    match k
    case Register => StartHw(Init("get_xpubs", s.device, [], Plain), true)
    case LoginCall => StartHw(Init("get_xpubs", s.device, [], Login(false, s.liquid, [], [], map[], map[])), true)
    case LoginWithPin => Init("get_xpubs", false, [], Plain)
    case CreateSubaccount(noRecovery) =>
      var n := if s.liquid && noRecovery then INITIAL_UPLOAD_CA else 0;
      StartHw(Init("get_xpubs", s.device, m, NewSubaccount(n, n, [], [])), true)
    case AckSystemMessage => StartHw(Init("sign_message", s.device, m, Plain), true)
    case SignTransaction(isSweep) => StartHw(Init("sign_tx", s.device, m, Plain), !isSweep)
    case GetReceiveAddress => StartHw(Init("get_receive_address", s.device, m, Plain), s.liquid)
    case CreateTransaction => StartHw(Init("create_transaction", s.device, m, Plain), s.liquid)
    case NeedsUnblind(action) =>
      var h := Init(action, s.device, m, Plain);
      if !s.liquid || s.hwSupport.Full? then h.(state := MakeCall)
      else if s.hwSupport.Lite? then SetData(h, action).(state := ResolveCode)
      else SetError(h, "id_the_hardware_wallet_you_are")
  }

  /** Constructors of the calls that may require a code, apart from sending. */
  function ConstructForCode(k: Kind, s: Session): Handler
    requires !AsksDevice(k) && !k.SendTransaction?
  {
    var m := Methods(s);
    match k
    case ChangeSettings(nlocktime) =>
      var h := Init("", s.device, m, Plain);
      if nlocktime.Some? && m != [] then h.(action := "set_nlocktime", data := map["value" := Num(nlocktime.value)])
      else h.(state := MakeCall)
    case ChangeTwoFactor(toUpdate, goal) =>
      var h := Init("enable_2fa", s.device, m, TwoFactorConfig(toUpdate, map[]));
      (match goal
       case Enable => h.(data := map["method" := Text(toUpdate)])
       case Disable => h.(action := "disable_2fa", data := map["method" := Text(toUpdate)])
       case SetEmail(address) =>
         if toUpdate == "email" then h.(action := "set_email", data := map["address" := Text(address)])
         else h.(action := "disable_2fa", data := map["method" := Text(toUpdate)])
       case AlreadySet => SetError(h, toUpdate + " is already set")
       case Inconsistent => SetError(h, "id_inconsistent_data_provided_for"))
    case ChangeLimits(isDecrease, total) =>
      var h := Init("change_tx_limits", s.device, m, Limits(m != [] && isDecrease));
      if m != [] && isDecrease then h.(state := MakeCall) else h.(data := LimitData(total))
    case RemoveAccount => Init("remove_account", s.device, m, Plain)
    case CancelReset => Init("cancel_reset", s.device, m, Plain)
    case CsvTime(value) => Init("set_csvtime", s.device, m, Plain).(data := map["value" := Num(value)])
    case Nlocktime(value) => Init("set_nlocktime", s.device, m, Plain).(data := map["value" := Num(value)])
    case TwoFactorReset => Init("request_reset", s.device, m, Reset(false)).(state := MakeCall)
  }

  /** Every constructor; `raised` is the message of an exception caught in it. */
  function Construct(k: Kind, s: Session, raised: Option<string>): Handler {
    var h := if AsksDevice(k) then ConstructForDevice(k, s)
             else if k.SendTransaction? then ConstructSend(k, s)
             else ConstructForCode(k, s);
    if raised.Some? then SetError(h, raised.value) else h
  }

  function LimitData(total: nat): Data {
    map["is_fiat" := Opaque, "per_tx" := Num(0), "total" := Num(total)]
  }

  // ----- runs -----

  datatype Event = Request(via: string, serverOk: bool) | Resolve(code: string) | Call(reply: Reply)

  /** What a caller's action amounted to, if it was accepted. `Called` records the data sent to the server. */
  datatype Action = Requested(via: string) | Resolved(code: string) | Called(data: Data)

  function Step(h: Handler, e: Event): Handler {
    match e
    case Request(via, serverOk) => OnRequest(h, via, serverOk)
    case Resolve(code) => OnResolve(h, code)
    case Call(reply) => OnCall(h, reply)
  }

  /** The data of a call without any method and code, under the keys sent to the server. */
  function Content(h: Handler): Data {
    (if h.impl.Send? && !h.impl.liquid then SendKeys(h.data, h.impl.bump) else h.data) - {"method", "code"}
  }

  /** The data passed to the server by `call_impl`. */
  function Sent(h: Handler): Data {
    var d := Stamp(h.data, h.via, h.code);
    if h.impl.Send? && !h.impl.liquid then SendKeys(d, h.impl.bump) else d
  }

  function ActionOf(h: Handler, e: Event): Option<Action> {
    match e
    case Request(via, serverOk) =>
      if h.state.RequestCode? && (via == "gauth" || serverOk) then Some(Requested(via)) else None
    case Resolve(code) => if h.state.ResolveCode? then Some(Resolved(code)) else None
    case Call(_) => if h.state.MakeCall? then Some(Called(Sent(h))) else None
  }

  /** Enabling gauth has no first step at the server. */
  predicate AsksServer(h: Handler) {
    !(h.impl.TwoFactorConfig? && h.impl.toUpdate == "gauth" && h.action == "enable_2fa")
  }

  /** A wrong code on enabling gauth, with other methods enabled: either code may have been wrong, so both are
      asked for again. */
  predicate SendsBack(h: Handler, reply: Reply) {
    && h.impl.TwoFactorConfig? && h.impl.toUpdate == "gauth" && "enable_" <= h.action && h.action != "enable_2fa"
    && reply.WrongCode? && reply.enabled != []
  }

  /** The reply lets the call go on, to its end or to a next step. */
  predicate GoesOn(h: Handler, reply: Reply) {
    reply.Success? || !AsksServer(h) || SendsBack(h, reply)
  }

  /** A wrong code that counts, that is, one for a method other than gauth. */
  predicate CountsAsWrong(h: Handler, e: Event) {
    e.Call? && h.state.MakeCall? && e.reply.WrongCode? && !GoesOn(h, e.reply) && h.via != "gauth"
  }

  /** An accepted request for a code, or a call that went on. */
  predicate StartsAfresh(h: Handler, e: Event) {
    || (e.Request? && ActionOf(h, e).Some?)
    || (e.Call? && h.state.MakeCall? && GoesOn(h, e.reply))
  }

  /** A handler, the accepted actions so far, and the counting wrong codes since it last started afresh. */
  datatype Run = Run(h: Handler, trace: seq<Action>, wrongs: nat)

  function Extend(r: Run, e: Event): Run {
    var a := ActionOf(r.h, e);
    Run(Step(r.h, e), if a.Some? then r.trace + [a.value] else r.trace,
        if CountsAsWrong(r.h, e) then r.wrongs + 1 else if StartsAfresh(r.h, e) then 0 else r.wrongs)
  }

  function After(h: Handler, events: seq<Event>): Run {
    if events == [] then Run(h, [], 0) else Extend(After(h, events[..|events| - 1]), events[|events| - 1])
  }

  // ----- what holds in every state of every run -----

  /** The assertions in `call_impl` hold: a two-factor change is at one of its steps, and a device is asked for an
      address only while one is wanted. */
  ghost predicate Working(h: Handler) {
    && (h.impl.TwoFactorConfig? ==>
          && !h.hw
          && (h.action in {"set_email", "activate_email", "disable_2fa"} || "enable_" <= h.action)
          && (h.action == "set_email" ==> h.impl.toUpdate == "email"))
    && (h.impl.Login? && h.hw && h.action == "get_receive_address" ==> h.impl.reqs != [])
  }

  predicate Ended(h: Handler) {
    h.state.Done? || h.state.Error?
  }

  ghost predicate Inv(r: Run) {
    && (r.h.error != "" ==> r.h.state.Error?)
    && (r.h.state.RequestCode? ==> !r.h.hw && r.h.methods != [])
    && (Ended(r.h) || Working(r.h))
    && (!r.h.state.Error? ==> r.wrongs + r.h.attempts == TWO_FACTOR_ATTEMPTS && r.h.attempts > 0)
  }

  // ----- what a reply leads to -----

  /** `call_impl` went on: no error, and a code is asked for again only if it sent the caller back. */
  ghost predicate WentOn(h: Handler, reply: Reply, r: CallResult) {
    && r.Returns? && !r.state.Error?
    && r.h.hw == h.hw && r.h.error == h.error
    && (r.state.RequestCode? <==> SendsBack(h, reply))
    && (SendsBack(h, reply) ==> r.h.methods == reply.enabled)
    && (r.state.Done? || Working(r.h))
  }

  lemma {:induction false} FinishGoesOn(h: Handler, reply: Reply)
    requires h.impl.Login? && reply.Success?
    ensures WentOn(h, reply, FinishLogin(h, reply))
  {
    hide Requests;
  }

  lemma {:induction false} LoginGoesOn(h: Handler, reply: Reply)
    requires h.impl.Login? && reply.Success? && Working(h)
    ensures WentOn(h, reply, LoginImpl(h, reply))
  {
    var i := h.impl;
    hide FinishLogin, AddAddress, AddAll;
    FinishGoesOn(h, reply);
    FinishGoesOn(h.(impl := i.(addrs := AddAll(i.addrs, i.reqs, reply.addresses))), reply);
    if i.reqs != [] {
      var last := |i.reqs| - 1;
      FinishGoesOn(h.(impl := i.(addrs := AddAddress(i.addrs, i.reqs[last], reply.addresses(0)),
                                 reqs := i.reqs[..last])), reply);
    }
  }

  lemma {:induction false} TwoFactorGoesOn(h: Handler, reply: Reply)
    requires h.impl.TwoFactorConfig? && Working(h) && GoesOn(h, reply)
    ensures WentOn(h, reply, TwoFactorImpl(h, reply))
  {
    ActionNames(h.impl.toUpdate);
  }

  lemma {:induction false} ActionNames(m: string)
    ensures "activate_" + "email" == "activate_email"
    ensures "enable_" <= "enable_2fa" && "enable_" <= "enable_" + m && "enable_" + m != "set_email"
    ensures !("enable_" <= "set_email") && !("enable_" <= "activate_email") && !("enable_" <= "disable_2fa")
  {
    assert ("enable_" + m)[0] == 'e' && "set_email"[0] == 's' && "activate_email"[0] == 'a' && "disable_2fa"[0] == 'd';
    assert "enable_"[0] == 'e';
  }

  lemma {:induction false} CallGoesOn(h: Handler, reply: Reply)
    requires Working(h) && GoesOn(h, reply)
    ensures WentOn(h, reply, CallImpl(h, reply))
  {
    hide LoginImpl, TwoFactorImpl, SendKeys;
    if h.impl.Login? {
      LoginGoesOn(h, reply);
    } else if h.impl.TwoFactorConfig? {
      TwoFactorGoesOn(h, reply);
    }
  }

  lemma {:induction false} CallThrows(h: Handler, reply: Reply)
    requires Working(h) && !GoesOn(h, reply)
    ensures CallImpl(h, reply)
         == Raise(if h.impl.Send? && !h.impl.liquid then h.(data := SendKeys(h.data, h.impl.bump)) else h, reply)
  {
    hide SendKeys;
  }

  /** After a failed call everything is as before, apart from the keys of the data, so that the same call can be
      made again with another code. */
  ghost predicate CanRetry(h: Handler, h': Handler) {
    h' == h.(data := h'.data, state := h'.state, attempts := h'.attempts, error := h'.error)
  }

  /** What a call that was made comes to is decided by the reply. Success leads to the end or to a next step. A
      refusal is an error with its message. A wrong code means entering another one, with one attempt fewer unless
      it is for gauth, and is an error on the last attempt. */
  lemma {:induction false} CallFollowsReply(h: Handler, reply: Reply)
    requires h.state.MakeCall? && Working(h) && h.attempts > 0
    ensures var h' := OnCall(h, reply);
            if GoesOn(h, reply) then
              && h'.attempts == TWO_FACTOR_ATTEMPTS && h'.error == h.error && h'.hw == h.hw
              && (if SendsBack(h, reply) then h'.state.RequestCode? && h'.methods == reply.enabled
                  else h'.state.Done? || h'.state.ResolveCode? || h'.state.MakeCall?)
              && (Ended(h') || Working(h'))
            else
              && CanRetry(h, h')
              && if reply.Rejected? then h'.state.Error? && h'.error == reply.message
                 else if h.via != "gauth" && h.attempts == 1 then h'.state.Error? && h'.error == INVALID_CODE
                 else && h'.state.ResolveCode? && h'.error == h.error
                      && h'.attempts == if h.via == "gauth" then h.attempts else h.attempts - 1
  {
    var stamped := h.(data := Stamp(h.data, h.via, h.code));
    hide CallImpl, Stamp, SendKeys;
    if GoesOn(h, reply) {
      CallGoesOn(stamped, reply);
    } else {
      CallThrows(stamped, reply);
    }
  }

  ghost predicate StartsClean(h: Handler) {
    && (h.error != "" ==> h.state.Error?)
    && (h.state.RequestCode? ==> !h.hw && h.methods != [])
    && (Ended(h) || Working(h))
    && h.attempts == TWO_FACTOR_ATTEMPTS
  }

  lemma {:induction false} SendStartsClean(k: Kind, s: Session)
    requires k.SendTransaction?
    ensures StartsClean(ConstructSend(k, s))
  {
    assert !IsHwAction("send_raw_tx");
  }

  lemma {:induction false} SoftwareActions()
    ensures !IsHwAction("") && !IsHwAction("enable_2fa") && !IsHwAction("change_tx_limits")
    ensures !IsHwAction("remove_account") && !IsHwAction("cancel_reset") && !IsHwAction("set_csvtime")
    ensures !IsHwAction("set_nlocktime") && !IsHwAction("request_reset")
  {
  }

  lemma {:induction false} CodeStartsClean(k: Kind, s: Session)
    requires !AsksDevice(k) && !k.SendTransaction?
    ensures StartsClean(ConstructForCode(k, s))
  {
    hide IsHwAction, LimitData;
    SoftwareActions();
  }

  lemma {:induction false} DeviceStartsClean(k: Kind, s: Session)
    requires AsksDevice(k)
    ensures StartsClean(ConstructForDevice(k, s))
  {
    hide IsHwAction;
  }

  lemma {:induction false} ConstructorsEstablishInv(k: Kind, s: Session, raised: Option<string>)
    ensures Inv(Run(Construct(k, s, raised), [], 0))
  {
    hide ConstructSend, ConstructForCode, ConstructForDevice;
    if AsksDevice(k) {
      DeviceStartsClean(k, s);
    } else if k.SendTransaction? {
      SendStartsClean(k, s);
    } else {
      CodeStartsClean(k, s);
    }
  }

  lemma {:induction false} StepKeepsInv(r: Run, e: Event)
    requires Inv(r)
    ensures Inv(Extend(r, e))
  {
    hide OnCall;
    if e.Call? && r.h.state.MakeCall? {
      CallFollowsReply(r.h, e.reply);
    } else if e.Call? {
      NoCall(r.h, e.reply);
    }
  }

  lemma {:induction false} NoCall(h: Handler, reply: Reply)
    requires !h.state.MakeCall?
    ensures OnCall(h, reply) == h
  {
  }

  lemma {:induction false} RunKeepsInv(h: Handler, events: seq<Event>)
    requires Inv(Run(h, [], 0))
    ensures Inv(After(h, events))
  {
    if events != [] {
      RunKeepsInv(h, events[..|events| - 1]);
      StepKeepsInv(After(h, events[..|events| - 1]), events[|events| - 1]);
    }
  }

  /** For every call and every run: error text only in the error state, never a code request while a device
      is in play (so the assertions of `get_status` hold), and exactly three counting wrong codes are allowed. */
  lemma {:induction false} EveryRunIsSane(k: Kind, s: Session, raised: Option<string>, events: seq<Event>)
    ensures var r := After(Construct(k, s, raised), events);
            && (r.h.state.Error? || r.h.error == "")
            && (r.h.state.RequestCode? ==> !r.h.hw && r.h.methods != [])
            && (!r.h.state.Error? ==> r.wrongs + r.h.attempts == TWO_FACTOR_ATTEMPTS && 0 < r.h.attempts)
            && (r.wrongs >= TWO_FACTOR_ATTEMPTS ==> r.h.state.Error?)
  {
    ConstructorsEstablishInv(k, s, raised);
    RunKeepsInv(Construct(k, s, raised), events);
  }

  /** Error is final for every call; done is final except that a send can be driven into an error by asking
      for a code. */
  lemma {:induction false} EndsAreFinal(h: Handler, e: Event)
    ensures h.state.Error? ==> Step(h, e).state.Error?
    ensures h.state.Done? ==> (Step(h, e).state.Done? <==> !(h.impl.Send? && e.Request?))
  {
  }
}
