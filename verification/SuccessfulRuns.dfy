/** What a call goes through when the caller does what is asked for and every server call succeeds: which states,
    with which actions, up to done. One line for every kind of call. */
module SuccessfulRuns {
  import opened Options
  import opened Amounts
  import opened AuthHandlers
  import opened AuthRuns

  /** A state the caller sees, with the action to perform. */
  type Stage = (State, string)

  /** What the caller always answers: the method and code entered, and how the server replies. */
  datatype Caller = Caller(via: string, code: string, reply: Reply)

  predicate Succeeds(c: Caller) {
    c.reply.Success?
  }

  /** The event that a state asks for. */
  function Asked(h: Handler, c: Caller): Event {
    match h.state
    case RequestCode => Request(c.via, true)
    case ResolveCode => Resolve(c.code)
    case _ => Call(c.reply)
  }

  /** The handler after `n` answers. */
  function Driven(h: Handler, c: Caller, n: nat): Handler
    decreases n
  {
    if n == 0 then h else Driven(Step(h, Asked(h, c)), c, n - 1)
  }

  /** The stages on the way. */
  function Stages(h: Handler, c: Caller, n: nat): (r: seq<Stage>)
    ensures |r| == n
    decreases n
  {
    if n == 0 then [] else [(h.state, h.action)] + Stages(Step(h, Asked(h, c)), c, n - 1)
  }

  /** From `h` through exactly these stages to `h'`. */
  ghost predicate Passes(h: Handler, c: Caller, stages: seq<Stage>, h': Handler) {
    Stages(h, c, |stages|) == stages && Driven(h, c, |stages|) == h'
  }

  // ----- what is expected -----

  function Resolving(action: string): seq<Stage> {
    [(ResolveCode, action), (MakeCall, action)]
  }

  /** With a code if any method is enabled. */
  function Authorising(s: Session, action: string): seq<Stage> {
    if Methods(s) == [] then [(MakeCall, action)] else [(RequestCode, action)] + Resolving(action)
  }

  /** With the help of the device, if there is one. */
  function Polling(device: bool, action: string): seq<Stage> {
    if device then Resolving(action) else [(MakeCall, action)]
  }

  function Addresses(n: nat): seq<Stage> {
    if n == 0 then [] else Resolving("get_receive_address") + Addresses(n - 1)
  }

  function LoginStages(s: Session, wanted: nat): seq<Stage> {
    if !s.device then [(MakeCall, "get_xpubs")] + (if wanted == 0 then [] else [(MakeCall, "get_receive_address")])
    else
      Resolving("get_xpubs") + Resolving("sign_message") + Resolving("get_xpubs")
      + if wanted == 0 then []
        else if s.liquid then Addresses(wanted)
        else [(MakeCall, "get_receive_address")] + Addresses(wanted - 1)
  }

  function SendStages(k: Kind, s: Session): seq<Stage>
    requires k.SendTransaction?
  {
    var bump := if k.previousFee.Some? then k.fee - k.previousFee.value else 0;
    var delta := if bump != 0 then bump else (k.satoshi + k.fee) % TWO_TO_64;
    var action := if Methods(s) != [] && !s.liquid && bump != 0 then "bump_fee" else "send_raw_tx";
    if Methods(s) == [] || (!s.liquid && k.limit != 0 && delta <= k.limit) then [(MakeCall, action)]
    else [(RequestCode, "send_raw_tx")] + Resolving(action)
  }

  function Expected(k: Kind, s: Session, wanted: nat): seq<Stage> {
    match k
    case Register => Polling(s.device, "get_xpubs")
    case LoginCall => LoginStages(s, wanted)
    case LoginWithPin => [(MakeCall, "get_xpubs")]
    case CreateSubaccount(noRecovery) =>
      Polling(s.device, "get_xpubs")
      + Addresses(if s.device && s.liquid && noRecovery then INITIAL_UPLOAD_CA else 0)
    case AckSystemMessage => Polling(s.device, "sign_message")
    case SignTransaction(isSweep) => Polling(s.device && !isSweep, "sign_tx")
    case GetReceiveAddress => Polling(s.device && s.liquid, "get_receive_address")
    case CreateTransaction => Polling(s.device && s.liquid, "create_transaction")
    case NeedsUnblind(action) => Polling(s.liquid && s.hwSupport.Lite?, action)
    case ChangeSettings(nlocktime) =>
      if nlocktime.Some? && Methods(s) != [] then Authorising(s, "set_nlocktime") else [(MakeCall, "")]
    case ChangeTwoFactor(m, goal) =>
      if goal.Enable? then Authorising(s, "enable_2fa") + Resolving("enable_" + m)
      else if goal.SetEmail? && m == "email" then Authorising(s, "set_email") + Resolving("activate_email")
      else Authorising(s, "disable_2fa")
    case ChangeLimits(isDecrease, _) =>
      if isDecrease then [(MakeCall, "change_tx_limits")] else Authorising(s, "change_tx_limits")
    case RemoveAccount => Authorising(s, "remove_account")
    case CancelReset => Authorising(s, "cancel_reset")
    case CsvTime(_) => Authorising(s, "set_csvtime")
    case Nlocktime(_) => Authorising(s, "set_nlocktime")
    case TwoFactorReset => [(MakeCall, "request_reset")] + Resolving("request_reset")
    case SendTransaction(_, _, _, _, _) => SendStages(k, s)
  }

  /** The constructor does not refuse the call, and a two-factor method is one the server knows. */
  predicate Accepted(k: Kind, s: Session) {
    && (k.NeedsUnblind? ==> !s.liquid || !s.hwSupport.NoSupport?)
    && (k.ChangeTwoFactor? ==>
          !k.goal.AlreadySet? && !k.goal.Inconsistent? && k.toUpdate in {"email", "sms", "phone", "gauth"})
    && (k.SendTransaction? && k.previousFee.Some? && !s.liquid ==> k.previousFee.value < k.fee)
  }

  // ----- putting stages together -----

  lemma {:induction false} PassesOne(h: Handler, c: Caller)
    ensures Passes(h, c, [(h.state, h.action)], Step(h, Asked(h, c)))
  {
    hide Step;
    var next := Step(h, Asked(h, c));
    assert Stages(next, c, 0) == [] && Driven(next, c, 0) == next;
    assert Stages(h, c, 1) == [(h.state, h.action)] + Stages(next, c, 0);
  }

  lemma {:induction false} PassesBoth(h: Handler, c: Caller, first: seq<Stage>, h1: Handler, second: seq<Stage>,
                                      h2: Handler)
    requires Passes(h, c, first, h1) && Passes(h1, c, second, h2)
    ensures Passes(h, c, first + second, h2)
    decreases |first|
  {
    hide Step, Asked;
    if first == [] {
      assert first + second == second;
    } else {
      var next := Step(h, Asked(h, c));
      assert first[0] == (h.state, h.action) && first[1..] == Stages(next, c, |first| - 1);
      PassesBoth(next, c, first[1..], h1, second, h2);
      assert (first + second)[1..] == first[1..] + second;
      assert first + second == [first[0]] + (first[1..] + second);
    }
  }

  /** Through exactly these stages to the end. */
  ghost predicate EndsThrough(h: Handler, c: Caller, stages: seq<Stage>) {
    exists h' :: Passes(h, c, stages, h') && h'.state.Done?
  }

  lemma {:induction false} PassesThenEnds(h: Handler, c: Caller, first: seq<Stage>, h1: Handler, second: seq<Stage>)
    requires Passes(h, c, first, h1) && EndsThrough(h1, c, second)
    ensures EndsThrough(h, c, first + second)
  {
    hide Passes;
    var h2 :| Passes(h1, c, second, h2) && h2.state.Done?;
    PassesBoth(h, c, first, h1, second, h2);
  }

  lemma {:induction false} PassesRequest(h: Handler, c: Caller)
    requires h.state.RequestCode?
    ensures Passes(h, c, [(RequestCode, h.action)], OnRequest(h, c.via, true))
  {
    hide OnRequest, Passes;
    PassesOne(h, c);
  }

  lemma {:induction false} PassesCall(h: Handler, c: Caller)
    requires h.state.MakeCall?
    ensures Passes(h, c, [(MakeCall, h.action)], OnCall(h, c.reply))
  {
    hide OnCall, Passes;
    PassesOne(h, c);
  }

  /** Entering a code, or what the device says, and making the call. */
  lemma {:induction false} PassesResolving(h: Handler, c: Caller)
    requires h.state.ResolveCode?
    ensures Passes(h, c, Resolving(h.action), OnCall(OnResolve(h, c.code), c.reply))
  {
    hide OnCall, Passes;
    var h1 := OnResolve(h, c.code);
    PassesOne(h, c);
    PassesCall(h1, c);
    PassesBoth(h, c, [(ResolveCode, h.action)], h1, [(MakeCall, h.action)], OnCall(h1, c.reply));
    assert [(ResolveCode, h.action)] + [(MakeCall, h.action)] == Resolving(h.action);
  }

  // ----- calls without steps of their own -----

  predicate OneCall(i: Impl) {
    i.Plain? || i.Limits? || i.Send?
  }

  lemma {:induction false} OneCallIsDone(h: Handler, reply: Reply)
    requires h.state.MakeCall? && OneCall(h.impl) && reply.Success?
    ensures OnCall(h, reply).state.Done?
  {
    hide Stamp, SendKeys;
  }

  /** From where such a call stands to its end. */
  function Remaining(h: Handler): seq<Stage> {
    match h.state
    case RequestCode => [(RequestCode, h.action)] + Resolving(h.action)
    case ResolveCode => Resolving(h.action)
    case _ => [(MakeCall, h.action)]
  }

  lemma {:induction false} OneCallEnds(h: Handler, c: Caller)
    requires OneCall(h.impl) && !Ended(h) && !h.state.RequestCode? && Succeeds(c)
    ensures EndsThrough(h, c, Remaining(h))
  {
    hide OnCall, Passes;
    if h.state.ResolveCode? {
      PassesResolving(h, c);
      OneCallIsDone(OnResolve(h, c.code), c.reply);
    } else {
      PassesCall(h, c);
      OneCallIsDone(h, c.reply);
    }
  }

  lemma {:induction false} RequestEnds(h: Handler, c: Caller)
    requires OneCall(h.impl) && h.state.RequestCode? && Succeeds(c)
    ensures EndsThrough(h, c, [(RequestCode, h.action)] + Resolving(OnRequest(h, c.via, true).action))
  {
    hide Passes, EndsThrough;
    PassesRequest(h, c);
    OneCallEnds(OnRequest(h, c.via, true), c);
    var h1 := OnRequest(h, c.via, true);
    PassesThenEnds(h, c, [(RequestCode, h.action)], h1, Resolving(h1.action));
  }

  lemma {:induction false} PlainEnds(h: Handler, c: Caller)
    requires (h.impl.Plain? || h.impl.Limits?) && !Ended(h) && Succeeds(c)
    ensures EndsThrough(h, c, Remaining(h))
  {
    hide EndsThrough;
    if h.state.RequestCode? {
      RequestEnds(h, c);
    } else {
      OneCallEnds(h, c);
    }
  }

  // ----- a two-factor change -----

  lemma {:induction false} SecondStepEnds(h: Handler, c: Caller)
    requires h.impl.TwoFactorConfig? && h.state.ResolveCode? && Succeeds(c)
    requires h.action == "activate_email" || ("enable_" <= h.action && h.action != "enable_2fa")
    ensures EndsThrough(h, c, Resolving(h.action))
  {
    hide Passes;
    PassesResolving(h, c);
    ActionNames(h.impl.toUpdate);
    assert OnCall(OnResolve(h, c.code), c.reply).state.Done?;
  }

  predicate Known(m: string) {
    m in {"email", "sms", "phone", "gauth"}
  }

  lemma {:induction false} KnownActions(m: string)
    requires Known(m)
    ensures "enable_" + m != "enable_2fa" && "enable_" <= "enable_" + m
  {
    assert "enable_2fa"[7] == '2' && ("enable_" + m)[7] == m[0];
  }

  /** The first call of enabling a method or setting an email address leads to the second step. */
  lemma {:induction false} FirstStep(h: Handler, c: Caller)
    requires h.impl.TwoFactorConfig? && h.state.MakeCall? && Succeeds(c)
    requires h.action == "enable_2fa" || h.action == "set_email"
    ensures var h' := OnCall(h, c.reply);
            && h'.impl.TwoFactorConfig? && h'.state.ResolveCode?
            && h'.action == (if h.action == "enable_2fa" then "enable_" else "activate_") + h.impl.toUpdate
  {
    hide Stamp;
  }

  function FirstStages(h: Handler): seq<Stage> {
    if h.state.RequestCode? then [(RequestCode, h.action)] + Resolving(h.action) else [(MakeCall, h.action)]
  }

  /** Up to the first call. */
  lemma {:induction false} ToFirstCall(h: Handler, c: Caller) returns (h': Handler)
    requires h.impl.TwoFactorConfig? && (h.state.RequestCode? || h.state.MakeCall?)
    ensures h'.impl == h.impl && h'.action == h.action && h'.state.MakeCall?
    ensures Passes(h, c, FirstStages(h), OnCall(h', c.reply))
  {
    hide Passes, OnCall;
    if h.state.RequestCode? {
      var h1 := OnRequest(h, c.via, true);
      PassesRequest(h, c);
      PassesResolving(h1, c);
      h' := OnResolve(h1, c.code);
      PassesBoth(h, c, [(RequestCode, h.action)], h1, Resolving(h.action), OnCall(h', c.reply));
    } else {
      PassesCall(h, c);
      h' := h;
    }
  }

  lemma {:induction false} TwoFactorEnds(h: Handler, c: Caller)
    requires h.impl.TwoFactorConfig? && Known(h.impl.toUpdate) && Succeeds(c)
    requires h.state.RequestCode? || h.state.MakeCall?
    requires h.action in {"enable_2fa", "disable_2fa"} || (h.action == "set_email" && h.impl.toUpdate == "email")
    ensures EndsThrough(h, c, FirstStages(h) + (if h.action == "enable_2fa" then Resolving("enable_" + h.impl.toUpdate)
                                                else if h.action == "set_email" then Resolving("activate_email")
                                                else []))
  {
    hide Passes;
    var h1 := ToFirstCall(h, c);
    if h.action == "disable_2fa" {
      assert OnCall(h1, c.reply).state.Done?;
      assert FirstStages(h) + [] == FirstStages(h);
    } else {
      FirstStep(h1, c);
      KnownActions(h.impl.toUpdate);
      assert "activate_" + "email" == "activate_email";
      var h2 := OnCall(h1, c.reply);
      hide OnCall, EndsThrough;
      SecondStepEnds(h2, c);
      PassesThenEnds(h, c, FirstStages(h), h2, Resolving(h2.action));
    }
  }

  // ----- login -----

  /** A login that asks a device for addresses, `n` of them still to come. */
  ghost predicate Collecting(h: Handler, n: nat) {
    h.impl.Login? && h.hw && h.action == "get_receive_address" && |h.impl.reqs| == n
  }

  lemma {:induction false} OneAddress(h: Handler, reply: Reply, n: nat)
    requires Collecting(h, n) && n > 0 && h.state.MakeCall? && reply.Success?
    ensures var h' := OnCall(h, reply);
            if n == 1 then h'.state.Done? else Collecting(h', n - 1) && h'.state.ResolveCode?
  {
    hide Stamp;
    var i := h.impl;
    assert i.reqs[n - 1] in AddAddress(i.addrs, i.reqs[n - 1], reply.addresses(0));
  }

  lemma {:induction false} AddressesEnd(h: Handler, c: Caller, n: nat)
    requires Collecting(h, n) && n > 0 && h.state.ResolveCode? && Succeeds(c)
    ensures EndsThrough(h, c, Addresses(n))
    decreases n
  {
    hide Passes, OnCall;
    var h1 := OnCall(OnResolve(h, c.code), c.reply);
    PassesResolving(h, c);
    OneAddress(OnResolve(h, c.code), c.reply, n);
    if n == 1 {
      assert Addresses(1) == Resolving("get_receive_address") + Addresses(0) == Resolving("get_receive_address");
    } else {
      AddressesEnd(h1, c, n - 1);
      hide EndsThrough;
      PassesThenEnds(h, c, Resolving("get_receive_address"), h1, Addresses(n - 1));
    }
  }

  /** Addresses are asked for, beginning with a call, or there are none to ask for. */
  lemma {:induction false} CollectingEnds(h: Handler, c: Caller, n: nat)
    requires Collecting(h, n) && n > 0 && h.state.MakeCall? && Succeeds(c)
    ensures EndsThrough(h, c, [(MakeCall, "get_receive_address")] + Addresses(n - 1))
  {
    hide Passes, OnCall;
    var h1 := OnCall(h, c.reply);
    PassesCall(h, c);
    OneAddress(h, c.reply, n);
    if n == 1 {
      assert [(MakeCall, "get_receive_address")] + Addresses(0) == [(MakeCall, "get_receive_address")];
    } else {
      AddressesEnd(h1, c, n - 1);
      hide EndsThrough;
      PassesThenEnds(h, c, [(MakeCall, "get_receive_address")], h1, Addresses(n - 1));
    }
  }

  /** A login with a device that has not asked for addresses yet. */
  ghost predicate LoggingIn(h: Handler, liquid: bool) {
    h.impl.Login? && h.hw && h.impl.reqs == [] && h.impl.addrs == map[] && h.impl.liquid == liquid
  }

  lemma {:induction false} DeviceSteps(h: Handler, reply: Reply, liquid: bool)
    requires LoggingIn(h, liquid) && h.state.MakeCall? && reply.Success?
    ensures var h', n := OnCall(h, reply), |Requests(reply.subaccounts)|;
            && (h.action == "get_xpubs" && !h.impl.challenged ==>
                  LoggingIn(h', liquid) && h'.state.ResolveCode? && h'.action == "sign_message" && h'.impl.challenged)
            && (h.action == "sign_message" ==>
                  LoggingIn(h', liquid) && h'.state.ResolveCode? && h'.action == "get_xpubs"
                  && h'.impl.challenged == h.impl.challenged)
            && (h.action == "get_xpubs" && h.impl.challenged ==>
                  if n == 0 then h'.state.Done?
                  else Collecting(h', n) && h'.state == if liquid then ResolveCode else MakeCall)
  {
    hide Stamp, Requests;
    assert [] + Requests(reply.subaccounts) == Requests(reply.subaccounts);
  }

  function LastStages(liquid: bool, wanted: nat): seq<Stage> {
    if wanted == 0 then []
    else if liquid then Addresses(wanted)
    else [(MakeCall, "get_receive_address")] + Addresses(wanted - 1)
  }

  /** The last step: the keys of the subaccounts, and then whatever addresses are wanted. */
  lemma {:induction false} KeysEnd(h: Handler, c: Caller, liquid: bool)
    requires LoggingIn(h, liquid) && h.state.ResolveCode? && Succeeds(c)
    requires h.action == "get_xpubs" && h.impl.challenged
    ensures EndsThrough(h, c, Resolving("get_xpubs") + LastStages(liquid, |Requests(c.reply.subaccounts)|))
  {
    var h1, n := OnCall(OnResolve(h, c.code), c.reply), |Requests(c.reply.subaccounts)|;
    hide Passes, OnCall, Requests;
    PassesResolving(h, c);
    DeviceSteps(OnResolve(h, c.code), c.reply, liquid);
    if n == 0 {
      assert Resolving("get_xpubs") + [] == Resolving("get_xpubs");
    } else {
      if liquid {
        AddressesEnd(h1, c, n);
      } else {
        CollectingEnds(h1, c, n);
      }
      hide EndsThrough;
      PassesThenEnds(h, c, Resolving("get_xpubs"), h1, LastStages(liquid, n));
    }
  }

  lemma {:induction false} DeviceLoginEnds(h: Handler, c: Caller, liquid: bool)
    requires LoggingIn(h, liquid) && h.state.ResolveCode? && Succeeds(c)
    requires h.action == "get_xpubs" && !h.impl.challenged
    ensures EndsThrough(h, c, Resolving("get_xpubs") + (Resolving("sign_message") +
                                (Resolving("get_xpubs") + LastStages(liquid, |Requests(c.reply.subaccounts)|))))
  {
    hide Passes, OnCall, EndsThrough, Requests, LastStages;
    var last := Resolving("get_xpubs") + LastStages(liquid, |Requests(c.reply.subaccounts)|);
    PassesResolving(h, c);
    DeviceSteps(OnResolve(h, c.code), c.reply, liquid);
    var h1 := OnCall(OnResolve(h, c.code), c.reply);
    PassesResolving(h1, c);
    DeviceSteps(OnResolve(h1, c.code), c.reply, liquid);
    var h2 := OnCall(OnResolve(h1, c.code), c.reply);
    KeysEnd(h2, c, liquid);
    PassesThenEnds(h1, c, Resolving("sign_message"), h2, last);
    PassesThenEnds(h, c, Resolving("get_xpubs"), h1, Resolving("sign_message") + last);
  }

  /** Without a device two calls at most. */
  lemma {:induction false} SoftwareLoginEnds(h: Handler, c: Caller)
    requires h.impl.Login? && !h.hw && h.impl.reqs == [] && h.impl.addrs == map[]
    requires h.state.MakeCall? && h.action == "get_xpubs" && Succeeds(c)
    ensures EndsThrough(h, c, [(MakeCall, "get_xpubs")] + (if Requests(c.reply.subaccounts) == [] then []
                                                           else [(MakeCall, "get_receive_address")]))
  {
    var h1, wanted := OnCall(h, c.reply), Requests(c.reply.subaccounts);
    SoftwareLogin(h, c.reply);
    hide Passes, OnCall, Requests, AddAll;
    PassesCall(h, c);
    if wanted == [] {
      assert [(MakeCall, "get_xpubs")] + [] == [(MakeCall, "get_xpubs")];
    } else {
      PassesCall(h1, c);
      SoftwareAddresses(h1, c.reply);
      assert EndsThrough(h1, c, [(MakeCall, "get_receive_address")]);
      hide EndsThrough;
      PassesThenEnds(h, c, [(MakeCall, "get_xpubs")], h1, [(MakeCall, "get_receive_address")]);
    }
  }

  lemma {:induction false} SoftwareLogin(h: Handler, reply: Reply)
    requires h.impl.Login? && !h.hw && h.impl.reqs == [] && h.impl.addrs == map[]
    requires h.state.MakeCall? && h.action == "get_xpubs" && reply.Success?
    ensures var h', wanted := OnCall(h, reply), Requests(reply.subaccounts);
            if wanted == [] then h'.state.Done?
            else && h'.impl.Login? && !h'.hw && h'.state.MakeCall? && h'.action == "get_receive_address"
                 && h'.impl.reqs == wanted
  {
    hide Stamp, Requests;
    assert [] + Requests(reply.subaccounts) == Requests(reply.subaccounts);
  }

  lemma {:induction false} SoftwareAddresses(h: Handler, reply: Reply)
    requires h.impl.Login? && !h.hw && h.state.MakeCall? && h.action == "get_receive_address" && reply.Success?
    requires h.impl.reqs != []
    ensures OnCall(h, reply).state.Done?
  {
    hide Stamp, Requests;
    var reqs := h.impl.reqs;
    assert reqs[|reqs| - 1] in AddAll(h.impl.addrs, reqs, reply.addresses);
  }

  // ----- subaccount creation -----

  lemma {:induction false} CreationStep(h: Handler, reply: Reply)
    requires h.impl.NewSubaccount? && h.state.MakeCall? && reply.Success?
    requires h.action == "get_receive_address" ==> h.impl.remaining > 0
    ensures var h' := OnCall(h, reply);
            var left := h.impl.remaining - (if h.action == "get_receive_address" then 1 else 0);
            if !h.hw || left == 0 then h'.state.Done?
            else && h'.impl.NewSubaccount? && h'.hw && h'.state.ResolveCode? && h'.action == "get_receive_address"
                 && h'.impl.remaining == left
  {
    hide Stamp;
  }

  lemma {:induction false} CreationAddressesEnd(h: Handler, c: Caller, n: nat)
    requires h.impl.NewSubaccount? && h.hw && h.state.ResolveCode? && h.action == "get_receive_address"
    requires h.impl.remaining == n > 0 && Succeeds(c)
    ensures EndsThrough(h, c, Addresses(n))
    decreases n
  {
    hide Passes, OnCall;
    var h1 := OnCall(OnResolve(h, c.code), c.reply);
    PassesResolving(h, c);
    CreationStep(OnResolve(h, c.code), c.reply);
    if n == 1 {
      assert Addresses(1) == Resolving("get_receive_address") + Addresses(0) == Resolving("get_receive_address");
    } else {
      CreationAddressesEnd(h1, c, n - 1);
      hide EndsThrough;
      PassesThenEnds(h, c, Resolving("get_receive_address"), h1, Addresses(n - 1));
    }
  }

  lemma {:induction false} CreationEnds(h: Handler, c: Caller)
    requires h.impl.NewSubaccount? && h.action == "get_xpubs" && Succeeds(c)
    requires h.state == if h.hw then ResolveCode else MakeCall
    ensures EndsThrough(h, c, Polling(h.hw, "get_xpubs") + Addresses(if h.hw then h.impl.remaining else 0))
  {
    hide Passes, OnCall;
    var ready := if h.hw then OnResolve(h, c.code) else h;
    var h1 := OnCall(ready, c.reply);
    if h.hw {
      PassesResolving(h, c);
    } else {
      PassesCall(h, c);
    }
    CreationStep(ready, c.reply);
    if h1.state.Done? {
      assert Polling(h.hw, "get_xpubs") + Addresses(0) == Polling(h.hw, "get_xpubs");
    } else {
      CreationAddressesEnd(h1, c, h.impl.remaining);
      hide EndsThrough;
      PassesThenEnds(h, c, Polling(h.hw, "get_xpubs"), h1, Addresses(h.impl.remaining));
    }
  }

  // ----- a reset -----

  lemma {:induction false} ResetEnds(h: Handler, c: Caller)
    requires h.impl == Reset(false) && h.state.MakeCall? && Succeeds(c)
    ensures EndsThrough(h, c, [(MakeCall, h.action)] + Resolving(h.action))
  {
    hide Passes;
    var h1 := OnCall(h, c.reply);
    assert h1.impl == Reset(true) && h1.state.ResolveCode? && h1.action == h.action;
    assert OnCall(OnResolve(h1, c.code), c.reply).state.Done?;
    hide OnCall;
    PassesCall(h, c);
    PassesResolving(h1, c);
    assert EndsThrough(h1, c, Resolving(h.action));
    PassesThenEnds(h, c, [(MakeCall, h.action)], h1, Resolving(h.action));
  }

  // ----- every kind of call -----

  lemma {:induction false} LoginCallEnds(s: Session, c: Caller)
    requires Succeeds(c)
    ensures EndsThrough(ConstructForDevice(LoginCall, s), c, LoginStages(s, |Requests(c.reply.subaccounts)|))
  {
    var h, wanted := ConstructForDevice(LoginCall, s), |Requests(c.reply.subaccounts)|;
    assert IsHwAction("get_xpubs");
    hide EndsThrough, Requests, Addresses, Resolving;
    if s.device {
      DeviceLoginEnds(h, c, s.liquid);
      var last := LastStages(s.liquid, wanted);
      assert Resolving("get_xpubs") + (Resolving("sign_message") + (Resolving("get_xpubs") + last))
          == Resolving("get_xpubs") + Resolving("sign_message") + Resolving("get_xpubs") + last;
    } else {
      SoftwareLoginEnds(h, c);
    }
  }

  lemma {:induction false} CreateSubaccountEnds(noRecovery: bool, s: Session, c: Caller)
    requires Succeeds(c)
    ensures EndsThrough(ConstructForDevice(CreateSubaccount(noRecovery), s), c,
                        Expected(CreateSubaccount(noRecovery), s, |Requests(c.reply.subaccounts)|))
  {
    var h := ConstructForDevice(CreateSubaccount(noRecovery), s);
    assert IsHwAction("get_xpubs");
    hide EndsThrough, Requests, Addresses;
    CreationEnds(h, c);
  }

  /** A plain call starts where its expected stages begin. */
  lemma {:induction false} DeviceCallStarts(k: Kind, s: Session, wanted: nat)
    requires AsksDevice(k) && Accepted(k, s) && !k.LoginCall? && !k.CreateSubaccount?
    ensures var h := ConstructForDevice(k, s);
            h.impl.Plain? && !Ended(h) && Remaining(h) == Expected(k, s, wanted)
  {
    assert IsHwAction("get_xpubs") && IsHwAction("sign_message") && IsHwAction("sign_tx");
    assert IsHwAction("get_receive_address") && IsHwAction("create_transaction");
    hide IsHwAction, Resolving;
  }

  lemma {:induction false} CodeCallStarts(k: Kind, s: Session, wanted: nat)
    requires !AsksDevice(k) && !k.SendTransaction? && !k.ChangeTwoFactor? && !k.TwoFactorReset?
    ensures var h := ConstructForCode(k, s);
            (h.impl.Plain? || h.impl.Limits?) && !Ended(h) && Remaining(h) == Expected(k, s, wanted)
  {
    hide IsHwAction, Resolving, LimitData;
  }

  lemma {:induction false} TwoFactorStarts(k: Kind, s: Session)
    requires k.ChangeTwoFactor? && Accepted(k, s)
    ensures var h := ConstructForCode(k, s);
            && h.impl.TwoFactorConfig? && h.impl.toUpdate == k.toUpdate && (h.state.RequestCode? || h.state.MakeCall?)
            && h.action == (if k.goal.Enable? then "enable_2fa"
                            else if k.goal.SetEmail? && k.toUpdate == "email" then "set_email" else "disable_2fa")
            && FirstStages(h) == Authorising(s, h.action)
  {
    hide IsHwAction, Resolving;
  }

  lemma {:induction false} CodeCallEnds(k: Kind, s: Session, c: Caller)
    requires !AsksDevice(k) && !k.SendTransaction? && Accepted(k, s) && Succeeds(c)
    ensures EndsThrough(ConstructForCode(k, s), c, Expected(k, s, |Requests(c.reply.subaccounts)|))
  {
    var h, wanted := ConstructForCode(k, s), |Requests(c.reply.subaccounts)|;
    if k.TwoFactorReset? {
      hide EndsThrough, Requests, IsHwAction;
      ResetEnds(h, c);
    } else if k.ChangeTwoFactor? {
      hide EndsThrough, Requests, ConstructForCode, Resolving, Authorising, FirstStages;
      TwoFactorStarts(k, s);
      TwoFactorEnds(h, c);
      assert FirstStages(h) + [] == FirstStages(h);
    } else {
      hide EndsThrough, Requests, ConstructForCode, Expected, Remaining;
      CodeCallStarts(k, s, wanted);
      PlainEnds(h, c);
    }
  }

  /** Where a send starts, and what it becomes when a code is requested. */
  lemma {:induction false} SendStarts(k: Kind, s: Session, via: string)
    requires k.SendTransaction? && Accepted(k, s)
    ensures var h := ConstructSend(k, s);
            && h.impl.Send? && (h.state.RequestCode? || h.state.MakeCall?)
            && SendStages(k, s) == if h.state.MakeCall? then [(MakeCall, h.action)]
                                   else [(RequestCode, h.action)] + Resolving(OnRequest(h, via, true).action)
  {
    hide IsHwAction, Resolving;
  }

  lemma {:induction false} SendEnds(k: Kind, s: Session, c: Caller)
    requires k.SendTransaction? && Accepted(k, s) && Succeeds(c)
    ensures EndsThrough(ConstructSend(k, s), c, SendStages(k, s))
  {
    var h := ConstructSend(k, s);
    hide EndsThrough, ConstructSend, SendStages, Resolving, OnRequest;
    SendStarts(k, s, c.via);
    if h.state.RequestCode? {
      RequestEnds(h, c);
    } else {
      OneCallEnds(h, c);
    }
  }

  /** Every kind of call that its constructor accepts: if every server call succeeds, answering what each state asks
      for leads through exactly the expected states and actions to done. */
  lemma {:induction false} SuccessfulRunEnds(k: Kind, s: Session, c: Caller)
    requires Accepted(k, s) && Succeeds(c)
    ensures EndsThrough(Construct(k, s, None), c, Expected(k, s, |Requests(c.reply.subaccounts)|))
  {
    var wanted := |Requests(c.reply.subaccounts)|;
    hide EndsThrough, Requests, ConstructForDevice, ConstructForCode, ConstructSend;
    if k.LoginCall? {
      LoginCallEnds(s, c);
    } else if k.CreateSubaccount? {
      CreateSubaccountEnds(k.noRecovery, s, c);
    } else if AsksDevice(k) {
      hide Expected;
      DeviceCallStarts(k, s, wanted);
      PlainEnds(ConstructForDevice(k, s), c);
    } else if k.SendTransaction? {
      SendEnds(k, s, c);
    } else {
      CodeCallEnds(k, s, c);
    }
  }
}
