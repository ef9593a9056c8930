/** The two-factor and hardware state machine shared by all authenticated calls. The common part is the
    class `AuthHandler`; what each kind of call does differently is the value in its `impl` field. */
module AuthHandlers {
  const TWO_FACTOR_ATTEMPTS: nat := 3
  const INITIAL_UPLOAD_CA: nat := 5
  const INVALID_CODE := "id_invalid_twofactor_code"

  datatype State = RequestCode | ResolveCode | MakeCall | Done | Error

  /** Values in the JSON data sent along with a call. */
  datatype Value =
    | Text(text: string) | Num(n: int)
    | Spend(amount: nat, fee: nat, changeIdx: int)
    | Opaque

  type Data = map<string, Value>

  /** `pointer` of a subaccount and the number of confidential addresses the server wants for it. */
  datatype Subaccount = Subaccount(pointer: nat, requiredCa: nat)

  /** What distinguishes one kind of call from another. */
  datatype Impl =
    | Plain                                                       // call the server, then done
    | TwoFactorConfig(toUpdate: string, gauthData: Data)
    | Limits(isDecrease: bool)
    | Send(required: bool, liquid: bool, underLimit: bool, bump: nat, spend: Value)
    | Reset(confirming: bool)
    | Login(challenged: bool, liquid: bool, subaccounts: seq<Subaccount>, reqs: seq<nat>,
            addrs: map<nat, seq<string>>, uploaded: map<nat, seq<string>>)
    | NewSubaccount(total: nat, remaining: nat, collected: seq<string>, sent: seq<string>)

  datatype Handler = Handler(
    methods: seq<string>, via: string, action: string, code: string, error: string,
    data: Data, state: State, attempts: nat, hw: bool, impl: Impl)

  /** How the server calls of one pass through `call_impl` end. `enabled` are the methods the session reports
      after a wrong code; `subaccounts` and `addresses` are what login and subaccount creation read. */
  datatype Reply =
    | Success(subaccounts: seq<Subaccount>, addresses: nat -> string)
    | WrongCode(enabled: seq<string>)
    | Rejected(message: string)

  datatype CallResult =
    | Returns(h: Handler, state: State)
    | Throws(h: Handler, wrongCode: bool, message: string)

  /** The exception a server call raises for a reply other than success. */
  function Raise(h: Handler, reply: Reply): CallResult
    requires !reply.Success?
  {
    Throws(h, reply.WrongCode?, if reply.Rejected? then reply.message else INVALID_CODE)
  }

  // ----- the common part -----

  predicate IsHwAction(action: string) {
    action in {"get_xpubs", "sign_message", "sign_tx", "get_receive_address", "create_transaction", "get_balance",
               "get_subaccounts", "get_subaccount", "get_transactions", "get_unspent_outputs", "get_expired_deposits"}
  }

  function SetError(h: Handler, message: string): Handler {
    h.(state := Error, error := message)
  }

  /** `init`, for a session with the given device and enabled methods. */
  function Init(action: string, device: bool, methods: seq<string>, impl: Impl): Handler {
    Handler(methods, "", action, "", "", map[], if methods == [] then MakeCall else RequestCode,
            TWO_FACTOR_ATTEMPTS, device && IsHwAction(action), impl)
  }

  /** `set_data` */
  function SetData(h: Handler, action: string): Handler {
    h.(action := action, data := map["action" := Text(action), "device" := Opaque])
  }

  /** `operator()` before `call_impl`: the method and code go along exactly if both are known. */
  function Stamp(data: Data, via: string, code: string): Data {
    if code == "" || via == "" then data - {"method", "code"}
    else data["method" := Text(via)]["code" := Text(code)]
  }

  // ----- what the calls do -----

  /** `json_rename_key` */
  function Rename(data: Data, from: string, to: string): Data {
    if from in data then data[to := data[from]] - {from} else data
  }

  /** The keys the server expects with a send, as opposed to those it expects with a request for a code. */
  function SendKeys(data: Data, bump: nat): Data {
    var d := Rename(Rename(data, "fee", "send_raw_tx_fee"), "change_idx", "send_raw_tx_change_idx");
    Rename(d, "amount", if bump != 0 then "bump_fee_amount" else "send_raw_tx_amount")
  }

  /** `create_twofactor_data` */
  function CreateSendData(h: Handler): Handler
    requires h.impl.Send?
  {
    var i := h.impl;
    if !i.required || i.liquid then h.(data := map[])
    else if i.bump != 0 then
      h.(action := "bump_fee",
         data := map[(if i.underLimit then "try_under_limits_bump" else "amount") := Num(i.bump)])
    else if i.underLimit then h.(data := map["try_under_limits_spend" := i.spend])
    else if i.spend.Spend? then
      h.(data := map["amount" := Num(i.spend.amount), "fee" := Num(i.spend.fee),
                     "change_idx" := Num(i.spend.changeIdx)])
    else h.(data := map[])
  }

  /** `on_init_done` */
  function OnInitDone(h: Handler, newAction: string): CallResult
    requires h.impl.TwoFactorConfig?
  {
    var m := h.impl.toUpdate;
    Returns(h.(via := m, action := newAction + m, methods := [m], impl := h.impl.(gauthData := h.data), data := map[]),
            ResolveCode)
  }

  /** Pointer of each subaccount, repeated once for every address the server wants. */
  function Requests(subaccounts: seq<Subaccount>): seq<nat> {
    if subaccounts == [] then []
    else Requests(subaccounts[..|subaccounts| - 1]) + seq(subaccounts[|subaccounts| - 1].requiredCa,
                                                          _ => subaccounts[|subaccounts| - 1].pointer)
  }

  function AddAddress(addrs: map<nat, seq<string>>, pointer: nat, address: string): map<nat, seq<string>> {
    addrs[pointer := (if pointer in addrs then addrs[pointer] else []) + [address]]
  }

  /** Without a device all requests are answered in one go. */
  function AddAll(addrs: map<nat, seq<string>>, reqs: seq<nat>, addresses: nat -> string): map<nat, seq<string>> {
    if reqs == [] then addrs
    else AddAddress(AddAll(addrs, reqs[..|reqs| - 1], addresses), reqs[|reqs| - 1], addresses(|reqs| - 1))
  }

  /** The end of `login_call::call_impl`: upload what has been collected, or see what has to be. */
  function FinishLogin(h: Handler, reply: Reply): CallResult
    requires h.impl.Login? && reply.Success?
  {
    if h.impl.addrs != map[] then Returns(h.(impl := h.impl.(uploaded := h.impl.addrs)), Done)
    else
      var reqs := h.impl.reqs + Requests(reply.subaccounts);
      var h' := h.(impl := h.impl.(subaccounts := reply.subaccounts, reqs := reqs));
      if reqs == [] then Returns(h', Done)
      else
        var h'' := SetData(h', "get_receive_address");
        Returns(h''.(data := h''.data["address" := Opaque]), if !h.hw || !h.impl.liquid then MakeCall else ResolveCode)
  }

  function LoginImpl(h: Handler, reply: Reply): CallResult
    requires h.impl.Login?
  {
    var i := h.impl;
    if !reply.Success? then Raise(h, reply)
    else if !h.hw then
      if h.action == "get_receive_address"
      then FinishLogin(h.(impl := i.(addrs := AddAll(i.addrs, i.reqs, reply.addresses))), reply)
      else FinishLogin(h, reply)
    else if h.action == "get_receive_address" then
      if i.reqs == [] then Throws(h, false, "no request")
      else
        var last := |i.reqs| - 1;
        var h' := h.(impl := i.(addrs := AddAddress(i.addrs, i.reqs[last], reply.addresses(0)),
                                reqs := i.reqs[..last]));
        if last > 0 then Returns(h'.(data := h.data["address" := Opaque]), ResolveCode)
        else FinishLogin(h', reply)
    else if h.action == "get_xpubs" && !i.challenged then
      Returns(SetData(h, "sign_message").(impl := i.(challenged := true)), ResolveCode)
    else if h.action == "sign_message" then Returns(SetData(h, "get_xpubs"), ResolveCode)
    else FinishLogin(h, reply)
  }

  function NewSubaccountImpl(h: Handler, reply: Reply): CallResult
    requires h.impl.NewSubaccount?
  {
    var i := h.impl;
    if !reply.Success? then Raise(h, reply)
    else if !h.hw then
      var all := i.collected + seq(i.remaining, (k: nat) => reply.addresses(k));
      Returns(h.(impl := i.(remaining := 0, collected := all, sent := all)), Done)
    else
      var i' := if h.action == "get_receive_address"
                then i.(collected := i.collected + [reply.addresses(0)], remaining := Decrement(i.remaining)) else i;
      if i'.remaining > 0
      then Returns(SetData(h, "get_receive_address").(impl := i'), ResolveCode)
      else Returns(h.(impl := i'.(sent := i'.collected)), Done)
  }

  function TwoFactorImpl(h: Handler, reply: Reply): CallResult
    requires h.impl.TwoFactorConfig?
  {
    var m := h.impl.toUpdate;
    if h.action == "set_email" then
      if reply.Success? then OnInitDone(h, "activate_") else Raise(h, reply)
    else if h.action == "enable_2fa" then
      if m == "gauth" || reply.Success? then OnInitDone(h, "enable_") else Raise(h, reply)
    else if h.action == "activate_email" || h.action == "disable_2fa" then
      if reply.Success? then Returns(h, Done) else Raise(h, reply)
    else if "enable_" <= h.action then
      if reply.Success? then Returns(h, Done)
      else if m == "gauth" && reply.WrongCode? && reply.enabled != []
      then Returns(h.(action := "enable_2fa", methods := reply.enabled, data := map["method" := Text(m)]), RequestCode)
      else Raise(h, reply)
    else Throws(h, false, "assertion failure")
  }

  /** `call_impl` of every handler, up to its return or the exception it lets through. */
  function CallImpl(h: Handler, reply: Reply): CallResult {
    match h.impl
    case Plain => if reply.Success? then Returns(h, Done) else Raise(h, reply)
    case Limits(_) => if reply.Success? then Returns(h, Done) else Raise(h, reply)
    case TwoFactorConfig(_, _) => TwoFactorImpl(h, reply)
    case Send(_, liquid, _, bump, _) =>
      var h' := if liquid then h else h.(data := SendKeys(h.data, bump));
      if reply.Success? then Returns(h', Done) else Raise(h', reply)
    case Reset(confirming) =>
      if !reply.Success? then Raise(h, reply)
      else if confirming then Returns(h, Done)
      else Returns(h.(impl := Reset(true), methods := ["email"], via := "email"), ResolveCode)
    case Login(_, _, _, _, _, _) => LoginImpl(h, reply)
    case NewSubaccount(_, _, _, _) => NewSubaccountImpl(h, reply)
  }

  // ----- the three things a caller can do -----

  /** `request_code`; `serverOk` is whether the server accepts to send a code. When it throws, the
      handler keeps its state, except that a send catches the exception and moves to error. */
  function OnRequest(h: Handler, via: string, serverOk: bool): Handler {
    var ok := h.state.RequestCode? && (via == "gauth" || serverOk);
    match h.impl
    case Send(_, _, _, _, _) =>
      var h' := CreateSendData(h.(impl := h.impl.(underLimit := false)));
      if ok then h'.(via := via, state := ResolveCode, attempts := TWO_FACTOR_ATTEMPTS)
      else SetError(h', "request failed")
    case Limits(_) =>
      var h' := h.(impl := Limits(false));
      if ok then h'.(via := via, state := ResolveCode, attempts := TWO_FACTOR_ATTEMPTS) else h'
    case _ =>
      if ok then h.(via := via, state := ResolveCode, attempts := TWO_FACTOR_ATTEMPTS) else h
  }

  /** `resolve_code` */
  function OnResolve(h: Handler, code: string): Handler {
    if h.state.ResolveCode? then h.(code := code, state := MakeCall) else h
  }

  /** `operator()` */
  function OnCall(h: Handler, reply: Reply): Handler {
    if !h.state.MakeCall? then h else Settled(CallImpl(h.(data := Stamp(h.data, h.via, h.code)), reply))
  }

  /** What becomes of the handler when `call_impl` has returned or thrown. */
  function Settled(r: CallResult): Handler {
    match r
    case Returns(h', state) => h'.(state := state, attempts := TWO_FACTOR_ATTEMPTS)
    case Throws(h', wrongCode, message) =>
      if !wrongCode then SetError(h', message)
      else if h'.via == "gauth" then h'.(state := ResolveCode)
      else if h'.attempts == 1 then SetError(h'.(attempts := 0), message)
      else h'.(state := ResolveCode, attempts := Decrement(h'.attempts))
  }

  /** `--m_attempts_remaining` on a `uint32_t` */
  function Decrement(n: nat): nat {
    if n == 0 then 0xffff_ffff else n - 1
  }

  /** The object the caller holds. */
  class AuthHandler {
    var methods: seq<string>
    var via: string
    var action: string
    var code: string
    var error: string
    var data: Data
    var state: State
    var attempts: nat
    var hw: bool
    var impl: Impl

    ghost function Fields(): Handler
      reads this
    {
      Handler(methods, via, action, code, error, data, state, attempts, hw, impl)
    }

    constructor (h: Handler)
      ensures Fields() == h
    {
      methods, via, action, code, error := h.methods, h.via, h.action, h.code, h.error;
      data, state, attempts, hw, impl := h.data, h.state, h.attempts, h.hw, h.impl;
    }

    /** Stores what `call_impl` changed. */
    method Assign(h: Handler)
      modifies this
      ensures Fields() == h
    {
      methods, via, action, code, error := h.methods, h.via, h.action, h.code, h.error;
      data, state, attempts, hw, impl := h.data, h.state, h.attempts, h.hw, h.impl;
    }

    method RequestCode(via': string, serverOk: bool) returns (thrown: bool)
      modifies this
      ensures Fields() == OnRequest(old(Fields()), via', serverOk)
      ensures thrown <==> old(!impl.Send? && !(state.RequestCode? && (via' == "gauth" || serverOk)))
    {
      if impl.Limits? {
        impl := Limits(false);
      }
      var isSend := impl.Send?;
      if isSend {
        impl := impl.(underLimit := false);
        var h := Handler(methods, via, action, code, error, data, state, attempts, hw, impl);
        Assign(CreateSendData(h));
      }
      if !state.RequestCode? || (via' != "gauth" && !serverOk) {
        if isSend {
          state, error := State.Error, "request failed";
        }
        return !isSend;
      }
      via := via';
      state := State.ResolveCode;
      attempts := TWO_FACTOR_ATTEMPTS;
      return false;
    }

    method ResolveCode(code': string) returns (thrown: bool)
      modifies this
      ensures Fields() == OnResolve(old(Fields()), code')
      ensures thrown <==> !old(state).ResolveCode?
    {
      if !state.ResolveCode? {
        return true;
      }
      code := code';
      state := State.MakeCall;
      return false;
    }

    method Call(reply: Reply) returns (thrown: bool)
      modifies this
      ensures Fields() == OnCall(old(Fields()), reply)
      ensures thrown <==> !old(state).MakeCall?
    {
      hide CallImpl, Settled;
      if !state.MakeCall? {
        return true;
      }
      if code == "" || via == "" {
        data := data - {"method", "code"};
      } else {
        data := data["method" := Text(via)]["code" := Text(code)];
      }
      assert Fields() == old(Fields()).(data := Stamp(old(data), old(via), old(code)));
      var result := CallImpl(Handler(methods, via, action, code, error, data, state, attempts, hw, impl), reply);
      Settle(result);
      return false;
    }

    method Settle(result: CallResult)
      modifies this
      ensures Fields() == Settled(result)
    {
      Assign(result.h);
      if result.Returns? {
        state := result.state;
        attempts := TWO_FACTOR_ATTEMPTS;
      } else if !result.wrongCode {
        state, error := State.Error, result.message;
      } else {
        if via != "gauth" {
          attempts := Decrement(attempts);
        }
        if via != "gauth" && attempts == 0 {
          state, error := State.Error, result.message;
        } else {
          state := State.ResolveCode;
        }
      }
    }
  }
}
