/** What reaches the server in runs of calls that need a two-factor code: in which order, and with what data. */
module AuthorisedCalls {
  import opened Amounts
  import opened Options
  import opened AuthHandlers
  import opened AuthRuns

  const AUTH_KEYS := {"method", "code"}

  /** Calls that keep the start state of the base class. */
  predicate KeepsBaseStart(k: Kind) {
    || k.RemoveAccount? || k.CancelReset? || k.CsvTime? || k.Nlocktime? || (k.ChangeLimits? && !k.isDecrease)
    || (k.ChangeSettings? && k.nlocktime.Some?)
  }

  function Bump(k: Kind): nat
    requires k.SendTransaction?
  {
    if k.previousFee.Some? && k.previousFee.value < k.fee then k.fee - k.previousFee.value else 0
  }

  function SpendOf(k: Kind): Value
    requires k.SendTransaction?
  {
    Spend((k.satoshi + k.fee) % TWO_TO_64, k.fee, k.changeIdx)
  }

  /** A send within the user's spending limit is tried without a code. */
  predicate UnderLimit(k: Kind)
    requires k.SendTransaction?
  {
    k.limit != 0 && (if Bump(k) != 0 then Bump(k) else SpendOf(k).amount) <= k.limit
  }

  predicate NeedsCode(k: Kind, s: Session) {
    Methods(s) != [] && (KeepsBaseStart(k) || (k.SendTransaction? && !s.liquid && !UnderLimit(k)))
  }

  /** What the user authorises: the data of the call, apart from method and code. */
  function Authorised(k: Kind): Data
    requires KeepsBaseStart(k) || k.SendTransaction?
  {
    match k
    case CsvTime(value) => map["value" := Num(value)]
    case Nlocktime(value) => map["value" := Num(value)]
    case ChangeSettings(nlocktime) => map["value" := Num(nlocktime.value)]
    case ChangeLimits(_, total) => map["is_fiat" := Opaque, "per_tx" := Num(0), "total" := Num(total)]
    case SendTransaction(_, fee, changeIdx, _, _) =>
      if Bump(k) != 0 then map[(if UnderLimit(k) then "try_under_limits_bump" else "bump_fee_amount") := Num(Bump(k))]
      else if UnderLimit(k) then map["try_under_limits_spend" := SpendOf(k)]
      else map["send_raw_tx_amount" := Num(SpendOf(k).amount), "send_raw_tx_fee" := Num(fee),
               "send_raw_tx_change_idx" := Num(changeIdx)]
    case _ => map[]
  }

  // ----- data -----

  lemma {:induction false} StampIsOnTop(d: Data, via: string, code: string)
    ensures Stamp(d, via, code) - AUTH_KEYS == d - AUTH_KEYS
    ensures Stamp(d, via, code) == Stamp(d - AUTH_KEYS, via, code)
  {
  }

  lemma {:induction false} RenameUnderStamp(d: Data, via: string, code: string, from: string, to: string)
    requires from !in AUTH_KEYS && to !in AUTH_KEYS && from != to
    ensures Rename(Stamp(d, via, code), from, to) == Stamp(Rename(d, from, to), via, code)
  {
  }

  lemma {:induction false} SendKeysUnderStamp(d: Data, via: string, code: string, bump: nat)
    ensures SendKeys(Stamp(d, via, code), bump) == Stamp(SendKeys(d, bump), via, code)
  {
    hide Stamp, Rename;
    var d1 := Rename(d, "fee", "send_raw_tx_fee");
    var d2 := Rename(d1, "change_idx", "send_raw_tx_change_idx");
    RenameUnderStamp(d, via, code, "fee", "send_raw_tx_fee");
    RenameUnderStamp(d1, via, code, "change_idx", "send_raw_tx_change_idx");
    RenameUnderStamp(d2, via, code, "amount", if bump != 0 then "bump_fee_amount" else "send_raw_tx_amount");
  }

  /** The renames are idempotent: a second pass finds none of the keys. */
  lemma {:induction false} SendKeysTwice(d: Data, bump: nat)
    ensures SendKeys(SendKeys(d, bump), bump) == SendKeys(d, bump)
  {
    var r := SendKeys(d, bump);
    assert "fee" !in r && "change_idx" !in r && "amount" !in r;
  }

  lemma {:induction false} SentIsStamped(h: Handler)
    ensures Sent(h) == Stamp(Content(h), h.via, h.code)
  {
    hide Stamp, SendKeys;
    StampIsOnTop(h.data, h.via, h.code);
    if h.impl.Send? {
      SendKeysUnderStamp(h.data, h.via, h.code, h.impl.bump);
      StampIsOnTop(SendKeys(h.data, h.impl.bump), h.via, h.code);
    }
  }

  /** Calls without steps of their own: they change no more than the data, and that only by stamping. */
  predicate SingleStep(i: Impl) {
    i.Plain? || i.Limits? || (i.Send? && !i.liquid)
  }

  /** However a call ends, a retry starts from the same content. */
  lemma {:induction false} CallKeepsContent(h: Handler, reply: Reply)
    requires h.state.MakeCall? && SingleStep(h.impl)
    ensures var h' := OnCall(h, reply);
            && Content(h') == Content(h) && h'.via == h.via && h'.code == h.code && h'.impl == h.impl
            && (h'.state.Done? || h'.state.Error? || h'.state.ResolveCode?)
  {
    hide Stamp, SendKeys;
    StampIsOnTop(h.data, h.via, h.code);
    if h.impl.Send? {
      SendKeysUnderStamp(h.data, h.via, h.code, h.impl.bump);
      StampIsOnTop(SendKeys(h.data, h.impl.bump), h.via, h.code);
      SendKeysTwice(Stamp(h.data, h.via, h.code), h.impl.bump);
    }
  }

  // ----- order -----

  /** Position `i` of a trace: codes and calls take turns, and a call carries the authorised data with the
      method of the request and the code just entered, or neither if one of them is empty. */
  ghost predicate TurnOk(trace: seq<Action>, i: nat, authorised: Data)
    requires i < |trace|
  {
    if i == 0 then trace[0].Requested?
    else if i % 2 == 1 then trace[i].Resolved?
    else
      && trace[i].Called? && trace[0].Requested? && trace[i - 1].Resolved?
      && Carries(trace[i].data, authorised, trace[0].via, trace[i - 1].code)
  }

  /** The authorised data with method and code, or with neither if one of them is empty. */
  ghost predicate Carries(data: Data, authorised: Data, via: string, code: string) {
    && data - AUTH_KEYS == authorised
    && if via == "" || code == "" then data.Keys !! AUTH_KEYS
       else "method" in data && data["method"] == Text(via) && "code" in data && data["code"] == Text(code)
  }

  lemma {:induction false} StampCarries(authorised: Data, via: string, code: string)
    requires authorised.Keys !! AUTH_KEYS
    ensures Carries(Stamp(authorised, via, code), authorised, via, code)
  {
    StampIsOnTop(authorised, via, code);
    assert authorised - AUTH_KEYS == authorised;
  }

  /** One request, then codes and calls in turn. */
  ghost predicate InOrder(trace: seq<Action>, authorised: Data) {
    forall i :: 0 <= i < |trace| ==> TurnOk(trace, i, authorised)
  }

  ghost predicate Progress(r: Run, authorised: Data) {
    match r.h.state
    case RequestCode => r.trace == [] && Content(OnRequest(r.h, "", true)) == authorised
    case ResolveCode => |r.trace| % 2 == 1 && r.trace[0] == Requested(r.h.via) && Content(r.h) == authorised
    case MakeCall =>
      && |r.trace| % 2 == 0 && |r.trace| >= 2 && r.trace[0] == Requested(r.h.via)
      && r.trace[|r.trace| - 1] == Resolved(r.h.code) && Content(r.h) == authorised
    case _ => true
  }

  ghost predicate OrderInv(r: Run, authorised: Data) {
    && SingleStep(r.h.impl) && authorised.Keys !! AUTH_KEYS
    && InOrder(r.trace, authorised) && Progress(r, authorised)
  }

  lemma {:induction false} AppendInOrder(trace: seq<Action>, a: Action, authorised: Data)
    requires InOrder(trace, authorised)
    requires trace == [] ==> a.Requested?
    requires |trace| % 2 == 1 ==> a.Resolved?
    requires trace != [] && |trace| % 2 == 0 ==>
               a.Called? && trace[0].Requested? && trace[|trace| - 1].Resolved?
               && Carries(a.data, authorised, trace[0].via, trace[|trace| - 1].code)
    ensures InOrder(trace + [a], authorised)
  {
    hide Carries;
    var t := trace + [a];
    forall i | 0 <= i < |t|
      ensures TurnOk(t, i, authorised)
    {
      if i < |trace| {
        assert TurnOk(trace, i, authorised);
      }
    }
  }

  lemma {:induction false} RequestKeepsOrder(r: Run, via: string, serverOk: bool, authorised: Data)
    requires OrderInv(r, authorised)
    ensures OrderInv(Extend(r, Request(via, serverOk)), authorised)
  {
    hide Stamp, SendKeys, InOrder;
    if r.h.state.RequestCode? {
      AppendInOrder(r.trace, Requested(via), authorised);
    }
  }

  lemma {:induction false} ResolveKeepsOrder(r: Run, code: string, authorised: Data)
    requires OrderInv(r, authorised)
    ensures OrderInv(Extend(r, Resolve(code)), authorised)
  {
    hide Stamp, SendKeys, InOrder;
    if r.h.state.ResolveCode? {
      AppendInOrder(r.trace, Resolved(code), authorised);
      assert (|r.trace| + 1) % 2 == 0 && |r.trace| + 1 >= 2;
    }
  }

  lemma {:induction false} CallKeepsOrder(r: Run, reply: Reply, authorised: Data)
    requires OrderInv(r, authorised)
    ensures OrderInv(Extend(r, Call(reply)), authorised)
  {
    hide Stamp, SendKeys, OnCall, CallImpl, Content, Sent, InOrder, Carries;
    if r.h.state.MakeCall? {
      CallKeepsContent(r.h, reply);
      SentIsStamped(r.h);
      StampCarries(authorised, r.h.via, r.h.code);
      AppendInOrder(r.trace, Called(Sent(r.h)), authorised);
      assert (|r.trace| + 1) % 2 == 1;
    } else {
      NoCall(r.h, reply);
    }
  }

  lemma {:induction false} RunKeepsOrder(h: Handler, events: seq<Event>, authorised: Data)
    requires OrderInv(Run(h, [], 0), authorised)
    ensures OrderInv(After(h, events), authorised)
  {
    if events != [] {
      var n := |events| - 1;
      RunKeepsOrder(h, events[..n], authorised);
      hide OrderInv;
      var r := After(h, events[..n]);
      match events[n]
      case Request(via, serverOk) => RequestKeepsOrder(r, via, serverOk, authorised);
      case Resolve(code) => ResolveKeepsOrder(r, code, authorised);
      case Call(reply) => CallKeepsOrder(r, reply, authorised);
    }
  }

  /** What a code request for a send above the limit submits becomes the authorised data on sending. */
  lemma {:induction false} RequestedKeysBecomeSent(k: Kind, d: Data)
    requires k.SendTransaction? && !UnderLimit(k)
    requires d == if Bump(k) != 0 then map["amount" := Num(Bump(k))]
                  else map["amount" := Num(SpendOf(k).amount), "fee" := Num(k.fee), "change_idx" := Num(k.changeIdx)]
    ensures SendKeys(d, Bump(k)) - AUTH_KEYS == Authorised(k)
  {
    assert SendKeys(d, Bump(k)) == Authorised(k);
  }

  lemma {:induction false} SendStartsInOrder(k: Kind, s: Session)
    requires NeedsCode(k, s) && k.SendTransaction?
    ensures OrderInv(Run(ConstructSend(k, s), [], 0), Authorised(k))
  {
    AuthorisedHasNoCode(k);
    hide SendKeys, Authorised;
    var h := ConstructSend(k, s);
    if h.state.RequestCode? {
      RequestedKeysBecomeSent(k, OnRequest(h, "", true).data);
    }
  }

  lemma {:induction false} BaseStartsInOrder(k: Kind, s: Session)
    requires NeedsCode(k, s) && KeepsBaseStart(k)
    ensures OrderInv(Run(ConstructForCode(k, s), [], 0), Authorised(k))
  {
    hide IsHwAction, SendKeys, Stamp;
    var d := ConstructForCode(k, s).data;
    assert d.Keys !! AUTH_KEYS;
    assert d - AUTH_KEYS == d;
  }

  /** Ordering, for every run of a call that needs a code (including sends above the limit): each call to
      the server comes after a request and the code entered for it, and carries exactly the authorised data
      with that method and code. */
  lemma {:induction false} CodeComesBeforeCall(k: Kind, s: Session, raised: Option<string>, events: seq<Event>)
    requires NeedsCode(k, s)
    ensures InOrder(After(Construct(k, s, raised), events).trace, Authorised(k))
  {
    hide ConstructSend, ConstructForCode, ConstructForDevice, Authorised, Content;
    if k.SendTransaction? {
      SendStartsInOrder(k, s);
    } else {
      BaseStartsInOrder(k, s);
    }
    RunKeepsOrder(Construct(k, s, raised), events, Authorised(k));
  }

  // ----- what a request for a code says -----

  /** The data the server is shown with a request for a code: what the user is about to authorise. */
  function Shown(k: Kind, s: Session): Data {
    match k
    case ChangeTwoFactor(m, goal) =>
      if goal.SetEmail? && m == "email" then map["address" := Text(goal.address)] else map["method" := Text(m)]
    case SendTransaction(satoshi, fee, changeIdx, _, _) =>
      if s.liquid then map[]
      else if Bump(k) != 0 then map["amount" := Num(Bump(k))]
      else map["amount" := Num((satoshi + fee) % TWO_TO_64), "fee" := Num(fee), "change_idx" := Num(changeIdx)]
    case _ => if KeepsBaseStart(k) then Authorised(k) else map[]
  }

  /** Whatever the kind of call, a first request for a code shows exactly that. */
  lemma {:induction false} RequestShowsTheCall(k: Kind, s: Session, via: string)
    requires Construct(k, s, None).state.RequestCode?
    ensures OnRequest(Construct(k, s, None), via, true).data == Shown(k, s)
  {
    hide ConstructSend, ConstructForDevice, ConstructForCode, Shown, OnRequest;
    if AsksDevice(k) {
      DeviceNeverRequests(k, s);
    } else if k.SendTransaction? {
      SendShows(k, s, via);
    } else {
      CodeShows(k, s);
      RequestKeepsData(ConstructForCode(k, s), via);
    }
  }

  lemma {:induction false} RequestKeepsData(h: Handler, via: string)
    requires !h.impl.Send?
    ensures OnRequest(h, via, true).data == h.data
  {
  }

  lemma {:induction false} CodeShows(k: Kind, s: Session)
    requires !AsksDevice(k) && !k.SendTransaction? && ConstructForCode(k, s).state.RequestCode?
    ensures ConstructForCode(k, s).data == Shown(k, s) && !ConstructForCode(k, s).impl.Send?
  {
    hide IsHwAction;
  }

  lemma {:induction false} DeviceNeverRequests(k: Kind, s: Session)
    requires AsksDevice(k)
    ensures !ConstructForDevice(k, s).state.RequestCode?
  {
    hide IsHwAction;
  }

  lemma {:induction false} SendShows(k: Kind, s: Session, via: string)
    requires k.SendTransaction? && ConstructSend(k, s).state.RequestCode?
    ensures OnRequest(ConstructSend(k, s), via, true).data == Shown(k, s)
  {
    hide IsHwAction;
  }

  // ----- calls with a second code -----

  /** Enabling a method or setting an email address: the code of the method itself is asked for next, and what
      authorised the first call is kept for enabling gauth. */
  lemma {:induction false} SecondCodeIsForMethod(h: Handler, reply: Reply)
    requires h.state.MakeCall? && h.impl.TwoFactorConfig? && (h.action == "enable_2fa" || h.action == "set_email")
    requires reply.Success?
    ensures var h' := OnCall(h, reply);
            && h'.state.ResolveCode? && h'.via == h.impl.toUpdate && h'.methods == [h.impl.toUpdate]
            && h'.impl == TwoFactorConfig(h.impl.toUpdate, Sent(h)) && h'.data == map[]
  {
    hide Stamp;
  }

  /** A wrong code on enabling gauth with other methods enabled: the caller is where enabling it starts. */
  lemma {:induction false} GauthStartsOver(h: Handler, reply: Reply, s: Session)
    requires h.state.MakeCall? && SendsBack(h, reply) && Methods(s) == reply.enabled
    ensures var h', start := OnCall(h, reply), Construct(ChangeTwoFactor("gauth", Enable), s, None);
            && h'.state == start.state == RequestCode && h'.action == start.action && h'.data == start.data
            && h'.methods == start.methods && h'.attempts == start.attempts
  {
    hide Stamp, IsHwAction;
    ActionNames("gauth");
  }

  /** A reset is confirmed by a code sent by email, which goes along with the confirmation. */
  lemma {:induction false} ResetIsConfirmedByEmail(s: Session, reply: Reply, code: string)
    requires reply.Success? && code != ""
    ensures var first := Construct(TwoFactorReset, s, None);
            var second := OnResolve(OnCall(first, reply), code);
            && Sent(first) == map[] && OnCall(first, reply).methods == ["email"]
            && Sent(second) == map["method" := Text("email"), "code" := Text(code)]
  {
    hide IsHwAction;
  }

  // ----- sends below the limit -----

  /** No code was ever requested, and every call carried exactly the authorised data. */
  ghost predicate WithoutCode(trace: seq<Action>, authorised: Data) {
    forall i :: 0 <= i < |trace| ==> !trace[i].Requested? && (trace[i].Called? ==> trace[i].data == authorised)
  }

  ghost predicate LimitInv(r: Run, authorised: Data) {
    && SingleStep(r.h.impl) && r.h.impl.Send?
    && WithoutCode(r.trace, authorised)
    && !r.h.state.RequestCode?
    && (!r.h.state.Error? ==> r.h.via == "" && Content(r.h) == authorised)
  }

  lemma {:induction false} StepKeepsLimit(r: Run, e: Event, authorised: Data)
    requires LimitInv(r, authorised) && authorised.Keys !! AUTH_KEYS
    ensures LimitInv(Extend(r, e), authorised)
  {
    hide Content, Sent, CallImpl, SendKeys, OnCall;
    match e
    case Request(_, _) =>
    case Resolve(code) => SameContent(r.h, code);
    case Call(reply) =>
      if r.h.state.MakeCall? {
        CallKeepsContent(r.h, reply);
        SentIsStamped(r.h);
        assert authorised - AUTH_KEYS == authorised;
      } else {
        NoCall(r.h, reply);
      }
  }

  lemma {:induction false} SameContent(h: Handler, code: string)
    ensures Content(OnResolve(h, code)) == Content(h)
  {
  }

  lemma {:induction false} RunKeepsLimit(h: Handler, events: seq<Event>, authorised: Data)
    requires LimitInv(Run(h, [], 0), authorised) && authorised.Keys !! AUTH_KEYS
    ensures LimitInv(After(h, events), authorised)
  {
    if events != [] {
      RunKeepsLimit(h, events[..|events| - 1], authorised);
      StepKeepsLimit(After(h, events[..|events| - 1]), events[|events| - 1], authorised);
    }
  }

  lemma {:induction false} UnderLimitStarts(k: Kind, s: Session)
    requires k.SendTransaction? && Methods(s) != [] && !s.liquid && UnderLimit(k)
    ensures LimitInv(Run(ConstructSend(k, s), [], 0), Authorised(k))
    ensures Authorised(k).Keys !! AUTH_KEYS
  {
    var h := ConstructSend(k, s);
    if h.state.MakeCall? {
      assert h.data == Authorised(k);
      assert SendKeys(h.data, h.impl.bump) == h.data;
      assert h.data - AUTH_KEYS == h.data;
    }
  }

  /** A send below the limit never gets to ask for a code, whatever the server answers: contrary to the remark
      in its `request_code`, a limit that has changed meanwhile cannot be recovered from. */
  lemma {:induction false} UnderLimitNeverAsks(k: Kind, s: Session, raised: Option<string>, events: seq<Event>)
    requires k.SendTransaction? && Methods(s) != [] && !s.liquid && UnderLimit(k)
    ensures var r := After(Construct(k, s, raised), events);
            !r.h.state.RequestCode? && WithoutCode(r.trace, Authorised(k))
  {
    hide ConstructSend, Authorised;
    UnderLimitStarts(k, s);
    RunKeepsLimit(Construct(k, s, raised), events, Authorised(k));
  }

  /** Retry stability: in every run of a Bitcoin send with two-factor enabled, all calls to the server carry
      the same authorised amount, fee and change index (or bump amount). */
  lemma {:induction false} RetriesSendTheSame(k: Kind, s: Session, raised: Option<string>, events: seq<Event>, i: nat)
    requires k.SendTransaction? && Methods(s) != [] && !s.liquid
    requires var trace := After(Construct(k, s, raised), events).trace; i < |trace| && trace[i].Called?
    ensures After(Construct(k, s, raised), events).trace[i].data - AUTH_KEYS == Authorised(k)
  {
    hide Construct, Stamp;
    AuthorisedHasNoCode(k);
    var trace := After(Construct(k, s, raised), events).trace;
    if UnderLimit(k) {
      UnderLimitNeverAsks(k, s, raised, events);
    } else {
      CodeComesBeforeCall(k, s, raised, events);
      assert TurnOk(trace, i, Authorised(k));
    }
  }

  lemma {:induction false} AuthorisedHasNoCode(k: Kind)
    requires k.SendTransaction?
    ensures Authorised(k).Keys !! AUTH_KEYS && Authorised(k) - AUTH_KEYS == Authorised(k)
  {
  }
}
