/** Collecting confidential addresses, one hardware answer at a time: during login for every subaccount the
    server wants addresses for, and when a subaccount is created. */
module AddressCollection {
  import opened Options
  import opened AuthHandlers
  import opened AuthRuns

  /** Addresses wanted for a subaccount. */
  function Required(subaccounts: seq<Subaccount>, pointer: nat): nat {
    if subaccounts == [] then 0
    else
      var last := subaccounts[|subaccounts| - 1];
      Required(subaccounts[..|subaccounts| - 1], pointer) + (if last.pointer == pointer then last.requiredCa else 0)
  }

  function Count(addrs: map<nat, seq<string>>, pointer: nat): nat {
    if pointer in addrs then |addrs[pointer]| else 0
  }

  lemma {:induction false} RepeatCount(n: nat, x: nat, y: nat)
    ensures multiset(seq(n, _ => x))[y] == if x == y then n else 0
  {
    var s := seq(n, _ => x);
    if n > 0 {
      RepeatCount(n - 1, x, y);
      assert s == seq(n - 1, _ => x) + [x];
    } else {
      assert s == [];
    }
  }

  lemma {:induction false} RequestsCount(subaccounts: seq<Subaccount>, pointer: nat)
    ensures multiset(Requests(subaccounts))[pointer] == Required(subaccounts, pointer)
  {
    if subaccounts != [] {
      var last := subaccounts[|subaccounts| - 1];
      RequestsCount(subaccounts[..|subaccounts| - 1], pointer);
      RepeatCount(last.requiredCa, last.pointer, pointer);
    }
  }

  lemma {:induction false} AddAllCount(addrs: map<nat, seq<string>>, reqs: seq<nat>, addresses: nat -> string,
                                       pointer: nat)
    ensures Count(AddAll(addrs, reqs, addresses), pointer) == Count(addrs, pointer) + multiset(reqs)[pointer]
    ensures reqs != [] ==> AddAll(addrs, reqs, addresses) != map[]
  {
    if reqs != [] {
      var n := |reqs| - 1;
      AddAllCount(addrs, reqs[..n], addresses, pointer);
      assert reqs == reqs[..n] + [reqs[n]];
      var before := AddAll(addrs, reqs[..n], addresses);
      assert reqs[n] in AddAddress(before, reqs[n], addresses(n));
    }
  }

  // ----- login -----

  /** Collected plus outstanding is what the server wants, for every subaccount. */
  ghost predicate Balanced(i: Impl)
    requires i.Login?
  {
    forall p: nat :: Count(i.addrs, p) + multiset(i.reqs)[p] == Required(i.subaccounts, p)
  }

  ghost predicate Uploaded(i: Impl)
    requires i.Login?
  {
    forall p: nat :: Count(i.uploaded, p) == Required(i.subaccounts, p)
  }

  ghost predicate LoginInv(h: Handler) {
    && h.impl.Login?
    && match h.state
       case Error => true
       case RequestCode => false
       case Done => Uploaded(h.impl)
       case _ =>
         && h.impl.uploaded == map[]
         && (h.action != "get_receive_address" ==> h.impl.reqs == [] && h.impl.addrs == map[])
         && (h.action == "get_receive_address" ==> h.impl.reqs != [] && Balanced(h.impl))
         && (!h.hw ==> h.impl.addrs == map[])
  }

  /** The last part of a login step, reached either with everything collected or with nothing asked for. */
  lemma {:induction false} FinishKeepsLogin(h: Handler, reply: Reply)
    requires h.impl.Login? && reply.Success? && h.impl.uploaded == map[]
    requires (h.impl.addrs != map[] && forall p: nat :: Count(h.impl.addrs, p) == Required(h.impl.subaccounts, p))
             || (h.impl.addrs == map[] && h.impl.reqs == [])
    ensures var r := FinishLogin(h, reply);
            r.Returns? && LoginInv(r.h.(state := r.state)) && r.h.hw == h.hw
  {
    if h.impl.addrs == map[] {
      var reqs: seq<nat> := Requests(reply.subaccounts);
      assert [] + reqs == reqs;
      forall p: nat
        ensures multiset(Requests(reply.subaccounts))[p] == Required(reply.subaccounts, p)
      {
        RequestsCount(reply.subaccounts, p);
      }
    }
  }

  lemma {:induction false} CollectKeepsLogin(h: Handler, reply: Reply)
    requires LoginInv(h) && h.state.MakeCall? && reply.Success?
    requires h.hw && h.action == "get_receive_address"
    ensures var r := LoginImpl(h, reply);
            r.Returns? && LoginInv(r.h.(state := r.state)) && r.h.hw == h.hw
  {
    var i := h.impl;
    var last := |i.reqs| - 1;
    var addrs := AddAddress(i.addrs, i.reqs[last], reply.addresses(0));
    var h' := h.(impl := i.(addrs := addrs, reqs := i.reqs[..last]));
    CollectBalances(i, reply.addresses(0));
    assert i.reqs[last] in addrs;
    if last == 0 {
      assert multiset(i.reqs[..0]) == multiset{};
      FinishKeepsLogin(h', reply);
    }
    hide FinishLogin, Required, AddAddress, Balanced;
  }

  /** One address collected for the last request keeps the balance. */
  lemma {:induction false} CollectBalances(i: Impl, address: string)
    requires i.Login? && i.reqs != [] && Balanced(i)
    ensures var last := |i.reqs| - 1;
            Balanced(i.(addrs := AddAddress(i.addrs, i.reqs[last], address), reqs := i.reqs[..last]))
  {
    hide Required;
    var last := |i.reqs| - 1;
    assert i.reqs == i.reqs[..last] + [i.reqs[last]];
    assert multiset(i.reqs) == multiset(i.reqs[..last]) + multiset{i.reqs[last]};
  }

  lemma {:induction false} CallKeepsLogin(h: Handler, reply: Reply)
    requires LoginInv(h) && h.state.MakeCall? && reply.Success?
    ensures var r := LoginImpl(h, reply);
            r.Returns? && LoginInv(r.h.(state := r.state)) && r.h.hw == h.hw
  {
    hide FinishLogin, Balanced, Uploaded;
    if h.hw && h.action == "get_receive_address" {
      CollectKeepsLogin(h, reply);
    } else if !h.hw && h.action == "get_receive_address" {
      var addrs := AddAll(h.impl.addrs, h.impl.reqs, reply.addresses);
      AllCollected(h, reply);
      FinishKeepsLogin(h.(impl := h.impl.(addrs := addrs)), reply);
    } else if h.hw && h.action == "get_xpubs" && !h.impl.challenged {
    } else if h.hw && h.action == "sign_message" {
    } else {
      FinishKeepsLogin(h, reply);
    }
  }

  lemma {:induction false} AllCollected(h: Handler, reply: Reply)
    requires h.impl.Login? && h.impl.addrs == map[] && h.impl.reqs != [] && Balanced(h.impl) && reply.Success?
    ensures var addrs := AddAll(h.impl.addrs, h.impl.reqs, reply.addresses);
            addrs != map[] && forall p: nat :: Count(addrs, p) == Required(h.impl.subaccounts, p)
  {
    forall p: nat
      ensures Count(AddAll(h.impl.addrs, h.impl.reqs, reply.addresses), p) == Required(h.impl.subaccounts, p)
    {
      AddAllCount(h.impl.addrs, h.impl.reqs, reply.addresses, p);
    }
    AddAllCount(h.impl.addrs, h.impl.reqs, reply.addresses, 0);
  }

  /** The server does not answer any step of the run with the wrong-code error. */
  predicate NoWrongCode(events: seq<Event>) {
    forall i :: 0 <= i < |events| && events[i].Call? ==> !events[i].reply.WrongCode?
  }

  lemma {:induction false} StepKeepsLogin(h: Handler, e: Event)
    requires LoginInv(h) && (e.Call? ==> !e.reply.WrongCode?)
    ensures LoginInv(Step(h, e))
  {
    hide LoginImpl, Balanced, Uploaded;
    if e.Call? && h.state.MakeCall? {
      var h' := h.(data := Stamp(h.data, h.via, h.code));
      if e.reply.Success? {
        CallKeepsLogin(h', e.reply);
      } else {
        LoginThrows(h', e.reply);
      }
    }
  }

  lemma {:induction false} LoginThrows(h: Handler, reply: Reply)
    requires h.impl.Login? && !reply.Success?
    ensures LoginImpl(h, reply) == Throws(h, reply.WrongCode?, if reply.Rejected? then reply.message else INVALID_CODE)
  {
  }

  lemma {:induction false} RunKeepsLogin(h: Handler, events: seq<Event>)
    requires LoginInv(h) && NoWrongCode(events)
    ensures LoginInv(After(h, events).h)
  {
    if events != [] {
      RunKeepsLogin(h, events[..|events| - 1]);
      StepKeepsLogin(After(h, events[..|events| - 1]).h, events[|events| - 1]);
    }
  }

  // ----- which addresses -----

  /** The addresses held for a subaccount. */
  function Held(addrs: map<nat, seq<string>>, p: nat): seq<string> {
    if p in addrs then addrs[p] else []
  }

  /** The answers to those of the requests that are for subaccount `p`, in order. */
  function AnswersTo(reqs: seq<nat>, addresses: nat -> string, p: nat): seq<string> {
    if reqs == [] then []
    else
      var n := |reqs| - 1;
      AnswersTo(reqs[..n], addresses, p) + (if reqs[n] == p then [addresses(n)] else [])
  }

  /** What a login is told for subaccount `p` by one event: a device answers the last outstanding request, without
      a device all requests are answered at once. */
  function Answer(h: Handler, e: Event, p: nat): seq<string> {
    if !h.impl.Login? || !e.Call? || !e.reply.Success? then []
    else if !h.state.MakeCall? || h.action != "get_receive_address" then []
    else if !h.hw then AnswersTo(h.impl.reqs, e.reply.addresses, p)
    else if h.impl.reqs != [] && h.impl.reqs[|h.impl.reqs| - 1] == p then [e.reply.addresses(0)]
    else []
  }

  /** What a login was told for subaccount `p` over a run. */
  ghost function Answered(h: Handler, events: seq<Event>, p: nat): seq<string> {
    if events == [] then []
    else
      var n := |events| - 1;
      Answered(h, events[..n], p) + Answer(After(h, events[..n]).h, events[n], p)
  }

  /** Exactly the answers so far are held, or have been uploaded. */
  ghost predicate Holds(h: Handler, p: nat, answered: seq<string>) {
    && h.impl.Login?
    && match h.state
       case Done => Held(h.impl.uploaded, p) == answered
       case Error => true
       case _ => Held(h.impl.addrs, p) == answered
  }

  lemma {:induction false} AddAllHolds(addrs: map<nat, seq<string>>, reqs: seq<nat>, addresses: nat -> string, p: nat)
    ensures Held(AddAll(addrs, reqs, addresses), p) == Held(addrs, p) + AnswersTo(reqs, addresses, p)
  {
    if reqs != [] {
      AddAllHolds(addrs, reqs[..|reqs| - 1], addresses, p);
    }
  }

  lemma {:induction false} FinishHolds(h: Handler, reply: Reply, p: nat, answered: seq<string>)
    requires h.impl.Login? && reply.Success? && h.impl.uploaded == map[] && Held(h.impl.addrs, p) == answered
    ensures var r := FinishLogin(h, reply); r.Returns? && Holds(r.h.(state := r.state), p, answered)
  {
    hide Requests;
  }

  lemma {:induction false} CallHolds(h: Handler, reply: Reply, p: nat, answered: seq<string>)
    requires LoginInv(h) && h.state.MakeCall? && reply.Success? && Held(h.impl.addrs, p) == answered
    ensures var r := LoginImpl(h, reply);
            r.Returns? && Holds(r.h.(state := r.state), p, answered + Answer(h, Call(reply), p))
  {
    var i := h.impl;
    hide FinishLogin, Balanced, Uploaded, AddAll;
    if h.action != "get_receive_address" {
      assert answered + [] == answered;
      FinishHolds(h, reply, p, answered);
    } else if h.hw {
      var last := |i.reqs| - 1;
      var addrs := AddAddress(i.addrs, i.reqs[last], reply.addresses(0));
      FinishHolds(h.(impl := i.(addrs := addrs, reqs := i.reqs[..last])), reply, p, Held(addrs, p));
    } else {
      AddAllHolds(i.addrs, i.reqs, reply.addresses, p);
      var addrs := AddAll(i.addrs, i.reqs, reply.addresses);
      FinishHolds(h.(impl := i.(addrs := addrs)), reply, p, Held(addrs, p));
    }
  }

  lemma {:induction false} StepHolds(h: Handler, e: Event, p: nat, answered: seq<string>)
    requires LoginInv(h) && Holds(h, p, answered)
    ensures Holds(Step(h, e), p, answered + Answer(h, e, p))
  {
    hide LoginImpl, Balanced, Uploaded;
    if e.Call? && h.state.MakeCall? {
      var h' := h.(data := Stamp(h.data, h.via, h.code));
      if e.reply.Success? {
        CallHolds(h', e.reply, p, answered);
      } else {
        LoginThrows(h', e.reply);
        assert answered + [] == answered;
      }
    } else {
      assert answered + [] == answered;
    }
  }

  lemma {:induction false} RunHolds(h: Handler, events: seq<Event>, p: nat)
    requires LoginInv(h) && NoWrongCode(events) && Holds(h, p, [])
    ensures Holds(After(h, events).h, p, Answered(h, events, p))
  {
    hide LoginInv, Holds, Answer, Step;
    if events != [] {
      var n := |events| - 1;
      RunKeepsLogin(h, events[..n]);
      RunHolds(h, events[..n], p);
      StepHolds(After(h, events[..n]).h, events[n], p, Answered(h, events[..n], p));
    }
  }

  /** In every login run, with or without a device, while addresses are being collected the collected and
      outstanding ones add up to what the server wants; and done means exactly that many were uploaded, being
      for each subaccount the addresses answered for it over the run, in order. */
  lemma {:induction false} LoginUploadsWhatIsRequired(s: Session, raised: Option<string>, events: seq<Event>)
    requires NoWrongCode(events)
    ensures var start := Construct(LoginCall, s, raised);
            var h := After(start, events).h;
            && h.impl.Login?
            && (h.state.Done? ==> Uploaded(h.impl))
            && (h.state.Done? ==> forall p: nat :: Held(h.impl.uploaded, p) == Answered(start, events, p))
            && (h.action == "get_receive_address" && (h.state.ResolveCode? || h.state.MakeCall?) ==> Balanced(h.impl))
  {
    var start := Construct(LoginCall, s, raised);
    LoginStarts(s, raised);
    hide Construct, Balanced, Uploaded, Answered;
    RunKeepsLogin(start, events);
    forall p: nat
      ensures Holds(After(start, events).h, p, Answered(start, events, p))
    {
      RunHolds(start, events, p);
    }
  }

  lemma {:induction false} LoginStarts(s: Session, raised: Option<string>)
    ensures var h := Construct(LoginCall, s, raised); LoginInv(h) && forall p :: Holds(h, p, [])
  {
    assert IsHwAction("get_xpubs") && "get_xpubs" != "get_receive_address";
  }

  // ----- subaccount creation -----

  /** The addresses one event tells: a device answers one by one, without a device all remaining ones are made. */
  function CreationAnswer(h: Handler, e: Event): seq<string> {
    if !h.impl.NewSubaccount? || !e.Call? || !h.state.MakeCall? || !e.reply.Success? then []
    else if !h.hw then seq(h.impl.remaining, (k: nat) => e.reply.addresses(k))
    else if h.action == "get_receive_address" then [e.reply.addresses(0)]
    else []
  }

  ghost function CreationAnswered(h: Handler, events: seq<Event>): seq<string> {
    if events == [] then []
    else
      var n := |events| - 1;
      CreationAnswered(h, events[..n]) + CreationAnswer(After(h, events[..n]).h, events[n])
  }

  ghost predicate CreationInv(h: Handler, total: nat, answered: seq<string>) {
    && h.impl.NewSubaccount? && h.impl.total == total
    && (!h.state.Error? ==> h.impl.collected == answered && |answered| + h.impl.remaining == total)
    && (h.state.Done? ==> h.impl.remaining == 0 && h.impl.sent == answered)
    && (h.action == "get_receive_address" && (h.state.ResolveCode? || h.state.MakeCall?) ==> h.impl.remaining > 0)
    && !h.state.RequestCode?
  }

  lemma {:induction false} StepKeepsCreation(h: Handler, e: Event, total: nat, answered: seq<string>)
    requires CreationInv(h, total, answered) && (e.Call? ==> !e.reply.WrongCode?)
    ensures CreationInv(Step(h, e), total, answered + CreationAnswer(h, e))
  {
    hide Stamp;
    assert answered + [] == answered;
  }

  lemma {:induction false} RunKeepsCreation(h: Handler, events: seq<Event>, total: nat)
    requires CreationInv(h, total, []) && NoWrongCode(events)
    ensures CreationInv(After(h, events).h, total, CreationAnswered(h, events))
  {
    hide CreationInv;
    if events != [] {
      var n := |events| - 1;
      RunKeepsCreation(h, events[..n], total);
      StepKeepsCreation(After(h, events[..n]).h, events[n], total, CreationAnswered(h, events[..n]));
    }
  }

  /** Creating a subaccount: collected plus remaining never changes, and done means that all five (or none) were
      sent, being the addresses answered over the run, in order. */
  lemma {:induction false} CreationSendsAll(noRecovery: bool, s: Session, raised: Option<string>, events: seq<Event>)
    requires NoWrongCode(events)
    ensures var start := Construct(CreateSubaccount(noRecovery), s, raised);
            var h := After(start, events).h;
            var total := if s.liquid && noRecovery then INITIAL_UPLOAD_CA else 0;
            && h.impl.NewSubaccount?
            && (!h.state.Error? ==> |h.impl.collected| + h.impl.remaining == total)
            && (h.state.Done? ==> |h.impl.sent| == total && h.impl.sent == CreationAnswered(start, events))
  {
    var total := if s.liquid && noRecovery then INITIAL_UPLOAD_CA else 0;
    RunKeepsCreation(Construct(CreateSubaccount(noRecovery), s, raised), events, total);
  }
}
