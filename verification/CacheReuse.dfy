/** The other side of purging: what a thread has cached is served to later lookups of the same subaccount until
    that subaccount is purged, whatever happens to others. */
module CacheReuse {
  import opened Options
  import opened CachePurge

  /** A page of `sa` cached by `thread`: the lookup, the request for the page and its reply, as steps. */
  datatype Entry = Entry(thread: nat, sa: nat, lookup: nat, asked: nat, cached: nat)

  ghost predicate IsEntry(done: seq<Step>, e: Entry) {
    && e.lookup < e.asked < e.cached < |done|
    && done[e.lookup] == Lookup(e.thread, e.sa) && done[e.asked] == Ask(e.thread) && done[e.cached] == Cached(e.thread)
    && (forall j :: e.lookup < j < e.cached ==> !(done[j].Lookup? && done[j].thread == e.thread))
    && forall j :: e.asked < j < e.cached ==> done[j] != Ask(e.thread)
  }

  /** No purge of `sa` after step `from` and before step `upTo`. */
  ghost predicate Unpurged(done: seq<Step>, sa: nat, from: nat, upTo: nat) {
    forall i :: from < i < upTo ==> !PurgesAt(done, i, sa)
  }

  // ----- the invariant -----

  ghost predicate LastAsk(done: seq<Step>, i: nat, t: nat) {
    i < |done| && done[i] == Ask(t) && forall j :: i < j < |done| ==> done[j] != Ask(t)
  }

  /** A thread inside `get` knows the request it waits for, and uses the reachable cache unless it was purged. */
  ghost predicate ThreadCurrent(w: World, done: seq<Step>, t: nat, th: Thread) {
    && (th.Holding? && th.asked.Some? ==> th.at < th.asked.value && LastAsk(done, th.asked.value, t))
    && (!th.Returned? && Unpurged(done, th.subaccount, th.at, |done|) ==>
          th.subaccount in w.caches && w.caches[th.subaccount] == th.cache)
  }

  function PagesOf(w: World, c: nat): seq<nat> {
    if c < |w.objects| then w.objects[c].pages else []
  }

  /** What a thread has at hand, or has returned. */
  function Seen(w: World, th: Thread): seq<nat> {
    if th.Returned? then th.pages else PagesOf(w, th.cache)
  }

  ghost predicate Reachable(w: World, done: seq<Step>, e: Entry) {
    IsEntry(done, e) && Unpurged(done, e.sa, e.lookup, |done|) ==>
      e.sa in w.caches && e.asked in PagesOf(w, w.caches[e.sa])
  }

  ghost predicate Serves(w: World, done: seq<Step>, th: Thread, e: Entry) {
    IsEntry(done, e) && e.sa == th.subaccount && e.cached < th.at && Unpurged(done, e.sa, e.lookup, th.at) ==>
      e.asked in Seen(w, th)
  }

  ghost predicate Current(w: World, done: seq<Step>) {
    && Inv(w, done)
    && (forall t :: t in w.threads ==> ThreadCurrent(w, done, t, w.threads[t]))
    && (forall e :: Reachable(w, done, e))
    && forall t, e :: t in w.threads ==> Serves(w, done, w.threads[t], e)
  }

  // ----- histories -----

  lemma {:induction false} EntryGrows(done: seq<Step>, s: Step, e: Entry)
    requires e.cached < |done|
    ensures IsEntry(done + [s], e) <==> IsEntry(done, e)
  {
    var more := done + [s];
    assert forall j :: 0 <= j < |done| ==> more[j] == done[j];
  }

  lemma {:induction false} UnpurgedGrows(done: seq<Step>, s: Step, sa: nat, from: nat, upTo: nat)
    requires upTo <= |done|
    ensures Unpurged(done + [s], sa, from, upTo) <==> Unpurged(done, sa, from, upTo)
  {
    HistoryGrows(done, s);
    assert forall i: nat :: i < |done| ==> (PurgesAt(done + [s], i, sa) <==> PurgesAt(done, i, sa));
  }

  /** A purge-free history up to now was purge-free before, and the step now is no purge. */
  lemma {:induction false} UnpurgedNow(done: seq<Step>, s: Step, sa: nat, from: nat)
    requires from < |done| && Unpurged(done + [s], sa, from, |done| + 1)
    ensures Unpurged(done, sa, from, |done|) && !s.DoPurgeAll? && s != DoPurge(sa)
  {
    HistoryGrows(done, s);
    assert !PurgesAt(done + [s], |done|, sa);
    assert Unpurged(done + [s], sa, from, |done|);
    UnpurgedGrows(done, s, sa, from, |done|);
  }

  lemma {:induction false} AskGrows(done: seq<Step>, s: Step, i: nat, t: nat)
    requires LastAsk(done, i, t) && s != Ask(t)
    ensures LastAsk(done + [s], i, t)
  {
  }

  // ----- steps -----

  /** Pages are never taken out of a cache, and only purges make a cache unreachable. */
  lemma {:induction false} StepKeepsPages(w: World, s: Step)
    requires CanStep(w, s)
    ensures forall c, x :: x in PagesOf(w, c) ==> x in PagesOf(Next(w, s), c)
    ensures forall sa :: sa in w.caches && !s.DoPurgeAll? && s != DoPurge(sa) ==>
              sa in Next(w, s).caches && Next(w, s).caches[sa] == w.caches[sa]
  {
  }

  /** A thread keeps its lookup and its cache until it looks up again. */
  lemma {:induction false} StepKeepsThread(w: World, s: Step, t: nat)
    requires CanStep(w, s) && t in Next(w, s).threads && !(s.Lookup? && s.thread == t)
    ensures t in w.threads
    ensures var th, th' := w.threads[t], Next(w, s).threads[t];
            && th'.at == th.at && th'.subaccount == th.subaccount
            && (!th'.Returned? ==> !th.Returned? && th'.cache == th.cache)
            && (forall x :: x in Seen(w, th) ==> x in Seen(Next(w, s), th'))
            && (th'.Holding? && th'.asked.Some? ==>
                  (th.Holding? && th'.asked == th.asked && s != Ask(t)) || (s == Ask(t) && th'.asked.value == w.clock))
  {
    StepKeepsPages(w, s);
  }

  lemma {:induction false} ThreadsStayCurrent(w: World, done: seq<Step>, s: Step, t: nat)
    requires Current(w, done) && CanStep(w, s) && t in Next(w, s).threads
    ensures ThreadCurrent(Next(w, s), done + [s], t, Next(w, s).threads[t])
  {
    var w' := Next(w, s);
    if s.Lookup? && s.thread == t {
      assert !w'.threads[t].Returned? && w'.caches[s.subaccount] == w'.threads[t].cache;
    } else {
      StepKeepsThread(w, s, t);
      StepKeepsPages(w, s);
      var th, th' := w.threads[t], w'.threads[t];
      assert ThreadOk(w, done, t, th) && ThreadCurrent(w, done, t, th);
      LookupIsPast(done, th.at, t, th.subaccount);
      if th'.Holding? && th'.asked.Some? && s != Ask(t) {
        AskGrows(done, s, th.asked.value, t);
      }
      if Unpurged(done + [s], th.subaccount, th.at, |done| + 1) {
        UnpurgedNow(done, s, th.subaccount, th.at);
      }
    }
  }

  /** The page that has just been cached. */
  lemma {:induction false} NewEntry(w: World, done: seq<Step>, s: Step, e: Entry)
    requires Current(w, done) && CanStep(w, s)
    requires IsEntry(done + [s], e) && e.cached == |done|
    ensures s == Cached(e.thread) && w.threads[e.thread].subaccount == e.sa
    ensures w.threads[e.thread].at == e.lookup && w.threads[e.thread].asked == Some(e.asked)
  {
    var t, more := e.thread, done + [s];
    var th := w.threads[t];
    assert more[e.lookup] == done[e.lookup] && more[e.asked] == done[e.asked];
    assert ThreadOk(w, done, t, th) && ThreadCurrent(w, done, t, th);
    assert LastLookup(done, th.at, t, th.subaccount) && LastAsk(done, th.asked.value, t);
    assert more[th.at] == done[th.at] && more[th.asked.value] == done[th.asked.value];
  }

  lemma {:induction false} EntriesStayReachable(w: World, done: seq<Step>, s: Step, e: Entry)
    requires Current(w, done) && CanStep(w, s)
    ensures Reachable(Next(w, s), done + [s], e)
  {
    if IsEntry(done + [s], e) && Unpurged(done + [s], e.sa, e.lookup, |done| + 1) {
      StepKeepsPages(w, s);
      UnpurgedNow(done, s, e.sa, e.lookup);
      if e.cached < |done| {
        EntryGrows(done, s, e);
        assert Reachable(w, done, e);
      } else {
        NewEntry(w, done, s, e);
        assert ThreadCurrent(w, done, e.thread, w.threads[e.thread]);
        assert w.caches[e.sa] == w.threads[e.thread].cache;
      }
    }
  }

  lemma {:induction false} ThreadsStayServed(w: World, done: seq<Step>, s: Step, t: nat, e: Entry)
    requires Current(w, done) && CanStep(w, s) && t in Next(w, s).threads
    ensures Serves(Next(w, s), done + [s], Next(w, s).threads[t], e)
  {
    var w' := Next(w, s);
    var th' := w'.threads[t];
    if IsEntry(done + [s], e) && e.sa == th'.subaccount && e.cached < th'.at
       && Unpurged(done + [s], e.sa, e.lookup, th'.at) {
      if s.Lookup? && s.thread == t {
        EntryGrows(done, s, e);
        UnpurgedGrows(done, s, e.sa, e.lookup, |done|);
        assert Reachable(w, done, e);
      } else {
        StepKeepsThread(w, s, t);
        assert ThreadOk(w, done, t, w.threads[t]);
        LookupIsPast(done, th'.at, t, th'.subaccount);
        EntryGrows(done, s, e);
        UnpurgedGrows(done, s, e.sa, e.lookup, th'.at);
        assert Serves(w, done, w.threads[t], e);
      }
    }
  }

  lemma {:induction false} StepKeepsCurrent(w: World, done: seq<Step>, s: Step)
    requires Current(w, done) && CanStep(w, s)
    ensures Current(Next(w, s), done + [s])
  {
    StepKeepsInv(w, done, s);
    hide Inv, Next, ThreadCurrent, Reachable, Serves;
    forall t | t in Next(w, s).threads
      ensures ThreadCurrent(Next(w, s), done + [s], t, Next(w, s).threads[t])
    {
      ThreadsStayCurrent(w, done, s, t);
    }
    forall e
      ensures Reachable(Next(w, s), done + [s], e)
    {
      EntriesStayReachable(w, done, s, e);
    }
    forall t, e | t in Next(w, s).threads
      ensures Serves(Next(w, s), done + [s], Next(w, s).threads[t], e)
    {
      ThreadsStayServed(w, done, s, t, e);
    }
  }

  lemma {:induction false} RunKeepsCurrent(w: World, done: seq<Step>, steps: seq<Step>)
    requires Current(w, done) && IsRun(w, steps)
    ensures Current(EndOf(w, steps), done + steps)
    decreases |steps|
  {
    hide Current, CanStep, Next;
    if steps == [] {
      assert done + steps == done;
    } else {
      StepKeepsCurrent(w, done, steps[0]);
      RunKeepsCurrent(Next(w, steps[0]), done + [steps[0]], steps[1..]);
      assert (done + [steps[0]]) + steps[1..] == done + steps;
    }
  }

  /** For every interleaving: a page of `sa` that some thread cached before thread `t` looked up `sa` is among the
      pages `t` returns, unless `sa` was purged between the two lookups. Purges of other subaccounts do not count. */
  lemma {:induction false} CachedPagesAreServed(steps: seq<Step>, t: nat, e: Entry)
    requires IsRun(START, steps) && IsEntry(steps, e)
    requires var w := EndOf(START, steps);
             && t in w.threads && w.threads[t].Returned? && w.threads[t].subaccount == e.sa
             && e.cached < w.threads[t].at && Unpurged(steps, e.sa, e.lookup, w.threads[t].at)
    ensures e.asked in EndOf(START, steps).threads[t].pages
  {
    RunKeepsCurrent(START, [], steps);
    assert [] + steps == steps;
    var w := EndOf(START, steps);
    assert Serves(w, steps, w.threads[t], e);
  }

  // ----- a thread's own pages -----

  /** What a thread has been told so far, or has returned. */
  function Got(w: World, th: Thread): seq<nat> {
    match th
    case LookedUp(_, _, _) => []
    case Holding(_, _, c, spilled, _) => PagesOf(w, c) + spilled
    case Returned(_, _, pages) => pages
  }

  /** Every request the thread made since its lookup has been answered, but for the one it waits for. */
  ghost predicate OwnOk(w: World, done: seq<Step>, t: nat, th: Thread) {
    forall a :: th.at < a < |done| && done[a] == Ask(t) ==> a in Got(w, th) || (th.Holding? && th.asked == Some(a))
  }

  ghost predicate AllOwn(w: World, done: seq<Step>) {
    Inv(w, done) && forall t :: t in w.threads ==> OwnOk(w, done, t, w.threads[t])
  }

  lemma {:induction false} ThreadKeepsOwn(w: World, done: seq<Step>, s: Step, t: nat)
    requires AllOwn(w, done) && CanStep(w, s) && t in Next(w, s).threads
    ensures OwnOk(Next(w, s), done + [s], t, Next(w, s).threads[t])
  {
    var w', more := Next(w, s), done + [s];
    var th' := w'.threads[t];
    assert w.clock == |done|;
    if !(s.Lookup? && s.thread == t) {
      StepKeepsThread(w, s, t);
      StepKeepsPages(w, s);
      var th := w.threads[t];
      assert OwnOk(w, done, t, th) && ThreadOk(w, done, t, th);
      assert s == Ask(t) ==> th'.Holding? && th'.asked == Some(|done|);
      hide Inv, ThreadOk, Got, Next;
      forall a | th'.at < a < |more| && more[a] == Ask(t)
        ensures a in Got(w', th') || (th'.Holding? && th'.asked == Some(a))
      {
        if a < |done| {
          assert done[a] == Ask(t);
          assert a in Got(w, th) || (th.Holding? && th.asked == Some(a));
          OneAsk(w, s, t, a);
        }
      }
    }
  }

  /** One request of a thread through one step. */
  lemma {:induction false} OneAsk(w: World, s: Step, t: nat, a: nat)
    requires CanStep(w, s) && t in Next(w, s).threads && !(s.Lookup? && s.thread == t)
    requires t in w.threads && (a in Got(w, w.threads[t]) || (w.threads[t].Holding? && w.threads[t].asked == Some(a)))
    ensures var th' := Next(w, s).threads[t];
            a in Got(Next(w, s), th') || (th'.Holding? && th'.asked == Some(a))
  {
    StepKeepsPages(w, s);
  }

  lemma {:induction false} RunKeepsOwn(w: World, done: seq<Step>, steps: seq<Step>)
    requires AllOwn(w, done) && IsRun(w, steps)
    ensures AllOwn(EndOf(w, steps), done + steps)
    decreases |steps|
  {
    hide Inv, CanStep, Next, OwnOk;
    if steps == [] {
      assert done + steps == done;
    } else {
      var s := steps[0];
      StepKeepsInv(w, done, s);
      forall t | t in Next(w, s).threads
        ensures OwnOk(Next(w, s), done + [s], t, Next(w, s).threads[t])
      {
        ThreadKeepsOwn(w, done, s, t);
      }
      RunKeepsOwn(Next(w, s), done + [s], steps[1..]);
      assert (done + [s]) + steps[1..] == done + steps;
    }
  }

  /** For every interleaving: a thread returns every page it asked for since its lookup, cached or not. */
  lemma {:induction false} OwnPagesAreReturned(steps: seq<Step>, t: nat, a: nat)
    requires IsRun(START, steps) && a < |steps| && steps[a] == Ask(t)
    requires var w := EndOf(START, steps); t in w.threads && w.threads[t].Returned? && w.threads[t].at < a
    ensures a in EndOf(START, steps).threads[t].pages
  {
    RunKeepsOwn(START, [], steps);
    assert [] + steps == steps;
    var w := EndOf(START, steps);
    assert OwnOk(w, steps, t, w.threads[t]);
  }
}
