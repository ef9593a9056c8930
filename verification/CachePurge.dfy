/** The per-subaccount transaction-list caches under concurrent lookups, fetches and purges.
    Every step is atomic because the source takes a lock around it; steps interleave freely. */
module CachePurge {
  import opened Options

  /** A cache object: when it was made, and for each page it holds the time at which that page was asked for. */
  datatype Cache = Cache(subaccount: nat, birth: nat, pages: seq<nat>, lock: Option<nat>)

  /** A thread inside `get_raw_transactions`. */
  datatype Thread =
    | LookedUp(subaccount: nat, at: nat, cache: nat)
    | Holding(subaccount: nat, at: nat, cache: nat, spilled: seq<nat>, asked: Option<nat>)
    | Returned(subaccount: nat, at: nat, pages: seq<nat>)

  datatype World = World(clock: nat, caches: map<nat, nat>, objects: seq<Cache>, threads: map<nat, Thread>)

  datatype Step =
    | Lookup(thread: nat, subaccount: nat)   // tx_list_caches::get
    | Lock(thread: nat)                      // entering tx_list_cache::get
    | Ask(thread: nat)                       // the request for a page leaves
    | Cached(thread: nat)                    // its reply is appended to the cache
    | Spilt(thread: nat)                     // its reply goes straight into the result
    | Return(thread: nat)
    | Throw(thread: nat)                     // the server call failed
    | DoPurge(subaccount: nat)
    | DoPurgeAll

  const START := World(0, map[], [], map[])

  predicate CanStep(w: World, s: Step) {
    match s
    case Lookup(t, _) => t in w.threads ==> w.threads[t].Returned?
    case Lock(t) =>
      && t in w.threads && w.threads[t].LookedUp?
      && w.threads[t].cache < |w.objects| && w.objects[w.threads[t].cache].lock.None?
    case Ask(t) => Inside(w, t) && w.threads[t].asked.None?
    case Cached(t) => Inside(w, t) && w.threads[t].asked.Some?
    case Spilt(t) => Inside(w, t) && w.threads[t].asked.Some?
    case Return(t) => Inside(w, t) && w.threads[t].asked.None?
    case Throw(t) => Inside(w, t) && w.threads[t].asked.Some?
    case DoPurge(_) => true
    case DoPurgeAll => true
  }

  predicate Inside(w: World, t: nat) {
    t in w.threads && w.threads[t].Holding? && w.threads[t].cache < |w.objects|
  }

  function Next(w: World, s: Step): World
    requires CanStep(w, s)
  {
    var now := w.(clock := w.clock + 1);
    match s
    case Lookup(t, sa) =>
      if sa in w.caches then now.(threads := w.threads[t := LookedUp(sa, w.clock, w.caches[sa])])
      else now.(caches := w.caches[sa := |w.objects|], objects := w.objects + [Cache(sa, w.clock, [], None)],
                threads := w.threads[t := LookedUp(sa, w.clock, |w.objects|)])
    case Lock(t) =>
      var th := w.threads[t];
      now.(objects := w.objects[th.cache := w.objects[th.cache].(lock := Some(t))],
           threads := w.threads[t := Holding(th.subaccount, th.at, th.cache, [], None)])
    case Ask(t) =>
      now.(threads := w.threads[t := w.threads[t].(asked := Some(w.clock))])
    case Cached(t) =>
      var th := w.threads[t];
      var c := w.objects[th.cache];
      now.(objects := w.objects[th.cache := c.(pages := c.pages + [th.asked.value])],
           threads := w.threads[t := th.(asked := None)])
    case Spilt(t) =>
      var th := w.threads[t];
      now.(threads := w.threads[t := th.(spilled := th.spilled + [th.asked.value], asked := None)])
    case Return(t) =>
      var th := w.threads[t];
      var c := w.objects[th.cache];
      now.(objects := w.objects[th.cache := c.(lock := None)],
           threads := w.threads[t := Returned(th.subaccount, th.at, c.pages + th.spilled)])
    case Throw(t) =>
      var th := w.threads[t];
      now.(objects := w.objects[th.cache := w.objects[th.cache].(lock := None)], threads := w.threads - {t})
    case DoPurge(sa) =>
      now.(caches := w.caches - {sa})
    case DoPurgeAll =>
      now.(caches := map[])
  }

  /** A run: steps that were possible one after the other. */
  ghost predicate IsRun(w: World, steps: seq<Step>)
    decreases |steps|
  {
    steps == [] || (CanStep(w, steps[0]) && IsRun(Next(w, steps[0]), steps[1..]))
  }

  ghost function EndOf(w: World, steps: seq<Step>): World
    requires IsRun(w, steps)
    decreases |steps|
  {
    if steps == [] then w else EndOf(Next(w, steps[0]), steps[1..])
  }

  // ----- what a history says -----

  /** Step `i` of the history purges `sa`. */
  predicate PurgesAt(done: seq<Step>, i: nat, sa: nat) {
    i < |done| && (done[i].DoPurgeAll? || done[i] == DoPurge(sa))
  }

  /** Thread `t` last looked up a cache at step `i`, for `sa`. */
  ghost predicate LastLookup(done: seq<Step>, i: nat, t: nat, sa: nat) {
    && i < |done| && done[i] == Lookup(t, sa)
    && forall j :: i < j < |done| ==> !(done[j].Lookup? && done[j].thread == t)
  }

  predicate AsksAt(done: seq<Step>, i: nat) {
    i < |done| && done[i].Ask?
  }

  /** Every purge of `sa` before step `limit` comes before `time`. */
  ghost predicate AfterPurges(done: seq<Step>, sa: nat, limit: nat, time: nat) {
    forall i :: 0 <= i < limit && PurgesAt(done, i, sa) ==> i < time
  }

  // ----- the invariant -----

  ghost predicate CacheOk(done: seq<Step>, c: Cache) {
    && c.birth < |done|
    && forall i :: 0 <= i < |c.pages| ==> c.birth <= c.pages[i] && AsksAt(done, c.pages[i])
  }

  /** A cache reachable for a subaccount was made after every purge of it. */
  ghost predicate MapOk(w: World, done: seq<Step>) {
    forall sa :: sa in w.caches ==>
      w.caches[sa] < |w.objects| && AfterPurges(done, sa, |done|, w.objects[w.caches[sa]].birth)
  }

  ghost predicate ThreadOk(w: World, done: seq<Step>, t: nat, th: Thread) {
    && LastLookup(done, th.at, t, th.subaccount)
    && match th
       case LookedUp(sa, at, c) => c < |w.objects| && AfterPurges(done, sa, at, w.objects[c].birth)
       case Holding(sa, at, c, spilled, asked) =>
         && c < |w.objects| && AfterPurges(done, sa, at, w.objects[c].birth)
         && (forall i :: 0 <= i < |spilled| ==> w.objects[c].birth <= spilled[i] && AsksAt(done, spilled[i]))
         && (asked.Some? ==> w.objects[c].birth <= asked.value && AsksAt(done, asked.value))
       case Returned(sa, at, pages) =>
         forall i :: 0 <= i < |pages| ==> AfterPurges(done, sa, at, pages[i]) && AsksAt(done, pages[i])
  }

  ghost predicate Inv(w: World, done: seq<Step>) {
    && w.clock == |done|
    && (forall i :: 0 <= i < |w.objects| ==> CacheOk(done, w.objects[i]))
    && MapOk(w, done)
    && forall t :: t in w.threads ==> ThreadOk(w, done, t, w.threads[t])
  }

  // ----- history grows -----

  lemma {:induction false} HistoryGrows(done: seq<Step>, s: Step)
    ensures forall i: nat, sa :: i < |done| ==> (PurgesAt(done + [s], i, sa) <==> PurgesAt(done, i, sa))
    ensures forall sa :: PurgesAt(done + [s], |done|, sa) <==> s.DoPurgeAll? || s == DoPurge(sa)
    ensures forall i :: AsksAt(done, i) ==> AsksAt(done + [s], i)
  {
  }

  lemma {:induction false} LimitGrows(done: seq<Step>, s: Step, sa: nat, limit: nat, time: nat)
    requires AfterPurges(done, sa, limit, time) && limit <= |done|
    ensures AfterPurges(done + [s], sa, limit, time)
  {
    HistoryGrows(done, s);
  }

  lemma {:induction false} LookupGrows(done: seq<Step>, s: Step, i: nat, t: nat, sa: nat)
    requires LastLookup(done, i, t, sa) && !(s.Lookup? && s.thread == t)
    ensures LastLookup(done + [s], i, t, sa)
  {
  }

  /** Caches keep their birth. */
  ghost predicate Later(w: World, w': World) {
    && |w.objects| <= |w'.objects|
    && forall i :: 0 <= i < |w.objects| ==> w'.objects[i].birth == w.objects[i].birth
  }

  lemma {:induction false} StepIsLater(w: World, s: Step)
    requires CanStep(w, s)
    ensures Later(w, Next(w, s)) && Next(w, s).clock == w.clock + 1
  {
  }

  /** What holds of a thread keeps holding while others act. */
  lemma {:induction false} ThreadStaysOk(w: World, w': World, done: seq<Step>, s: Step, t: nat, th: Thread)
    requires Later(w, w') && ThreadOk(w, done, t, th) && !(s.Lookup? && s.thread == t)
    ensures ThreadOk(w', done + [s], t, th)
  {
    hide AfterPurges, LastLookup, AsksAt;
    LookupGrows(done, s, th.at, t, th.subaccount);
    HistoryGrows(done, s);
    LookupIsPast(done, th.at, t, th.subaccount);
    match th
    case LookedUp(sa, at, c) => LimitGrows(done, s, sa, at, w.objects[c].birth);
    case Holding(sa, at, c, _, _) => LimitGrows(done, s, sa, at, w.objects[c].birth);
    case Returned(sa, at, pages) =>
      forall i | 0 <= i < |pages|
        ensures AfterPurges(done + [s], sa, at, pages[i])
      {
        LimitGrows(done, s, sa, at, pages[i]);
      }
  }

  lemma {:induction false} LookupIsPast(done: seq<Step>, i: nat, t: nat, sa: nat)
    requires LastLookup(done, i, t, sa)
    ensures i < |done|
  {
  }

  // ----- every step keeps the invariant -----

  lemma {:induction false} LookupIsOk(w: World, done: seq<Step>, t: nat, sa: nat)
    requires Inv(w, done) && CanStep(w, Lookup(t, sa))
    ensures var w' := Next(w, Lookup(t, sa)); ThreadOk(w', done + [Lookup(t, sa)], t, w'.threads[t])
  {
    var s := Lookup(t, sa);
    HistoryGrows(done, s);
    if sa in w.caches {
      LimitGrows(done, s, sa, |done|, w.objects[w.caches[sa]].birth);
    }
  }

  lemma {:induction false} NewerIsAfter(done: seq<Step>, sa: nat, limit: nat, time: nat, later: nat)
    requires AfterPurges(done, sa, limit, time) && time <= later
    ensures AfterPurges(done, sa, limit, later)
  {
  }

  /** What a thread returns is newer than the purges before its lookup. */
  lemma {:induction false} ReturnIsOk(w: World, done: seq<Step>, t: nat)
    requires Inv(w, done) && CanStep(w, Return(t))
    ensures var w' := Next(w, Return(t)); ThreadOk(w', done + [Return(t)], t, w'.threads[t])
  {
    var s, th := Return(t), w.threads[t];
    var w' := Next(w, s);
    var c := w.objects[th.cache];
    assert CacheOk(done, c) && ThreadOk(w, done, t, th);
    StepIsLater(w, s);
    ThreadStaysOk(w, w', done, s, t, th);
    HistoryGrows(done, s);
    var pages := c.pages + th.spilled;
    hide AfterPurges, LastLookup, AsksAt;
    forall i | 0 <= i < |pages|
      ensures AfterPurges(done + [s], th.subaccount, th.at, pages[i]) && AsksAt(done + [s], pages[i])
    {
      NewerIsAfter(done + [s], th.subaccount, th.at, c.birth, pages[i]);
    }
  }

  lemma {:induction false} ActingThreadIsOk(w: World, done: seq<Step>, s: Step, t: nat)
    requires Inv(w, done) && CanStep(w, s) && !s.DoPurge? && !s.DoPurgeAll? && s.thread == t
    requires t in Next(w, s).threads
    ensures ThreadOk(Next(w, s), done + [s], t, Next(w, s).threads[t])
  {
    if s.Lookup? {
      LookupIsOk(w, done, t, s.subaccount);
    } else if s.Return? {
      ReturnIsOk(w, done, t);
    } else {
      var th := w.threads[t];
      assert ThreadOk(w, done, t, th);
      assert CacheOk(done, w.objects[th.cache]);
      StepIsLater(w, s);
      ThreadStaysOk(w, Next(w, s), done, s, t, th);
      hide AfterPurges, LastLookup;
    }
  }

  lemma {:induction false} ThreadsStayOk(w: World, done: seq<Step>, s: Step, t: nat)
    requires Inv(w, done) && CanStep(w, s) && t in Next(w, s).threads
    ensures ThreadOk(Next(w, s), done + [s], t, Next(w, s).threads[t])
  {
    hide ThreadOk;
    if !s.DoPurge? && !s.DoPurgeAll? && s.thread == t {
      ActingThreadIsOk(w, done, s, t);
    } else {
      StepIsLater(w, s);
      assert Next(w, s).threads[t] == w.threads[t];
      ThreadStaysOk(w, Next(w, s), done, s, t, w.threads[t]);
    }
  }

  lemma {:induction false} CachesStayOk(w: World, done: seq<Step>, s: Step)
    requires Inv(w, done) && CanStep(w, s)
    ensures var w' := Next(w, s); forall i :: 0 <= i < |w'.objects| ==> CacheOk(done + [s], w'.objects[i])
  {
    hide MapOk;
    HistoryGrows(done, s);
    if s.Cached? {
      assert ThreadOk(w, done, s.thread, w.threads[s.thread]);
    }
    hide AsksAt, AfterPurges, LastLookup;
  }

  lemma {:induction false} MapStaysOk(w: World, done: seq<Step>, s: Step)
    requires Inv(w, done) && CanStep(w, s)
    ensures MapOk(Next(w, s), done + [s])
  {
    hide ThreadOk, CacheOk;
    StepIsLater(w, s);
    HistoryGrows(done, s);
    var w' := Next(w, s);
    forall sa | sa in w'.caches
      ensures w'.caches[sa] < |w'.objects| && AfterPurges(done + [s], sa, |done| + 1, w'.objects[w'.caches[sa]].birth)
    {
      assert !PurgesAt(done + [s], |done|, sa);
      if sa in w.caches {
        LimitGrows(done, s, sa, |done|, w.objects[w.caches[sa]].birth);
      }
    }
  }

  lemma {:induction false} StepKeepsInv(w: World, done: seq<Step>, s: Step)
    requires Inv(w, done) && CanStep(w, s)
    ensures Inv(Next(w, s), done + [s])
  {
    StepIsLater(w, s);
    hide ThreadOk, CacheOk, MapOk, Next;
    forall t | t in Next(w, s).threads
      ensures ThreadOk(Next(w, s), done + [s], t, Next(w, s).threads[t])
    {
      ThreadsStayOk(w, done, s, t);
    }
    CachesStayOk(w, done, s);
    MapStaysOk(w, done, s);
  }

  lemma {:induction false} RunKeepsInv(w: World, done: seq<Step>, steps: seq<Step>)
    requires Inv(w, done) && IsRun(w, steps)
    ensures Inv(EndOf(w, steps), done + steps)
    decreases |steps|
  {
    hide Inv, CanStep, Next;
    if steps == [] {
      assert done + steps == done;
    } else {
      StepKeepsInv(w, done, steps[0]);
      RunKeepsInv(Next(w, steps[0]), done + [steps[0]], steps[1..]);
      assert (done + [steps[0]]) + steps[1..] == done + steps;
    }
  }

  /** Purge isolation, for every interleaving of any number of threads. A thread that has returned looked its
      cache up at step `at`; if a purge of its subaccount came before, every page it returns was asked for at a
      step after that purge. */
  lemma {:induction false} PurgedPagesAreNeverReturned(steps: seq<Step>, t: nat, purge: nat)
    requires IsRun(START, steps)
    requires var w := EndOf(START, steps); t in w.threads && w.threads[t].Returned?
    ensures var th := EndOf(START, steps).threads[t];
            && LastLookup(steps, th.at, t, th.subaccount)
            && (forall i :: 0 <= i < |th.pages| ==> AsksAt(steps, th.pages[i]))
            && (purge < th.at && PurgesAt(steps, purge, th.subaccount) ==>
                  forall i :: 0 <= i < |th.pages| ==> purge < th.pages[i])
  {
    RunKeepsInv(START, [], steps);
    assert [] + steps == steps;
    assert ThreadOk(EndOf(START, steps), steps, t, EndOf(START, steps).threads[t]);
  }
}
