/** The lock-free flag that keeps at most one reconnect task alive. Loads and compare-exchanges are atomic;
    any number of threads interleave them. */
module Reconnect {

  /** A reconnect task: in its retry loop, or inside the final `set_reconnect(false)` having loaded the flag. */
  datatype Task = Running | Clearing(loaded: bool)

  /** `trying` are the threads in `set_reconnect(true)` that loaded `false` and have yet to compare-exchange. */
  datatype World = World(flag: bool, trying: set<nat>, tasks: map<nat, Task>, nextTask: nat)

  const START := World(false, {}, map[], 0)

  datatype Step =
    | Load(thread: nat)           // set_reconnect(true): load; gives up at once if the flag is set
    | CompareExchange(thread: nat)  // set_reconnect(true): false -> true; success posts a task
    | TaskLoad(task: nat)         // set_reconnect(false): load
    | TaskCompareExchange(task: nat)  // set_reconnect(false): loaded -> false; it ends either way

  predicate CanStep(w: World, s: Step) {
    match s
    case Load(t) => t !in w.trying
    case CompareExchange(t) => t in w.trying
    case TaskLoad(k) => k in w.tasks && w.tasks[k].Running?
    case TaskCompareExchange(k) => k in w.tasks && w.tasks[k].Clearing?
  }

  function Next(w: World, s: Step): World
    requires CanStep(w, s)
  {
    match s
    case Load(t) => if w.flag then w else w.(trying := w.trying + {t})
    case CompareExchange(t) =>
      if w.flag then w.(trying := w.trying - {t})
      else World(true, w.trying - {t}, w.tasks[w.nextTask := Running], w.nextTask + 1)
    case TaskLoad(k) => w.(tasks := w.tasks[k := Clearing(w.flag)])
    case TaskCompareExchange(k) =>
      w.(flag := if w.flag == w.tasks[k].loaded then false else w.flag, tasks := w.tasks - {k})
  }

  /** The step made a caller of `try_reconnect` back off. */
  predicate BacksOff(w: World, s: Step)
    requires CanStep(w, s)
  {
    (s.Load? && s.thread !in Next(w, s).trying) || (s.CompareExchange? && Next(w, s).tasks == w.tasks)
  }

  ghost predicate IsRun(w: World, steps: seq<Step>)
    decreases |steps|
  {
    steps == [] || (CanStep(w, steps[0]) && IsRun(Next(w, steps[0]), steps[1..]))
  }

  ghost function EndOf(w: World, steps: seq<Step>): World
    requires IsRun(w, steps)
    decreases |steps|
  {
    if steps == [] then w else EndOf(Next(w, steps[0]), steps[1..])
  }

  ghost predicate Inv(w: World) {
    && (w.flag <==> w.tasks != map[])
    && (forall k, l :: k in w.tasks && l in w.tasks ==> k == l)
    && (forall k :: k in w.tasks ==> k < w.nextTask && (w.tasks[k].Clearing? ==> w.tasks[k].loaded))
  }

  lemma {:induction false} StepKeepsInv(w: World, s: Step)
    requires Inv(w) && CanStep(w, s)
    ensures Inv(Next(w, s))
  {
    if s.TaskCompareExchange? {
      assert Next(w, s).tasks.Keys == {};
    } else if s.TaskLoad? {
      assert s.task in Next(w, s).tasks;
    } else if s.CompareExchange? && !w.flag {
      assert Next(w, s).tasks.Keys == {w.nextTask};
    }
  }

  lemma {:induction false} RunKeepsInv(w: World, steps: seq<Step>)
    requires Inv(w) && IsRun(w, steps)
    ensures Inv(EndOf(w, steps))
    decreases |steps|
  {
    if steps != [] {
      StepKeepsInv(w, steps[0]);
      RunKeepsInv(Next(w, steps[0]), steps[1..]);
    }
  }

  /** Under every interleaving there is at most one reconnect task, and the flag is set exactly while there
      is one; a caller backs off only while a task exists, and a task that ends clears the flag. */
  lemma {:induction false} SingleReconnector(steps: seq<Step>, s: Step)
    requires IsRun(START, steps) && CanStep(EndOf(START, steps), s)
    ensures var w := EndOf(START, steps);
            && |w.tasks| <= 1
            && (w.flag <==> |w.tasks| == 1)
            && (BacksOff(w, s) ==> |w.tasks| == 1)
            && (s.TaskCompareExchange? ==> !Next(w, s).flag)
  {
    RunKeepsInv(START, steps);
    var w := EndOf(START, steps);
    if w.flag {
      var k :| k in w.tasks;
      assert w.tasks.Keys == {k};
      assert |w.tasks| == |w.tasks.Keys|;
    } else {
      assert w.tasks == map[];
    }
  }
}
