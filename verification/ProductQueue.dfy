/** The blocking bounded queue (orbit/base/thread_util.h:24-131) as a monitor. A call
    runs in sections that hold the lock: from entry, or from a wakeup, to the next
    wait or the return. Any thread may run its next section, so a sequence of
    sections is an interleaving. A timed wait may end in a timeout at any time. */
module ProductQueue {
  import opened Common

  const NOLIMIT := 0

  /** asleepSpace and asleepElement hold the threads waiting on cv_has_space_ and
      cv_has_element_ without a pending wakeup. */
  datatype Monitor<T> = Monitor(limit: nat, items: seq<T>, asleepSpace: set<int>, asleepElement: set<int>)

  predicate HasSpace<T>(m: Monitor<T>) {
    m.limit == NOLIMIT || |m.items| < m.limit
  }

  /** push_back and cv_has_element_.notify_all(). */
  function Push<T>(m: Monitor<T>, e: T): Monitor<T> {
    m.(items := m.items + [e], asleepElement := {})
  }

  /** pop_front and cv_has_space_.notify_all(). */
  function Pop<T>(m: Monitor<T>): Monitor<T>
    requires m.items != []
  {
    m.(items := m.items[1..], asleepSpace := {})
  }

  // ---------------------------------------------------------------- the class

  class Queue<T> {
    const limit: nat
    var items: seq<T>
    var asleepSpace: set<int>
    var asleepElement: set<int>

    function View(): Monitor<T>
      reads this
    {
      Monitor(limit, items, asleepSpace, asleepElement)
    }

    constructor (n: nat)
      ensures View() == Monitor(n, [], {}, {})
    {
      limit, items, asleepSpace, asleepElement := n, [], {}, {};
    }

    method PrivHasSpace() returns (b: bool)
      ensures b == HasSpace(View())
    {
      if limit == NOLIMIT {
        return true;
      }
      b := |items| < limit;
    }

    /** One section of Add or TimedAdd by thread t: it waits or it adds. */
    method AddSection(t: int, e: T) returns (done: bool)
      modifies this
      ensures done <==> limit == 0 || |old(items)| < limit
      ensures View() == if done then Push(old(View()), e)
                        else old(View()).(asleepSpace := old(asleepSpace) + {t})
    {
      var space := PrivHasSpace();
      if !space {
        asleepSpace := asleepSpace + {t};
        return false;
      }
      items := items + [e];
      asleepElement := {};
      done := true;
    }

    method TryAdd(e: T) returns (ok: bool)
      modifies this
      ensures ok <==> limit == 0 || |old(items)| < limit
      ensures View() == if ok then Push(old(View()), e) else old(View())
    {
      ok := PrivHasSpace();
      if ok {
        items := items + [e];
        asleepElement := {};
      }
    }

    /** One section of Take or TimedTake by thread t. */
    method TakeSection(t: int) returns (r: Option<T>)
      modifies this
      ensures r == if old(items) == [] then None else Some(old(items)[0])
      ensures View() == if old(items) == [] then old(View()).(asleepElement := old(asleepElement) + {t})
                        else Pop(old(View()))
    {
      if items == [] {
        asleepElement := asleepElement + {t};
        return None;
      }
      r := Some(items[0]);
      items := items[1..];
      asleepSpace := {};
    }

    method TryTake() returns (r: Option<T>)
      modifies this
      ensures r == if old(items) == [] then None else Some(old(items)[0])
      ensures View() == if old(items) == [] then old(View()) else Pop(old(View()))
    {
      if items == [] {
        return None;
      }
      r := Some(items[0]);
      items := items[1..];
      asleepSpace := {};
    }

    /** A spurious wakeup, or the end of a timed wait. */
    method Wake(t: int)
      modifies this
      ensures View() == old(View()).(asleepSpace := old(asleepSpace) - {t}, asleepElement := old(asleepElement) - {t})
    {
      asleepSpace := asleepSpace - {t};
      asleepElement := asleepElement - {t};
    }
  }

  // ---------------------------------------------------------------- interleavings

  datatype Call<T> = Add(e: T, timed: bool) | Take(timed: bool)

  /** The monitor, the calls in progress, and what has been added and taken. */
  datatype System<T> = System(monitor: Monitor<T>, calls: map<int, Call<T>>, added: seq<T>, taken: seq<T>)

  datatype Step<T> =
    | Begin(t: int, call: Call<T>)
    | Resume(t: int)
    | Spurious(t: int)
    | Timeout(t: int)
    | TryAdd(e: T)
    | TryTake

  function Start<T>(limit: nat): System<T> {
    System(Monitor(limit, [], {}, {}), map[], [], [])
  }

  predicate Asleep<T>(m: Monitor<T>, t: int) {
    t in m.asleepSpace || t in m.asleepElement
  }

  predicate Enabled<T>(s: System<T>, step: Step<T>) {
    match step
    case Begin(t, _) => t !in s.calls
    case Resume(t) => t in s.calls && !Asleep(s.monitor, t)
    case Spurious(t) => t in s.calls && Asleep(s.monitor, t)
    case Timeout(t) => t in s.calls && s.calls[t].timed
    case TryAdd(_) => true
    case TryTake => true
  }

  function Section<T>(s: System<T>, t: int, call: Call<T>): System<T> {
    var m := s.monitor;
    match call
    case Add(e, _) =>
      if HasSpace(m) then System(Push(m, e), s.calls - {t}, s.added + [e], s.taken)
      else s.(monitor := m.(asleepSpace := m.asleepSpace + {t}), calls := s.calls[t := call])
    case Take(_) =>
      if m.items != [] then System(Pop(m), s.calls - {t}, s.added, s.taken + [m.items[0]])
      else s.(monitor := m.(asleepElement := m.asleepElement + {t}), calls := s.calls[t := call])
  }

  function Woken<T>(m: Monitor<T>, t: int): Monitor<T> {
    m.(asleepSpace := m.asleepSpace - {t}, asleepElement := m.asleepElement - {t})
  }

  function Next<T>(s: System<T>, step: Step<T>): System<T>
    requires Enabled(s, step)
  {
    var m := s.monitor;
    match step
    case Begin(t, call) => Section(s, t, call)
    case Resume(t) => Section(s, t, s.calls[t])
    case Spurious(t) => s.(monitor := Woken(m, t))
    case Timeout(t) => s.(monitor := Woken(m, t), calls := s.calls - {t})
    case TryAdd(e) => if HasSpace(m) then s.(monitor := Push(m, e), added := s.added + [e]) else s
    case TryTake => if m.items != [] then s.(monitor := Pop(m), taken := s.taken + [m.items[0]]) else s
  }

  /** The state after an interleaving, or None when some step cannot happen. */
  function After<T>(limit: nat, steps: seq<Step<T>>): Option<System<T>> {
    if steps == [] then Some(Start(limit))
    else
      var before := After(limit, steps[..|steps| - 1]);
      var last := steps[|steps| - 1];
      if before.Some? && Enabled(before.value, last) then Some(Next(before.value, last)) else None
  }

  // ---------------------------------------------------------------- what every run keeps

  /** A producer sleeps only while the queue is full, a consumer only while it is
      empty; the limit holds; nothing is lost, invented or reordered. */
  ghost predicate Sound<T>(limit: nat, s: System<T>) {
    var m := s.monitor;
    && m.limit == limit
    && (limit != 0 ==> |m.items| <= limit)
    && (forall t :: t in m.asleepSpace ==> t in s.calls && s.calls[t].Add? && 0 < limit == |m.items|)
    && (forall t :: t in m.asleepElement ==> t in s.calls && s.calls[t].Take? && m.items == [])
    && s.taken + m.items == s.added
  }

  lemma SectionSound<T>(limit: nat, s: System<T>, t: int, call: Call<T>)
    requires Sound(limit, s) && !Asleep(s.monitor, t)
    ensures Sound(limit, Section(s, t, call))
  {
    var m := s.monitor;
    if call.Take? && m.items != [] {
      assert m.items == [m.items[0]] + m.items[1..];
    }
  }

  lemma StepSound<T>(limit: nat, s: System<T>, step: Step<T>)
    requires Sound(limit, s) && Enabled(s, step)
    ensures Sound(limit, Next(s, step))
  {
    match step
    case Begin(t, call) => SectionSound(limit, s, t, call);
    case Resume(t) => SectionSound(limit, s, t, s.calls[t]);
    case Spurious(t) =>
    case Timeout(t) =>
    case TryAdd(e) =>
    case TryTake =>
      if s.monitor.items != [] {
        assert s.monitor.items == [s.monitor.items[0]] + s.monitor.items[1..];
      }
  }

  lemma {:induction false} EveryInterleavingSound<T>(limit: nat, steps: seq<Step<T>>, s: System<T>)
    requires After(limit, steps) == Some(s)
    ensures Sound(limit, s)
  {
    if steps != [] {
      var n := |steps| - 1;
      var before := After(limit, steps[..n]).value;
      EveryInterleavingSound(limit, steps[..n], before);
      StepSound(limit, before, steps[n]);
    }
  }

  /** No lost wakeup: whenever the queue holds an element, every consumer in the
      middle of a call can run and will take; whenever it has space, every producer
      can run and will add. */
  lemma NoLostWakeup<T>(limit: nat, steps: seq<Step<T>>, s: System<T>, t: int)
    requires After(limit, steps) == Some(s) && t in s.calls
    ensures s.calls[t].Take? && s.monitor.items != [] ==>
      && Enabled(s, Resume(t))
      && t !in Next(s, Resume(t)).calls
      && Next(s, Resume(t)).taken == s.taken + [s.monitor.items[0]]
    ensures s.calls[t].Add? && (limit == 0 || |s.monitor.items| < limit) ==>
      && Enabled(s, Resume(t))
      && t !in Next(s, Resume(t)).calls
      && Next(s, Resume(t)).added == s.added + [s.calls[t].e]
  {
    EveryInterleavingSound(limit, steps, s);
  }

  /** Producers and consumers are never asleep together, so the queue alone cannot
      stop a system in which both have calls in progress. */
  lemma NoDeadlock<T>(limit: nat, steps: seq<Step<T>>, s: System<T>, p: int, c: int)
    requires After(limit, steps) == Some(s)
    requires p in s.calls && s.calls[p].Add? && c in s.calls && s.calls[c].Take?
    ensures Enabled(s, Resume(p)) || Enabled(s, Resume(c))
    ensures forall t, u :: t in s.monitor.asleepSpace ==> u !in s.monitor.asleepElement
  {
    EveryInterleavingSound(limit, steps, s);
  }

  /** What has been taken is always an initial part of what has been added. */
  lemma FirstInFirstOut<T>(limit: nat, steps: seq<Step<T>>, s: System<T>)
    requires After(limit, steps) == Some(s)
    ensures s.taken <= s.added && |s.added| - |s.taken| == |s.monitor.items|
  {
    EveryInterleavingSound(limit, steps, s);
  }
}
