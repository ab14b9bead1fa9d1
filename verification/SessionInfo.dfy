/** The retained sessions (orbit/base/session_info.cc:53-74, 304-332,
    orbit/base/session_info.h:215-371): a sorted list of at most fifty, from which
    old ones are evicted, and its counters. */
module SessionInfo {
  import opened Common

  const MAX_SAVE_SESSION_COUNT := 50

  datatype Status = Live | Destroyed(time: int)

  datatype Session = Session(id: int, status: Status, createTime: int)

  /** The order std::sort is called with: live before destroyed, newest first. */
  predicate Comparator(a: Session, b: Session) {
    if a.status.Destroyed? && b.status.Live? then false
    else if a.status.Live? && b.status.Destroyed? then true
    else if a.status.Destroyed? && b.status.Destroyed? then a.status.time > b.status.time
    else a.createTime > b.createTime
  }

  predicate Equivalent(a: Session, b: Session) {
    !Comparator(a, b) && !Comparator(b, a)
  }

  /** What std::sort demands of it. */
  lemma ComparatorIsStrictWeakOrder(a: Session, b: Session, c: Session)
    ensures !Comparator(a, a)
    ensures Comparator(a, b) ==> !Comparator(b, a)
    ensures Comparator(a, b) && Comparator(b, c) ==> Comparator(a, c)
    ensures Equivalent(a, b) && Equivalent(b, c) ==> Equivalent(a, c)
    ensures Comparator(a, b) ==> Comparator(a, c) || Comparator(c, b)
  {}

  ghost predicate Sorted(xs: seq<Session>) {
    forall i, j :: 0 <= i < j < |xs| ==> !Comparator(xs[j], xs[i])
  }

  ghost predicate UniqueIds(xs: seq<Session>) {
    forall i, j :: 0 <= i < j < |xs| ==> xs[i].id != xs[j].id
  }

  ghost function LiveIds(xs: seq<Session>): set<int> {
    set x | x in xs && x.status.Live? :: x.id
  }

  // ---------------------------------------------------------------- sorting

  function Insert(x: Session, xs: seq<Session>): seq<Session> {
    if xs == [] then [x]
    else if Comparator(xs[0], x) then [xs[0]] + Insert(x, xs[1..])
    else [x] + xs
  }

  /** Some sorted rearrangement; nothing but that is used of it. */
  function SortBy(xs: seq<Session>): seq<Session> {
    if xs == [] then [] else Insert(xs[0], SortBy(xs[1..]))
  }

  lemma {:induction false} InsertRearranges(x: Session, xs: seq<Session>)
    ensures multiset(Insert(x, xs)) == multiset([x]) + multiset(xs)
  {
    if xs != [] && Comparator(xs[0], x) {
      assert xs == [xs[0]] + xs[1..];
      InsertRearranges(x, xs[1..]);
    }
  }

  lemma {:induction false} SortByRearranges(xs: seq<Session>)
    ensures multiset(SortBy(xs)) == multiset(xs)
  {
    if xs != [] {
      assert xs == [xs[0]] + xs[1..];
      SortByRearranges(xs[1..]);
      InsertRearranges(xs[0], SortBy(xs[1..]));
    }
  }

  lemma SameElements(xs: seq<Session>, ys: seq<Session>)
    requires multiset(xs) == multiset(ys)
    ensures |xs| == |ys| && forall x :: x in xs <==> x in ys
  {
    assert |multiset(xs)| == |xs| && |multiset(ys)| == |ys|;
    forall x ensures x in xs <==> x in ys {
      assert x in xs <==> x in multiset(xs);
      assert x in ys <==> x in multiset(ys);
    }
  }

  lemma {:induction false} InsertSorted(x: Session, xs: seq<Session>)
    requires Sorted(xs)
    ensures Sorted(Insert(x, xs))
  {
    if xs != [] {
      var r := Insert(x, xs);
      if Comparator(xs[0], x) {
        InsertSorted(x, xs[1..]);
        InsertRearranges(x, xs[1..]);
        var rest := Insert(x, xs[1..]);
        forall j | 0 <= j < |rest| ensures !Comparator(rest[j], xs[0]) {
          assert rest[j] in multiset(rest);
          assert rest[j] == x || rest[j] in xs[1..];
        }
      } else {
        forall j | 0 <= j < |xs| ensures !Comparator(xs[j], x) {
          ComparatorIsStrictWeakOrder(xs[j], x, xs[0]);
        }
      }
    }
  }

  lemma {:induction false} SortBySorted(xs: seq<Session>)
    ensures Sorted(SortBy(xs))
  {
    if xs != [] {
      SortBySorted(xs[1..]);
      InsertSorted(xs[0], SortBy(xs[1..]));
    }
  }

  ghost function Ids(xs: seq<Session>): (r: set<int>)
    ensures forall x :: x in xs ==> x.id in r
    ensures forall id :: id in r ==> exists x :: x in xs && x.id == id
  {
    if xs == [] then {} else
      assert xs == xs[..|xs| - 1] + [xs[|xs| - 1]];
      Ids(xs[..|xs| - 1]) + {xs[|xs| - 1].id}
  }

  lemma NewId(xs: seq<Session>)
    requires xs != []
    ensures
      var n := |xs| - 1;
      UniqueIds(xs) <==> UniqueIds(xs[..n]) && xs[n].id !in Ids(xs[..n])
  {
    var n := |xs| - 1;
    if xs[n].id in Ids(xs[..n]) {
      var x :| x in xs[..n] && x.id == xs[n].id;
      var i :| 0 <= i < n && xs[..n][i] == x;
      assert xs[i].id == xs[n].id;
    } else {
      forall i | 0 <= i < n ensures xs[i].id != xs[n].id {
        assert xs[..n][i] in xs[..n];
      }
    }
    if UniqueIds(xs) {
      forall i, j | 0 <= i < j < n ensures xs[..n][i].id != xs[..n][j].id {
        assert xs[i].id != xs[j].id;
      }
    }
  }

  lemma {:induction false} IdsCount(xs: seq<Session>)
    ensures |Ids(xs)| <= |xs|
    ensures |Ids(xs)| == |xs| <==> UniqueIds(xs)
  {
    if xs != [] {
      IdsCount(xs[..|xs| - 1]);
      NewId(xs);
    }
  }

  /** Rearranging loses no id, doubles none, and changes no status. */
  lemma RearrangeKeeps(xs: seq<Session>, ys: seq<Session>)
    requires multiset(xs) == multiset(ys)
    ensures |xs| == |ys| && (forall x :: x in xs <==> x in ys)
    ensures UniqueIds(xs) ==> UniqueIds(ys)
    ensures LiveIds(xs) == LiveIds(ys)
  {
    SameElements(xs, ys);
    IdsCount(xs);
    IdsCount(ys);
    assert Ids(xs) == Ids(ys);
  }

  // ---------------------------------------------------------------- the protocol

  /** evictedLive counts the live sessions that were dropped from the list. */
  datatype System = System(sessions: seq<Session>, current: int, total: int, evictedLive: int, clock: int)

  const START := System([], 0, 0, 0, 0)

  datatype Step = Add(id: int, now: int) | Remove(id: int, now: int)

  function IndexOf(xs: seq<Session>, id: int): (k: nat)
    ensures k <= |xs|
    ensures k < |xs| ==> xs[k].id == id
    ensures forall j :: 0 <= j < k ==> xs[j].id != id
  {
    IndexFrom(xs, id, 0)
  }

  function IndexFrom(xs: seq<Session>, id: int, i: nat): (k: nat)
    requires i <= |xs|
    ensures i <= k <= |xs|
    ensures k < |xs| ==> xs[k].id == id
    ensures forall j :: i <= j < k ==> xs[j].id != id
    decreases |xs| - i
  {
    if i == |xs| || xs[i].id == id then i else IndexFrom(xs, id, i + 1)
  }

  /** What pop_back leaves to make room for one more. */
  function Kept(xs: seq<Session>): seq<Session> {
    if |xs| < MAX_SAVE_SESSION_COUNT then xs else xs[..MAX_SAVE_SESSION_COUNT - 1]
  }

  function Ended(x: Session, now: int): Session {
    if x.status.Destroyed? then x else x.(status := Destroyed(now))
  }

  /** One call; after RemoveSession the list is any sorted rearrangement. */
  ghost predicate Next(s: System, step: Step, t: System) {
    var xs := s.sessions;
    var k := IndexOf(xs, step.id);
    match step
    case Add(id, now) =>
      if k < |xs| then t == s.(clock := now)
      else
        t == System([Session(id, Live, now)] + Kept(xs), s.current + 1, s.total + 1,
                    s.evictedLive + |LiveIds(xs)| - |LiveIds(Kept(xs))|, now)
    case Remove(id, now) =>
      if k == |xs| then t == s.(clock := now)
      else
        && t.current == s.current - (if xs[k].status.Live? then 1 else 0)
        && multiset(t.sessions) == multiset(xs[k := Ended(xs[k], now)])
        && Sorted(t.sessions)
        && t.total == s.total && t.evictedLive == s.evictedLive && t.clock == now
  }

  ghost predicate Valid(s: System) {
    && Sorted(s.sessions)
    && UniqueIds(s.sessions)
    && |s.sessions| <= MAX_SAVE_SESSION_COUNT
    && (forall x :: x in s.sessions ==> x.createTime <= s.clock)
    && s.current == |LiveIds(s.sessions)| + s.evictedLive
    && s.evictedLive >= 0
  }

  lemma LiveIdsKept(xs: seq<Session>)
    ensures LiveIds(Kept(xs)) <= LiveIds(xs)
    ensures |LiveIds(Kept(xs))| <= |LiveIds(xs)|
  {
    assert forall x :: x in Kept(xs) ==> x in xs;
    SubsetCount(LiveIds(Kept(xs)), LiveIds(xs));
  }

  lemma AddSorted(x: Session, xs: seq<Session>, clock: int)
    requires Sorted(xs) && UniqueIds(xs) && x.status.Live? && clock <= x.createTime
    requires forall y :: y in xs ==> y.createTime <= clock && y.id != x.id
    ensures Sorted([x] + xs) && UniqueIds([x] + xs)
  {
    var r := [x] + xs;
    forall j | 1 <= j < |r| ensures !Comparator(r[j], x) && r[j].id != x.id {
      assert r[j] == xs[j - 1] && xs[j - 1] in xs;
    }
  }

  lemma AddKeeps(s: System, id: int, now: int, t: System)
    requires Valid(s) && s.clock <= now && Next(s, Add(id, now), t)
    ensures Valid(t)
  {
    hide Sorted, UniqueIds, LiveIds, Comparator;
    var xs, kept := s.sessions, Kept(s.sessions);
    if IndexOf(xs, id) == |xs| {
      var x := Session(id, Live, now);
      KeptElements(xs, id);
      AddSorted(x, kept, s.clock);
      LiveIdsKept(xs);
      LiveIdsCons(x, kept);
    }
  }

  lemma KeptElements(xs: seq<Session>, id: int)
    requires IndexOf(xs, id) == |xs|
    ensures forall y :: y in Kept(xs) ==> y in xs && y.id != id
    ensures id !in LiveIds(Kept(xs))
    ensures Sorted(xs) ==> Sorted(Kept(xs))
    ensures UniqueIds(xs) ==> UniqueIds(Kept(xs))
  {
    forall y | y in Kept(xs) ensures y in xs && y.id != id {
      var i :| 0 <= i < |Kept(xs)| && Kept(xs)[i] == y;
      assert xs[i] == y;
    }
  }

  lemma LiveIdsCons(x: Session, xs: seq<Session>)
    requires x.status.Live?
    ensures LiveIds([x] + xs) == LiveIds(xs) + {x.id}
  {
    assert forall y :: y in [x] + xs <==> y == x || y in xs;
  }

  lemma LiveIdsEnded(xs: seq<Session>, k: nat, now: int)
    requires UniqueIds(xs) && k < |xs|
    ensures LiveIds(xs[k := Ended(xs[k], now)]) == LiveIds(xs) - {xs[k].id}
    ensures xs[k].status.Live? <==> xs[k].id in LiveIds(xs)
  {
    var ys := xs[k := Ended(xs[k], now)];
    assert xs[k] in xs;
    forall y | y in LiveIds(ys) ensures y in LiveIds(xs) - {xs[k].id} {
      var i :| 0 <= i < |ys| && ys[i].status.Live? && ys[i].id == y;
      assert i != k && xs[i] in xs;
    }
    forall y | y in LiveIds(xs) - {xs[k].id} ensures y in LiveIds(ys) {
      var i :| 0 <= i < |xs| && xs[i].status.Live? && xs[i].id == y;
      assert ys[i] in ys;
    }
    if xs[k].id in LiveIds(xs) {
      var i :| 0 <= i < |xs| && xs[i].status.Live? && xs[i].id == xs[k].id;
    }
  }

  lemma RemoveKeeps(s: System, id: int, now: int, t: System)
    requires Valid(s) && s.clock <= now && Next(s, Remove(id, now), t)
    ensures Valid(t)
  {
    var xs := s.sessions;
    var k := IndexOf(xs, id);
    if k < |xs| {
      var ys := xs[k := Ended(xs[k], now)];
      LiveIdsEnded(xs, k, now);
      assert UniqueIds(ys);
      RearrangeKeeps(ys, t.sessions);
      forall x | x in t.sessions ensures x.createTime <= now {
        var i :| 0 <= i < |ys| && ys[i] == x;
        assert xs[i] in xs;
      }
    }
  }

  ghost predicate Run(steps: seq<Step>, states: seq<System>) {
    && |states| == |steps| + 1
    && states[0] == START
    && forall i :: 0 <= i < |steps| ==> states[i].clock <= steps[i].now && Next(states[i], steps[i], states[i + 1])
  }

  /** With a clock that never goes back, after any run of calls the list is sorted,
      its ids are unique, it has at most fifty entries, and the current-session
      counter is the number of live sessions retained plus those evicted live. */
  lemma {:induction false} RunKeeps(steps: seq<Step>, states: seq<System>, n: nat)
    requires Run(steps, states) && n < |states|
    ensures Valid(states[n])
  {
    if n > 0 {
      RunKeeps(steps, states, n - 1);
      match steps[n - 1]
      case Add(id, now) => AddKeeps(states[n - 1], id, now, states[n]);
      case Remove(id, now) => RemoveKeeps(states[n - 1], id, now, states[n]);
    }
  }

  /** A live session is evicted only when every retained one is live, and then the
      evicted one is an oldest of them. */
  lemma EvictionTakesDeadFirst(steps: seq<Step>, states: seq<System>, n: nat, k: int)
    requires Run(steps, states) && n < |states|
    requires Kept(states[n].sessions) != states[n].sessions
    requires 0 <= k < |states[n].sessions| && states[n].sessions[|states[n].sessions| - 1].status.Live?
    ensures states[n].sessions[k].status.Live?
    ensures states[n].sessions[k].createTime >= states[n].sessions[|states[n].sessions| - 1].createTime
  {
    RunKeeps(steps, states, n);
    var xs := states[n].sessions;
    assert k < |xs| - 1 ==> !Comparator(xs[|xs| - 1], xs[k]);
  }

  // ---------------------------------------------------------------- told from the calls

  /** Call i adds the session: no retained one has its id. */
  ghost predicate Adds(steps: seq<Step>, states: seq<System>, i: int)
    requires 0 <= i < |steps| && |states| == |steps| + 1
  {
    steps[i].Add? && forall x :: x in states[i].sessions ==> x.id != steps[i].id
  }

  /** The status of a session added by call i: ended by the first later call that removes it. */
  function StatusAfter(steps: seq<Step>, i: int, n: int, id: int): Status
    requires 0 <= i < n <= |steps|
    decreases n
  {
    if n == i + 1 then Live else
      var before := StatusAfter(steps, i, n - 1, id);
      if before.Live? && steps[n - 1].Remove? && steps[n - 1].id == id then Destroyed(steps[n - 1].now) else before
  }

  /** Call i added this session, with its time, and its status is that of the calls since. */
  ghost predicate CameFrom(steps: seq<Step>, states: seq<System>, x: Session, i: int, n: int)
    requires 0 <= n <= |steps| && |states| == |steps| + 1
  {
    0 <= i < n && Adds(steps, states, i) && steps[i] == Add(x.id, x.createTime) && x.status == StatusAfter(steps, i, n, x.id)
  }

  ghost predicate Explained(steps: seq<Step>, states: seq<System>, x: Session, n: int)
    requires 0 <= n <= |steps| && |states| == |steps| + 1
  {
    exists i :: CameFrom(steps, states, x, i, n)
  }

  ghost predicate AllExplained(steps: seq<Step>, states: seq<System>, n: int)
    requires 0 <= n <= |steps| && |states| == |steps| + 1
  {
    forall x :: x in states[n].sessions ==> Explained(steps, states, x, n)
  }

  ghost function CountAdds(steps: seq<Step>, states: seq<System>, n: nat): nat
    requires n <= |steps| && |states| == |steps| + 1
  {
    if n == 0 then 0 else CountAdds(steps, states, n - 1) + if Adds(steps, states, n - 1) then 1 else 0
  }

  /** Call i ends a live session. */
  ghost predicate Ends(steps: seq<Step>, states: seq<System>, i: int)
    requires 0 <= i < |steps| && |states| == |steps| + 1
  {
    steps[i].Remove? && exists x :: x in states[i].sessions && x.id == steps[i].id && x.status.Live?
  }

  ghost function CountEnds(steps: seq<Step>, states: seq<System>, n: nat): nat
    requires n <= |steps| && |states| == |steps| + 1
  {
    if n == 0 then 0 else CountEnds(steps, states, n - 1) + if Ends(steps, states, n - 1) then 1 else 0
  }

  lemma Absent(xs: seq<Session>, id: int)
    ensures IndexOf(xs, id) == |xs| <==> forall x :: x in xs ==> x.id != id
  {
    if IndexOf(xs, id) < |xs| {
      assert xs[IndexOf(xs, id)] in xs;
    }
  }

  /** Another call than its removal leaves a session explained. */
  lemma StillExplained(steps: seq<Step>, states: seq<System>, x: Session, n: int)
    requires 0 < n <= |steps| && |states| == |steps| + 1
    requires Explained(steps, states, x, n - 1) && !(steps[n - 1].Remove? && steps[n - 1].id == x.id)
    ensures Explained(steps, states, x, n)
  {
    var i :| CameFrom(steps, states, x, i, n - 1);
    assert CameFrom(steps, states, x, i, n);
  }

  lemma EndedExplained(steps: seq<Step>, states: seq<System>, x: Session, n: int)
    requires 0 < n <= |steps| && |states| == |steps| + 1
    requires Explained(steps, states, x, n - 1) && steps[n - 1].Remove? && steps[n - 1].id == x.id
    ensures Explained(steps, states, Ended(x, steps[n - 1].now), n)
  {
    var i :| CameFrom(steps, states, x, i, n - 1);
    assert CameFrom(steps, states, Ended(x, steps[n - 1].now), i, n);
  }

  lemma AddExplains(steps: seq<Step>, states: seq<System>, n: int)
    requires Run(steps, states) && 0 < n <= |steps| && steps[n - 1].Add?
    requires AllExplained(steps, states, n - 1)
    ensures AllExplained(steps, states, n)
  {
    hide Explained, Comparator;
    var s, t, id := states[n - 1], states[n], steps[n - 1].id;
    assert Next(s, steps[n - 1], t);
    Absent(s.sessions, id);
    forall x | x in t.sessions ensures Explained(steps, states, x, n) {
      if x in s.sessions {
        StillExplained(steps, states, x, n);
      } else {
        NewExplained(steps, states, x, n);
      }
    }
  }

  lemma NewExplained(steps: seq<Step>, states: seq<System>, x: Session, n: int)
    requires Run(steps, states) && 0 < n <= |steps| && steps[n - 1].Add?
    requires x in states[n].sessions && x !in states[n - 1].sessions
    ensures Explained(steps, states, x, n)
  {
    hide Comparator;
    assert Next(states[n - 1], steps[n - 1], states[n]);
    Absent(states[n - 1].sessions, steps[n - 1].id);
    assert CameFrom(steps, states, x, n - 1, n);
  }

  lemma RemoveExplains(steps: seq<Step>, states: seq<System>, n: int)
    requires Run(steps, states) && 0 < n <= |steps| && steps[n - 1].Remove? && UniqueIds(states[n - 1].sessions)
    requires AllExplained(steps, states, n - 1)
    ensures AllExplained(steps, states, n)
  {
    hide Explained, Comparator, Sorted;
    var s, t, id := states[n - 1], states[n], steps[n - 1].id;
    assert Next(s, steps[n - 1], t);
    var xs, k := s.sessions, IndexOf(s.sessions, id);
    Absent(xs, id);
    if k < |xs| {
      SameElements(xs[k := Ended(xs[k], steps[n - 1].now)], t.sessions);
    }
    forall x | x in t.sessions ensures Explained(steps, states, x, n) {
      if k < |xs| {
        var j :| 0 <= j < |xs| && x == xs[k := Ended(xs[k], steps[n - 1].now)][j];
        assert xs[j] in xs;
        if j == k {
          EndedExplained(steps, states, xs[k], n);
        } else {
          StillExplained(steps, states, x, n);
        }
      } else {
        StillExplained(steps, states, x, n);
      }
    }
  }

  /** After any run of calls each retained session was added by one of them, with that call's
      time, and its status is that of the calls since; the counters count the calls that added
      a session, and those less the ones that ended a live one. */
  lemma {:induction false} SessionsAreTold(steps: seq<Step>, states: seq<System>, n: nat)
    requires Run(steps, states) && n <= |steps|
    ensures AllExplained(steps, states, n)
    ensures states[n].total == CountAdds(steps, states, n)
    ensures states[n].current == CountAdds(steps, states, n) - CountEnds(steps, states, n)
    ensures |states[n].sessions| <= 50
  {
    hide Explained, Valid, Next, Adds, Ends;
    RunKeeps(steps, states, n);
    ValidMeans(states[n]);
    if n == 0 {
      assert states[0] == START;
    } else {
      RunKeeps(steps, states, n - 1);
      ValidMeans(states[n - 1]);
      SessionsAreTold(steps, states, n - 1);
      if steps[n - 1].Add? {
        AddExplains(steps, states, n);
      } else {
        RemoveExplains(steps, states, n);
      }
      CountersStep(steps, states, n);
    }
  }

  lemma ValidMeans(s: System)
    requires Valid(s)
    ensures UniqueIds(s.sessions) && |s.sessions| <= 50
  {}

  /** A new session goes to the front, and of fifty others the last is dropped; no other call
      changes which sessions are retained. */
  lemma ListAfter(steps: seq<Step>, states: seq<System>, n: nat)
    requires Run(steps, states) && n < |steps|
    ensures
      var xs, ys := states[n].sessions, states[n + 1].sessions;
      if Adds(steps, states, n) then
        ys == [Session(steps[n].id, Live, steps[n].now)] + (if |xs| < 50 then xs else xs[..49])
      else |ys| == |xs| && Ids(ys) == Ids(xs)
  {
    hide Comparator, Sorted, LiveIds;
    RunKeeps(steps, states, n);
    ValidMeans(states[n]);
    var s, t := states[n], states[n + 1];
    assert Next(s, steps[n], t);
    var xs, k := s.sessions, IndexOf(s.sessions, steps[n].id);
    Absent(xs, steps[n].id);
    if steps[n].Remove? && k < |xs| {
      var ended := xs[k := Ended(xs[k], steps[n].now)];
      SameElements(ended, t.sessions);
      SameIds(xs, ended);
      SameMembers(ended, t.sessions);
    }
  }

  lemma SameIds(xs: seq<Session>, ys: seq<Session>)
    requires |xs| == |ys| && forall i :: 0 <= i < |xs| ==> xs[i].id == ys[i].id
    ensures Ids(xs) == Ids(ys)
  {
    forall id ensures id in Ids(xs) <==> id in Ids(ys) {
      if id in Ids(xs) {
        var x :| x in xs && x.id == id;
        var i :| 0 <= i < |xs| && xs[i] == x;
        assert ys[i] in ys;
      }
      if id in Ids(ys) {
        var y :| y in ys && y.id == id;
        var i :| 0 <= i < |ys| && ys[i] == y;
        assert xs[i] in xs;
      }
    }
  }

  lemma SameMembers(xs: seq<Session>, ys: seq<Session>)
    requires forall x :: x in xs <==> x in ys
    ensures Ids(xs) == Ids(ys)
  {
    forall id ensures id in Ids(xs) <==> id in Ids(ys) {
      if id in Ids(xs) {
        var x :| x in xs && x.id == id;
      }
      if id in Ids(ys) {
        var y :| y in ys && y.id == id;
      }
    }
  }

  lemma CountersStep(steps: seq<Step>, states: seq<System>, n: nat)
    requires Run(steps, states) && 0 < n <= |steps| && UniqueIds(states[n - 1].sessions)
    ensures states[n].total == states[n - 1].total + if Adds(steps, states, n - 1) then 1 else 0
    ensures
      states[n].current
      == states[n - 1].current + (if Adds(steps, states, n - 1) then 1 else 0) - (if Ends(steps, states, n - 1) then 1 else 0)
  {
    hide Comparator, Sorted;
    var xs, k := states[n - 1].sessions, IndexOf(states[n - 1].sessions, steps[n - 1].id);
    assert Next(states[n - 1], steps[n - 1], states[n]);
    Absent(xs, steps[n - 1].id);
    if k < |xs| {
      assert xs[k] in xs;
      if Ends(steps, states, n - 1) {
        var x :| x in xs && x.id == steps[n - 1].id && x.status.Live?;
        var j :| 0 <= j < |xs| && xs[j] == x;
        assert j == k;
      }
    }
  }

  /** What sorted means: the live before the ended, of the live the later added first, of the
      ended the later ended. */
  lemma SortedMeans(xs: seq<Session>)
    ensures
      Sorted(xs)
      <==> forall i, j :: 0 <= i < j < |xs| ==>
             match xs[j].status
             case Live => xs[i].status.Live? && xs[i].createTime >= xs[j].createTime
             case Destroyed(ended) => xs[i].status.Live? || xs[i].status.time >= ended
  {}

  // ---------------------------------------------------------------- the code

  class Info {
    const id: int
    const createTime: int
    var status: Status

    function View(): Session
      reads this
    {
      Session(id, status, createTime)
    }

    constructor (sessionId: int, now: int)
      ensures View() == Session(sessionId, Live, now)
    {
      id, createTime, status := sessionId, now, Live;
    }

    method ChangeStateToDestroyed(now: int)
      modifies this
      ensures View() == Ended(old(View()), now)
    {
      if status.Destroyed? {
        return;
      }
      status := Destroyed(now);
    }
  }

  class Manager {
    var vector: seq<Info>
    var current: int
    var total: int

    ghost function Sessions(): seq<Session>
      reads this, vector
    {
      Views(vector)
    }

    static ghost function Views(infos: seq<Info>): seq<Session>
      reads infos
    {
      seq(|infos|, i requires 0 <= i < |infos| reads infos => infos[i].View())
    }

    constructor ()
      ensures vector == [] && current == 0 && total == 0
    {
      vector, current, total := [], 0, 0;
    }

    method Lookup(id: int) returns (k: nat)
      ensures k == IndexOf(Sessions(), id)
    {
      ghost var xs := Sessions();
      k := 0;
      while k < |vector| && vector[k].id != id
        invariant 0 <= k <= |vector|
        invariant forall j :: 0 <= j < k ==> xs[j].id != id
      {
        k := k + 1;
      }
      assert k < |vector| ==> xs[k].id == id;
    }

    method AddSession(id: int, now: int)
      modifies this
      ensures
        if IndexOf(old(Sessions()), id) < |old(vector)| then
          vector == old(vector) && current == old(current) && total == old(total)
        else
          && Sessions() == [Session(id, Live, now)] + Kept(old(Sessions()))
          && current == old(current) + 1 && total == old(total) + 1
    {
      ghost var xs := Sessions();
      var k := Lookup(id);
      if k < |vector| {
        return;
      }
      current := current + 1;
      total := total + 1;
      var info := new Info(id, now);
      while |vector| >= MAX_SAVE_SESSION_COUNT
        invariant |vector| >= MAX_SAVE_SESSION_COUNT - 1 || vector == old(vector)
        invariant vector == old(vector)[..|vector|] && |vector| <= |old(vector)|
        invariant current == old(current) + 1 && total == old(total) + 1
        invariant info.View() == Session(id, Live, now)
      {
        vector := vector[..|vector| - 1];
      }
      ghost var kept := vector;
      assert Views(kept) == Kept(xs);
      vector := [info] + vector;
      assert vector[0] == info && forall i :: 1 <= i < |vector| ==> vector[i] == kept[i - 1];
      assert Views(vector) == [Session(id, Live, now)] + Kept(xs);
    }

    /** std::sort with the comparator; stands for any sorting algorithm. */
    static method Sort(infos: seq<Info>) returns (r: seq<Info>)
      ensures Views(r) == SortBy(Views(infos))
    {
      if infos == [] {
        return [];
      }
      var rest := Sort(infos[1..]);
      r := InsertInfo(infos[0], rest);
      assert Views(infos)[1..] == Views(infos[1..]);
    }

    static method InsertInfo(x: Info, infos: seq<Info>) returns (r: seq<Info>)
      ensures Views(r) == Insert(x.View(), Views(infos))
    {
      if infos == [] {
        return [x];
      }
      if Comparator(infos[0].View(), x.View()) {
        var rest := InsertInfo(x, infos[1..]);
        assert Views(infos[1..]) == Views(infos)[1..];
        r := [infos[0]] + rest;
        assert Views(r) == [infos[0].View()] + Views(rest);
      } else {
        r := [x] + infos;
        assert Views(r) == [x.View()] + Views(infos);
      }
    }

    method DestroyAt(k: nat, now: int)
      requires UniqueIds(Sessions()) && k < |vector|
      modifies vector[k]
      ensures Sessions() == old(Sessions())[k := Ended(old(Sessions())[k], now)]
    {
      ghost var xs := Sessions();
      forall i | 0 <= i < |vector| && i != k ensures vector[i] != vector[k] {
        assert xs[i].id != xs[k].id;
      }
      vector[k].ChangeStateToDestroyed(now);
    }

    method RemoveSession(id: int, now: int) returns (found: bool)
      requires UniqueIds(Sessions())
      modifies this, vector
      ensures found <==> IndexOf(old(Sessions()), id) < |old(vector)|
      ensures !found ==> vector == old(vector) && current == old(current) && total == old(total) && Sessions() == old(Sessions())
      ensures found ==>
        var xs := old(Sessions());
        var k := IndexOf(xs, id);
        && multiset(Sessions()) == multiset(xs[k := Ended(xs[k], now)]) && Sorted(Sessions())
        && current == old(current) - (if xs[k].status.Live? then 1 else 0) && total == old(total)
    {
      hide SortBy, Sorted, Ended;
      ghost var xs := Sessions();
      var k := Lookup(id);
      if k == |vector| {
        return false;
      }
      if vector[k].status.Live? {
        current := current - 1;
      }
      DestroyAt(k, now);
      ghost var ended := Sessions();
      assert ended == xs[k := Ended(xs[k], now)];
      SortBySorted(ended);
      SortByRearranges(ended);
      vector := Sort(vector);
      assert Sessions() == SortBy(ended);
      found := true;
    }
  }
}
