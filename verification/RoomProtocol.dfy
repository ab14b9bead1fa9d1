/** The classroom as a protocol: participants join, offer, become ready, send video
    and leave in any order, and every run keeps the links between them right. */
module RoomProtocol {
  import opened Common
  import opened Widths
  import opened SwitchContext
  import opened RoomState

  // CLASSROOM_STUDENT_NUMBER
  const SLOT_COUNT := 5

  /** linked: the streams whose TRANSPORT_READY has run LinkSsrcsToParticipants. */
  datatype System = System(room: Room, linked: set<int>)

  const EMPTY := System(Room([], {}, {}), {})

  /** Ready is two steps, because the transport links before it activates. */
  datatype Step =
    | Add(id: int, role: Role)
    | Offer(id: int, upstream: uint32, downs: seq<uint32>)
    | LinkReady(id: int)
    | Activate(id: int)
    | Remove(id: int)
    | Publish(ids: set<int>)
    | Video(id: int, packet: RtpPacket)

  predicate Present(ps: seq<Participant>, id: int) {
    IndexOf(ps, id) < |ps|
  }

  /** The SSRCs of the participants that have offered. */
  function Upstreams(ps: seq<Participant>): set<uint32> {
    set i | 0 <= i < |ps| && ps[i].upstream != 0 :: ps[i].upstream
  }

  predicate Distinct(xs: seq<uint32>) {
    forall i, j :: 0 <= i < j < |xs| ==> xs[i] != xs[j]
  }

  /** When a step can happen in a room held to the given number of offers. */
  predicate Enabled(s: System, step: Step, capacity: nat) {
    var ps := s.room.participants;
    match step
    case Add(id, role) => !Present(ps, id)
    case Offer(id, x, downs) =>
      && Present(ps, id) && |Upstreams(ps)| < capacity
      && ps[IndexOf(ps, id)].upstream == 0
      && x != 0 && (forall i :: 0 <= i < |ps| ==> ps[i].upstream != x)
      && |downs| == SLOT_COUNT && Distinct(downs) && 0 !in downs
    case LinkReady(id) => Present(ps, id) && ps[IndexOf(ps, id)].upstream != 0
    case Activate(id) => Present(ps, id) && id in s.linked
    case Remove(id) => Present(ps, id)
    case Publish(ids) => true
    case Video(id, packet) =>
      Present(ps, id) && id in s.linked && packet.ssrc == ps[IndexOf(ps, id)].upstream
  }

  function Update(room: Room, k: nat, p: Participant): Room
    requires k < |room.participants|
  {
    room.(participants := room.participants[k := p])
  }

  function Next(s: System, step: Step): System
    requires exists capacity :: Enabled(s, step, capacity)
  {
    var ps := s.room.participants;
    match step
    case Add(id, role) => s.(room := Added(s.room, Participant(id, role, false, 0, [], map[])))
    case Offer(id, x, downs) =>
      var k := IndexOf(ps, id);
      s.(room := Update(s.room, k, Offered(ps[k], x, downs)))
    case LinkReady(id) =>
      System(s.room.(participants := LinkedAll(ps, id)), s.linked + {id})
    case Activate(id) =>
      var k := IndexOf(ps, id);
      s.(room := Update(s.room, k, ps[k].(active := true)))
    case Remove(id) => System(Removed(s.room, IndexOf(ps, id)), s.linked - {id})
    case Publish(ids) => s.(room := s.room.(published := ids))
    case Video(id, packet) => s.(room := Muxed(s.room, id, packet))
  }

  function Offered(p: Participant, x: uint32, downs: seq<uint32>): Participant {
    p.(upstream := x, slots := p.slots + seq(|downs|, i requires 0 <= i < |downs| => Slot(downs[i], 0)))
  }

  /** The state after the steps from the empty room, or None when one cannot happen. */
  function After(steps: seq<Step>, capacity: nat): Option<System> {
    if steps == [] then Some(EMPTY)
    else
      var before := After(steps[..|steps| - 1], capacity);
      var last := steps[|steps| - 1];
      if before.Some? && Enabled(before.value, last, capacity) then Some(Next(before.value, last)) else None
  }

  ghost predicate Reaches(steps: seq<Step>, s: System, capacity: nat) {
    After(steps, capacity) == Some(s)
  }

  // ---------------------------------------------------------------- invariant

  ghost predicate UniqueIds(ps: seq<Participant>) {
    forall i, j :: 0 <= i < j < |ps| ==> ps[i].streamId != ps[j].streamId
  }

  ghost predicate UniqueUpstreams(ps: seq<Participant>) {
    forall i, j :: 0 <= i < j < |ps| && ps[i].upstream != 0 ==> ps[i].upstream != ps[j].upstream
  }

  /** The upstream SSRCs of everyone but id, each with the stream that owns it. */
  ghost function Sources(ps: seq<Participant>, id: int): map<uint32, int>
    requires UniqueUpstreams(ps)
  {
    map i | 0 <= i < |ps| && ps[i].streamId != id && ps[i].upstream != 0 :: ps[i].upstream := ps[i].streamId
  }

  ghost predicate Holds(slots: seq<Slot>, x: uint32) {
    exists k :: 0 <= k < |slots| && slots[k].up == x
  }

  /** A nonzero SSRC never occupies two slots. */
  ghost predicate NoDoubleLink(slots: seq<Slot>) {
    forall j, k :: 0 <= j < k < |slots| && slots[j].up != 0 ==> slots[j].up != slots[k].up
  }

  ghost predicate SlotTable(p: Participant) {
    && (p.upstream == 0 ==> p.slots == [])
    && (p.upstream != 0 ==> |p.slots| == SLOT_COUNT)
    && (forall k :: 0 <= k < |p.slots| ==> p.slots[k].down != 0)
    && (forall j, k :: 0 <= j < k < |p.slots| ==> p.slots[j].down != p.slots[k].down)
  }

  /** The slot's context exists and names the same source SSRC and its stream. */
  ghost predicate Named(p: Participant, slot: Slot, sources: map<uint32, int>) {
    && slot.up in sources
    && slot.down in p.contexts
    && p.contexts[slot.down].ssrc == slot.down
    && p.contexts[slot.down].sourceSsrc == slot.up
    && p.contexts[slot.down].sourceStreamId == sources[slot.up]
  }

  ghost predicate GoodLinks(p: Participant, sources: map<uint32, int>) {
    && SlotTable(p)
    && NoDoubleLink(p.slots)
    && (forall k {:trigger Named(p, p.slots[k], sources)} :: 0 <= k < |p.slots| && p.slots[k].up != 0 ==>
          Named(p, p.slots[k], sources))
  }

  ghost predicate FullyLinked(ps: seq<Participant>, linked: set<int>) {
    forall i, j {:trigger Holds(ps[i].slots, ps[j].upstream)} ::
      0 <= i < |ps| && 0 <= j < |ps| && i != j && ps[i].streamId in linked && ps[j].streamId in linked ==>
        Holds(ps[i].slots, ps[j].upstream)
  }

  ghost predicate Owners(ps: seq<Participant>) {
    UniqueIds(ps) && UniqueUpstreams(ps)
  }

  ghost predicate Tables(ps: seq<Participant>)
    requires UniqueUpstreams(ps)
  {
    forall i {:trigger GoodLinks(ps[i], Sources(ps, ps[i].streamId))} :: 0 <= i < |ps| ==>
      GoodLinks(ps[i], Sources(ps, ps[i].streamId))
  }

  ghost predicate Status(ps: seq<Participant>, linked: set<int>) {
    && (forall i :: 0 <= i < |ps| && ps[i].streamId in linked ==> ps[i].upstream != 0)
    && (forall i :: 0 <= i < |ps| && ps[i].active ==> ps[i].streamId in linked)
    && (forall id :: id in linked ==> Present(ps, id))
  }

  /** What holds in a room of any size. */
  ghost predicate Sound(ps: seq<Participant>, linked: set<int>) {
    Owners(ps) && Tables(ps) && Status(ps, linked)
  }

  ghost predicate Invariant(s: System) {
    Sound(s.room.participants, s.linked) && FullyLinked(s.room.participants, s.linked)
  }

  // ---------------------------------------------------------------- counting

  /** Every participant with an SSRC has one source less than there are. */
  lemma SourcesBound(ps: seq<Participant>, n: nat)
    requires Owners(ps) && n < |ps| && ps[n].upstream != 0
    ensures |Sources(ps, ps[n].streamId)| < |Upstreams(ps)|
  {
    var x := ps[n].upstream;
    assert x in Upstreams(ps);
    KeysCount(Sources(ps, ps[n].streamId), Upstreams(ps) - {x});
  }

  lemma KeysCount<K, V>(m: map<K, V>, s: set<K>)
    requires m.Keys <= s
    ensures |m| <= |s|
  {
    SubsetCount(m.Keys, s);
    assert |m| == |m.Keys|;
  }

  lemma LessOne<K, V>(m: map<K, V>, x: K)
    requires x in m
    ensures |m.Keys - {x}| < |m|
  {
    assert m.Keys == (m.Keys - {x}) + {x};
    assert |m| == |m.Keys|;
  }

  /** Pigeonhole: slots that are all taken hold as many different SSRCs. */
  lemma {:induction false} AllTaken(slots: seq<Slot>, used: set<uint32>)
    requires NoDoubleLink(slots)
    requires forall k :: 0 <= k < |slots| ==> slots[k].up != 0 && slots[k].up in used
    ensures |slots| <= |used|
  {
    if slots != [] {
      var n := |slots| - 1;
      AllTaken(slots[..n], used - {slots[n].up});
    }
  }

  // ---------------------------------------------------------------- linking

  ghost predicate Keeps(a: seq<Slot>, b: seq<Slot>) {
    forall y {:trigger Holds(b, y)} :: y != 0 && Holds(a, y) ==> Holds(b, y)
  }

  /** Nothing before slot k is free or holds x, but slot k does or is behind the last. */
  predicate FirstPlace(slots: seq<Slot>, x: uint32, k: nat) {
    && k <= |slots|
    && (forall j :: 0 <= j < k ==> slots[j].up != 0 && slots[j].up != x)
    && (k < |slots| ==> slots[k].up == 0 || slots[k].up == x)
  }

  /** A link goes to the first slot that is free or holds x, and x leaves any other. */
  lemma LinkPlaces(p: Participant, x: uint32, id: int, k: nat)
    requires FirstPlace(p.slots, x, k)
    ensures
      var slots := LinkTo(p, x, id).slots;
      && |slots| == |p.slots|
      && forall j :: 0 <= j < |slots| ==>
           slots[j] == Slot(p.slots[j].down, if j == k then x else if p.slots[j].up == x then 0 else p.slots[j].up)
  {
    var slots := Unlink(p.slots, x);
    var n := Find(slots, 0);
    assert n < |slots| ==> p.slots[n].up == 0 || p.slots[n].up == x;
    assert k < |slots| ==> slots[k].up == 0;
    assert n == k;
  }

  /** LinkToSsrc finds a place exactly when some slot is free or already holds x. */
  lemma LinkPlacesIff(p: Participant, x: uint32, id: int)
    requires x != 0
    ensures Holds(LinkTo(p, x, id).slots, x) <==> Holds(p.slots, x) || Holds(p.slots, 0)
  {
    var slots := Unlink(p.slots, x);
    var k := Find(slots, 0);
    if k < |slots| {
      assert LinkTo(p, x, id).slots[k].up == x;
      assert p.slots[k].up == x || p.slots[k].up == 0;
    } else {
      forall j | 0 <= j < |p.slots| ensures p.slots[j].up != x && p.slots[j].up != 0 {
        assert slots[j].up != 0;
      }
    }
  }

  /** There is room for x unless everyone else already fills the table. */
  lemma LinkHasRoom(p: Participant, sources: map<uint32, int>, x: uint32)
    requires GoodLinks(p, sources) && |sources| <= SLOT_COUNT && x in sources && x != 0
    requires p.upstream != 0
    ensures Find(Unlink(p.slots, x), 0) < |p.slots|
  {
    var slots := Unlink(p.slots, x);
    if Find(slots, 0) == |slots| {
      forall j | 0 <= j < |slots| ensures slots[j].up != 0 && slots[j].up in sources.Keys - {x} {
        assert Named(p, p.slots[j], sources);
      }
      LessOne(sources, x);
      AllTaken(slots, sources.Keys - {x});
    }
  }

  /** LinkTo either fills the first free slot with x or only drops x. */
  lemma LinkSlots(p: Participant, x: uint32, id: int)
    ensures
      var k := Find(Unlink(p.slots, x), 0);
      var q := LinkTo(p, x, id);
      && |q.slots| == |p.slots|
      && (forall j :: 0 <= j < |q.slots| ==> q.slots[j].down == p.slots[j].down)
      && (forall j :: 0 <= j < |q.slots| && j != k ==> q.slots[j].up == if p.slots[j].up == x then 0 else p.slots[j].up)
      && (k < |p.slots| ==> q.slots[k].up == x && (p.slots[k].up == 0 || p.slots[k].up == x))
  {}

  lemma LinkNamed(p: Participant, sources: map<uint32, int>, x: uint32, id: int)
    requires GoodLinks(p, sources)
    requires x != 0 ==> x in sources && sources[x] == id
    ensures GoodLinks(LinkTo(p, x, id), sources)
  {
    var q := LinkTo(p, x, id);
    var k := Find(Unlink(p.slots, x), 0);
    LinkSlots(p, x, id);
    forall j | 0 <= j < |q.slots| && q.slots[j].up != 0 ensures Named(q, q.slots[j], sources) {
      if j != k {
        assert Named(p, p.slots[j], sources);
        assert k < |p.slots| ==> p.slots[j].down != p.slots[k].down;
      }
    }
  }

  lemma LinkHolds(p: Participant, x: uint32, id: int)
    ensures
      var q := LinkTo(p, x, id);
      && (Find(Unlink(p.slots, x), 0) < |p.slots| ==> Holds(q.slots, x))
      && (forall y :: y != 0 && y != x && Holds(p.slots, y) ==> Holds(q.slots, y))
  {
    var q := LinkTo(p, x, id);
    LinkSlots(p, x, id);
    forall y | y != 0 && y != x && Holds(p.slots, y) ensures Holds(q.slots, y) {
      var j :| 0 <= j < |p.slots| && p.slots[j].up == y;
      assert q.slots[j].up == y;
    }
  }

  /** One link where there is room: x gets its slot, nobody else loses one. */
  lemma LinkGood(p: Participant, sources: map<uint32, int>, x: uint32, id: int)
    requires GoodLinks(p, sources) && (p.upstream != 0 ==> |sources| <= SLOT_COUNT)
    requires x != 0 ==> x in sources && sources[x] == id
    ensures
      var q := LinkTo(p, x, id);
      && (x != 0 && p.upstream != 0 ==> Holds(q.slots, x))
      && Keeps(p.slots, q.slots)
  {
    LinkHolds(p, x, id);
    if x != 0 && p.upstream != 0 {
      LinkHasRoom(p, sources, x);
    }
  }

  lemma {:induction false} LinkEachTable(p: Participant, ps: seq<Participant>, sources: map<uint32, int>, m: nat)
    requires UniqueUpstreams(ps) && m <= |ps| && sources == Sources(ps, p.streamId)
    requires GoodLinks(p, sources)
    ensures
      var q := LinkEach(p, ps, m);
      GoodLinks(q, sources) && q.streamId == p.streamId && q.upstream == p.upstream && q.active == p.active
  {
    hide GoodLinks;
    if m > 0 {
      LinkEachTable(p, ps, sources, m - 1);
      var o := ps[m - 1];
      if o.streamId != p.streamId {
        assert o.upstream != 0 ==> o.upstream in sources;
        LinkNamed(LinkEach(p, ps, m - 1), sources, o.upstream, o.streamId);
      }
    }
  }

  lemma LinkNext(p: Participant, ps: seq<Participant>, sources: map<uint32, int>, m: nat)
    requires UniqueUpstreams(ps) && m < |ps| && sources == Sources(ps, p.streamId)
    requires GoodLinks(p, sources) && |sources| <= SLOT_COUNT && p.upstream != 0
    requires ps[m].streamId != p.streamId
    ensures
      var q := LinkTo(p, ps[m].upstream, ps[m].streamId);
      && (ps[m].upstream != 0 ==> Holds(q.slots, ps[m].upstream))
      && Keeps(p.slots, q.slots)
  {
    var o := ps[m];
    assert o.upstream != 0 ==> o.upstream in sources;
    LinkGood(p, sources, o.upstream, o.streamId);
  }

  /** One turn of the loop. */
  lemma LinkEachStep(p: Participant, ps: seq<Participant>, sources: map<uint32, int>, m: nat)
    requires UniqueUpstreams(ps) && 0 < m <= |ps| && sources == Sources(ps, p.streamId)
    requires GoodLinks(p, sources) && |sources| <= SLOT_COUNT && p.upstream != 0
    ensures
      var q, r, o := LinkEach(p, ps, m - 1), LinkEach(p, ps, m), ps[m - 1];
      && Keeps(q.slots, r.slots)
      && (o.streamId != p.streamId && o.upstream != 0 ==> Holds(r.slots, o.upstream))
  {
    hide LinkTo, GoodLinks, Sources, Holds;
    if ps[m - 1].streamId != p.streamId {
      LinkEachTable(p, ps, sources, m - 1);
      LinkNext(LinkEach(p, ps, m - 1), ps, sources, m - 1);
    }
  }

  /** Links made early in the loop survive the rest of it. */
  lemma {:induction false} LinkEachKeeps(p: Participant, ps: seq<Participant>, sources: map<uint32, int>, k: nat, m: nat)
    requires UniqueUpstreams(ps) && k <= m <= |ps| && sources == Sources(ps, p.streamId)
    requires GoodLinks(p, sources) && |sources| <= SLOT_COUNT && p.upstream != 0
    ensures Keeps(LinkEach(p, ps, k).slots, LinkEach(p, ps, m).slots)
    decreases m
  {
    if k < m {
      LinkEachKeeps(p, ps, sources, k, m - 1);
      LinkEachStep(p, ps, sources, m);
      KeepsTransitive(LinkEach(p, ps, k).slots, LinkEach(p, ps, m - 1).slots, LinkEach(p, ps, m).slots);
    }
  }

  lemma KeepsTransitive(a: seq<Slot>, b: seq<Slot>, c: seq<Slot>)
    requires Keeps(a, b) && Keeps(b, c)
    ensures Keeps(a, c)
  {
    forall y | y != 0 && Holds(a, y) ensures Holds(c, y) {
      assert Holds(b, y);
    }
  }

  lemma LinkEachGets(p: Participant, ps: seq<Participant>, sources: map<uint32, int>, j: nat)
    requires UniqueUpstreams(ps) && j < |ps| && sources == Sources(ps, p.streamId)
    requires GoodLinks(p, sources) && |sources| <= SLOT_COUNT && p.upstream != 0
    requires ps[j].streamId != p.streamId && ps[j].upstream != 0
    ensures Holds(LinkEach(p, ps, |ps|).slots, ps[j].upstream)
  {
    LinkEachStep(p, ps, sources, j + 1);
    LinkEachKeeps(p, ps, sources, j + 1, |ps|);
  }

  // ---------------------------------------------------------------- steps

  /** Every owner in ps still owns its SSRC, at the same place, in qs. */
  ghost predicate OwnersKept(ps: seq<Participant>, qs: seq<Participant>) {
    && |ps| <= |qs|
    && (forall i :: 0 <= i < |ps| ==> ps[i].streamId == qs[i].streamId)
    && (forall i :: 0 <= i < |ps| && ps[i].upstream != 0 ==> ps[i].upstream == qs[i].upstream)
  }

  ghost predicate SubMap<K, V>(a: map<K, V>, b: map<K, V>) {
    forall k :: k in a ==> k in b && b[k] == a[k]
  }

  lemma SourcesGrow(ps: seq<Participant>, qs: seq<Participant>, id: int)
    requires UniqueUpstreams(ps) && UniqueUpstreams(qs) && OwnersKept(ps, qs)
    ensures SubMap(Sources(ps, id), Sources(qs, id))
  {
    var a, b := Sources(ps, id), Sources(qs, id);
    forall x | x in a ensures x in b && b[x] == a[x] {
      var i :| 0 <= i < |ps| && ps[i].streamId != id && ps[i].upstream != 0 && ps[i].upstream == x;
      assert qs[i].upstream == x;
    }
  }

  lemma GoodLinksGrow(p: Participant, a: map<uint32, int>, b: map<uint32, int>)
    requires GoodLinks(p, a) && SubMap(a, b)
    ensures GoodLinks(p, b)
  {
    forall k | 0 <= k < |p.slots| && p.slots[k].up != 0 ensures Named(p, p.slots[k], b) {
      assert Named(p, p.slots[k], a);
    }
  }

  lemma PresentKept(ps: seq<Participant>, qs: seq<Participant>)
    requires |ps| <= |qs| && forall i :: 0 <= i < |ps| ==> ps[i].streamId == qs[i].streamId
    ensures forall id :: Present(ps, id) ==> Present(qs, id)
  {
    forall id | Present(ps, id) ensures Present(qs, id) {
      assert qs[IndexOf(ps, id)].streamId == id;
    }
  }

  /** Tables stay good when owners stay and every table is good for the old owners. */
  lemma TablesKept(ps: seq<Participant>, qs: seq<Participant>)
    requires UniqueUpstreams(ps) && UniqueUpstreams(qs) && OwnersKept(ps, qs)
    requires forall i :: 0 <= i < |ps| ==> GoodLinks(qs[i], Sources(ps, ps[i].streamId))
    requires forall i :: |ps| <= i < |qs| ==> GoodLinks(qs[i], map[])
    ensures Tables(qs)
  {
    forall i | 0 <= i < |qs| ensures GoodLinks(qs[i], Sources(qs, qs[i].streamId)) {
      if i < |ps| {
        SourcesGrow(ps, qs, ps[i].streamId);
        GoodLinksGrow(qs[i], Sources(ps, ps[i].streamId), Sources(qs, qs[i].streamId));
      } else {
        GoodLinksGrow(qs[i], map[], Sources(qs, qs[i].streamId));
      }
    }
  }

  /** What one ready event does to a participant of a room of any size. */
  lemma LinkedTable(ps: seq<Participant>, id: int, i: int)
    requires Owners(ps) && Tables(ps) && 0 <= i < |ps|
    requires Present(ps, id) && ps[IndexOf(ps, id)].upstream != 0
    ensures
      var q := LinkedAll(ps, id)[i];
      && q.streamId == ps[i].streamId && q.upstream == ps[i].upstream && q.active == ps[i].active
      && GoodLinks(q, Sources(ps, ps[i].streamId))
  {
    hide GoodLinks;
    var n := IndexOf(ps, id);
    var sources := Sources(ps, ps[i].streamId);
    assert GoodLinks(ps[i], sources);
    if i == n {
      LinkEachTable(ps[n], ps, sources, |ps|);
    } else {
      assert ps[n].upstream in sources && sources[ps[n].upstream] == ps[n].streamId;
      LinkNamed(ps[i], sources, ps[n].upstream, id);
    }
  }

  /** Where six have offered at most, it links the stream that became ready to everyone. */
  lemma LinkedSelf(ps: seq<Participant>, n: nat)
    requires Owners(ps) && Tables(ps) && |Upstreams(ps)| <= SLOT_COUNT + 1 && n < |ps| && ps[n].upstream != 0
    ensures
      forall j :: 0 <= j < |ps| && j != n && ps[j].upstream != 0 ==>
        Holds(LinkEach(ps[n], ps, |ps|).slots, ps[j].upstream)
  {
    var sources := Sources(ps, ps[n].streamId);
    assert GoodLinks(ps[n], sources);
    SourcesBound(ps, n);
    forall j | 0 <= j < |ps| && j != n && ps[j].upstream != 0
      ensures Holds(LinkEach(ps[n], ps, |ps|).slots, ps[j].upstream)
    {
      LinkEachGets(ps[n], ps, sources, j);
    }
  }

  /** And everyone to it. */
  lemma LinkedOther(ps: seq<Participant>, n: nat, i: nat)
    requires Owners(ps) && Tables(ps) && |Upstreams(ps)| <= SLOT_COUNT + 1
    requires n < |ps| && ps[n].upstream != 0 && i < |ps| && i != n
    ensures
      var q := LinkTo(ps[i], ps[n].upstream, ps[n].streamId);
      && Keeps(ps[i].slots, q.slots)
      && (ps[i].upstream != 0 ==> Holds(q.slots, ps[n].upstream))
  {
    var sources := Sources(ps, ps[i].streamId);
    assert GoodLinks(ps[i], sources);
    if ps[i].upstream != 0 {
      SourcesBound(ps, i);
    }
    assert ps[n].upstream in sources && sources[ps[n].upstream] == ps[n].streamId;
    LinkGood(ps[i], sources, ps[n].upstream, ps[n].streamId);
  }

  lemma LinkedOne(ps: seq<Participant>, id: int, i: int)
    requires Owners(ps) && Tables(ps) && |Upstreams(ps)| <= SLOT_COUNT + 1 && 0 <= i < |ps|
    requires Present(ps, id) && ps[IndexOf(ps, id)].upstream != 0
    ensures
      var n := IndexOf(ps, id);
      var q := LinkedAll(ps, id)[i];
      && q.streamId == ps[i].streamId && q.upstream == ps[i].upstream
      && (i != n ==> Keeps(ps[i].slots, q.slots))
      && (i != n && ps[i].upstream != 0 ==> Holds(q.slots, ps[n].upstream))
      && (i == n ==> forall j :: 0 <= j < |ps| && j != n && ps[j].upstream != 0 ==> Holds(q.slots, ps[j].upstream))
  {
    var n := IndexOf(ps, id);
    LinkedTable(ps, id, i);
    if i == n {
      LinkedSelf(ps, n);
    } else {
      LinkedOther(ps, n, i);
    }
  }

  lemma ReadyTables(ps: seq<Participant>, id: int)
    requires Owners(ps) && Tables(ps)
    requires Present(ps, id) && ps[IndexOf(ps, id)].upstream != 0
    ensures
      var qs := LinkedAll(ps, id);
      && |qs| == |ps|
      && (forall i :: 0 <= i < |ps| ==>
            qs[i].streamId == ps[i].streamId && qs[i].upstream == ps[i].upstream && qs[i].active == ps[i].active)
      && UniqueUpstreams(qs) && Tables(qs)
  {
    var qs := LinkedAll(ps, id);
    forall i | 0 <= i < |ps|
      ensures qs[i].streamId == ps[i].streamId && qs[i].upstream == ps[i].upstream && qs[i].active == ps[i].active
      ensures GoodLinks(qs[i], Sources(ps, ps[i].streamId))
    {
      LinkedTable(ps, id, i);
    }
    assert UniqueUpstreams(qs);
    TablesKept(ps, qs);
  }

  lemma ReadyOwner(ps: seq<Participant>, id: int, linked: set<int>, i: int)
    requires Owners(ps) && Status(ps, linked)
    requires Present(ps, id) && ps[IndexOf(ps, id)].upstream != 0
    requires 0 <= i < |ps| && ps[i].streamId in linked + {id}
    ensures ps[i].upstream != 0
  {}

  lemma ReadyPair(ps: seq<Participant>, id: int, linked: set<int>, i: int, j: int)
    requires Owners(ps) && Tables(ps) && Status(ps, linked) && FullyLinked(ps, linked) && |Upstreams(ps)| <= SLOT_COUNT + 1
    requires Present(ps, id) && ps[IndexOf(ps, id)].upstream != 0
    requires 0 <= i < |ps| && 0 <= j < |ps| && i != j
    requires ps[i].streamId in linked + {id} && ps[j].streamId in linked + {id}
    ensures Holds(LinkedAll(ps, id)[i].slots, LinkedAll(ps, id)[j].upstream)
  {
    ReadyOwner(ps, id, linked, i);
    ReadyOwner(ps, id, linked, j);
    LinkedOne(ps, id, i);
    LinkedOne(ps, id, j);
    if ps[i].streamId != id && ps[j].streamId != id {
      assert Holds(ps[i].slots, ps[j].upstream);
    }
  }

  lemma ReadyLinked(ps: seq<Participant>, id: int, linked: set<int>)
    requires Owners(ps) && Tables(ps) && Status(ps, linked) && FullyLinked(ps, linked) && |Upstreams(ps)| <= SLOT_COUNT + 1
    requires Present(ps, id) && ps[IndexOf(ps, id)].upstream != 0
    ensures FullyLinked(LinkedAll(ps, id), linked + {id})
  {
    var qs := LinkedAll(ps, id);
    forall i, j | 0 <= i < |qs| && 0 <= j < |qs| && i != j && qs[i].streamId in linked + {id} && qs[j].streamId in linked + {id}
      ensures Holds(qs[i].slots, qs[j].upstream)
    {
      LinkedOne(ps, id, i);
      LinkedOne(ps, id, j);
      ReadyPair(ps, id, linked, i, j);
    }
  }

  /** Nothing changes for the linked streams. */
  lemma LinkedKept(ps: seq<Participant>, qs: seq<Participant>, linked: set<int>)
    requires FullyLinked(ps, linked)
    requires forall i :: 0 <= i < |qs| && qs[i].streamId in linked ==>
      i < |ps| && qs[i].streamId == ps[i].streamId && qs[i].upstream == ps[i].upstream && qs[i].slots == ps[i].slots
    ensures FullyLinked(qs, linked)
  {
    forall i, j | 0 <= i < |qs| && 0 <= j < |qs| && i != j && qs[i].streamId in linked && qs[j].streamId in linked
      ensures Holds(qs[i].slots, qs[j].upstream)
    {
      assert Holds(ps[i].slots, ps[j].upstream);
    }
  }

  lemma LinkReadyKeeps(ps: seq<Participant>, linked: set<int>, id: int)
    requires Sound(ps, linked) && Present(ps, id) && ps[IndexOf(ps, id)].upstream != 0
    ensures
      var qs := LinkedAll(ps, id);
      && Sound(qs, linked + {id}) && Upstreams(qs) == Upstreams(ps)
      && (|Upstreams(ps)| <= SLOT_COUNT + 1 && FullyLinked(ps, linked) ==> FullyLinked(qs, linked + {id}))
  {
    hide FullyLinked, GoodLinks, Sources;
    var qs := LinkedAll(ps, id);
    ReadyTables(ps, id);
    PresentKept(ps, qs);
    SameUpstreams(ps, qs);
    assert UniqueIds(qs);
    assert Status(qs, linked + {id});
    if |Upstreams(ps)| <= SLOT_COUNT + 1 && FullyLinked(ps, linked) {
      ReadyLinked(ps, id, linked);
    }
  }

  lemma SameUpstreams(ps: seq<Participant>, qs: seq<Participant>)
    requires |ps| <= |qs| && forall i :: 0 <= i < |qs| ==> qs[i].upstream == if i < |ps| then ps[i].upstream else 0
    ensures Upstreams(qs) == Upstreams(ps)
  {
    forall x | x in Upstreams(ps) ensures x in Upstreams(qs) {
      var i :| 0 <= i < |ps| && ps[i].upstream != 0 && ps[i].upstream == x;
      assert qs[i].upstream == x;
    }
  }

  /** Replacing one participant by one with the same stream and the same links. */
  lemma ReplaceKeeps(ps: seq<Participant>, linked: set<int>, n: nat, p: Participant)
    requires Sound(ps, linked) && n < |ps|
    requires p.streamId == ps[n].streamId && (p.active ==> p.streamId in linked)
    requires UniqueUpstreams(ps[n := p]) && GoodLinks(p, Sources(ps, p.streamId))
    requires (p.upstream == ps[n].upstream && p.slots == ps[n].slots) || ps[n].upstream == 0
    ensures
      var qs := ps[n := p];
      Sound(qs, linked) && (FullyLinked(ps, linked) ==> FullyLinked(qs, linked))
  {
    hide GoodLinks, Sources, FullyLinked, Holds, Status;
    var qs := ps[n := p];
    assert UniqueIds(qs);
    TablesKept(ps, qs);
    ReplaceStatus(ps, linked, n, p);
    if FullyLinked(ps, linked) {
      ReplaceLinks(ps, linked, n, p);
    }
  }

  lemma ReplaceStatus(ps: seq<Participant>, linked: set<int>, n: nat, p: Participant)
    requires Status(ps, linked) && n < |ps| && p.streamId == ps[n].streamId && (p.active ==> p.streamId in linked)
    requires p.upstream == ps[n].upstream || ps[n].upstream == 0
    ensures Status(ps[n := p], linked)
  {
    PresentKept(ps, ps[n := p]);
  }

  lemma ReplaceLinks(ps: seq<Participant>, linked: set<int>, n: nat, p: Participant)
    requires FullyLinked(ps, linked) && Status(ps, linked) && n < |ps| && p.streamId == ps[n].streamId
    requires (p.upstream == ps[n].upstream && p.slots == ps[n].slots) || ps[n].upstream == 0
    ensures FullyLinked(ps[n := p], linked)
  {
    hide FullyLinked;
    LinkedKept(ps, ps[n := p], linked);
  }

  lemma OfferedGood(p: Participant, sources: map<uint32, int>, x: uint32, downs: seq<uint32>)
    requires GoodLinks(p, sources) && p.upstream == 0
    requires x != 0 && |downs| == SLOT_COUNT && Distinct(downs) && 0 !in downs
    ensures GoodLinks(Offered(p, x, downs), sources)
  {
    var q := Offered(p, x, downs);
    assert forall k :: 0 <= k < |q.slots| ==> q.slots[k] == Slot(downs[k], 0) && downs[k] != 0;
  }

  lemma OfferKeeps(ps: seq<Participant>, linked: set<int>, n: nat, x: uint32, downs: seq<uint32>)
    requires Sound(ps, linked) && n < |ps| && ps[n].upstream == 0
    requires x != 0 && forall i :: 0 <= i < |ps| ==> ps[i].upstream != x
    requires |downs| == SLOT_COUNT && Distinct(downs) && 0 !in downs
    ensures
      var qs := ps[n := Offered(ps[n], x, downs)];
      && Sound(qs, linked) && |Upstreams(qs)| == |Upstreams(ps)| + 1
      && (FullyLinked(ps, linked) ==> FullyLinked(qs, linked))
  {
    var p := Offered(ps[n], x, downs);
    assert GoodLinks(ps[n], Sources(ps, ps[n].streamId));
    OfferedGood(ps[n], Sources(ps, ps[n].streamId), x, downs);
    assert UniqueUpstreams(ps[n := p]);
    assert p.active ==> p.streamId in linked;
    ReplaceKeeps(ps, linked, n, p);
    OneMoreUpstream(ps, n, p);
  }

  lemma OneMoreUpstream(ps: seq<Participant>, n: nat, p: Participant)
    requires n < |ps| && ps[n].upstream == 0 && p.upstream != 0
    requires forall i :: 0 <= i < |ps| ==> ps[i].upstream != p.upstream
    ensures Upstreams(ps[n := p]) == Upstreams(ps) + {p.upstream} && p.upstream !in Upstreams(ps)
  {
    var qs := ps[n := p];
    assert qs[n].upstream == p.upstream;
    forall y | y in Upstreams(ps) ensures y in Upstreams(qs) {
      var i :| 0 <= i < |ps| && ps[i].upstream != 0 && ps[i].upstream == y;
      assert qs[i].upstream == y;
    }
  }

  lemma NewOwner(ps: seq<Participant>, p: Participant)
    requires Owners(ps) && !Present(ps, p.streamId) && p.upstream == 0
    ensures Owners(ps + [p])
  {
    assert forall i :: 0 <= i < |ps| ==> ps[i].streamId != p.streamId;
  }

  lemma NothingLinked(p: Participant)
    requires p.upstream == 0 && p.slots == []
    ensures GoodLinks(p, map[])
  {}

  lemma AddKeeps(ps: seq<Participant>, linked: set<int>, p: Participant)
    requires Sound(ps, linked)
    requires !Present(ps, p.streamId) && p.upstream == 0 && p.slots == [] && !p.active
    ensures
      var qs := ps + [p];
      && Sound(qs, linked) && Upstreams(qs) == Upstreams(ps)
      && (FullyLinked(ps, linked) ==> FullyLinked(qs, linked))
  {
    hide GoodLinks, Sources, FullyLinked, Upstreams, Holds;
    var qs := ps + [p];
    assert Owners(qs) && p.streamId !in linked by { NewOwner(ps, p); }
    NothingLinked(p);
    TablesKept(ps, qs);
    PresentKept(ps, qs);
    SameUpstreams(ps, qs);
    if FullyLinked(ps, linked) {
      LinkedKept(ps, qs, linked);
    }
  }

  lemma UnlinkGood(p: Participant, sources: map<uint32, int>, less: map<uint32, int>, x: uint32)
    requires GoodLinks(p, sources)
    requires forall y :: y in sources && y != x ==> y in less && less[y] == sources[y]
    ensures GoodLinks(UnlinkFrom(p, x), less)
    ensures forall y :: y != x && Holds(p.slots, y) ==> Holds(UnlinkFrom(p, x).slots, y)
  {
    var q := UnlinkFrom(p, x);
    forall k | 0 <= k < |q.slots| && q.slots[k].up != 0 ensures Named(q, q.slots[k], less) {
      assert p.slots[k].up == q.slots[k].up;
      assert Named(p, p.slots[k], sources);
    }
    forall y | y != x && Holds(p.slots, y) ensures Holds(q.slots, y) {
      var k :| 0 <= k < |p.slots| && p.slots[k].up == y;
      assert q.slots[k].up == y;
    }
  }

  /** Where the i-th participant stood before participant n was erased. */
  function Shift(n: nat, i: nat): nat {
    if i < n then i else i + 1
  }

  lemma SourcesDrop(ps: seq<Participant>, qs: seq<Participant>, n: nat, id: int)
    requires UniqueUpstreams(ps) && UniqueUpstreams(qs) && n < |ps| && |qs| == |ps| - 1
    requires forall i :: 0 <= i < |qs| ==>
      qs[i].streamId == ps[Shift(n, i)].streamId && qs[i].upstream == ps[Shift(n, i)].upstream
    ensures
      var a, b := Sources(ps, id), Sources(qs, id);
      forall y :: y in a && y != ps[n].upstream ==> y in b && b[y] == a[y]
  {
    var a, b := Sources(ps, id), Sources(qs, id);
    forall y | y in a && y != ps[n].upstream ensures y in b && b[y] == a[y] {
      var j :| 0 <= j < |ps| && ps[j].streamId != id && ps[j].upstream != 0 && ps[j].upstream == y;
      var i := if j < n then j else j - 1;
      assert Shift(n, i) == j;
      assert qs[i].upstream == y;
    }
  }

  lemma RemoveTables(ps: seq<Participant>, qs: seq<Participant>, n: nat)
    requires Owners(ps) && Tables(ps) && n < |ps| && |qs| == |ps| - 1
    requires forall i :: 0 <= i < |qs| ==> qs[i] == UnlinkFrom(ps[Shift(n, i)], ps[n].upstream)
    ensures Owners(qs) && Tables(qs)
  {
    forall i | 0 <= i < |qs| ensures GoodLinks(qs[i], Sources(qs, qs[i].streamId)) {
      var o := Shift(n, i);
      SourcesDrop(ps, qs, n, ps[o].streamId);
      UnlinkGood(ps[o], Sources(ps, ps[o].streamId), Sources(qs, qs[i].streamId), ps[n].upstream);
    }
  }

  lemma RemoveStatus(ps: seq<Participant>, qs: seq<Participant>, n: nat, linked: set<int>)
    requires Owners(ps) && Status(ps, linked) && n < |ps| && |qs| == |ps| - 1
    requires forall i :: 0 <= i < |qs| ==> qs[i] == UnlinkFrom(ps[Shift(n, i)], ps[n].upstream)
    ensures Status(qs, linked - {ps[n].streamId})
  {
    var rest := linked - {ps[n].streamId};
    forall y | y in rest ensures Present(qs, y) {
      var j := IndexOf(ps, y);
      var i := if j < n then j else j - 1;
      assert Shift(n, i) == j && qs[i].streamId == y;
    }
  }

  lemma RemoveLinks(ps: seq<Participant>, qs: seq<Participant>, n: nat, linked: set<int>)
    requires Owners(ps) && Tables(ps) && Status(ps, linked) && FullyLinked(ps, linked) && n < |ps| && |qs| == |ps| - 1
    requires forall i :: 0 <= i < |qs| ==> qs[i] == UnlinkFrom(ps[Shift(n, i)], ps[n].upstream)
    ensures FullyLinked(qs, linked - {ps[n].streamId})
  {
    hide GoodLinks, Sources;
    var rest := linked - {ps[n].streamId};
    forall i, j | 0 <= i < |qs| && 0 <= j < |qs| && i != j && qs[i].streamId in rest && qs[j].streamId in rest
      ensures Holds(qs[i].slots, qs[j].upstream)
    {
      var oi, oj := Shift(n, i), Shift(n, j);
      assert Holds(ps[oi].slots, ps[oj].upstream);
      UnlinkGood(ps[oi], Sources(ps, ps[oi].streamId), Sources(ps, ps[oi].streamId), ps[n].upstream);
      assert ps[oj].upstream != ps[n].upstream;
    }
  }

  lemma RemoveKeeps(room: Room, linked: set<int>, n: nat)
    requires Sound(room.participants, linked) && n < |room.participants|
    ensures
      var ps, qs := room.participants, Removed(room, n).participants;
      && Sound(qs, linked - {ps[n].streamId}) && Upstreams(qs) <= Upstreams(ps)
      && (FullyLinked(ps, linked) ==> FullyLinked(qs, linked - {ps[n].streamId}))
  {
    hide GoodLinks, Sources, FullyLinked;
    var ps := room.participants;
    var qs := Removed(room, n).participants;
    assert forall i :: 0 <= i < |qs| ==> qs[i] == UnlinkFrom(ps[Shift(n, i)], ps[n].upstream);
    RemoveTables(ps, qs, n);
    RemoveStatus(ps, qs, n, linked);
    if FullyLinked(ps, linked) {
      RemoveLinks(ps, qs, n, linked);
    }
  }

  /** Rewriting a header moves no link. */
  lemma RewriteGood(p: Participant, sources: map<uint32, int>, packet: RtpPacket)
    requires GoodLinks(p, sources) && Rewrite(p, packet).Some?
    ensures
      var q := Rewrite(p, packet).value.0;
      && GoodLinks(q, sources) && q.slots == p.slots
      && q.streamId == p.streamId && q.upstream == p.upstream && q.active == p.active
  {
    var q := Rewrite(p, packet).value.0;
    forall k | 0 <= k < |q.slots| && q.slots[k].up != 0 ensures Named(q, q.slots[k], sources) {
      assert Named(p, p.slots[k], sources);
    }
  }

  lemma VideoKeeps(room: Room, linked: set<int>, id: int, packet: RtpPacket)
    requires Sound(room.participants, linked)
    ensures
      var ps, qs := room.participants, Muxed(room, id, packet).participants;
      && Sound(qs, linked) && Upstreams(qs) == Upstreams(ps)
      && (FullyLinked(ps, linked) ==> FullyLinked(qs, linked))
  {
    var ps := room.participants;
    var qs := Muxed(room, id, packet).participants;
    forall i | 0 <= i < |ps|
      ensures GoodLinks(qs[i], Sources(ps, ps[i].streamId)) && qs[i].slots == ps[i].slots
      ensures qs[i].streamId == ps[i].streamId && qs[i].upstream == ps[i].upstream && qs[i].active == ps[i].active
    {
      if Forwarded(room, id, ps[i]) && Rewrite(ps[i], packet).Some? {
        RewriteGood(ps[i], Sources(ps, ps[i].streamId), packet);
      }
    }
    assert Owners(qs);
    TablesKept(ps, qs);
    PresentKept(ps, qs);
    SameUpstreams(ps, qs);
    if FullyLinked(ps, linked) {
      LinkedKept(ps, qs, linked);
    }
  }

  lemma ActivateKeeps(ps: seq<Participant>, linked: set<int>, n: nat)
    requires Sound(ps, linked) && n < |ps| && ps[n].streamId in linked
    ensures
      var qs := ps[n := ps[n].(active := true)];
      && Sound(qs, linked) && Upstreams(qs) == Upstreams(ps)
      && (FullyLinked(ps, linked) ==> FullyLinked(qs, linked))
  {
    var p := ps[n].(active := true);
    ActiveIrrelevant(ps[n], Sources(ps, ps[n].streamId));
    assert UniqueUpstreams(ps[n := p]);
    ReplaceKeeps(ps, linked, n, p);
    SameUpstreams(ps, ps[n := p]);
  }

  lemma ActiveIrrelevant(p: Participant, sources: map<uint32, int>)
    requires GoodLinks(p, sources)
    ensures GoodLinks(p.(active := true), sources)
  {
    var q := p.(active := true);
    forall k | 0 <= k < |q.slots| && q.slots[k].up != 0 ensures Named(q, q.slots[k], sources) {
      assert Named(p, p.slots[k], sources);
    }
  }

  /** Owners, tables and status are kept in a room of any size, the links among the linked
      where at most six have offered. */
  lemma StepKeeps(s: System, step: Step, capacity: nat)
    requires Sound(s.room.participants, s.linked) && |Upstreams(s.room.participants)| <= capacity
    requires Enabled(s, step, capacity)
    ensures
      var t := Next(s, step);
      && Sound(t.room.participants, t.linked) && |Upstreams(t.room.participants)| <= capacity
      && (capacity <= SLOT_COUNT + 1 && FullyLinked(s.room.participants, s.linked) ==>
            FullyLinked(t.room.participants, t.linked))
  {
    hide Sound, FullyLinked, LinkedAll, Removed, Muxed, Offered, Upstreams;
    var ps := s.room.participants;
    match step
    case Add(id, role) => AddKeeps(ps, s.linked, Participant(id, role, false, 0, [], map[]));
    case Offer(id, x, downs) => OfferKeeps(ps, s.linked, IndexOf(ps, id), x, downs);
    case LinkReady(id) => LinkReadyKeeps(ps, s.linked, id);
    case Activate(id) => ActivateKeeps(ps, s.linked, IndexOf(ps, id));
    case Remove(id) =>
      RemoveKeeps(s.room, s.linked, IndexOf(ps, id));
      SubsetCount(Upstreams(Next(s, step).room.participants), Upstreams(ps));
    case Publish(ids) =>
    case Video(id, packet) => VideoKeeps(s.room, s.linked, id, packet);
  }

  /** Every state of every room is sound; and fully linked, if never more than six
      participants with an offer were in it at a time. */
  lemma {:induction false} ReachableGood(steps: seq<Step>, s: System, capacity: nat)
    requires Reaches(steps, s, capacity)
    ensures Sound(s.room.participants, s.linked) && |Upstreams(s.room.participants)| <= capacity
    ensures capacity <= SLOT_COUNT + 1 ==> Invariant(s)
  {
    hide Next, Enabled;
    if steps == [] {
      EmptyIsSound();
    } else {
      var n := |steps| - 1;
      var before := After(steps[..n], capacity).value;
      ReachableGood(steps[..n], before, capacity);
      StepKeeps(before, steps[n], capacity);
    }
  }

  lemma EmptyIsSound()
    ensures Invariant(EMPTY) && |Upstreams(EMPTY.room.participants)| == 0
  {
    assert Upstreams([]) == {};
  }
}
