/** Who gets a relayed packet, told from what has happened in the room: joins, leaves,
    activations and publications (orbit/classroom_plugin.cc:251-275, 300-327, 439-465). */
module RoomDelivery {
  import opened Common
  import opened Widths
  import opened SwitchContext
  import opened RoomState
  import opened RoomProtocol

  // ---------------------------------------------------------------- the steps' own words

  /** Joined in this role, and not left since. */
  ghost predicate JoinedAs(steps: seq<Step>, id: int, role: Role) {
    exists k :: 0 <= k < |steps| && steps[k] == Add(id, role) && forall j :: k < j < |steps| ==> steps[j] != Remove(id)
  }

  /** Activated, and not left since. */
  ghost predicate BecameActive(steps: seq<Step>, id: int) {
    exists k :: 0 <= k < |steps| && steps[k] == Activate(id) && forall j :: k < j < |steps| ==> steps[j] != Remove(id)
  }

  /** Joined as a student or named by a publication, and since then neither left nor left
      out by another publication. */
  ghost predicate IsPublished(steps: seq<Step>, id: int) {
    exists k :: 0 <= k < |steps| && Publishes(steps[k], id) && forall j :: k < j < |steps| ==> !Withdraws(steps[j], id)
  }

  predicate Publishes(step: Step, id: int) {
    step == Add(id, Student) || (step.Publish? && id in step.ids)
  }

  predicate Withdraws(step: Step, id: int) {
    step == Remove(id) || (step.Publish? && id !in step.ids)
  }

  /** Who is there, in the order of joining. */
  function Roster(steps: seq<Step>): seq<int> {
    if steps == [] then [] else
      var before := Roster(steps[..|steps| - 1]);
      match steps[|steps| - 1]
      case Add(id, _) => before + [id]
      case Remove(id) => Without(before, id)
      case _ => before
  }

  function Without(ids: seq<int>, id: int): seq<int> {
    if ids == [] then [] else (if ids[0] == id then [] else [ids[0]]) + Without(ids[1..], id)
  }

  /** What a participant has offered: its SSRC, 0 before, and its downstream SSRCs. */
  function OfferOf(steps: seq<Step>, id: int): (uint32, seq<uint32>) {
    if steps == [] then (0, []) else
      match steps[|steps| - 1]
      case Offer(i, x, downs) => if i == id then (x, downs) else OfferOf(steps[..|steps| - 1], id)
      case Remove(i) => if i == id then (0, []) else OfferOf(steps[..|steps| - 1], id)
      case _ => OfferOf(steps[..|steps| - 1], id)
  }

  /** The receivers of a packet: active others, if either side is a teacher or the sender is
      published. */
  ghost predicate Gets(steps: seq<Step>, sender: int, id: int) {
    && id != sender && BecameActive(steps, id)
    && (JoinedAs(steps, sender, Teacher) || JoinedAs(steps, id, Teacher) || IsPublished(steps, sender))
  }

  ghost function Audience(steps: seq<Step>, sender: int, ids: seq<int>): seq<int> {
    if ids == [] then [] else
      Audience(steps, sender, ids[..|ids| - 1])
      + (if Gets(steps, sender, ids[|ids| - 1]) then [ids[|ids| - 1]] else [])
  }

  // ---------------------------------------------------------------- one more step

  lemma JoinedSnoc(steps: seq<Step>, step: Step, id: int, role: Role)
    ensures JoinedAs(steps + [step], id, role)
      <==> step == Add(id, role) || (JoinedAs(steps, id, role) && step != Remove(id))
  {
    var more := steps + [step];
    assert more[|steps|] == step;
    if JoinedAs(more, id, role) && step != Add(id, role) {
      var k :| 0 <= k < |more| && more[k] == Add(id, role) && forall j :: k < j < |more| ==> more[j] != Remove(id);
      assert steps[k] == Add(id, role);
      assert forall j :: 0 <= j < |steps| ==> steps[j] == more[j];
    }
    if JoinedAs(steps, id, role) && step != Remove(id) {
      var k :| 0 <= k < |steps| && steps[k] == Add(id, role) && forall j :: k < j < |steps| ==> steps[j] != Remove(id);
      assert more[k] == Add(id, role);
    }
  }

  lemma ActiveSnoc(steps: seq<Step>, step: Step, id: int)
    ensures BecameActive(steps + [step], id)
      <==> step == Activate(id) || (BecameActive(steps, id) && step != Remove(id))
  {
    var more := steps + [step];
    assert more[|steps|] == step;
    if BecameActive(more, id) && step != Activate(id) {
      var k :| 0 <= k < |more| && more[k] == Activate(id) && forall j :: k < j < |more| ==> more[j] != Remove(id);
      assert steps[k] == Activate(id);
      assert forall j :: 0 <= j < |steps| ==> steps[j] == more[j];
    }
    if BecameActive(steps, id) && step != Remove(id) {
      var k :| 0 <= k < |steps| && steps[k] == Activate(id) && forall j :: k < j < |steps| ==> steps[j] != Remove(id);
      assert more[k] == Activate(id);
    }
  }

  lemma PublishedSnoc(steps: seq<Step>, step: Step, id: int)
    ensures IsPublished(steps + [step], id)
      <==> Publishes(step, id) || (IsPublished(steps, id) && !Withdraws(step, id))
  {
    hide Publishes, Withdraws;
    var more := steps + [step];
    assert more[|steps|] == step;
    if IsPublished(more, id) && !Publishes(step, id) {
      var k :| 0 <= k < |more| && Publishes(more[k], id) && forall j :: k < j < |more| ==> !Withdraws(more[j], id);
      assert Publishes(steps[k], id);
      assert forall j :: 0 <= j < |steps| ==> steps[j] == more[j];
    }
    if IsPublished(steps, id) && !Withdraws(step, id) {
      var k :| 0 <= k < |steps| && Publishes(steps[k], id) && forall j :: k < j < |steps| ==> !Withdraws(steps[j], id);
      assert Publishes(more[k], id);
    }
  }

  // ---------------------------------------------------------------- the room is what was said

  function Downs(slots: seq<Slot>): seq<uint32> {
    seq(|slots|, k requires 0 <= k < |slots| => slots[k].down)
  }

  function Ids(ps: seq<Participant>): seq<int> {
    seq(|ps|, i requires 0 <= i < |ps| => ps[i].streamId)
  }

  ghost predicate AsOffered(p: Participant, steps: seq<Step>) {
    p.upstream == OfferOf(steps, p.streamId).0 && Downs(p.slots) == OfferOf(steps, p.streamId).1
  }

  ghost predicate AsJoined(room: Room, steps: seq<Step>) {
    && Ids(room.participants) == Roster(steps)
    && (forall id :: id in Roster(steps) <==> JoinedAs(steps, id, Teacher) || JoinedAs(steps, id, Student))
    && (forall id :: id in room.masters <==> JoinedAs(steps, id, Teacher))
    && (forall id :: id in room.published <==> IsPublished(steps, id))
  }

  ghost predicate AsActivated(room: Room, steps: seq<Step>) {
    && (forall i :: 0 <= i < |room.participants| ==>
          (room.participants[i].active <==> BecameActive(steps, room.participants[i].streamId)))
    && (forall id :: BecameActive(steps, id) ==> Present(room.participants, id))
  }

  ghost predicate OffersKnown(room: Room, steps: seq<Step>) {
    && (forall i :: 0 <= i < |room.participants| ==> AsOffered(room.participants[i], steps))
    && (forall id :: !Present(room.participants, id) ==> OfferOf(steps, id) == (0, []))
  }

  lemma OfferSnoc(steps: seq<Step>, step: Step, id: int)
    ensures OfferOf(steps + [step], id) ==
      if step.Offer? && step.id == id then (step.upstream, step.downs)
      else if step == Remove(id) then (0, []) else OfferOf(steps, id)
    ensures Roster(steps + [step]) ==
      if step.Add? then Roster(steps) + [step.id] else if step.Remove? then Without(Roster(steps), step.id) else Roster(steps)
  {
    assert (steps + [step])[..|steps|] == steps;
  }

  lemma {:induction false} WithoutOne(ids: seq<int>, n: nat)
    requires n < |ids| && forall i, j :: 0 <= i < j < |ids| ==> ids[i] != ids[j]
    ensures Without(ids, ids[n]) == ids[..n] + ids[n + 1..]
  {
    if n == 0 {
      WithoutNone(ids[1..], ids[0]);
    } else {
      WithoutOne(ids[1..], n - 1);
      assert ids[1..][n - 1] == ids[n];
      assert [ids[0]] + (ids[1..][..n - 1] + ids[1..][n..]) == ids[..n] + ids[n + 1..];
    }
  }

  lemma {:induction false} WithoutNone(ids: seq<int>, id: int)
    requires id !in ids
    ensures Without(ids, id) == ids
  {
    if ids != [] {
      WithoutNone(ids[1..], id);
      assert ids == [ids[0]] + ids[1..];
    }
  }

  lemma PresentIsListed(ps: seq<Participant>, id: int)
    ensures Present(ps, id) <==> id in Ids(ps)
  {
    if id in Ids(ps) {
      var i :| 0 <= i < |Ids(ps)| && Ids(ps)[i] == id;
      assert ps[i].streamId == id;
    }
    if Present(ps, id) {
      assert Ids(ps)[IndexOf(ps, id)] == id;
    }
  }

  lemma ReadyKeepsWords(ps: seq<Participant>, id: int)
    ensures var qs := LinkedAll(ps, id);
      && |qs| == |ps|
      && forall i :: 0 <= i < |ps| ==>
           qs[i].streamId == ps[i].streamId && qs[i].active == ps[i].active && qs[i].upstream == ps[i].upstream
           && Downs(qs[i].slots) == Downs(ps[i].slots)
  {
    hide LinkTo, LinkEach, Downs;
    var n := IndexOf(ps, id);
    forall i | n < |ps| && 0 <= i < |ps|
      ensures
        var q := LinkedAll(ps, id)[i];
        q.streamId == ps[i].streamId && q.active == ps[i].active && q.upstream == ps[i].upstream
        && Downs(q.slots) == Downs(ps[i].slots)
    {
      EachKeepsWords(ps[n], ps, |ps|);
      LinkKeepsWords(ps[i], ps[n].upstream, id);
    }
  }

  lemma LinkKeepsWords(p: Participant, x: uint32, id: int)
    ensures
      var q := LinkTo(p, x, id);
      && q.streamId == p.streamId && q.active == p.active && q.upstream == p.upstream && Downs(q.slots) == Downs(p.slots)
  {
    LinkSlots(p, x, id);
  }

  lemma {:induction false} EachKeepsWords(p: Participant, ps: seq<Participant>, m: nat)
    requires m <= |ps|
    ensures
      var q := LinkEach(p, ps, m);
      && q.streamId == p.streamId && q.active == p.active && q.upstream == p.upstream && Downs(q.slots) == Downs(p.slots)
  {
    hide LinkTo, Downs;
    if m > 0 {
      EachKeepsWords(p, ps, m - 1);
      LinkKeepsWords(LinkEach(p, ps, m - 1), ps[m - 1].upstream, ps[m - 1].streamId);
    }
  }

  lemma PacketKeepsWords(room: Room, sender: int, packet: RtpPacket, p: Participant)
    ensures
      var q := Received(room, sender, packet, p);
      q.streamId == p.streamId && q.active == p.active && q.upstream == p.upstream && q.slots == p.slots
  {}

  /** The room after a step, participant by participant. */
  lemma StepWords(s: System, step: Step, capacity: nat)
    requires Enabled(s, step, capacity)
    ensures
      var ps, qs := s.room.participants, Next(s, step).room.participants;
      if step.Add? then qs == ps + [Participant(step.id, step.role, false, 0, [], map[])]
      else if step.Remove? then
        var n := IndexOf(ps, step.id);
        && |qs| == |ps| - 1
        && forall i :: 0 <= i < |qs| ==> qs[i] == UnlinkFrom(ps[Shift(n, i)], ps[n].upstream)
      else
        && |qs| == |ps|
        && forall i :: 0 <= i < |ps| ==>
             && qs[i].streamId == ps[i].streamId
             && (qs[i].active <==> ps[i].active || (step.Activate? && i == IndexOf(ps, step.id)))
             && (if step.Offer? && i == IndexOf(ps, step.id) then
                   qs[i].upstream == step.upstream && Downs(qs[i].slots) == Downs(ps[i].slots) + step.downs
                 else qs[i].upstream == ps[i].upstream && Downs(qs[i].slots) == Downs(ps[i].slots))
  {
    hide LinkedAll, Received;
    var ps := s.room.participants;
    match step
    case LinkReady(id) => ReadyKeepsWords(ps, id);
    case Video(id, packet) =>
      forall i | 0 <= i < |ps|
        ensures
          var q := Received(s.room, id, packet, ps[i]);
          q.streamId == ps[i].streamId && q.active == ps[i].active && q.upstream == ps[i].upstream && q.slots == ps[i].slots
      {
        PacketKeepsWords(s.room, id, packet, ps[i]);
      }
    case _ =>
  }

  lemma IdsAfter(s: System, step: Step, capacity: nat)
    requires Enabled(s, step, capacity)
    ensures
      var ps, ids := s.room.participants, Ids(Next(s, step).room.participants);
      if step.Add? then ids == Ids(ps) + [step.id]
      else if step.Remove? then
        var n := IndexOf(ps, step.id);
        n < |ps| && ids == Ids(ps)[..n] + Ids(ps)[n + 1..]
      else ids == Ids(ps)
  {
    hide Next, IndexOf, Downs;
    StepWords(s, step, capacity);
    EnabledRemove(s, step, capacity);
  }

  lemma EnabledRemove(s: System, step: Step, capacity: nat)
    requires Enabled(s, step, capacity)
    ensures step.Remove? ==> IndexOf(s.room.participants, step.id) < |s.room.participants|
  {}

  lemma RosterKept(s: System, steps: seq<Step>, step: Step, capacity: nat)
    requires Owners(s.room.participants) && Ids(s.room.participants) == Roster(steps) && Enabled(s, step, capacity)
    ensures Ids(Next(s, step).room.participants) == Roster(steps + [step])
  {
    hide Roster, Next, Enabled;
    IdsAfter(s, step, capacity);
    OfferSnoc(steps, step, 0);
    if step.Remove? {
      WithoutOne(Ids(s.room.participants), IndexOf(s.room.participants, step.id));
    }
  }

  /** Which ids a step puts into the two sets and the roster, and takes out. */
  lemma SetsAfter(s: System, step: Step, capacity: nat, id: int)
    requires Enabled(s, step, capacity) && Owners(s.room.participants)
    ensures
      var room, next := s.room, Next(s, step).room;
      && (id in next.masters <==> step == Add(id, Teacher) || (id in room.masters && step != Remove(id)))
      && (id in next.published <==> Publishes(step, id) || (id in room.published && !Withdraws(step, id)))
      && (Present(next.participants, id) <==>
            (step.Add? && step.id == id) || (Present(room.participants, id) && step != Remove(id)))
  {
    hide LinkedAll, Received, Downs;
    var ps := s.room.participants;
    var qs := Next(s, step).room.participants;
    StepWords(s, step, capacity);
    if Present(ps, id) && step != Remove(id) {
      PresentAfter(s, step, capacity, id);
    }
    if step.Add? {
      assert qs[|ps|].streamId == step.id;
    }
    if Present(qs, id) {
      var i := IndexOf(qs, id);
      if step.Remove? {
        assert ps[Shift(IndexOf(ps, step.id), i)].streamId == id;
      } else if i < |ps| {
        assert ps[i].streamId == id;
      }
    }
  }

  lemma AddedAsEither(step: Step, id: int)
    ensures step.Add? && step.id == id <==> step == Add(id, Teacher) || step == Add(id, Student)
  {
    if step.Add? && step.id == id {
      match step.role
      case Teacher =>
      case Student =>
    }
  }

  lemma JoinsKept(s: System, steps: seq<Step>, step: Step, capacity: nat)
    requires Owners(s.room.participants) && AsJoined(s.room, steps) && Enabled(s, step, capacity)
    ensures AsJoined(Next(s, step).room, steps + [step])
  {
    hide Roster, JoinedAs, IsPublished, Next, Enabled, Present;
    var ps := s.room.participants;
    var next := Next(s, step).room;
    var more := steps + [step];
    RosterKept(s, steps, step, capacity);
    forall id
      ensures id in Roster(more) <==> JoinedAs(more, id, Teacher) || JoinedAs(more, id, Student)
      ensures id in next.masters <==> JoinedAs(more, id, Teacher)
      ensures id in next.published <==> IsPublished(more, id)
    {
      JoinedSnoc(steps, step, id, Teacher);
      JoinedSnoc(steps, step, id, Student);
      PublishedSnoc(steps, step, id);
      SetsAfter(s, step, capacity, id);
      PresentIsListed(ps, id);
      PresentIsListed(next.participants, id);
      AddedAsEither(step, id);
    }
  }

  lemma ActivationsKept(s: System, steps: seq<Step>, step: Step, capacity: nat)
    requires Owners(s.room.participants) && AsActivated(s.room, steps) && Enabled(s, step, capacity)
    ensures AsActivated(Next(s, step).room, steps + [step])
  {
    hide BecameActive, Next, Enabled, Present;
    var qs := Next(s, step).room.participants;
    forall id
      ensures BecameActive(steps + [step], id) <==> step == Activate(id) || (BecameActive(steps, id) && step != Remove(id))
      ensures BecameActive(steps + [step], id) ==> Present(qs, id)
    {
      ActiveSnoc(steps, step, id);
      SetsAfter(s, step, capacity, id);
      ActivatedIsPresent(s, step, capacity);
    }
    forall i | 0 <= i < |qs|
      ensures qs[i].active <==> BecameActive(steps + [step], qs[i].streamId)
    {
      ActiveAfter(s, step, capacity, i);
      ActiveSnoc(steps, step, qs[i].streamId);
      ActivatedIsPresent(s, step, capacity);
    }
  }

  lemma ActivatedIsPresent(s: System, step: Step, capacity: nat)
    requires Enabled(s, step, capacity)
    ensures step.Activate? ==> Present(s.room.participants, step.id)
    ensures step.Add? ==> !Present(s.room.participants, step.id)
  {}

  /** A participant after a step was there before with the same flag, or is new. */
  lemma ActiveAfter(s: System, step: Step, capacity: nat, i: nat)
    requires Enabled(s, step, capacity) && Owners(s.room.participants) && i < |Next(s, step).room.participants|
    ensures
      var q := Next(s, step).room.participants[i];
      if step.Add? && step.id == q.streamId then !q.active
      else step != Remove(q.streamId)
           && exists j :: 0 <= j < |s.room.participants| && s.room.participants[j].streamId == q.streamId
                          && (q.active <==> s.room.participants[j].active || step == Activate(q.streamId))
  {
    hide LinkedAll, Received, Downs, Sources, UniqueUpstreams;
    var ps := s.room.participants;
    StepWords(s, step, capacity);
    if step.Remove? {
      var j := Shift(IndexOf(ps, step.id), i);
      assert ps[j].streamId != step.id;
    } else if !step.Add? || i < |ps| {
      assert ps[i].streamId == Next(s, step).room.participants[i].streamId;
      assert step.Add? ==> step.id != ps[i].streamId;
      assert step.Activate? ==> (i == IndexOf(ps, step.id) <==> ps[i].streamId == step.id);
    }
  }

  lemma PresentAfter(s: System, step: Step, capacity: nat, id: int)
    requires Enabled(s, step, capacity) && Present(s.room.participants, id) && step != Remove(id)
    ensures Present(Next(s, step).room.participants, id)
  {
    hide LinkedAll, Received, Downs;
    var ps := s.room.participants;
    var qs := Next(s, step).room.participants;
    StepWords(s, step, capacity);
    var i := IndexOf(ps, id);
    if step.Remove? {
      var n := IndexOf(ps, step.id);
      var j := if i < n then i else i - 1;
      assert Shift(n, j) == i;
      assert qs[j].streamId == id;
    } else {
      assert qs[i].streamId == id;
    }
  }

  lemma NoSlotsYet(ps: seq<Participant>, linked: set<int>, n: nat)
    requires Sound(ps, linked) && n < |ps| && ps[n].upstream == 0
    ensures Downs(ps[n].slots) == []
  {
    assert GoodLinks(ps[n], Sources(ps, ps[n].streamId));
  }

  /** A participant after a step was there before with the same SSRCs, or has just offered
      them, or is new. */
  lemma OfferAfter(s: System, step: Step, capacity: nat, i: nat)
    requires Enabled(s, step, capacity) && Sound(s.room.participants, s.linked)
    requires i < |Next(s, step).room.participants|
    ensures
      var q := Next(s, step).room.participants[i];
      if step.Add? && step.id == q.streamId then q.upstream == 0 && Downs(q.slots) == []
      else
        && step != Remove(q.streamId)
        && exists j :: 0 <= j < |s.room.participants| && s.room.participants[j].streamId == q.streamId
             && if step.Offer? && step.id == q.streamId then q.upstream == step.upstream && Downs(q.slots) == step.downs
                else q.upstream == s.room.participants[j].upstream && Downs(q.slots) == Downs(s.room.participants[j].slots)
  {
    hide LinkedAll, Received, Downs, Sources, Tables, Status, UniqueUpstreams;
    var ps := s.room.participants;
    StepWords(s, step, capacity);
    NoDowns();
    if step.Remove? {
      var j := Shift(IndexOf(ps, step.id), i);
      UnlinkKeepsDowns(ps[j], ps[IndexOf(ps, step.id)].upstream);
      assert ps[j].streamId != step.id;
    } else if !step.Add? || i < |ps| {
      assert ps[i].streamId == Next(s, step).room.participants[i].streamId;
      assert step.Add? ==> step.id != ps[i].streamId;
      if step.Offer? {
        assert i == IndexOf(ps, step.id) <==> ps[i].streamId == step.id;
        NoSlotsYet(ps, s.linked, IndexOf(ps, step.id));
        assert [] + step.downs == step.downs;
      }
    }
  }

  lemma OffersKept(s: System, steps: seq<Step>, step: Step, capacity: nat)
    requires Sound(s.room.participants, s.linked) && OffersKnown(s.room, steps) && Enabled(s, step, capacity)
    ensures OffersKnown(Next(s, step).room, steps + [step])
  {
    hide OfferOf, Next, Enabled, Present, Downs, Sound;
    var qs := Next(s, step).room.participants;
    assert Owners(s.room.participants) by { SoundOwners(s.room.participants, s.linked); }
    OffererIsPresent(s, step, capacity);
    forall id | !Present(qs, id) ensures OfferOf(steps + [step], id) == (0, []) {
      OfferSnoc(steps, step, id);
      SetsAfter(s, step, capacity, id);
    }
    forall i | 0 <= i < |qs| ensures AsOffered(qs[i], steps + [step]) {
      OfferAfter(s, step, capacity, i);
      OfferSnoc(steps, step, qs[i].streamId);
    }
  }

  lemma SoundOwners(ps: seq<Participant>, linked: set<int>)
    requires Sound(ps, linked)
    ensures Owners(ps)
  {}

  lemma OffererIsPresent(s: System, step: Step, capacity: nat)
    requires Enabled(s, step, capacity)
    ensures step.Offer? ==> Present(s.room.participants, step.id)
    ensures step.Add? ==> !Present(s.room.participants, step.id)
  {}

  lemma NoDowns()
    ensures Downs([]) == []
  {}

  lemma UnlinkKeepsDowns(p: Participant, x: uint32)
    ensures Downs(UnlinkFrom(p, x).slots) == Downs(p.slots)
  {}

  /** In every reachable room of any size the participants, the masters, the published, the
      active, and the SSRCs of each are what the steps have said last. */
  lemma {:induction false} RoomIsAsTold(steps: seq<Step>, s: System, capacity: nat)
    requires Reaches(steps, s, capacity)
    ensures AsJoined(s.room, steps) && AsActivated(s.room, steps) && OffersKnown(s.room, steps)
  {
    hide AsJoined, AsActivated, OffersKnown, Next, Enabled;
    if steps == [] {
      NothingTold();
    } else {
      var n := |steps| - 1;
      var before := After(steps[..n], capacity).value;
      RoomIsAsTold(steps[..n], before, capacity);
      ReachableGood(steps[..n], before, capacity);
      JoinsKept(before, steps[..n], steps[n], capacity);
      ActivationsKept(before, steps[..n], steps[n], capacity);
      OffersKept(before, steps[..n], steps[n], capacity);
      assert steps == steps[..n] + [steps[n]];
    }
  }

  lemma NothingTold()
    ensures AsJoined(EMPTY.room, []) && AsActivated(EMPTY.room, []) && OffersKnown(EMPTY.room, [])
  {}

  // ---------------------------------------------------------------- delivery

  function Receivers(sent: seq<(int, RtpPacket)>): seq<int> {
    seq(|sent|, k requires 0 <= k < |sent| => sent[k].0)
  }

  lemma {:induction false} SentToAudience(steps: seq<Step>, room: Room, sender: int, packet: RtpPacket, m: nat)
    requires m <= |room.participants| && AsJoined(room, steps) && AsActivated(room, steps)
    requires MuxSucceeds(room, sender, packet)
    ensures Receivers(Sent(room, sender, packet, m)) == Audience(steps, sender, Ids(room.participants)[..m])
  {
    hide JoinedAs, BecameActive, IsPublished, Rewrite, Roster;
    if m == 0 {
      assert Ids(room.participants)[..0] == [];
    } else {
      SentToAudience(steps, room, sender, packet, m - 1);
      var ids := Ids(room.participants);
      assert ids[..m][..m - 1] == ids[..m - 1] && ids[..m][m - 1] == room.participants[m - 1].streamId;
      assert RelaySucceeds(room, sender, packet, room.participants[m - 1]);
    }
  }

  lemma {:induction false} SentUnchanged(room: Room, sender: int, packet: RtpPacket, m: nat, k: nat)
    requires m <= |room.participants| && k < |Sent(room, sender, packet, m)|
    ensures
      var sent := Sent(room, sender, packet, m)[k];
      && sent.1.payload == packet.payload
      && exists i :: 0 <= i < m && room.participants[i].streamId == sent.0 && sent.1.ssrc in Downs(room.participants[i].slots)
  {
    if k < |Sent(room, sender, packet, m - 1)| {
      SentUnchanged(room, sender, packet, m - 1, k);
    } else {
      var p := room.participants[m - 1];
      assert Downs(p.slots)[Find(p.slots, packet.ssrc)] == p.slots[Find(p.slots, packet.ssrc)].down;
    }
  }

  /** In every reachable room a packet that can be relayed goes to exactly the active others
      that are to have it, to each once, in the order of joining, with its payload unchanged
      and under an SSRC that the receiver has offered. */
  lemma PacketGoesToAudience(steps: seq<Step>, s: System, capacity: nat, id: int, packet: RtpPacket)
    requires Reaches(steps, s, capacity) && Enabled(s, Video(id, packet), capacity) && MuxSucceeds(s.room, id, packet)
    ensures
      var sent := Sent(s.room, id, packet, |s.room.participants|);
      && Receivers(sent) == Audience(steps, id, Roster(steps))
      && (forall r :: r in Receivers(sent) <==> r in Roster(steps) && Gets(steps, id, r))
      && (forall i, j :: 0 <= i < j < |sent| ==> sent[i].0 != sent[j].0)
      && (forall k :: 0 <= k < |sent| ==>
            sent[k].1.payload == packet.payload && sent[k].1.ssrc in OfferOf(steps, sent[k].0).1)
  {
    hide JoinedAs, BecameActive, IsPublished, Roster, Sent, MuxSucceeds, Enabled, Reaches, OfferOf, Downs, Audience, Gets;
    RoomIsAsTold(steps, s, capacity);
    ReachableGood(steps, s, capacity);
    var ps := s.room.participants;
    SentToAudience(steps, s.room, id, packet, |ps|);
    assert Ids(ps)[..|ps|] == Ids(ps);
    var sent := Sent(s.room, id, packet, |ps|);
    forall k | 0 <= k < |sent| ensures sent[k].1.payload == packet.payload && sent[k].1.ssrc in OfferOf(steps, sent[k].0).1 {
      SentUnchanged(s.room, id, packet, |ps|, k);
      var i :| 0 <= i < |ps| && ps[i].streamId == sent[k].0 && sent[k].1.ssrc in Downs(ps[i].slots);
      assert AsOffered(ps[i], steps);
    }
    AudienceOnce(steps, id, Ids(ps));
    forall i, j | 0 <= i < j < |sent| ensures sent[i].0 != sent[j].0 {
      assert Receivers(sent)[i] == sent[i].0 && Receivers(sent)[j] == sent[j].0;
    }
  }

  lemma {:induction false} AudienceOnce(steps: seq<Step>, sender: int, ids: seq<int>)
    requires forall i, j :: 0 <= i < j < |ids| ==> ids[i] != ids[j]
    ensures
      var r := Audience(steps, sender, ids);
      && (forall x :: x in r <==> x in ids && Gets(steps, sender, x))
      && (forall i, j :: 0 <= i < j < |r| ==> r[i] != r[j])
  {
    hide Gets;
    if ids != [] {
      var n := |ids| - 1;
      AudienceOnce(steps, sender, ids[..n]);
      assert ids == ids[..n] + [ids[n]];
      assert ids[n] !in ids[..n];
    }
  }
}
