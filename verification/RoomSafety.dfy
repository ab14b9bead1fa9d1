/** What every run of the classroom guarantees, and the room size it depends on. */
module RoomSafety {
  import opened Common
  import opened Widths
  import opened SwitchContext
  import opened RoomState
  import opened RoomProtocol

  /** In a room that never has more than six participants with an offer, an active receiver
      has exactly one slot for every other active sender, and its context names the sender. */
  lemma OneSlotPerSender(steps: seq<Step>, s: System, capacity: nat, i: int, j: int)
    requires Reaches(steps, s, capacity) && capacity <= SLOT_COUNT + 1
    requires 0 <= i < |s.room.participants| && 0 <= j < |s.room.participants| && i != j
    requires s.room.participants[i].active && s.room.participants[j].active
    ensures
      var p, q := s.room.participants[i], s.room.participants[j];
      exists k :: && 0 <= k < |p.slots| && p.slots[k].up == q.upstream
                  && (forall m :: 0 <= m < |p.slots| && p.slots[m].up == q.upstream ==> m == k)
                  && p.slots[k].down in p.contexts
                  && p.contexts[p.slots[k].down].sourceSsrc == q.upstream
                  && p.contexts[p.slots[k].down].sourceStreamId == q.streamId
  {
    ReachableGood(steps, s, capacity);
    SlotOf(s, i, j);
  }

  lemma SlotOf(s: System, i: int, j: int)
    requires Invariant(s)
    requires 0 <= i < |s.room.participants| && 0 <= j < |s.room.participants| && i != j
    requires s.room.participants[i].streamId in s.linked && s.room.participants[j].streamId in s.linked
    ensures
      var p, q := s.room.participants[i], s.room.participants[j];
      && q.upstream != 0
      && exists k :: && 0 <= k < |p.slots| && p.slots[k].up == q.upstream
                     && (forall m :: 0 <= m < |p.slots| && p.slots[m].up == q.upstream ==> m == k)
                     && p.slots[k].down in p.contexts && p.slots[k].down != 0
                     && p.contexts[p.slots[k].down].sourceSsrc == q.upstream
                     && p.contexts[p.slots[k].down].sourceStreamId == q.streamId
  {
    hide GoodLinks, Sources, NoDoubleLink;
    var ps := s.room.participants;
    var p, q := ps[i], ps[j];
    var sources := Sources(ps, p.streamId);
    assert GoodLinks(p, sources);
    assert Holds(p.slots, q.upstream);
    SourceOf(ps, i, j);
    var k := OneSlot(p, sources, q.upstream);
  }

  lemma SourceOf(ps: seq<Participant>, i: int, j: int)
    requires Owners(ps) && 0 <= i < |ps| && 0 <= j < |ps| && i != j && ps[j].upstream != 0
    ensures
      var sources := Sources(ps, ps[i].streamId);
      ps[j].upstream in sources && sources[ps[j].upstream] == ps[j].streamId
  {}

  lemma OneSlot(p: Participant, sources: map<uint32, int>, x: uint32) returns (k: int)
    requires GoodLinks(p, sources) && Holds(p.slots, x) && x != 0
    ensures 0 <= k < |p.slots| && p.slots[k].up == x && x in sources
    ensures forall m :: 0 <= m < |p.slots| && p.slots[m].up == x ==> m == k
    ensures p.slots[k].down in p.contexts && p.slots[k].down != 0
    ensures p.contexts[p.slots[k].down].sourceSsrc == x
    ensures p.contexts[p.slots[k].down].sourceStreamId == sources[x]
  {
    k :| 0 <= k < |p.slots| && p.slots[k].up == x;
    assert Named(p, p.slots[k], sources);
  }

  /** No assertion in the header rewriting fails for a forwarded video packet, and
      each receiver gets it under its own downstream SSRC for that sender. */
  lemma RelayNeverFails(steps: seq<Step>, s: System, capacity: nat, id: int, packet: RtpPacket)
    requires Reaches(steps, s, capacity) && capacity <= SLOT_COUNT + 1 && Enabled(s, Video(id, packet), capacity)
    ensures MuxSucceeds(s.room, id, packet)
    ensures forall i :: 0 <= i < |s.room.participants| && Forwarded(s.room, id, s.room.participants[i]) ==>
      var p := s.room.participants[i];
      exists k :: 0 <= k < |p.slots| && p.slots[k].up == packet.ssrc
        && Rewrite(p, packet).value.1.ssrc == p.slots[k].down
        && p.contexts[p.slots[k].down].sourceStreamId == id
  {
    ReachableGood(steps, s, capacity);
    var ps := s.room.participants;
    var n := IndexOf(ps, id);
    forall i | 0 <= i < |ps| && Forwarded(s.room, id, ps[i])
      ensures Rewrite(ps[i], packet).Some?
      ensures
        var p := ps[i];
        exists k :: 0 <= k < |p.slots| && p.slots[k].up == packet.ssrc
          && Rewrite(p, packet).value.1.ssrc == p.slots[k].down
          && p.contexts[p.slots[k].down].sourceStreamId == id
    {
      SlotOf(s, i, n);
      var k := Find(ps[i].slots, packet.ssrc);
    }
  }

  /** In a room of any size the rewriting for a receiver succeeds exactly when one of its
      slots is linked to the sender. */
  lemma RewritesIffLinked(steps: seq<Step>, s: System, capacity: nat, i: int, packet: RtpPacket)
    requires Reaches(steps, s, capacity) && 0 <= i < |s.room.participants| && packet.ssrc != 0
    ensures Rewrite(s.room.participants[i], packet).Some? <==> Holds(s.room.participants[i].slots, packet.ssrc)
  {
    ReachableGood(steps, s, capacity);
    var ps := s.room.participants;
    var p, sources := ps[i], Sources(ps, ps[i].streamId);
    assert GoodLinks(p, sources);
    var k := Find(p.slots, packet.ssrc);
    if k < |p.slots| {
      assert Named(p, p.slots[k], sources);
    }
  }

  // ---------------------------------------------------------------- room size

  lemma {:induction false} SlotsHoldFew(slots: seq<Slot>, wanted: set<uint32>)
    requires forall x :: x in wanted ==> Holds(slots, x)
    ensures |wanted| <= |slots|
  {
    if slots == [] {
      assert forall x :: x in wanted ==> Holds(slots, x);
      assert wanted == {};
    } else {
      var n := |slots| - 1;
      var rest := wanted - {slots[n].up};
      forall x | x in rest ensures Holds(slots[..n], x) {
        var k :| 0 <= k < |slots| && slots[k].up == x;
        assert slots[..n][k].up == x;
      }
      SlotsHoldFew(slots[..n], rest);
      SubsetCount(wanted, rest + {slots[n].up});
    }
  }

  /** Where more than six participants have offered, in a room of any size and whatever
      happened before, each of them misses some other sender: relaying that sender's video to
      it trips an assertion. */
  lemma SeventhParticipantFails(steps: seq<Step>, s: System, capacity: nat, i: int,
                                seqNum: uint16, ts: uint32, payload: seq<int>) returns (j: int)
    requires Reaches(steps, s, capacity) && |Upstreams(s.room.participants)| > SLOT_COUNT + 1
    requires 0 <= i < |s.room.participants| && s.room.participants[i].upstream != 0
    ensures 0 <= j < |s.room.participants| && j != i && s.room.participants[j].upstream != 0
    ensures
      var p, q := s.room.participants[i], s.room.participants[j];
      !Holds(p.slots, q.upstream) && Rewrite(p, RtpPacket(q.upstream, seqNum, ts, payload)).None?
  {
    hide Upstreams;
    ReachableGood(steps, s, capacity);
    var ps := s.room.participants;
    assert GoodLinks(ps[i], Sources(ps, ps[i].streamId));
    j := UnservedSender(ps, i);
  }

  lemma UnservedSender(ps: seq<Participant>, i: int) returns (j: int)
    requires |Upstreams(ps)| > SLOT_COUNT + 1 && 0 <= i < |ps| && ps[i].upstream != 0
    requires |ps[i].slots| <= SLOT_COUNT
    ensures 0 <= j < |ps| && j != i && ps[j].upstream != 0
    ensures !Holds(ps[i].slots, ps[j].upstream)
  {
    var others := Upstreams(ps) - {ps[i].upstream};
    assert Upstreams(ps) == others + {ps[i].upstream};
    if forall x :: x in others ==> Holds(ps[i].slots, x) {
      SlotsHoldFew(ps[i].slots, others);
      assert false;
      j := i;
    } else {
      var x :| x in others && !Holds(ps[i].slots, x);
      j :| 0 <= j < |ps| && ps[j].upstream != 0 && ps[j].upstream == x;
    }
  }

  // A run in which seven students join one after the other.

  const DOWNS: seq<uint32> := [1, 2, 3, 4, 5]

  function Crowd(n: nat): seq<Step>
    requires n <= 7
  {
    if n == 0 then []
    else Crowd(n - 1) + [Add(n - 1, Student)] + [Offer(n - 1, n, DOWNS)] + [LinkReady(n - 1)] + [Activate(n - 1)]
  }

  /** The first n are in, with the SSRCs 1 to n, and the first m of them are active. */
  ghost predicate Crowded(s: System, n: nat, m: nat) {
    var ps := s.room.participants;
    && |ps| == n && m <= n
    && (forall k :: 0 <= k < n ==> ps[k].streamId == k && ps[k].upstream == k + 1 && k in s.room.published)
    && (forall k :: 0 <= k < m ==> k in s.linked && ps[k].active)
  }

  ghost function Numbers(m: nat): (r: set<uint32>)
    requires m <= 7
    ensures |r| == m && forall x :: x in r <==> 1 <= x <= m
  {
    if m == 0 then {} else Numbers(m - 1) + {m}
  }

  lemma CrowdUpstreams(ps: seq<Participant>, n: nat)
    requires n <= 7 && n <= |ps| && forall k :: 0 <= k < |ps| ==> ps[k].upstream == if k < n then k + 1 else 0
    ensures |Upstreams(ps)| == n
  {
    forall x | x in Numbers(n) ensures x in Upstreams(ps) {
      assert ps[x - 1].upstream == x;
    }
    assert Upstreams(ps) == Numbers(n);
  }

  lemma AfterSnoc(steps: seq<Step>, s: System, step: Step, capacity: nat)
    requires Reaches(steps, s, capacity) && Enabled(s, step, capacity)
    ensures Reaches(steps + [step], Next(s, step), capacity)
  {
    hide Enabled, Next;
    assert (steps + [step])[..|steps|] == steps;
  }

  lemma AddJoins(s: System, n: nat, capacity: nat) returns (t: System)
    requires n < 7 <= capacity && Crowded(s, n, n)
    ensures Enabled(s, Add(n, Student), capacity) && t == Next(s, Add(n, Student))
    ensures Enabled(t, Offer(n, n + 1, DOWNS), capacity) && Crowded(Next(t, Offer(n, n + 1, DOWNS)), n + 1, n)
  {
    assert Enabled(s, Add(n, Student), capacity);
    t := Next(s, Add(n, Student));
    var ps := t.room.participants;
    assert ps[n].streamId == n;
    assert IndexOf(ps, n) == n;
    CrowdUpstreams(ps, n);
  }

  lemma ReadyJoins(s: System, n: nat) returns (t: System)
    requires Sound(s.room.participants, s.linked) && n < 7 && Crowded(s, n + 1, n)
    ensures Enabled(s, LinkReady(n), 0) && t == Next(s, LinkReady(n))
    ensures Enabled(t, Activate(n), 0) && Crowded(Next(t, Activate(n)), n + 1, n + 1)
  {
    hide Tables, LinkedAll;
    var ps := s.room.participants;
    assert ps[n].streamId == n;
    assert Enabled(s, LinkReady(n), 0);
    t := Next(s, LinkReady(n));
    ReadyTables(ps, n);
    assert t.room.participants[n].streamId == n;
  }

  lemma {:induction false} CrowdJoins(n: nat, capacity: nat) returns (s: System)
    requires n <= 7 <= capacity
    ensures Reaches(Crowd(n), s, capacity) && Crowded(s, n, n)
  {
    hide Crowded, Enabled, Next, Reaches, Sound;
    if n == 0 {
      s := EMPTY;
      NobodyYet(capacity);
    } else {
      var s0 := CrowdJoins(n - 1, capacity);
      var s1 := AddJoins(s0, n - 1, capacity);
      AfterSnoc(Crowd(n - 1), s0, Add(n - 1, Student), capacity);
      var run := Crowd(n - 1) + [Add(n - 1, Student)];
      AfterSnoc(run, s1, Offer(n - 1, n, DOWNS), capacity);
      run := run + [Offer(n - 1, n, DOWNS)];
      var s2 := Next(s1, Offer(n - 1, n, DOWNS));
      ReachableGood(run, s2, capacity);
      var s3 := ReadyJoins(s2, n - 1);
      AnyCapacity(s2, LinkReady(n - 1), capacity);
      AfterSnoc(run, s2, LinkReady(n - 1), capacity);
      AnyCapacity(s3, Activate(n - 1), capacity);
      AfterSnoc(run + [LinkReady(n - 1)], s3, Activate(n - 1), capacity);
      s := Next(s3, Activate(n - 1));
    }
  }

  lemma NobodyYet(capacity: nat)
    ensures Reaches([], EMPTY, capacity) && Crowded(EMPTY, 0, 0)
  {}

  lemma AnyCapacity(s: System, step: Step, capacity: nat)
    requires Enabled(s, step, 0)
    ensures Enabled(s, step, capacity)
  {}

  /** The seven of them are active, and the packet of one cannot be relayed to the first. */
  lemma CrowdFails(capacity: nat) returns (s: System, id: int, packet: RtpPacket)
    requires 7 <= capacity
    ensures Reaches(Crowd(7), s, capacity) && Enabled(s, Video(id, packet), capacity) && !MuxSucceeds(s.room, id, packet)
  {
    s := CrowdJoins(7, capacity);
    var ps := s.room.participants;
    CrowdUpstreams(ps, 7);
    var j := SeventhParticipantFails(Crowd(7), s, capacity, 0, 0, 0, []);
    id := j;
    packet := RtpPacket(ps[j].upstream, 0, 0, []);
    assert IndexOf(ps, id) == j;
    assert !RelaySucceeds(s.room, id, packet, ps[0]);
  }

  ghost predicate AlwaysRelays(capacity: nat) {
    forall steps, s, id, packet :: Reaches(steps, s, capacity) && Enabled(s, Video(id, packet), capacity) ==>
      MuxSucceeds(s.room, id, packet)
  }

  /** Relaying video never fails an assertion, whatever happens in the room, exactly when the
      room is held to six participants with an offer. */
  lemma AlwaysRelaysIff(capacity: nat)
    ensures AlwaysRelays(capacity) <==> capacity <= 6
  {
    hide Reaches, Enabled, MuxSucceeds;
    if capacity <= SLOT_COUNT + 1 {
      forall steps, s, id, packet | Reaches(steps, s, capacity) && Enabled(s, Video(id, packet), capacity)
        ensures MuxSucceeds(s.room, id, packet)
      {
        RelayNeverFails(steps, s, capacity, id, packet);
      }
    } else {
      var s, id, packet := CrowdFails(capacity);
    }
  }

  /** A missed link is not made up for when someone else leaves, so what counts is
      the largest size the room ever had, not its present size. */
  lemma MissedLinkStays(room: Room, gone: nat, i: nat, x: uint32)
    requires gone < |room.participants| && i < |room.participants| && i != gone && x != 0
    requires !Holds(room.participants[i].slots, x)
    ensures
      var after := Removed(room, gone).participants;
      var k := if i < gone then i else i - 1;
      k < |after| && after[k].streamId == room.participants[i].streamId && !Holds(after[k].slots, x)
  {
    var after := Removed(room, gone).participants;
    var k := if i < gone then i else i - 1;
    assert after[k] == UnlinkFrom(room.participants[i], room.participants[gone].upstream);
    forall m | 0 <= m < |after[k].slots| ensures after[k].slots[m].up != x {
      assert room.participants[i].slots[m].up != x;
    }
  }

  // ---------------------------------------------------------------- stream video map

  /** An entry of the map comes from the slot its video id names, and back. */
  lemma {:induction false} VideoMapEntries(p: Participant, m: nat)
    requires m <= |p.slots| && HasContexts(p)
    ensures forall e :: e in VideoMap(p, m) ==>
      1 <= e.videoId <= m && p.slots[e.videoId - 1].up != 0
      && e.streamId == p.contexts[p.slots[e.videoId - 1].down].sourceStreamId
    ensures forall k :: 0 <= k < m && p.slots[k].up != 0 ==>
      VideoEntry(p.contexts[p.slots[k].down].sourceStreamId, k + 1) in VideoMap(p, m)
    ensures forall a, b :: 0 <= a < b < |VideoMap(p, m)| ==> VideoMap(p, m)[a].videoId < VideoMap(p, m)[b].videoId
  {
    if m > 0 {
      VideoMapEntries(p, m - 1);
    }
  }

  lemma EntryOwner(ps: seq<Participant>, i: int, x: uint32) returns (j: int)
    requires Owners(ps) && 0 <= i < |ps| && x in Sources(ps, ps[i].streamId)
    ensures 0 <= j < |ps| && j != i && ps[j].upstream == x && ps[j].streamId == Sources(ps, ps[i].streamId)[x]
  {
    j :| 0 <= j < |ps| && ps[j].streamId != ps[i].streamId && ps[j].upstream != 0 && ps[j].upstream == x;
  }

  ghost predicate SlotsNamed(p: Participant, sources: map<uint32, int>) {
    forall k :: 0 <= k < |p.slots| && p.slots[k].up != 0 ==>
      p.slots[k].up in sources && p.slots[k].down in p.contexts
      && p.contexts[p.slots[k].down].sourceStreamId == sources[p.slots[k].up]
  }

  lemma SlotsNamedWhenGood(p: Participant, sources: map<uint32, int>)
    requires GoodLinks(p, sources)
    ensures SlotsNamed(p, sources) && HasContexts(p)
  {
    forall k | 0 <= k < |p.slots| && p.slots[k].up != 0
      ensures p.slots[k].up in sources && p.slots[k].down in p.contexts
      ensures p.contexts[p.slots[k].down].sourceStreamId == sources[p.slots[k].up]
    {
      assert Named(p, p.slots[k], sources);
    }
  }

  /** The entry gives q's stream, at the slot of p that is linked to q. */
  ghost predicate Lists(e: VideoEntry, p: Participant, q: Participant) {
    e.streamId == q.streamId && 1 <= e.videoId <= |p.slots| && p.slots[e.videoId - 1].up == q.upstream
  }

  ghost predicate ListsLinkedStreams(ps: seq<Participant>, i: int)
    requires 0 <= i < |ps|
  {
    var p := ps[i];
    && HasContexts(p)
    && var entries := VideoMap(p, |p.slots|);
    && (forall e :: e in entries ==> exists j :: 0 <= j < |ps| && j != i && Lists(e, p, ps[j]))
    && (forall j, k :: 0 <= j < |ps| && 0 <= k < |p.slots| && p.slots[k].up == ps[j].upstream != 0 ==>
          VideoEntry(ps[j].streamId, k + 1) in entries)
    && (forall a, b :: 0 <= a < b < |entries| ==> entries[a].streamId != entries[b].streamId)
  }

  lemma ListsWhenGood(ps: seq<Participant>, i: int)
    requires Owners(ps) && 0 <= i < |ps| && GoodLinks(ps[i], Sources(ps, ps[i].streamId))
    ensures ListsLinkedStreams(ps, i)
  {
    var p := ps[i];
    var sources := Sources(ps, p.streamId);
    SlotsNamedWhenGood(p, sources);
    var entries := VideoMap(p, |p.slots|);
    VideoMapEntries(p, |p.slots|);
    forall e | e in entries
      ensures exists j :: 0 <= j < |ps| && j != i && Lists(e, p, ps[j])
    {
      var j := EntryOwner(ps, i, p.slots[e.videoId - 1].up);
      assert Lists(e, p, ps[j]);
    }
    forall j, k | 0 <= j < |ps| && 0 <= k < |p.slots| && p.slots[k].up == ps[j].upstream != 0
      ensures VideoEntry(ps[j].streamId, k + 1) in entries
    {
      var owner := EntryOwner(ps, i, p.slots[k].up);
    }
    forall a, b | 0 <= a < b < |entries| ensures entries[a].streamId != entries[b].streamId {
      EntriesDiffer(ps, i, entries[a], entries[b]);
    }
  }

  lemma EntriesDiffer(ps: seq<Participant>, i: int, e: VideoEntry, f: VideoEntry)
    requires Owners(ps) && 0 <= i < |ps| && NoDoubleLink(ps[i].slots)
    requires 1 <= e.videoId < f.videoId <= |ps[i].slots|
    requires
      var sources := Sources(ps, ps[i].streamId);
      var x, y := ps[i].slots[e.videoId - 1].up, ps[i].slots[f.videoId - 1].up;
      x != 0 && y != 0 && x in sources && y in sources && e.streamId == sources[x] && f.streamId == sources[y]
    ensures e.streamId != f.streamId
  {
    var j := EntryOwner(ps, i, ps[i].slots[e.videoId - 1].up);
    var k := EntryOwner(ps, i, ps[i].slots[f.videoId - 1].up);
  }

  /** In every reachable state of a room of any size the stream video map of a participant
      lists each stream linked to it once, at the position of its slot plus one, and no other. */
  lemma VideoMapListsLinkedStreams(steps: seq<Step>, s: System, capacity: nat, i: int)
    requires Reaches(steps, s, capacity) && 0 <= i < |s.room.participants|
    ensures ListsLinkedStreams(s.room.participants, i)
  {
    ReachableGood(steps, s, capacity);
    var ps := s.room.participants;
    assert GoodLinks(ps[i], Sources(ps, ps[i].streamId));
    ListsWhenGood(ps, i);
  }
}
