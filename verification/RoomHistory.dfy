/** What each downstream SSRC of a room has seen, kept beside the run: the theorems of
    SwitchContext.dfy about runs of one context are theorems about every room. */
module RoomHistory {
  import opened Common
  import opened Widths
  import opened SwitchContext
  import opened RoomState
  import opened RoomProtocol

  /** For each downstream SSRC, the links and packets since its context was made. */
  type History = map<uint32, seq<Event>>

  function Extended(h: History, down: uint32, e: Event): History {
    if down in h then h[down := h[down] + [e]] else h[down := []]
  }

  /** Linking p to source x: the first link of an SSRC makes its context. */
  function AfterLink(h: History, p: Participant, x: uint32, id: int): History {
    var slots := Unlink(p.slots, x);
    var k := Find(slots, 0);
    if k == |slots| then h else Extended(h, slots[k].down, Link(x, id))
  }

  function AfterEach(h: History, p: Participant, ps: seq<Participant>, m: nat): History
    requires m <= |ps|
  {
    if m == 0 then h else
      var before := AfterEach(h, p, ps, m - 1);
      var q := ps[m - 1];
      if q.streamId == p.streamId then before else AfterLink(before, LinkEach(p, ps, m - 1), q.upstream, q.streamId)
  }

  function AfterPacket(h: History, room: Room, sender: int, packet: RtpPacket, p: Participant): History {
    if Forwarded(room, sender, p) && Rewrite(p, packet).Some? then
      Extended(h, p.slots[Find(p.slots, packet.ssrc)].down, Packet(packet.seqNum, packet.ts))
    else h
  }

  function AfterReady(hs: seq<History>, ps: seq<Participant>, id: int): seq<History>
    requires |hs| == |ps|
  {
    var n := IndexOf(ps, id);
    if n == |ps| then hs else
      seq(|ps|, i requires 0 <= i < |ps| =>
        if i == n then AfterEach(hs[n], ps[n], ps, |ps|)
        else if ps[i].streamId == id then hs[i]
        else AfterLink(hs[i], ps[i], ps[n].upstream, id))
  }

  /** What a step adds to the histories of the participants. */
  function NextHistories(s: System, hs: seq<History>, step: Step): (r: seq<History>)
    requires |hs| == |s.room.participants| && exists capacity :: Enabled(s, step, capacity)
    ensures |r| == |Next(s, step).room.participants|
  {
    var ps := s.room.participants;
    match step
    case Add(id, role) => hs + [map[]]
    case LinkReady(id) => AfterReady(hs, ps, id)
    case Remove(id) => hs[..IndexOf(ps, id)] + hs[IndexOf(ps, id) + 1..]
    case Video(id, packet) =>
      seq(|ps|, i requires 0 <= i < |ps| => AfterPacket(hs[i], s.room, id, packet, ps[i]))
    case _ => hs
  }

  function Histories(steps: seq<Step>, capacity: nat): (r: seq<History>)
    requires After(steps, capacity).Some?
    ensures |r| == |After(steps, capacity).value.room.participants|
  {
    if steps == [] then [] else
      var before := steps[..|steps| - 1];
      NextHistories(After(before, capacity).value, Histories(before, capacity), steps[|steps| - 1])
  }

  // ---------------------------------------------------------------- the tie

  /** The numbers of a context; its names are those of the last link. */
  predicate SameNumbers(c: Context, d: Context) {
    && c.seqNum == d.seqNum && c.ts == d.ts && c.lastTs == d.lastTs && c.baseTs == d.baseTs
    && c.lastSeq == d.lastSeq && c.baseSeq == d.baseSeq
  }

  ghost predicate Recorded(contexts: map<uint32, Context>, h: History) {
    && contexts.Keys == h.Keys
    && forall down :: down in h ==> SameNumbers(contexts[down], Run(h[down]))
  }

  lemma RunExtends(events: seq<Event>, e: Event)
    ensures Run(events + [e]) == Apply(Run(events), e)
  {
    assert (events + [e])[..|events|] == events;
  }

  lemma RunStarts()
    ensures Run([]) == FRESH
  {}

  lemma LinkNumbers(contexts: map<uint32, Context>, h: History, down: uint32, x: uint32, id: int)
    requires Recorded(contexts, h)
    ensures Recorded(contexts[down := ContextFor(contexts, down, x, id)], Extended(h, down, Link(x, id)))
  {
    hide Run;
    if down in h {
      RunExtends(h[down], Link(x, id));
    } else {
      RunStarts();
    }
  }

  lemma PacketNumbers(contexts: map<uint32, Context>, h: History, down: uint32, s: uint16, t: uint32)
    requires Recorded(contexts, h) && down in contexts
    ensures Recorded(contexts[down := Advance(contexts[down], s, t)], Extended(h, down, Packet(s, t)))
  {
    hide Run;
    RunExtends(h[down], Packet(s, t));
  }

  lemma LinkRecorded(h: History, p: Participant, x: uint32, id: int)
    requires Recorded(p.contexts, h)
    ensures Recorded(LinkTo(p, x, id).contexts, AfterLink(h, p, x, id))
  {
    hide Recorded, ContextFor, Extended;
    var slots := Unlink(p.slots, x);
    var k := Find(slots, 0);
    if k < |slots| {
      LinkNumbers(p.contexts, h, slots[k].down, x, id);
    }
  }

  lemma {:induction false} EachRecorded(h: History, p: Participant, ps: seq<Participant>, m: nat)
    requires m <= |ps| && Recorded(p.contexts, h)
    ensures Recorded(LinkEach(p, ps, m).contexts, AfterEach(h, p, ps, m))
  {
    hide Recorded, LinkTo, AfterLink;
    if m > 0 {
      EachRecorded(h, p, ps, m - 1);
      LinkRecorded(AfterEach(h, p, ps, m - 1), LinkEach(p, ps, m - 1), ps[m - 1].upstream, ps[m - 1].streamId);
    }
  }

  lemma PacketRecorded(h: History, room: Room, sender: int, packet: RtpPacket, p: Participant)
    requires Recorded(p.contexts, h)
    ensures Recorded(Received(room, sender, packet, p).contexts, AfterPacket(h, room, sender, packet, p))
  {
    hide Recorded, Advance, Extended;
    if Forwarded(room, sender, p) && Rewrite(p, packet).Some? {
      PacketNumbers(p.contexts, h, p.slots[Find(p.slots, packet.ssrc)].down, packet.seqNum, packet.ts);
    }
  }

  ghost predicate AllRecorded(ps: seq<Participant>, hs: seq<History>) {
    |hs| == |ps| && forall i :: 0 <= i < |ps| ==> Recorded(ps[i].contexts, hs[i])
  }

  lemma ReadyRecorded(ps: seq<Participant>, hs: seq<History>, id: int)
    requires AllRecorded(ps, hs)
    ensures AllRecorded(LinkedAll(ps, id), AfterReady(hs, ps, id))
  {
    hide Recorded, LinkTo, LinkEach, AfterLink, AfterEach;
    var n := IndexOf(ps, id);
    forall i | n < |ps| && 0 <= i < |ps|
      ensures Recorded(LinkedAll(ps, id)[i].contexts, AfterReady(hs, ps, id)[i])
    {
      EachRecorded(hs[n], ps[n], ps, |ps|);
      LinkRecorded(hs[i], ps[i], ps[n].upstream, id);
    }
  }

  lemma StepRecorded(s: System, hs: seq<History>, step: Step)
    requires AllRecorded(s.room.participants, hs) && exists capacity :: Enabled(s, step, capacity)
    ensures AllRecorded(Next(s, step).room.participants, NextHistories(s, hs, step))
  {
    hide Recorded, LinkedAll, AfterReady, Received, AfterPacket;
    var ps := s.room.participants;
    match step
    case LinkReady(id) => ReadyRecorded(ps, hs, id);
    case Add(_, _) => NothingRecorded();
    case Video(id, packet) =>
      forall i | 0 <= i < |ps|
        ensures Recorded(Received(s.room, id, packet, ps[i]).contexts, AfterPacket(hs[i], s.room, id, packet, ps[i]))
      {
        PacketRecorded(hs[i], s.room, id, packet, ps[i]);
      }
    case _ =>
  }

  lemma NothingRecorded()
    ensures Recorded(map[], map[])
  {}

  /** In every reachable room, however large, each context of each participant has gone
      through the run of the links and packets of its downstream SSRC. */
  lemma {:induction false} ContextsAreRuns(steps: seq<Step>, capacity: nat)
    requires After(steps, capacity).Some?
    ensures AllRecorded(After(steps, capacity).value.room.participants, Histories(steps, capacity))
  {
    hide Recorded, Next, NextHistories, Enabled;
    if steps != [] {
      var before := steps[..|steps| - 1];
      ContextsAreRuns(before, capacity);
      StepRecorded(After(before, capacity).value, Histories(before, capacity), steps[|steps| - 1]);
    }
  }

  /** The header that a receiver of a relayed packet gets has the numbers of the run of its
      downstream SSRC, this packet included: the timestamp is the documented counter's
      unless a marker has opened a link, the sequence number that of JumpCounter. */
  lemma RelayedNumbers(steps: seq<Step>, capacity: nat, id: int, packet: RtpPacket, i: nat)
    requires After(steps, capacity).Some? && Enabled(After(steps, capacity).value, Video(id, packet), capacity)
    requires
      var room := After(steps, capacity).value.room;
      i < |room.participants| && Forwarded(room, id, room.participants[i]) && Rewrite(room.participants[i], packet).Some?
    ensures
      var room := After(steps, capacity).value.room;
      var sent := Rewrite(room.participants[i], packet).value.1;
      var h := AfterPacket(Histories(steps, capacity)[i], room, id, packet, room.participants[i]);
      && sent.ssrc in h
      && sent.seqNum == Wrap16(JumpCounter(h[sent.ssrc]).out)
      && ((forall k :: 0 <= k < |h[sent.ssrc]| ==> !Spoils(h[sent.ssrc], k)) ==> sent.ts == Wrap32(TsCounter(h[sent.ssrc]).out))
  {
    hide After, Histories, Enabled, Run, JumpCounter, TsCounter, Spoils, Wrap32, Wrap16;
    var room := After(steps, capacity).value.room;
    var p := room.participants[i];
    var sent := Rewrite(p, packet).value.1;
    ContextsAreRuns(steps, capacity);
    PacketRecorded(Histories(steps, capacity)[i], room, id, packet, p);
    var h := AfterPacket(Histories(steps, capacity)[i], room, id, packet, p);
    var events := h[sent.ssrc];
    assert SameNumbers(Received(room, id, packet, p).contexts[sent.ssrc], Run(events));
    SequenceRefinesJumps(events);
    if forall k :: 0 <= k < |events| ==> !Spoils(events, k) {
      UnspoiledMatches(events, |events|);
      assert events[..|events|] == events;
      MatchesAgrees(events, |events|);
    }
  }
}
