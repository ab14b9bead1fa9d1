/** Values of the classroom: what a participant's plugin and the room hold, and
    what each operation does to them (orbit/classroom_plugin.cc,
    orbit/transport_plugin.h:124-143). The classes in ClassRoom.dfy implement
    these functions; RoomProtocol.dfy proves what every run of them keeps. */
module RoomState {
  import opened Common
  import opened Widths
  import opened SwitchContext

  datatype Role = Teacher | Student

  /** A downstream SSRC and the upstream SSRC linked to it, 0 when free. */
  datatype Slot = Slot(down: uint32, up: uint32)

  datatype Participant = Participant(
    streamId: int,
    role: Role,
    active: bool,
    upstream: uint32,
    slots: seq<Slot>,
    contexts: map<uint32, Context>)

  datatype RtpPacket = RtpPacket(ssrc: uint32, seqNum: uint16, ts: uint32, payload: seq<int>)

  datatype VideoEntry = VideoEntry(streamId: int, videoId: nat)

  datatype Room = Room(participants: seq<Participant>, published: set<int>, masters: set<int>)

  // ---------------------------------------------------------------- slots

  function Unlink(slots: seq<Slot>, x: uint32): (r: seq<Slot>)
    ensures |r| == |slots|
    ensures forall i :: 0 <= i < |r| ==> r[i].down == slots[i].down
    ensures forall i :: 0 <= i < |r| ==> r[i].up == if slots[i].up == x then 0 else slots[i].up
  {
    seq(|slots|, i requires 0 <= i < |slots| => if slots[i].up == x then slots[i].(up := 0) else slots[i])
  }

  /** Index of the first slot holding x, or the number of slots. */
  function Find(slots: seq<Slot>, x: uint32): (k: nat)
    ensures k <= |slots|
    ensures k < |slots| ==> slots[k].up == x
    ensures forall j :: 0 <= j < k ==> slots[j].up != x
  {
    FindFrom(slots, x, 0)
  }

  function FindFrom(slots: seq<Slot>, x: uint32, i: nat): (k: nat)
    requires i <= |slots|
    ensures i <= k <= |slots|
    ensures k < |slots| ==> slots[k].up == x
    ensures forall j :: i <= j < k ==> slots[j].up != x
    decreases |slots| - i
  {
    if i == |slots| || slots[i].up == x then i else FindFrom(slots, x, i + 1)
  }

  function ContextFor(contexts: map<uint32, Context>, down: uint32, x: uint32, id: int): Context {
    if down in contexts then Relink(contexts[down], down, x, id) else Renew(FRESH, down, x, id)
  }

  function LinkTo(p: Participant, x: uint32, id: int): Participant {
    var slots := Unlink(p.slots, x);
    var k := Find(slots, 0);
    if k == |slots| then p.(slots := slots) else
      var down := slots[k].down;
      p.(slots := slots[k := Slot(down, x)],
         contexts := p.contexts[down := ContextFor(p.contexts, down, x, id)])
  }

  function UnlinkFrom(p: Participant, x: uint32): Participant {
    p.(slots := Unlink(p.slots, x))
  }

  // ---------------------------------------------------------------- packets

  /** None stands for a failed assertion in the source. */
  function Rewrite(p: Participant, packet: RtpPacket): Option<(Participant, RtpPacket)> {
    var k := Find(p.slots, packet.ssrc);
    if k == |p.slots| || p.slots[k].down !in p.contexts || p.slots[k].down == 0 then None else
      var down := p.slots[k].down;
      var c := Advance(p.contexts[down], packet.seqNum, packet.ts);
      Some((p.(contexts := p.contexts[down := c]), packet.(ssrc := down, seqNum := c.seqNum, ts := c.ts)))
  }

  predicate ShouldForward(room: Room, sender: int, receiver: int) {
    && receiver != sender
    && (sender in room.masters || receiver in room.masters || sender in room.published)
  }

  /** Does the packet reach this participant's header rewriting? */
  predicate Forwarded(room: Room, sender: int, p: Participant) {
    ShouldForward(room, sender, p.streamId) && p.active
  }

  // ---------------------------------------------------------------- room

  /** Index of the first participant with this stream id, or their number. */
  function IndexOf(ps: seq<Participant>, id: int): (k: nat)
    ensures k <= |ps|
    ensures k < |ps| ==> ps[k].streamId == id
    ensures forall j :: 0 <= j < k ==> ps[j].streamId != id
  {
    IndexFrom(ps, id, 0)
  }

  function IndexFrom(ps: seq<Participant>, id: int, i: nat): (k: nat)
    requires i <= |ps|
    ensures i <= k <= |ps|
    ensures k < |ps| ==> ps[k].streamId == id
    ensures forall j :: i <= j < k ==> ps[j].streamId != id
    decreases |ps| - i
  {
    if i == |ps| || ps[i].streamId == id then i else IndexFrom(ps, id, i + 1)
  }

  function Added(room: Room, p: Participant): Room {
    var r := room.(participants := room.participants + [p]);
    if p.role == Teacher then r.(masters := r.masters + {p.streamId}) else r.(published := r.published + {p.streamId})
  }

  /** Participant p linked, in order, to those of the first m others. */
  function LinkEach(p: Participant, ps: seq<Participant>, m: nat): Participant
    requires m <= |ps|
  {
    if m == 0 then p
    else
      var q := ps[m - 1];
      var before := LinkEach(p, ps, m - 1);
      if q.streamId == p.streamId then before else LinkTo(before, q.upstream, q.streamId)
  }

  /** Every other participant is linked to stream id, and it to every other. */
  function LinkedAll(ps: seq<Participant>, id: int): seq<Participant> {
    var n := IndexOf(ps, id);
    if n == |ps| then ps else
      seq(|ps|, i requires 0 <= i < |ps| =>
        if i == n then LinkEach(ps[n], ps, |ps|)
        else if ps[i].streamId == id then ps[i]
        else LinkTo(ps[i], ps[n].upstream, id))
  }

  /** The loop body of LinkSsrcsToParticipants for new participant n, old one i. */
  function PairLinked(ps: seq<Participant>, n: nat, i: nat, x: uint32): (r: seq<Participant>)
    requires n < |ps| && i < |ps|
    ensures |r| == |ps|
  {
    var p, q := ps[n], ps[i];
    if q.streamId == p.streamId then ps
    else ps[i := LinkTo(q, x, p.streamId)][n := LinkTo(p, q.upstream, q.streamId)]
  }

  function FirstLinked(ps: seq<Participant>, n: nat, x: uint32, m: nat): (r: seq<Participant>)
    requires n < |ps| && m <= |ps|
    ensures |r| == |ps|
  {
    if m == 0 then ps else PairLinked(FirstLinked(ps, n, x, m - 1), n, m - 1, x)
  }

  lemma LinkKeepsId(p: Participant, x: uint32, id: int)
    ensures LinkTo(p, x, id).streamId == p.streamId
  {}

  lemma {:induction false} FirstLinkedNew(ps: seq<Participant>, n: nat, x: uint32, m: nat)
    requires n < |ps| && m <= |ps|
    ensures
      var qs := FirstLinked(ps, n, x, m);
      && qs[n] == LinkEach(ps[n], ps, m) && qs[n].streamId == ps[n].streamId
      && (forall k :: m <= k < |ps| && k != n ==> qs[k] == ps[k])
  {
    hide LinkTo;
    if m > 0 {
      FirstLinkedNew(ps, n, x, m - 1);
      LinkKeepsId(LinkEach(ps[n], ps, m - 1), ps[m - 1].upstream, ps[m - 1].streamId);
    }
  }

  lemma {:induction false} FirstLinkedOld(ps: seq<Participant>, n: nat, x: uint32, m: nat, k: nat)
    requires n < |ps| && k < m <= |ps| && k != n
    ensures FirstLinked(ps, n, x, m)[k] ==
      if ps[k].streamId == ps[n].streamId then ps[k] else LinkTo(ps[k], x, ps[n].streamId)
  {
    hide LinkTo, LinkEach;
    FirstLinkedNew(ps, n, x, m - 1);
    if k < m - 1 {
      FirstLinkedOld(ps, n, x, m - 1, k);
    }
  }

  /** The loop links pair by pair what LinkedAll says of each participant. */
  lemma LoopLinksAll(ps: seq<Participant>, id: int)
    requires IndexOf(ps, id) < |ps|
    ensures var n := IndexOf(ps, id); FirstLinked(ps, n, ps[n].upstream, |ps|) == LinkedAll(ps, id)
  {
    var n := IndexOf(ps, id);
    var qs := FirstLinked(ps, n, ps[n].upstream, |ps|);
    FirstLinkedNew(ps, n, ps[n].upstream, |ps|);
    assert |LinkedAll(ps, id)| == |ps|;
    forall k | 0 <= k < |ps| ensures qs[k] == LinkedAll(ps, id)[k] {
      if k != n {
        FirstLinkedOld(ps, n, ps[n].upstream, |ps|, k);
      }
    }
  }

  /** The rest of the room once a participant has left: nobody is linked to its SSRC. */
  function Dropped(room: Room, rest: seq<Participant>, upstream: uint32, id: int): Room {
    Room(seq(|rest|, i requires 0 <= i < |rest| => UnlinkFrom(rest[i], upstream)),
         room.published - {id}, room.masters - {id})
  }

  /** Participant k leaves: it is erased, the others drop its SSRC. */
  function Removed(room: Room, k: nat): Room
    requires k < |room.participants|
  {
    var ps := room.participants;
    Dropped(room, ps[..k] + ps[k + 1..], ps[k].upstream, ps[k].streamId)
  }

  function Received(room: Room, sender: int, packet: RtpPacket, p: Participant): Participant {
    if Forwarded(room, sender, p) && Rewrite(p, packet).Some? then Rewrite(p, packet).value.0 else p
  }

  /** The room after a video packet of the sender has been relayed to everyone. */
  function Muxed(room: Room, sender: int, packet: RtpPacket): Room {
    room.(participants := seq(|room.participants|, i requires 0 <= i < |room.participants| =>
      Received(room, sender, packet, room.participants[i])))
  }

  /** The same, relayed to the first m participants only. */
  function FirstMuxed(room: Room, sender: int, packet: RtpPacket, m: nat): (r: seq<Participant>)
    requires m <= |room.participants|
    ensures |r| == |room.participants|
  {
    if m == 0 then room.participants
    else FirstMuxed(room, sender, packet, m - 1)[m - 1 := Received(room, sender, packet, room.participants[m - 1])]
  }

  lemma {:induction false} FirstMuxedAt(room: Room, sender: int, packet: RtpPacket, m: nat, k: nat)
    requires m <= |room.participants| && k < |room.participants|
    ensures FirstMuxed(room, sender, packet, m)[k] ==
      if k < m then Received(room, sender, packet, room.participants[k]) else room.participants[k]
  {
    if m > 0 {
      FirstMuxedAt(room, sender, packet, m - 1, k);
    }
  }

  lemma LoopMuxesAll(room: Room, sender: int, packet: RtpPacket)
    ensures FirstMuxed(room, sender, packet, |room.participants|) == Muxed(room, sender, packet).participants
  {
    forall k | 0 <= k < |room.participants|
      ensures FirstMuxed(room, sender, packet, |room.participants|)[k] == Muxed(room, sender, packet).participants[k]
    {
      FirstMuxedAt(room, sender, packet, |room.participants|, k);
    }
  }

  /** Do the source's assertions hold while the packet is relayed to p? */
  predicate RelaySucceeds(room: Room, sender: int, packet: RtpPacket, p: Participant) {
    Forwarded(room, sender, p) ==> Rewrite(p, packet).Some?
  }

  predicate MuxSucceeds(room: Room, sender: int, packet: RtpPacket) {
    forall i :: 0 <= i < |room.participants| ==> RelaySucceeds(room, sender, packet, room.participants[i])
  }

  /** What leaves the room for the first m participants, when nothing fails. */
  function Sent(room: Room, sender: int, packet: RtpPacket, m: nat): seq<(int, RtpPacket)>
    requires m <= |room.participants|
  {
    if m == 0 then [] else
      var p := room.participants[m - 1];
      var before := Sent(room, sender, packet, m - 1);
      if Forwarded(room, sender, p) && Rewrite(p, packet).Some? then
        before + [(p.streamId, Rewrite(p, packet).value.1)]
      else before
  }

  /** Every linked slot has the context GetStreamVideoMap looks up. */
  predicate HasContexts(p: Participant) {
    forall k :: 0 <= k < |p.slots| && p.slots[k].up != 0 ==> p.slots[k].down in p.contexts
  }

  /** The entries for the first m slots; video ids count slots from one. */
  function VideoMap(p: Participant, m: nat): seq<VideoEntry>
    requires m <= |p.slots| && HasContexts(p)
  {
    if m == 0 then [] else
      var slot := p.slots[m - 1];
      if slot.up == 0 then VideoMap(p, m - 1)
      else VideoMap(p, m - 1) + [VideoEntry(p.contexts[slot.down].sourceStreamId, m)]
  }
}
