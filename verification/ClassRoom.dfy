/** The classroom plugin and the classroom, with the loops of
    orbit/classroom_plugin.cc; each method is tied to a function of RoomState.dfy. */
module ClassRoom {
  import opened Common
  import opened Widths
  import opened SwitchContext
  import opened RoomState

  class ClassRoomPlugin {
    const streamId: int
    var role: Role
    var active: bool
    var upstreamSsrc: uint32
    var slots: seq<Slot>
    var contexts: map<uint32, Context>

    function View(): Participant
      reads this
    {
      Participant(streamId, role, active, upstreamSsrc, slots, contexts)
    }

    constructor (id: int)
      ensures View() == Participant(id, Teacher, false, 0, [], map[])
    {
      streamId := id;
      role := Teacher;
      active := false;
      upstreamSsrc := 0;
      slots := [];
      contexts := map[];
    }

    method SetPluginRole(r: Role)
      modifies this
      ensures View() == old(View()).(role := r)
    {
      role := r;
    }

    method SetActive(a: bool)
      modifies this
      ensures View() == old(View()).(active := a)
    {
      active := a;
    }

    method SetUpstreamSsrc(x: uint32)
      modifies this
      ensures View() == old(View()).(upstream := x)
    {
      upstreamSsrc := x;
    }

    method SetExtendedVideoSsrcs(ssrcs: seq<uint32>)
      modifies this
      ensures View() == old(View()).(
        slots := old(slots) + seq(|ssrcs|, i requires 0 <= i < |ssrcs| => Slot(ssrcs[i], 0)))
    {
      var i := 0;
      while i < |ssrcs|
        invariant 0 <= i <= |ssrcs|
        invariant View() == old(View()).(slots := slots)
        invariant slots == old(slots) + seq(i, k requires 0 <= k < i => Slot(ssrcs[k], 0))
      {
        slots := slots + [Slot(ssrcs[i], 0)];
        i := i + 1;
      }
    }

    method UnlinkToSsrc(x: uint32)
      modifies this
      ensures View() == UnlinkFrom(old(View()), x)
    {
      var i := 0;
      while i < |slots|
        invariant 0 <= i <= |slots| == |old(slots)|
        invariant View() == old(View()).(slots := slots)
        invariant forall k :: 0 <= k < i ==> slots[k] == Unlink(old(slots), x)[k]
        invariant forall k :: i <= k < |slots| ==> slots[k] == old(slots)[k]
      {
        if slots[i].up == x {
          slots := slots[i := slots[i].(up := 0)];
        }
        i := i + 1;
      }
      assert slots == Unlink(old(slots), x);
    }

    method LinkToSsrc(x: uint32, id: int)
      modifies this
      ensures View() == LinkTo(old(View()), x, id)
    {
      UnlinkToSsrc(x);
      var i := 0;
      while i < |slots|
        invariant 0 <= i <= |slots|
        invariant View() == UnlinkFrom(old(View()), x)
        invariant forall k :: 0 <= k < i ==> slots[k].up != 0
      {
        if slots[i].up == 0 {
          assert Find(slots, 0) == i;
          var down := slots[i].down;
          slots := slots[i := Slot(down, x)];
          if down in contexts {
            var c := Renew(contexts[down], down, x, id);
            c := c.(lastTs := Wrap32(c.ts + TS_GAP));
            c := c.(lastSeq := Wrap16(c.seqNum + SEQ_GAP));
            c := c.(baseTs := MAX_UINT32, baseSeq := MAX_UINT16);
            contexts := contexts[down := c];
          } else {
            contexts := contexts[down := Renew(FRESH, down, x, id)];
          }
          return;
        }
        i := i + 1;
      }
      assert Find(slots, 0) == |slots|;
    }

    /** None: one of the source's assertions fails. */
    method RewriteRtpHeader(packet: RtpPacket) returns (r: Option<RtpPacket>)
      modifies this
      ensures r.Some? <==> Rewrite(old(View()), packet).Some?
      ensures r.Some? ==> (View(), r.value) == Rewrite(old(View()), packet).value
      ensures r.None? ==> View() == old(View())
    {
      var found := false;
      var down: uint32 := 0;
      var i := 0;
      while i < |slots|
        invariant 0 <= i <= |slots| && !found
        invariant forall k :: 0 <= k < i ==> slots[k].up != packet.ssrc
      {
        if slots[i].up == packet.ssrc {
          assert Find(slots, packet.ssrc) == i;
          down := slots[i].down;
          if down !in contexts {
            return None;
          }
          found := true;
          break;
        }
        i := i + 1;
      }
      if !found || down == 0 {
        return None;
      }
      var c := contexts[down];
      if c.baseSeq as int == -1 {
        c := c.(baseSeq := packet.seqNum);
      }
      c := c.(seqNum := Wrap16(c.lastSeq + (packet.seqNum - c.baseSeq)));
      if c.baseTs == MAX_UINT32 {
        c := c.(baseTs := packet.ts);
      }
      c := c.(ts := Wrap32(c.lastTs + (packet.ts - c.baseTs)));
      contexts := contexts[down := c];
      r := Some(packet.(ssrc := down, seqNum := c.seqNum, ts := c.ts));
    }

    /** A video packet for this receiver: ok is false when an assertion fails,
        sent is what goes to the browser. */
    method RelayRtpPacket(packet: RtpPacket) returns (ok: bool, sent: Option<RtpPacket>)
      modifies this
      ensures !old(active) ==> ok && sent.None? && View() == old(View())
      ensures old(active) ==> (ok <==> Rewrite(old(View()), packet).Some?)
      ensures old(active) && ok ==> sent.Some? && (View(), sent.value) == Rewrite(old(View()), packet).value
      ensures !ok ==> sent.None? && View() == old(View())
    {
      if !active {
        return true, None;
      }
      sent := RewriteRtpHeader(packet);
      ok := sent.Some?;
    }

    method GetStreamVideoMap() returns (ok: bool, entries: seq<VideoEntry>)
      ensures ok <==> HasContexts(View())
      ensures ok ==> entries == VideoMap(View(), |slots|)
    {
      entries := [];
      var i := 0;
      while i < |slots|
        invariant 0 <= i <= |slots|
        invariant forall k :: 0 <= k < i && slots[k].up != 0 ==> slots[k].down in contexts
        invariant HasContexts(View()) ==> entries == VideoMap(View(), i)
      {
        if slots[i].up != 0 {
          if slots[i].down !in contexts {
            return false, entries;
          }
          entries := entries + [VideoEntry(contexts[slots[i].down].sourceStreamId, i + 1)];
        }
        i := i + 1;
      }
      ok := true;
    }
  }

  class Room {
    var plugins: seq<ClassRoomPlugin>
    var published: set<int>
    var masters: set<int>

    constructor ()
      ensures Valid() && View() == RoomState.Room([], {}, {})
    {
      plugins, published, masters := [], {}, {};
    }

    ghost predicate Valid()
      reads this
    {
      forall i, j :: 0 <= i < j < |plugins| ==> plugins[i] != plugins[j]
    }

    ghost function View(): RoomState.Room
      reads this, plugins
    {
      RoomState.Room(Participants(), published, masters)
    }

    ghost function Participants(): seq<Participant>
      reads this, plugins
    {
      seq(|plugins|, i requires 0 <= i < |plugins| reads this, plugins => plugins[i].View())
    }

    /** Nothing stops the caller from adding a plugin twice. */
    method AddParticipant(p: ClassRoomPlugin)
      requires Valid()
      modifies this
      ensures plugins == old(plugins) + [p] && (Valid() <==> p !in old(plugins))
      ensures View() == Added(old(View()), old(p.View()))
    {
      plugins := plugins + [p];
      if p.role == Teacher {
        masters := masters + {p.streamId};
      } else {
        published := published + {p.streamId};
      }
      assert Participants() == old(Participants()) + [old(p.View())];
      assert forall i :: 0 <= i < |old(plugins)| ==> plugins[i] == old(plugins)[i];
      assert plugins[|old(plugins)|] == p;
    }

    /** The first plugin with this stream id, as the room's lookup loops find it. */
    method Lookup(id: int) returns (n: nat)
      ensures n == IndexOf(Participants(), id)
    {
      ghost var ps := Participants();
      n := 0;
      while n < |plugins| && plugins[n].streamId != id
        invariant 0 <= n <= |plugins|
        invariant forall k :: 0 <= k < n ==> ps[k].streamId != id
      {
        n := n + 1;
      }
      assert n < |plugins| ==> ps[n].streamId == id;
    }

    method UnlinkAll(ssrc: uint32)
      requires Valid()
      modifies plugins
      ensures |Participants()| == |old(Participants())|
      ensures forall k :: 0 <= k < |plugins| ==> Participants()[k] == UnlinkFrom(old(Participants())[k], ssrc)
    {
      ghost var ps := Participants();
      var j := 0;
      while j < |plugins|
        invariant 0 <= j <= |plugins|
        invariant forall k :: 0 <= k < j ==> Participants()[k] == UnlinkFrom(ps[k], ssrc)
        invariant forall k :: j <= k < |plugins| ==> Participants()[k] == ps[k]
      {
        plugins[j].UnlinkToSsrc(ssrc);
        j := j + 1;
      }
    }

    /** Room::RemoveParticipant; n says where p stands, when it does. */
    method Erase(p: ClassRoomPlugin) returns (ghost n: nat)
      requires Valid()
      modifies this`plugins, p
      ensures Valid() && n <= |old(plugins)| && forall k :: 0 <= k < n ==> old(plugins)[k] != p
      ensures n == |old(plugins)| ==> plugins == old(plugins) && p.View() == old(p.View())
      ensures n < |old(plugins)| ==> old(plugins)[n] == p && plugins == old(plugins)[..n] + old(plugins)[n + 1..]
      ensures n < |old(plugins)| ==> Participants() == old(Participants())[..n] + old(Participants())[n + 1..]
      ensures n < |old(plugins)| ==> p.View() == old(p.View()).(active := false)
    {
      ghost var ps := Participants();
      var i := 0;
      while i < |plugins|
        invariant 0 <= i <= |plugins|
        invariant plugins == old(plugins) && p.View() == old(p.View())
        invariant forall k :: 0 <= k < i ==> plugins[k] != p
      {
        if plugins[i] == p {
          p.SetActive(false);
          plugins := plugins[..i] + plugins[i + 1..];
          assert forall k :: 0 <= k < |plugins| ==> plugins[k] == old(plugins)[if k < i then k else k + 1] && plugins[k] != p;
          return i;
        }
        i := i + 1;
      }
      n := i;
    }

    /** A plugin that is not in the room still takes its SSRC and its id with it. */
    method RemoveParticipant(p: ClassRoomPlugin)
      requires Valid()
      modifies this, plugins, p
      ensures Valid() && p !in plugins
      ensures p in old(plugins) ==>
        && p.View() == old(p.View()).(active := false)
        && exists n :: 0 <= n < |old(plugins)| && old(plugins)[n] == p && View() == Removed(old(View()), n)
      ensures p !in old(plugins) ==>
        && p.View() == old(p.View()) && plugins == old(plugins)
        && View() == Dropped(old(View()), old(Participants()), old(p.upstreamSsrc), p.streamId)
    {
      ghost var room := View();
      var ssrc := p.upstreamSsrc;
      ghost var n := Erase(p);
      ghost var rest := Participants();
      assert n < |old(plugins)| ==>
        forall k :: 0 <= k < |plugins| ==> plugins[k] == old(plugins)[if k < n then k else k + 1] && plugins[k] != p;
      UnlinkAll(ssrc);
      masters := masters - {p.streamId};
      published := published - {p.streamId};
      assert Participants() == Dropped(room, rest, ssrc, p.streamId).participants;
    }

    /** ok is false when the stream is not there, which the source asserts. */
    method LinkSsrcsToParticipants(id: int) returns (ok: bool)
      requires Valid()
      modifies plugins
      ensures ok <==> exists k :: 0 <= k < |plugins| && plugins[k].streamId == id
      ensures View() == if ok then old(View()).(participants := LinkedAll(old(Participants()), id)) else old(View())
    {
      hide LinkedAll, PairLinked, LinkTo;
      ghost var ps := Participants();
      var n := Lookup(id);
      if n == |plugins| {
        assert forall k :: 0 <= k < |plugins| ==> ps[k].streamId == plugins[k].streamId;
        return false;
      }
      ok := true;
      var ssrc := plugins[n].upstreamSsrc;
      var i := 0;
      while i < |plugins|
        invariant 0 <= i <= |plugins|
        invariant Participants() == FirstLinked(ps, n, ssrc, i)
      {
        LinkPair(n, i, ssrc);
        i := i + 1;
      }
      LoopLinksAll(ps, id);
      assert plugins[n].streamId == id;
    }

    /** The body of the linking loop: n is the new participant, i an old one. */
    method LinkPair(n: nat, i: nat, ssrc: uint32)
      requires Valid() && n < |plugins| && i < |plugins|
      modifies plugins
      ensures Participants() == PairLinked(old(Participants()), n, i, ssrc)
    {
      var newPlugin, oldPlugin := plugins[n], plugins[i];
      if oldPlugin.streamId != newPlugin.streamId {
        oldPlugin.LinkToSsrc(ssrc, newPlugin.streamId);
        newPlugin.LinkToSsrc(oldPlugin.upstreamSsrc, oldPlugin.streamId);
      }
    }

    method PublishStreams(ids: seq<int>)
      modifies this
      ensures plugins == old(plugins) && masters == old(masters)
      ensures published == set i | 0 <= i < |ids| :: ids[i]
    {
      published := {};
      var i := 0;
      while i < |ids|
        invariant 0 <= i <= |ids|
        invariant plugins == old(plugins) && masters == old(masters)
        invariant published == set k | 0 <= k < i :: ids[k]
      {
        published := published + {ids[i]};
        i := i + 1;
      }
    }

    /** The body of the forwarding loop for receiver i. */
    method RelayTo(i: nat, sender: int, packet: RtpPacket, ghost room: RoomState.Room)
      returns (ok: bool, sent: Option<RtpPacket>)
      requires Valid() && i < |plugins| && room.masters == masters && room.published == published
      modifies plugins
      ensures ok <==> RelaySucceeds(room, sender, packet, old(Participants())[i])
      ensures ok ==> Participants() == old(Participants())[i := Received(room, sender, packet, old(Participants())[i])]
      ensures ok ==> sent == if Forwarded(room, sender, old(Participants())[i])
                             then Some(Rewrite(old(Participants())[i], packet).value.1) else None
    {
      var p := plugins[i];
      var shouldForward := false;
      if p.streamId == sender {
        shouldForward := false;
      } else if sender in masters || p.streamId in masters || sender in published {
        shouldForward := true;
      }
      assert shouldForward == ShouldForward(room, sender, p.streamId);
      ok, sent := true, None;
      if shouldForward {
        ok, sent := p.RelayRtpPacket(packet);
      }
    }

    /** ok is false when an assertion of the source fails for some receiver. */
    method MuxRtpPacket(sender: int, packet: RtpPacket) returns (ok: bool, sent: seq<(int, RtpPacket)>)
      requires Valid()
      modifies plugins
      ensures ok <==> MuxSucceeds(old(View()), sender, packet)
      ensures ok ==> View() == Muxed(old(View()), sender, packet)
      ensures ok ==> sent == Sent(old(View()), sender, packet, |plugins|)
    {
      ghost var room := View();
      sent := [];
      var i := 0;
      while i < |plugins|
        invariant 0 <= i <= |plugins|
        invariant Participants() == FirstMuxed(room, sender, packet, i)
        invariant forall k :: 0 <= k < i ==> RelaySucceeds(room, sender, packet, room.participants[k])
        invariant sent == Sent(room, sender, packet, i)
      {
        FirstMuxedAt(room, sender, packet, i, i);
        var relayed, out := RelayTo(i, sender, packet, room);
        if !relayed {
          return false, sent;
        }
        if out.Some? {
          sent := sent + [(plugins[i].streamId, out.value)];
        }
        i := i + 1;
      }
      ok := true;
      LoopMuxesAll(room, sender, packet);
    }

    method GetStreamVideoMap(id: int) returns (ok: bool, entries: seq<VideoEntry>)
      requires Valid()
      ensures
        var n := IndexOf(Participants(), id);
        if n == |plugins| then ok && entries == []
        else
          var p := plugins[n].View();
          (ok <==> HasContexts(p)) && (ok ==> entries == VideoMap(p, |p.slots|))
    {
      var n := Lookup(id);
      if n == |plugins| {
        return true, [];
      }
      ok, entries := plugins[n].GetStreamVideoMap();
    }
  }
}
