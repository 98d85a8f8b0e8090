/**
 * What the reader of src/contracts/browser-wire.ts answers to packets from anyone: it completes
 * nothing that was not sent, and refuses exactly what it should.
 */
module BrowserWireReader {
  import opened Wrappers
  import opened BrowserWire

  datatype Arrival = Arrival(input: Input, now: int)

  /** What the reader holds after these arrivals, whatever they are and whenever. */
  function HeldAfter(history: seq<Arrival>): map<string, Transfer> {
    if history == [] then map[]
    else
      var last := history[|history| - 1];
      Accepted(HeldAfter(history[..|history| - 1]), last.input, last.now).0
  }

  // ---- what it completes was sent ----

  /** The arrivals at these places are the first packets of one transfer, in order. */
  ghost predicate Sent(history: seq<Arrival>, at: seq<nat>, id: string, count: int, pieces: seq<Text>) {
    && |at| == |pieces|
    && (forall j :: 0 <= j < |at| ==>
          at[j] < |history| && history[at[j]].input == Shaped(Packet(1, id, j, count, pieces[j])))
    && (forall i, j :: 0 <= i < j < |at| ==> at[i] < at[j])
  }

  /** A transfer that is held comes from packets that arrived. */
  ghost predicate Backed(history: seq<Arrival>, at: seq<nat>, id: string, t: Transfer) {
    && Sent(history, at, id, t.count, t.pieces) && at != [] && |at| == t.next
    && t.bytes == Bytes(t.pieces) && t.expires == history[at[0]].now + 10000
  }

  lemma SentLonger(history: seq<Arrival>, a: Arrival, at: seq<nat>, id: string, count: int, pieces: seq<Text>)
    requires Sent(history, at, id, count, pieces)
    ensures Sent(history + [a], at, id, count, pieces)
  {
  }

  lemma SentNext(history: seq<Arrival>, a: Arrival, at: seq<nat>, p: Packet, pieces: seq<Text>)
    requires Sent(history, at, p.id, p.count, pieces) && a.input == Shaped(p) && p.wire == 1 && p.index == |pieces|
    ensures Sent(history + [a], at + [|history|], p.id, p.count, pieces + [p.text])
  {
  }

  lemma BytesNext(pieces: seq<Text>, t: Text)
    ensures Bytes(pieces + [t]) == Bytes(pieces) + Utf8Length(t)
  {
    assert (pieces + [t])[..|pieces|] == pieces;
  }

  /** What one arrival does to the transfer of its id: it starts it, goes on with it, or ends it. */
  lemma HeldStep(transfers: map<string, Transfer>, input: Input, now: int, id: string)
    requires id in Accepted(transfers, input, now).0
    ensures var t := Accepted(transfers, input, now).0[id];
            || (id in transfers && t == transfers[id])
            || (input.Shaped? && ValidPacket(input.packet) && input.packet.id == id && t.count == input.packet.count
                && if id in transfers && transfers[id].expires >= now
                   then t == Grown(transfers[id], input.packet) && transfers[id].next == input.packet.index
                   else t == Grown(Transfer([], t.count, 0, 0, now + 10000), input.packet) && input.packet.index == 0)
  {
  }

  lemma BackedStill(init: seq<Arrival>, a: Arrival, at: seq<nat>, id: string, t: Transfer)
    requires Backed(init, at, id, t)
    ensures Backed(init + [a], at, id, t)
  {
    SentLonger(init, a, at, id, t.count, t.pieces);
  }

  lemma BackedGrown(init: seq<Arrival>, a: Arrival, at: seq<nat>, p: Packet, t: Transfer)
    requires Backed(init, at, p.id, t) && a.input == Shaped(p) && p.wire == 1 && t.next == p.index && t.count == p.count
    ensures Backed(init + [a], at + [|init|], p.id, Grown(t, p))
  {
    SentNext(init, a, at, p, t.pieces);
    BytesNext(t.pieces, p.text);
  }

  lemma BackedBegun(init: seq<Arrival>, a: Arrival, p: Packet)
    requires a.input == Shaped(p) && p.wire == 1 && p.index == 0
    ensures Backed(init + [a], [|init|], p.id, Grown(Transfer([], p.count, 0, 0, a.now + 10000), p))
  {
    SentNext(init, a, [], p, []);
    BytesNext([], p.text);
    assert [] + [p.text] == [p.text];
  }

  lemma {:induction false} HeldIsBacked(history: seq<Arrival>, id: string) returns (at: seq<nat>)
    requires id in HeldAfter(history)
    ensures Backed(history, at, id, HeldAfter(history)[id])
    decreases |history|
  {
    var init, last := history[..|history| - 1], history[|history| - 1];
    assert history == init + [last];
    var before, t := HeldAfter(init), HeldAfter(history)[id];
    HeldStep(before, last.input, last.now, id);
    if id in before && t == before[id] {
      at := HeldIsBacked(init, id);
      BackedStill(init, last, at, id, t);
    } else if id in before && before[id].expires >= last.now {
      at := HeldIsBacked(init, id);
      BackedGrown(init, last, at, last.input.packet, before[id]);
      at := at + [|init|];
    } else {
      BackedBegun(init, last, last.input.packet);
      at := [|init|];
    }
  }

  /** A packet that completes a message is the last of a transfer that is held, or the only one of its own. */
  lemma CompletingStep(transfers: map<string, Transfer>, input: Input, now: int)
    requires Accepted(transfers, input, now).1.Complete?
    ensures input.Shaped? && ValidPacket(input.packet)
    ensures var p, text := input.packet, Accepted(transfers, input, now).1.text;
            if p.id in transfers && transfers[p.id].expires >= now
            then var t := transfers[p.id];
                 && t.count == p.count == t.next + 1 && t.next == p.index
                 && text == Joined(t.pieces + [p.text]) && t.bytes + Utf8Length(p.text) <= 4194304
            else p.index == 0 && p.count == 1 && text == Joined([p.text]) && Utf8Length(p.text) <= 4194304
  {
  }

  /**
   * Whatever arrives, and in whatever order: a text that the reader completes is that of `count`
   * packets with one id that arrived in order, the last one now and the first at most 10 seconds ago,
   * of at most 4 MB together.
   */
  lemma CompleteWasSent(history: seq<Arrival>, a: Arrival) returns (at: seq<nat>, pieces: seq<Text>)
    requires Accepted(HeldAfter(history), a.input, a.now).1.Complete?
    ensures a.input.Shaped?
    ensures var p := a.input.packet;
            && Sent(history + [a], at, p.id, p.count, pieces) && |pieces| == p.count >= 1 && at[p.count - 1] == |history|
            && Accepted(HeldAfter(history), a.input, a.now).1.text == Joined(pieces)
            && Bytes(pieces) <= 4194304 && a.now <= (history + [a])[at[0]].now + 10000
  {
    var before, p := HeldAfter(history), a.input.packet;
    CompletingStep(before, a.input, a.now);
    if p.id in before && before[p.id].expires >= a.now {
      at := HeldIsBacked(history, p.id);
      LastOfHeld(history, a, at, p, before[p.id]);
      at, pieces := at + [|history|], before[p.id].pieces + [p.text];
    } else {
      OnlyOne(history, a, p);
      at, pieces := [|history|], [p.text];
    }
  }

  lemma OnlyOne(history: seq<Arrival>, a: Arrival, p: Packet)
    requires a.input == Shaped(p) && p.wire == 1 && p.index == 0 && p.count == 1 && Utf8Length(p.text) <= 4194304
    ensures Sent(history + [a], [|history|], p.id, p.count, [p.text]) && Bytes([p.text]) <= 4194304
    ensures (history + [a])[|history|] == a
  {
    SentNext(history, a, [], p, []);
    BytesNext([], p.text);
    assert [] + [p.text] == [p.text];
  }

  lemma LastOfHeld(history: seq<Arrival>, a: Arrival, at: seq<nat>, p: Packet, t: Transfer)
    requires Backed(history, at, p.id, t) && a.input == Shaped(p) && p.wire == 1 && p.index == t.next
    requires t.count == p.count == t.next + 1 && a.now <= t.expires && t.bytes + Utf8Length(p.text) <= 4194304
    ensures var longer, pieces := at + [|history|], t.pieces + [p.text];
            && Sent(history + [a], longer, p.id, p.count, pieces) && |pieces| == p.count && longer[p.count - 1] == |history|
            && Bytes(pieces) <= 4194304 && a.now <= (history + [a])[longer[0]].now + 10000
  {
    SentNext(history, a, at, p, t.pieces);
    BytesNext(t.pieces, p.text);
  }

  // ---- what it refuses ----

  /** A packet as it should be. */
  predicate Proper(p: Packet) {
    && p.wire == 1 && 1 <= |p.id| <= 80 && 1 <= p.count <= 32 && 0 <= p.index < p.count && |p.text| <= 131072
    && forall c <- p.id :: 'a' <= c <= 'z' || 'A' <= c <= 'Z' || '0' <= c <= '9' || c == '_' || c == '-'
  }

  lemma ProperExactly(p: Packet)
    ensures ValidPacket(p) <==> Proper(p)
  {
    if Proper(p) {
      forall i | 0 <= i < |p.id|
        ensures IdCharacter(p.id[i])
      {
        assert p.id[i] in p.id;
      }
    }
  }

  predicate InTime(transfers: map<string, Transfer>, id: string, now: int) {
    id in transfers && transfers[id].expires >= now
  }

  lemma PurgedExactly(transfers: map<string, Transfer>, now: int, id: string)
    ensures (id in Purged(transfers, now) <==> InTime(transfers, id, now))
    ensures InTime(transfers, id, now) ==> Purged(transfers, now)[id] == transfers[id]
  {
  }

  /**
   * Each refusal, exactly: what is no proper packet; one that neither belongs to a transfer in time nor
   * may begin one; one out of order; and one that takes its transfer over 4 MB. The last two end it.
   */
  lemma RefusedExactly(transfers: map<string, Transfer>, input: Input, now: int)
    ensures var (after, reply) := Accepted(transfers, input, now);
            var live := Purged(transfers, now);
            && (reply.InvalidPacket? <==> input.Malformed? || !Proper(input.packet))
            && (input.Shaped? && Proper(input.packet) ==>
                 var p := input.packet;
                 var known := InTime(transfers, p.id, now);
                 && (reply.InvalidTransfer? <==> !known && (p.index != 0 || |live| >= 8))
                 && (reply.PacketOrder? <==> known && (transfers[p.id].count != p.count || transfers[p.id].next != p.index))
                 && (reply.PacketOrder? || reply.MessageTooLarge? ==> after == live - {p.id})
                 && (reply.MessageTooLarge? ==>
                      Utf8Length(p.text) + (if known then transfers[p.id].bytes else 0) > 4194304))
            && (reply.InvalidPacket? || reply.InvalidTransfer? ==> after == live)
  {
    if input.Shaped? {
      ProperExactly(input.packet);
      PurgedExactly(transfers, now, input.packet.id);
    }
  }
}
