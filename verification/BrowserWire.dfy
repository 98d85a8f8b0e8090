/**
 * The chunked wire of src/contracts/browser-wire.ts: a splitter over UTF-16 code units and an
 * interleaving reassembler with expiry, slot, count and byte limits. Texts are the JSON texts;
 * JSON itself is outside the model.
 */
module BrowserWire {
  import opened Wrappers

  type CodeUnit = u: int | 0 <= u < 0x1_0000
  type Text = seq<CodeUnit>

  const LIMIT := 4 * 1024 * 1024
  const CHUNK := 131072
  const MAX_COUNT := 32
  const MAX_TRANSFERS := 8
  const LIFETIME := 10000

  // ---- UTF-8 length of a UTF-16 text ----

  predicate High(u: CodeUnit) {
    0xD800 <= u < 0xDC00
  }

  predicate LowHalf(u: CodeUnit) {
    0xDC00 <= u < 0xE000
  }

  /** TextEncoder: a surrogate pair takes four bytes, a lone surrogate is replaced by three. */
  function Utf8Length(t: Text): nat {
    if t == [] then 0
    else if High(t[0]) && |t| > 1 && LowHalf(t[1]) then 4 + Utf8Length(t[2..])
    else (if t[0] < 0x80 then 1 else if t[0] < 0x800 then 2 else 3) + Utf8Length(t[1..])
  }

  /** Cutting between `a` and `b` separates the halves of a pair. */
  predicate CutsPair(a: Text, b: Text) {
    a != [] && b != [] && High(a[|a| - 1]) && LowHalf(b[0])
  }

  /** Cutting a text costs two bytes exactly when it separates a pair. */
  lemma {:induction false} CutCost(a: Text, b: Text)
    ensures Utf8Length(a) + Utf8Length(b) == Utf8Length(a + b) + if CutsPair(a, b) then 2 else 0
    decreases |a|
  {
    if a == [] {
      assert a + b == b;
    } else if High(a[0]) && |a| > 1 && LowHalf(a[1]) {
      assert (a + b)[2..] == a[2..] + b;
      CutCost(a[2..], b);
      if |a| == 2 {
        assert !CutsPair(a, b);
      }
    } else {
      assert (a + b)[1..] == a[1..] + b;
      CutCost(a[1..], b);
      if |a| == 1 && CutsPair(a, b) {
        assert (a + b)[2..] == b[1..];
      }
    }
  }

  lemma {:induction false} UnitsBound(t: Text)
    ensures |t| <= Utf8Length(t)
    decreases |t|
  {
    if t == [] {
    } else if High(t[0]) && |t| > 1 && LowHalf(t[1]) {
      UnitsBound(t[2..]);
    } else {
      UnitsBound(t[1..]);
    }
  }

  // ---- the splitter ----

  function Minimum(a: int, b: int): int {
    if a < b then a else b
  }

  function PacketCount(t: Text): nat {
    if |t| == 0 then 1 else (|t| + CHUNK - 1) / CHUNK
  }

  function Piece(t: Text, index: nat): Text {
    t[Minimum(index * CHUNK, |t|)..Minimum((index + 1) * CHUNK, |t|)]
  }

  function Pieces(t: Text): seq<Text> {
    seq(PacketCount(t), i requires 0 <= i => Piece(t, i))
  }

  datatype Packet = Packet(wire: int, id: string, index: int, count: int, text: Text)

  datatype Split = TooLarge | Packets(packets: seq<Packet>)

  function BrowserPackets(text: Text, id: string): (r: Split)
    ensures r.TooLarge? <==> Utf8Length(text) > LIMIT
  {
    if Utf8Length(text) > LIMIT then TooLarge
    else
      var count := PacketCount(text);
      Packets(seq(count, i requires 0 <= i < count => Packet(1, id, i, count, Piece(text, i))))
  }

  /** Every packet sent is one the reader finds well-formed, and the texts join to the message. */
  lemma PacketsWellFormed(text: Text, id: string)
    requires ValidId(id) && BrowserPackets(text, id).Packets?
    ensures var packets := BrowserPackets(text, id).packets;
            && 1 <= |packets| <= MAX_COUNT
            && |packets| == |Pieces(text)|
            && (forall i :: 0 <= i < |packets| ==>
                 packets[i] == Packet(1, id, i, |packets|, Pieces(text)[i]) && ValidPacket(packets[i]))
            && Joined(Pieces(text)) == text
  {
    UnitsBound(text);
    PiecesJoin(text);
  }

  function Joined(pieces: seq<Text>): Text {
    if pieces == [] then [] else Joined(pieces[..|pieces| - 1]) + pieces[|pieces| - 1]
  }

  lemma {:induction false} PiecesJoinUpTo(t: Text, n: nat)
    requires n <= PacketCount(t)
    ensures Joined(Pieces(t)[..n]) == Front(t, n)
    decreases n
  {
    if n > 0 {
      PiecesJoinUpTo(t, n - 1);
      assert Pieces(t)[..n][..n - 1] == Pieces(t)[..n - 1];
      assert Pieces(t)[..n][n - 1] == Piece(t, n - 1);
    }
  }

  lemma PiecesJoin(t: Text)
    ensures Joined(Pieces(t)) == t
  {
    PiecesJoinUpTo(t, PacketCount(t));
    assert Pieces(t)[..PacketCount(t)] == Pieces(t);
  }

  /** Every packet but the last is full, and the last is empty only if the text is. */
  lemma PiecesFull(t: Text, index: nat)
    requires index < PacketCount(t)
    ensures index + 1 < PacketCount(t) ==> |Piece(t, index)| == 131072
    ensures index + 1 == PacketCount(t) ==> |Piece(t, index)| <= 131072 && (Piece(t, index) == [] ==> t == [] && index == 0)
  {
  }

  /** What the reader counts for a list of pieces. */
  function Bytes(pieces: seq<Text>): nat {
    if pieces == [] then 0 else Bytes(pieces[..|pieces| - 1]) + Utf8Length(pieces[|pieces| - 1])
  }

  lemma {:induction false} BytesMonotone(pieces: seq<Text>, n: nat)
    requires n <= |pieces|
    ensures Bytes(pieces[..n]) <= Bytes(pieces)
    decreases |pieces|
  {
    if n < |pieces| {
      BytesMonotone(pieces[..|pieces| - 1], n);
      assert pieces[..|pieces| - 1][..n] == pieces[..n];
    } else {
      assert pieces[..n] == pieces;
    }
  }

  /** How many of the first n - 1 cuts separate a pair. */
  function CutPairs(t: Text, n: nat): nat {
    if n <= 1 then 0
    else CutPairs(t, n - 1) +
         if CutsPair(Front(t, n - 1), Piece(t, n - 1)) then 1 else 0
  }

  /** The text that the first `n` pieces cover. */
  function Front(t: Text, n: nat): Text {
    t[..Minimum(n * CHUNK, |t|)]
  }

  lemma FrontNext(t: Text, n: nat)
    ensures Front(t, n) + Piece(t, n) == Front(t, n + 1)
  {
  }

  lemma FrontCost(t: Text, n: nat)
    ensures Utf8Length(Front(t, n)) + Utf8Length(Piece(t, n))
         == Utf8Length(Front(t, n + 1)) + if CutsPair(Front(t, n), Piece(t, n)) then 2 else 0
  {
    FrontNext(t, n);
    CutCost(Front(t, n), Piece(t, n));
  }

  lemma NothingInFront(t: Text)
    ensures Utf8Length(Front(t, 0)) == 0 && !CutsPair(Front(t, 0), Piece(t, 0)) && Bytes(Pieces(t)[..0]) == 0
  {
  }

  /** What the reader has counted beyond the sender after `n` pieces. */
  ghost function Surplus(t: Text, n: nat): int
    requires n <= PacketCount(t)
  {
    Bytes(Pieces(t)[..n]) - Utf8Length(Front(t, n)) - 2 * CutPairs(t, n)
  }

  lemma SurplusNext(t: Text, k: nat)
    requires 1 <= k < PacketCount(t)
    ensures Surplus(t, k + 1) == Surplus(t, k)
  {
    NextPiece(t, k);
    FrontCost(t, k);
  }

  lemma SurplusOfFirst(t: Text)
    ensures Surplus(t, 1) == 0
  {
    NextPiece(t, 0);
    FrontCost(t, 0);
    NothingInFront(t);
  }

  lemma {:induction false} NoSurplus(t: Text, n: nat)
    requires 1 <= n <= PacketCount(t)
    ensures Surplus(t, n) == 0
    decreases n
  {
    if n == 1 {
      SurplusOfFirst(t);
    } else {
      NoSurplus(t, n - 1);
      SurplusNext(t, n - 1);
    }
  }

  /** The reader counts the sender's bytes and two more for every pair cut at a chunk boundary. */
  lemma ReaderBytes(t: Text)
    ensures Bytes(Pieces(t)) == Utf8Length(t) + 2 * CutPairs(t, PacketCount(t))
    ensures CutPairs(t, PacketCount(t)) <= PacketCount(t) - 1
  {
    var n := PacketCount(t);
    NoSurplus(t, n);
    assert Pieces(t)[..n] == Pieces(t);
    assert Front(t, n) == t;
    CutPairsBound(t, n);
  }

  lemma {:induction false} CutPairsBound(t: Text, n: nat)
    requires n >= 1
    ensures CutPairs(t, n) <= n - 1
  {
    if n > 1 {
      CutPairsBound(t, n - 1);
    }
  }

  // ---- the reader ----

  datatype Transfer = Transfer(pieces: seq<Text>, count: int, next: int, bytes: int, expires: int)

  datatype Reply =
    | InvalidPacket
    | InvalidTransfer
    | PacketOrder
    | MessageTooLarge
    | Incomplete
    | Complete(text: Text)

  predicate IdCharacter(c: char) {
    'a' <= c <= 'z' || 'A' <= c <= 'Z' || '0' <= c <= '9' || c == '_' || c == '-'
  }

  predicate ValidId(id: string) {
    1 <= |id| <= 80 && forall i :: 0 <= i < |id| ==> IdCharacter(id[i])
  }

  /** What arrives: a packet, or something that is not shaped like one. */
  datatype Input = Malformed | Shaped(packet: Packet)

  predicate ValidPacket(p: Packet) {
    && p.wire == 1 && ValidId(p.id)
    && 1 <= p.count <= MAX_COUNT
    && 0 <= p.index < p.count
    && |p.text| <= CHUNK
  }

  function Purged(transfers: map<string, Transfer>, now: int): map<string, Transfer> {
    map id | id in transfers && transfers[id].expires >= now :: transfers[id]
  }

  function Grown(t: Transfer, p: Packet): Transfer {
    t.(pieces := t.pieces + [p.text], next := t.next + 1, bytes := t.bytes + Utf8Length(p.text))
  }

  /** Adds one packet to the transfer it belongs to. */
  function Appended(live: map<string, Transfer>, transfer: Transfer, p: Packet): (map<string, Transfer>, Reply) {
    if transfer.count != p.count || transfer.next != p.index then (live - {p.id}, PacketOrder)
    else
      var grown := Grown(transfer, p);
      if grown.bytes > LIMIT then (live - {p.id}, MessageTooLarge)
      else
        if grown.next != grown.count then (live[p.id := grown], Incomplete)
        else (live - {p.id}, Complete(Joined(grown.pieces)))
  }

  function Accepted(transfers: map<string, Transfer>, input: Input, now: int): (map<string, Transfer>, Reply) {
    var live := Purged(transfers, now);
    if input.Malformed? || !ValidPacket(input.packet) then (live, InvalidPacket)
    else
      var p := input.packet;
      if p.id in live then Appended(live, live[p.id], p)
      else if p.index != 0 || |live| >= MAX_TRANSFERS then (live, InvalidTransfer)
      else Appended(live, Transfer([], p.count, 0, 0, now + LIFETIME), p)
  }

  class BrowserPacketReader {
    var transfers: map<string, Transfer>

    constructor ()
      ensures transfers == map[]
    {
      transfers := map[];
    }

    method Accept(input: Input, now: int) returns (reply: Reply)
      modifies this
      ensures (transfers, reply) == Accepted(old(transfers), input, now)
    {
      transfers := map id | id in transfers && !(transfers[id].expires < now) :: transfers[id];
      assert transfers == Purged(old(transfers), now);
      if input.Malformed? || !ValidPacket(input.packet) {
        return InvalidPacket;
      }
      var p := input.packet;
      var transfer;
      if p.id in transfers {
        transfer := transfers[p.id];
      } else {
        if p.index != 0 || |transfers| >= MAX_TRANSFERS {
          return InvalidTransfer;
        }
        transfer := Transfer([], p.count, 0, 0, now + LIFETIME);
      }
      reply := Append(transfer, p);
    }

    /** The rest of accept: `transfer` is the live transfer of the packet's id, or a new one. */
    method Append(found: Transfer, p: Packet) returns (reply: Reply)
      modifies this
      ensures (transfers, reply) == Appended(old(transfers), found, p)
    {
      var transfer := found;
      if transfer.count != p.count || transfer.next != p.index {
        transfers := transfers - {p.id};
        return PacketOrder;
      }
      transfer := transfer.(bytes := transfer.bytes + Utf8Length(p.text));
      if transfer.bytes > LIMIT {
        transfers := transfers - {p.id};
        return MessageTooLarge;
      }
      transfer := transfer.(pieces := transfer.pieces + [p.text], next := transfer.next + 1);
      if transfer.next != transfer.count {
        transfers := transfers[p.id := transfer];
        return Incomplete;
      }
      transfers := transfers - {p.id};
      return Complete(Joined(transfer.pieces));
    }

    method Clear()
      modifies this
      ensures transfers == map[]
    {
      transfers := map[];
    }
  }

  // ---- every reachable reader state ----

  ghost predicate TransferOk(t: Transfer) {
    && 0 <= t.next == |t.pieces| < t.count <= MAX_COUNT
    && t.bytes == Bytes(t.pieces) <= LIMIT
  }

  ghost predicate ReaderOk(transfers: map<string, Transfer>) {
    && |transfers| <= MAX_TRANSFERS
    && forall id :: id in transfers ==> TransferOk(transfers[id]) && transfers[id].next > 0
  }

  lemma SmallerMap(smaller: map<string, Transfer>, larger: map<string, Transfer>)
    requires smaller.Keys <= larger.Keys
    ensures |smaller| <= |larger|
  {
    SubsetSize(smaller.Keys, larger.Keys);
  }

  /** Whatever arrives, the limits keep holding: at most 8 transfers, each short and in budget. */
  lemma ReaderStep(transfers: map<string, Transfer>, input: Input, now: int)
    requires ReaderOk(transfers)
    ensures ReaderOk(Accepted(transfers, input, now).0)
  {
    var live := Purged(transfers, now);
    SmallerMap(live, transfers);
    if input.Shaped? && ValidPacket(input.packet) {
      var p := input.packet;
      if p.id in live {
        AppendOk(live, live[p.id], p);
      } else if p.index == 0 && |live| < MAX_TRANSFERS {
        AppendOk(live, Transfer([], p.count, 0, 0, now + LIFETIME), p);
      }
    }
  }

  lemma AppendOk(live: map<string, Transfer>, found: Transfer, p: Packet)
    requires ReaderOk(live) && ValidPacket(p) && TransferOk(found)
    requires p.id in live || |live| < MAX_TRANSFERS
    ensures ReaderOk(Appended(live, found, p).0)
  {
    SmallerMap(live - {p.id}, live);
    if found.bytes + Utf8Length(p.text) <= LIMIT && found.next + 1 != found.count {
      GrownOk(found, p);
      StoreOk(live, p.id, Grown(found, p));
    }
  }

  lemma StoreOk(live: map<string, Transfer>, id: string, t: Transfer)
    requires ReaderOk(live) && TransferOk(t) && t.next > 0
    requires id in live || |live| < MAX_TRANSFERS
    ensures ReaderOk(live[id := t])
  {
    assert live[id := t].Keys == live.Keys + {id};
    if id in live {
      assert live[id := t].Keys == live.Keys;
    }
  }

  lemma GrownOk(t: Transfer, p: Packet)
    requires TransferOk(t) && t.bytes + Utf8Length(p.text) <= LIMIT && t.next + 1 != t.count
    ensures TransferOk(Grown(t, p))
  {
    assert (t.pieces + [p.text])[..|t.pieces|] == t.pieces;
  }

  /** What the reader holds after any inputs at any times. */
  function Held(inputs: seq<(Input, int)>): map<string, Transfer> {
    if inputs == [] then map[]
    else
      var (input, now) := inputs[|inputs| - 1];
      Accepted(Held(inputs[..|inputs| - 1]), input, now).0
  }

  /** Whatever arrives, at whatever times, the limits hold. */
  lemma {:induction false} ReaderAlways(inputs: seq<(Input, int)>)
    ensures ReaderOk(Held(inputs))
    decreases |inputs|
  {
    if inputs != [] {
      var n := |inputs| - 1;
      ReaderAlways(inputs[..n]);
      ReaderStep(Held(inputs[..n]), inputs[n].0, inputs[n].1);
    }
  }

  // ---- interleaved transfers ----

  /**
   * A run: `Ours(id, now)` is the next packet of message `id` arriving at `now`; `Noise` is any
   * other input, valid or not, under none of our ids.
   */
  datatype Event = Ours(id: string, now: int) | Noise(input: Input, now: int)

  function Sent(run: seq<Event>, id: string): nat {
    if run == [] then 0
    else
      var e := run[|run| - 1];
      Sent(run[..|run| - 1], id) + if e.Ours? && e.id == id then 1 else 0
  }

  /** When the first packet of `id` arrived. */
  function Began(run: seq<Event>, id: string): int
    requires Sent(run, id) > 0
  {
    var init := run[..|run| - 1];
    if Sent(init, id) > 0 then Began(init, id) else run[|run| - 1].now
  }

  function InputOf(texts: map<string, Text>, run: seq<Event>, e: Event): Input {
    if e.Noise? then e.input
    else if e.id !in texts then Malformed
    else Shaped(Packet(1, e.id, Sent(run, e.id), PacketCount(texts[e.id]), Piece(texts[e.id], Sent(run, e.id))))
  }

  /** What the reader holds and answers, event after event, from empty. */
  function Outcome(texts: map<string, Text>, run: seq<Event>): (map<string, Transfer>, Reply)
    requires run != []
    decreases |run|, 0
  {
    var init, e := run[..|run| - 1], run[|run| - 1];
    Accepted(ReaderAfter(texts, init), InputOf(texts, init, e), e.now)
  }

  function ReaderAfter(texts: map<string, Text>, run: seq<Event>): map<string, Transfer>
    decreases |run|, 1
  {
    if run == [] then map[] else Outcome(texts, run).0
  }

  /** The messages are within the byte limit as the reader counts it. */
  ghost predicate Sendable(texts: map<string, Text>) {
    forall id :: id in texts ==> SendableAs(id, texts[id])
  }

  predicate SendableAs(id: string, t: Text) {
    ValidId(id) && Utf8Length(t) <= LIMIT && Bytes(Pieces(t)) <= LIMIT
  }

  ghost predicate Foreign(texts: map<string, Text>, input: Input) {
    input.Malformed? || !ValidPacket(input.packet) || input.packet.id !in texts
  }

  /** The event begins a transfer under none of our ids. */
  predicate BeginsForeign(texts: map<string, Text>, e: Event) {
    e.Noise? && e.input.Shaped? && ValidPacket(e.input.packet) && e.input.packet.index == 0 && e.input.packet.id !in texts
  }

  /** The transfers that can be open at `now`: ours under way, and others begun in the last 10 seconds. */
  ghost function Busy(texts: map<string, Text>, run: seq<Event>, now: int): set<string> {
    (set id | id in texts && Open(texts, run, id) && now <= Began(run, id) + LIFETIME)
    + (set i | 0 <= i < |run| && BeginsForeign(texts, run[i]) && now <= run[i].now + LIFETIME :: run[i].input.packet.id)
  }

  /** Event `e` may follow `run`: its sender is in time, and begins only with fewer than 8 open. */
  ghost predicate MayFollow(texts: map<string, Text>, run: seq<Event>, e: Event) {
    && (run != [] ==> run[|run| - 1].now <= e.now)
    && match e
       case Noise(input, now) => Foreign(texts, input)
       case Ours(id, now) =>
         && id in texts
         && Sent(run, id) < PacketCount(texts[id])
         && (if Sent(run, id) == 0 then |Busy(texts, run, now)| < MAX_TRANSFERS
             else now <= Began(run, id) + LIFETIME)
  }

  ghost predicate Run(texts: map<string, Text>, run: seq<Event>) {
    run == [] || (Run(texts, run[..|run| - 1]) && MayFollow(texts, run[..|run| - 1], run[|run| - 1]))
  }

  predicate Open(texts: map<string, Text>, run: seq<Event>, id: string) {
    id in texts && 0 < Sent(run, id) < PacketCount(texts[id])
  }

  /** A transfer that holds the first `k` pieces of a text, begun for `expires`. */
  function Holding(t: Text, k: nat, expires: int): Transfer
    requires k <= PacketCount(t)
  {
    Transfer(Pieces(t)[..k], PacketCount(t), k, Bytes(Pieces(t)[..k]), expires)
  }

  function Expected(texts: map<string, Text>, run: seq<Event>, id: string): Transfer
    requires Open(texts, run, id)
  {
    Holding(texts[id], Sent(run, id), Began(run, id) + LIFETIME)
  }

  ghost predicate Late(run: seq<Event>, id: string)
    requires Sent(run, id) > 0
  {
    run != [] && run[|run| - 1].now > Began(run, id) + LIFETIME
  }

  /** The reader holds this message exactly while it is open and in time. */
  ghost predicate FaithfulAt(texts: map<string, Text>, run: seq<Event>, transfers: map<string, Transfer>, id: string) {
    && (id in transfers ==> Open(texts, run, id) && transfers[id] == Expected(texts, run, id))
    && (Open(texts, run, id) && id !in transfers ==> Late(run, id))
  }

  ghost predicate Faithful(texts: map<string, Text>, run: seq<Event>, transfers: map<string, Transfer>) {
    forall id :: id in texts ==> FaithfulAt(texts, run, transfers, id)
  }

  /** An event of someone else leaves the progress of `id` as it was. */
  lemma OthersKeep(texts: map<string, Text>, run: seq<Event>, e: Event, id: string)
    requires e.Ours? ==> e.id != id
    ensures Sent(run + [e], id) == Sent(run, id)
    ensures Sent(run, id) > 0 ==> Began(run + [e], id) == Began(run, id)
    ensures Open(texts, run + [e], id) == Open(texts, run, id)
    ensures Open(texts, run, id) ==> Expected(texts, run + [e], id) == Expected(texts, run, id)
  {
    assert (run + [e])[..|run|] == run;
  }

  lemma OursAdvances(run: seq<Event>, e: Event)
    requires e.Ours?
    ensures Sent(run + [e], e.id) == Sent(run, e.id) + 1
    ensures Began(run + [e], e.id) == if Sent(run, e.id) > 0 then Began(run, e.id) else e.now
  {
    assert (run + [e])[..|run|] == run;
  }

  /** Purging keeps the reader faithful, and keeps a transfer that is in time at `now`. */
  lemma PurgeFaithful(texts: map<string, Text>, run: seq<Event>, transfers: map<string, Transfer>, e: Event, id: string)
    requires FaithfulAt(texts, run, transfers, id) && (run != [] ==> run[|run| - 1].now <= e.now)
    ensures var live := Purged(transfers, e.now);
            && (id in live ==> Open(texts, run, id) && live[id] == Expected(texts, run, id))
            && (Open(texts, run, id) && id !in live ==> e.now > Began(run, id) + LIFETIME)
  {
  }

  lemma NextPiece(t: Text, k: nat)
    requires k < PacketCount(t)
    ensures Pieces(t)[..k + 1] == Pieces(t)[..k] + [Piece(t, k)]
    ensures Bytes(Pieces(t)[..k + 1]) == Bytes(Pieces(t)[..k]) + Utf8Length(Piece(t, k))
  {
    assert Pieces(t)[..k + 1][..k] == Pieces(t)[..k];
  }

  /** Appending the next piece of a text to the transfer that holds the pieces before it. */
  lemma AppendNext(live: map<string, Transfer>, t: Text, k: nat, expires: int, id: string)
    requires k < PacketCount(t)
    ensures var p := Packet(1, id, k, PacketCount(t), Piece(t, k));
            Appended(live, Holding(t, k, expires), p)
            == if Bytes(Pieces(t)[..k + 1]) > LIMIT then (live - {id}, MessageTooLarge)
               else if k + 1 < PacketCount(t) then (live[id := Holding(t, k + 1, expires)], Incomplete)
               else (live - {id}, Complete(t))
  {
    NextPiece(t, k);
    var p := Packet(1, id, k, PacketCount(t), Piece(t, k));
    assert Grown(Holding(t, k, expires), p) == Holding(t, k + 1, expires);
    if k + 1 == PacketCount(t) {
      assert Pieces(t)[..k + 1] == Pieces(t);
      PiecesJoin(t);
    }
  }

  /** A well-formed packet goes to its live transfer, or to a new one in a free slot. */
  lemma FindTransfer(transfers: map<string, Transfer>, t: Text, k: nat, now: int, id: string, expires: int)
    requires ValidId(id) && Utf8Length(t) <= LIMIT && k < PacketCount(t)
    requires var live := Purged(transfers, now);
             if k == 0 then id !in live && |live| < MAX_TRANSFERS && expires == now + LIFETIME
             else id in live && live[id] == Holding(t, k, expires)
    ensures var p := Packet(1, id, k, PacketCount(t), Piece(t, k));
            Accepted(transfers, Shaped(p), now) == Appended(Purged(transfers, now), Holding(t, k, expires), p)
  {
    PacketsWellFormed(t, id);
    assert BrowserPackets(t, id).packets[k] == Packet(1, id, k, PacketCount(t), Piece(t, k));
    assert Pieces(t)[..0] == [] && Bytes([]) == 0;
  }

  ghost predicate InTime(texts: map<string, Text>, run: seq<Event>, transfers: map<string, Transfer>, e: Event)
    requires e.Ours?
  {
    && e.id in texts && Sent(run, e.id) < PacketCount(texts[e.id])
    && (run != [] ==> run[|run| - 1].now <= e.now)
    && if Sent(run, e.id) == 0 then |Purged(transfers, e.now)| < MAX_TRANSFERS
       else e.now <= Began(run, e.id) + LIFETIME
  }

  function Expiry(run: seq<Event>, e: Event): int
    requires e.Ours?
  {
    (if Sent(run, e.id) > 0 then Began(run, e.id) else e.now) + LIFETIME
  }

  /** The next packet of a message is found its transfer and appended; the last one completes it. */
  lemma NextPacket(transfers: map<string, Transfer>, t: Text, k: nat, now: int, id: string, expires: int)
    requires SendableAs(id, t) && k < PacketCount(t)
    requires var live := Purged(transfers, now);
             if k == 0 then id !in live && |live| < MAX_TRANSFERS && expires == now + LIFETIME
             else id in live && live[id] == Holding(t, k, expires)
    ensures Accepted(transfers, Shaped(Packet(1, id, k, PacketCount(t), Piece(t, k))), now)
         == if k + 1 == PacketCount(t) then (Purged(transfers, now) - {id}, Complete(t))
            else (Purged(transfers, now)[id := Holding(t, k + 1, expires)], Incomplete)
  {
    FindTransfer(transfers, t, k, now, id, expires);
    BytesMonotone(Pieces(t), k + 1);
    AppendFitting(Purged(transfers, now), t, k, expires, id);
  }

  /** The transfer of our packet's message is there, or there is a free slot to begin it. */
  ghost predicate Found(texts: map<string, Text>, run: seq<Event>, transfers: map<string, Transfer>, e: Event) {
    && e.Ours? && e.id in texts && Sent(run, e.id) < PacketCount(texts[e.id])
    && var k, live := Sent(run, e.id), Purged(transfers, e.now);
       if k == 0 then e.id !in live && |live| < MAX_TRANSFERS
       else e.id in live && live[e.id] == Holding(texts[e.id], k, Expiry(run, e))
  }

  lemma OursFound(texts: map<string, Text>, run: seq<Event>, transfers: map<string, Transfer>, e: Event)
    requires e.Ours? && FaithfulAt(texts, run, transfers, e.id) && InTime(texts, run, transfers, e)
    ensures Found(texts, run, transfers, e)
  {
    PurgeFaithful(texts, run, transfers, e, e.id);
  }

  lemma OursStep(texts: map<string, Text>, run: seq<Event>, transfers: map<string, Transfer>, e: Event)
    requires Found(texts, run, transfers, e) && SendableAs(e.id, texts[e.id])
    ensures var t, k := texts[e.id], Sent(run, e.id);
            Accepted(transfers, InputOf(texts, run, e), e.now)
            == if k + 1 == PacketCount(t) then (Purged(transfers, e.now) - {e.id}, Complete(t))
               else (Purged(transfers, e.now)[e.id := Holding(t, k + 1, Expiry(run, e))], Incomplete)
  {
    NextPacket(transfers, texts[e.id], Sent(run, e.id), e.now, e.id, Expiry(run, e));
  }

  lemma AppendFitting(live: map<string, Transfer>, t: Text, k: nat, expires: int, id: string)
    requires k < PacketCount(t) && Bytes(Pieces(t)[..k + 1]) <= LIMIT
    ensures Appended(live, Holding(t, k, expires), Packet(1, id, k, PacketCount(t), Piece(t, k)))
         == if k + 1 == PacketCount(t) then (live - {id}, Complete(t))
            else (live[id := Holding(t, k + 1, expires)], Incomplete)
  {
    AppendNext(live, t, k, expires, id);
  }

  lemma OursFaithful(texts: map<string, Text>, run: seq<Event>, transfers: map<string, Transfer>, e: Event)
    requires e.Ours? && FaithfulAt(texts, run, transfers, e.id) && InTime(texts, run, transfers, e)
    requires SendableAs(e.id, texts[e.id])
    ensures FaithfulAt(texts, run + [e], Accepted(transfers, InputOf(texts, run, e), e.now).0, e.id)
  {
    OursFound(texts, run, transfers, e);
    OursStep(texts, run, transfers, e);
    OursExpected(texts, run, e);
  }

  lemma OursExpected(texts: map<string, Text>, run: seq<Event>, e: Event)
    requires e.Ours? && e.id in texts && Sent(run, e.id) < PacketCount(texts[e.id])
    ensures Open(texts, run + [e], e.id) <==> Sent(run, e.id) + 1 < PacketCount(texts[e.id])
    ensures Open(texts, run + [e], e.id) ==>
              Expected(texts, run + [e], e.id) == Holding(texts[e.id], Sent(run, e.id) + 1, Expiry(run, e))
  {
    OursAdvances(run, e);
  }

  /** Another sender's packet, or noise, touches none of our transfers. */
  lemma OthersStep(transfers: map<string, Transfer>, input: Input, now: int, id: string)
    requires input.Shaped? && ValidPacket(input.packet) ==> input.packet.id != id
    ensures var after, live := Accepted(transfers, input, now).0, Purged(transfers, now);
            (id in after <==> id in live) && (id in live ==> after[id] == live[id])
  {
  }

  /** A transfer that the reader holds was held before, or has just begun. */
  lemma HeldBegan(transfers: map<string, Transfer>, input: Input, now: int, id: string)
    requires id in Accepted(transfers, input, now).0
    ensures var t := Accepted(transfers, input, now).0[id];
            || (id in transfers && t.expires == transfers[id].expires)
            || (input.Shaped? && ValidPacket(input.packet) && input.packet.id == id && input.packet.index == 0
                && t.expires == now + LIFETIME)
  {
  }

  /** What the reader holds under other ids was begun by an event of the run. */
  lemma {:induction false} ForeignBegan(texts: map<string, Text>, run: seq<Event>, id: string) returns (i: nat)
    requires id in ReaderAfter(texts, run) && id !in texts
    ensures i < |run| && BeginsForeign(texts, run[i]) && run[i].input.packet.id == id
    ensures ReaderAfter(texts, run)[id].expires == run[i].now + LIFETIME
    decreases |run|
  {
    var init, e := run[..|run| - 1], run[|run| - 1];
    var before, input := ReaderAfter(texts, init), InputOf(texts, init, e);
    HeldBegan(before, input, e.now, id);
    if id in before && ReaderAfter(texts, run)[id].expires == before[id].expires {
      i := ForeignBegan(texts, init, id);
    } else {
      i := |init|;
    }
  }

  /** So fewer than 8 open transfers leave a slot. */
  lemma SlotFound(texts: map<string, Text>, run: seq<Event>, e: Event)
    requires e.Ours? && MayFollow(texts, run, e) && Faithful(texts, run, ReaderAfter(texts, run))
    ensures InTime(texts, run, ReaderAfter(texts, run), e)
  {
    var live, busy := Purged(ReaderAfter(texts, run), e.now), Busy(texts, run, e.now);
    forall id | id in live
      ensures id in busy
    {
      if id !in texts {
        var i := ForeignBegan(texts, run, id);
      }
    }
    assert live.Keys <= busy;
    SubsetSize(live.Keys, busy);
  }

  lemma {:induction false} StaysFaithful(texts: map<string, Text>, run: seq<Event>)
    requires Sendable(texts) && Run(texts, run)
    ensures Faithful(texts, run, ReaderAfter(texts, run))
    decreases |run|
  {
    if run != [] {
      var init, e := run[..|run| - 1], run[|run| - 1];
      assert run == init + [e];
      StaysFaithful(texts, init);
      assert ReaderAfter(texts, run) == Accepted(ReaderAfter(texts, init), InputOf(texts, init, e), e.now).0;
      forall id | id in texts
        ensures FaithfulAt(texts, run, ReaderAfter(texts, run), id)
      {
        if e.Ours? && e.id == id {
          SlotFound(texts, init, e);
          OursFaithful(texts, init, ReaderAfter(texts, init), e);
        } else {
          OthersFaithful(texts, init, ReaderAfter(texts, init), e, id);
        }
      }
    }
  }

  /** An event that is not this message's leaves it held, or purges it. */
  lemma OthersFaithful(texts: map<string, Text>, run: seq<Event>, transfers: map<string, Transfer>, e: Event, id: string)
    requires FaithfulAt(texts, run, transfers, id) && (run != [] ==> run[|run| - 1].now <= e.now)
    requires id in texts && (if e.Ours? then e.id != id else Foreign(texts, e.input))
    ensures FaithfulAt(texts, run + [e], Accepted(transfers, InputOf(texts, run, e), e.now).0, id)
  {
    PurgeFaithful(texts, run, transfers, e, id);
    OthersKeep(texts, run, e, id);
    OthersStep(transfers, InputOf(texts, run, e), e.now, id);
  }

  /**
   * In every run, whatever is interleaved, our packet gets `Incomplete` until the last one of its
   * message, which returns exactly the original text.
   */
  lemma Delivery(texts: map<string, Text>, run: seq<Event>)
    requires Sendable(texts) && Run(texts, run) && run != [] && run[|run| - 1].Ours?
    ensures var id := run[|run| - 1].id;
            id in texts && 1 <= Sent(run, id) <= PacketCount(texts[id]) &&
            Outcome(texts, run).1 == if Sent(run, id) == PacketCount(texts[id]) then Complete(texts[id]) else Incomplete
  {
    var init, e := run[..|run| - 1], run[|run| - 1];
    assert run == init + [e];
    StaysFaithful(texts, init);
    SlotFound(texts, init, e);
    OursFound(texts, init, ReaderAfter(texts, init), e);
    OursStep(texts, init, ReaderAfter(texts, init), e);
    OursAdvances(init, e);
  }

  // ---- the byte budget, exactly ----

  /** The packets of one message alone, all at time zero. */
  function Alone(id: string, n: nat): seq<Event> {
    seq(n, _ => Ours(id, 0))
  }

  lemma {:induction false} AloneSent(id: string, n: nat)
    ensures Sent(Alone(id, n), id) == n
    decreases n
  {
    if n > 0 {
      AloneSent(id, n - 1);
      assert Alone(id, n)[..n - 1] == Alone(id, n - 1);
    }
  }

  ghost predicate Fits(t: Text, n: nat)
    requires n <= PacketCount(t)
  {
    Bytes(Pieces(t)[..n]) <= LIMIT
  }

  /** What the reader holds after the first `n` packets of a message sent alone. */
  ghost function HeldAlone(t: Text, id: string, n: nat): map<string, Transfer>
    requires n <= PacketCount(t)
  {
    if 0 < n < PacketCount(t) && Fits(t, n) then map[id := Holding(t, n, LIFETIME)] else map[]
  }

  lemma AloneFits(t: Text, id: string, k: nat)
    requires ValidId(id) && Utf8Length(t) <= LIMIT && k < PacketCount(t) && (k == 0 || Fits(t, k))
    ensures var p := Packet(1, id, k, PacketCount(t), Piece(t, k));
            Accepted(HeldAlone(t, id, k), Shaped(p), 0)
            == if !Fits(t, k + 1) then (map[], MessageTooLarge)
               else if k + 1 < PacketCount(t) then (map[id := Holding(t, k + 1, LIFETIME)], Incomplete)
               else (map[], Complete(t))
  {
    var before := HeldAlone(t, id, k);
    HeldFound(t, id, k);
    FindTransfer(before, t, k, 0, id, LIFETIME);
    AppendNext(before, t, k, LIFETIME, id);
    HeldNext(t, id, k);
  }

  lemma HeldFound(t: Text, id: string, k: nat)
    requires k < PacketCount(t) && (k == 0 || Fits(t, k))
    ensures var before := HeldAlone(t, id, k);
            && Purged(before, 0) == before
            && if k == 0 then id !in before && |before| == 0 else id in before && before[id] == Holding(t, k, LIFETIME)
  {
    assert Purged(HeldAlone(t, id, k), 0) == HeldAlone(t, id, k);
  }

  lemma HeldNext(t: Text, id: string, k: nat)
    requires k < PacketCount(t)
    ensures var before, held := HeldAlone(t, id, k), Holding(t, k + 1, LIFETIME);
            before - {id} == map[] && before[id := held] == map[id := held]
  {
  }

  lemma AloneStep(t: Text, id: string, k: nat)
    requires ValidId(id) && Utf8Length(t) <= LIMIT && k < PacketCount(t)
    ensures var p := Packet(1, id, k, PacketCount(t), Piece(t, k));
            var (after, reply) := Accepted(HeldAlone(t, id, k), Shaped(p), 0);
            && after == HeldAlone(t, id, k + 1)
            && (reply == Complete(t) <==> k + 1 == PacketCount(t) && Fits(t, k + 1))
            && (reply.Complete? ==> reply == Complete(t))
  {
    if k == 0 || Fits(t, k) {
      AloneFits(t, id, k);
    } else {
      NoTransfer(t, id, k);
      StaysTooLong(t, k);
    }
  }

  lemma StaysTooLong(t: Text, k: nat)
    requires k < PacketCount(t) && !Fits(t, k)
    ensures !Fits(t, k + 1)
  {
    assert Pieces(t)[..k + 1][..k] == Pieces(t)[..k];
    BytesMonotone(Pieces(t)[..k + 1], k);
  }

  /** A later packet of a forgotten transfer is refused. */
  lemma NoTransfer(t: Text, id: string, k: nat)
    requires ValidId(id) && Utf8Length(t) <= LIMIT && 0 < k < PacketCount(t)
    ensures Accepted(map[], Shaped(Packet(1, id, k, PacketCount(t), Piece(t, k))), 0) == (map[], InvalidTransfer)
  {
    PacketsWellFormed(t, id);
    assert BrowserPackets(t, id).packets[k] == Packet(1, id, k, PacketCount(t), Piece(t, k));
    assert Purged(map[], 0) == map[];
  }

  /** Sent alone, a message is being held as long as its pieces fit, and forgotten after that. */
  lemma {:induction false} AloneHeld(t: Text, id: string, n: nat)
    requires ValidId(id) && Utf8Length(t) <= LIMIT && 1 <= n <= PacketCount(t)
    ensures Outcome(map[id := t], Alone(id, n)).0 == HeldAlone(t, id, n)
    ensures Outcome(map[id := t], Alone(id, n)).1 == Complete(t) <==> Fits(t, n) && n == PacketCount(t)
    ensures Outcome(map[id := t], Alone(id, n)).1.Complete? ==> Outcome(map[id := t], Alone(id, n)).1 == Complete(t)
    decreases n
  {
    assert Alone(id, n)[..n - 1] == Alone(id, n - 1);
    AloneSent(id, n - 1);
    if n > 1 {
      AloneHeld(t, id, n - 1);
    }
    AloneStep(t, id, n - 1);
  }

  /**
   * Of the messages the sender lets through, exactly those the reader's own count leaves within
   * the limit arrive; what makes the difference is the pairs cut at chunk boundaries.
   */
  lemma ArrivesExactlyWhen(t: Text, id: string)
    requires ValidId(id) && Utf8Length(t) <= LIMIT
    ensures var reply := Outcome(map[id := t], Alone(id, PacketCount(t))).1;
            reply.Complete? ==> reply == Complete(t)
    ensures Outcome(map[id := t], Alone(id, PacketCount(t))).1 == Complete(t)
            <==> Utf8Length(t) + 2 * CutPairs(t, PacketCount(t)) <= LIMIT
  {
    AloneHeld(t, id, PacketCount(t));
    assert Pieces(t)[..PacketCount(t)] == Pieces(t);
    ReaderBytes(t);
  }

  lemma EnoughRoom(t: Text)
    requires Utf8Length(t) + 2 * (PacketCount(t) - 1) <= LIMIT
    ensures Bytes(Pieces(t)) <= LIMIT
  {
    ReaderBytes(t);
  }

  lemma {:induction false} AsciiLength(n: nat)
    ensures Utf8Length(Ascii(n)) == n
  {
    if n > 0 {
      assert Ascii(n)[1..] == Ascii(n - 1);
      AsciiLength(n - 1);
    }
  }

  function Ascii(n: nat): Text {
    seq(n, _ => 97)
  }

  const QUOTE: CodeUnit := 34

  /** A JSON string: letters, one surrogate pair across the first chunk boundary, letters. */
  function LongString(): Text {
    [QUOTE] + Ascii(CHUNK - 2) + [0xD83D, 0xDE00] + Ascii(LIMIT - CHUNK - 4) + [QUOTE]
  }

  function Head(n: nat): Text {
    [QUOTE] + Ascii(n) + [0xD83D]
  }

  function Tail(n: nat): Text {
    [0xDE00] + Ascii(n) + [QUOTE]
  }

  lemma HeadLength(n: nat)
    ensures Utf8Length(Head(n)) == n + 4
  {
    AsciiLength(n);
    CutCost([QUOTE], Ascii(n));
    CutCost([QUOTE] + Ascii(n), [0xD83D]);
  }

  lemma TailLength(n: nat)
    ensures Utf8Length(Tail(n)) == n + 4
  {
    AsciiLength(n);
    CutCost([0xDE00], Ascii(n));
    CutCost([0xDE00] + Ascii(n), [QUOTE]);
  }

  lemma LongStringCut()
    ensures Utf8Length(LongString()) == LIMIT
    ensures LongString()[..CHUNK] == Head(CHUNK - 2) && LongString()[CHUNK] == 0xDE00
  {
    assert LongString() == Head(CHUNK - 2) + Tail(LIMIT - CHUNK - 4);
    HeadLength(CHUNK - 2);
    TailLength(LIMIT - CHUNK - 4);
    CutCost(Head(CHUNK - 2), Tail(LIMIT - CHUNK - 4));
  }

  lemma CutAtFirstBoundary(t: Text)
    requires |t| > CHUNK && High(t[CHUNK - 1]) && LowHalf(t[CHUNK])
    ensures CutPairs(t, 2) == 1
  {
    assert Front(t, 1)[CHUNK - 1] == t[CHUNK - 1] && Piece(t, 1)[0] == t[CHUNK];
    assert CutPairs(t, 1) == 0;
  }

  /**
   * The sender's own check is not enough: this JSON text is within its limit to the byte, but the
   * pair lying across the first chunk boundary takes the reader over, and it does not arrive.
   */
  lemma PairAcrossBoundary(id: string)
    requires ValidId(id)
    ensures var t := LongString();
            && BrowserPackets(t, id).Packets?
            && !Outcome(map[id := t], Alone(id, PacketCount(t))).1.Complete?
  {
    LongStringCut();
    assert LongString()[CHUNK - 1] == LongString()[..CHUNK][CHUNK - 1];
    CutAtFirstBoundary(LongString());
    NotArrived(LongString(), id);
  }

  lemma NotArrived(t: Text, id: string)
    requires ValidId(id) && Utf8Length(t) == LIMIT && PacketCount(t) >= 2 && CutPairs(t, 2) == 1
    ensures !Outcome(map[id := t], Alone(id, PacketCount(t))).1.Complete?
  {
    CutPairsGrow(t, 2, PacketCount(t));
    ArrivesExactlyWhen(t, id);
  }

  lemma {:induction false} CutPairsGrow(t: Text, m: nat, n: nat)
    requires m <= n
    ensures CutPairs(t, m) <= CutPairs(t, n)
    decreases n
  {
    if m < n {
      CutPairsGrow(t, m, n - 1);
    }
  }
}
