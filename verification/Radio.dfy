/** The radio's data path: one sender thread per channel, a ticker, one multicast
    queue that all senders share, and a client that filters one channel and writes
    it on to its player. The queue loses and reorders nothing. */
module Radio {
  import opened Tokens
  import opened Proto
  import opened Playlist
  import opened Writing

  // ---------- one channel's sender ----------

  datatype SenderPC =
    | Fetching
    | Reading(got: nat)
    | Returning(back: nat, data: seq<byte>)
    | Sending(data: seq<byte>)

  /** `ended` counts the songs finished since `start`, `ticks` the credits so far. */
  datatype Sender = Sender(
    songs: Songs, start: nat, ended: nat, pos: nat, offset: nat,
    cps: int, burst: int, token: int, ticks: nat, pc: SenderPC)

  function Song(c: Sender): seq<byte>
    requires Opens(c.songs, c.pos)
  {
    c.songs[c.pos].value
  }

  /** What a read of up to `got` bytes may bring: at least one byte unless the song is over. */
  predicate ReadMay(c: Sender, len: nat)
    requires Opens(c.songs, c.pos)
  {
    c.pc.Reading? && c.offset <= |Song(c)| &&
    if c.offset == |Song(c)| then len == 0 else 1 <= len <= c.pc.got && c.offset + len <= |Song(c)|
  }

  predicate SenderCan(c: Sender, len: nat) {
    Opens(c.songs, c.pos) && (c.pc.Fetching? ==> c.token > 0) && (c.pc.Reading? ==> ReadMay(c, len))
  }

  /** One step of a channel's thread; `len` is what the read returns. */
  function SenderStep(c: Sender, len: nat): Sender
    requires SenderCan(c, len)
  {
    match c.pc
    case Fetching => c.(token := c.token - Share(c.token, MAX_DATA), pc := Reading(Share(c.token, MAX_DATA)))
    case Reading(got) =>
      if len == 0 then
        c.(pos := NextSong(c.songs, c.pos), offset := 0, ended := c.ended + 1, pc := Returning(got, []))
      else
        c.(offset := c.offset + len, pc := Returning(got - len, Song(c)[c.offset..c.offset + len]))
    case Returning(back, data) =>
      c.(token := if back > 0 then Refund(c.token, back, c.burst) else c.token, pc := Sending(data))
    case Sending(data) => c.(pc := Fetching)
  }

  function TickSender(c: Sender): Sender {
    c.(token := Credit(c.token, c.cps, c.burst), ticks := c.ticks + 1)
  }

  predicate Tuned(c: Sender) {
    Opens(c.songs, c.start) && Opens(c.songs, c.pos) && c.offset <= |Song(c)|
  }

  /** Everything read from the files so far. */
  function Played(c: Sender): seq<byte>
    requires Tuned(c)
  {
    Stream(c.songs, c.start, c.ended) + Song(c)[..c.offset]
  }

  /** Read, and not yet handed to the network. */
  function Unsent(pc: SenderPC): seq<byte> {
    match pc
    case Returning(_, data) => data
    case Sending(data) => data
    case _ => []
  }

  /** Taken from the bucket, and neither read nor returned. */
  function InHand(pc: SenderPC): nat {
    match pc
    case Reading(got) => got
    case Returning(back, _) => back
    case _ => 0
  }

  predicate SenderOk(c: Sender) {
    && Tuned(c) && c.pos == NthSong(c.songs, c.start, c.ended)
    && c.cps >= 0 && c.burst >= 0 && 0 <= c.token <= c.burst
    && |Unsent(c.pc)| <= MAX_DATA
    && (c.pc.Reading? ==> 0 < c.pc.got <= MAX_DATA)
    && (c.pc.Returning? ==> c.pc.back + |c.pc.data| <= MAX_DATA)
    && |Played(c)| + c.token + InHand(c.pc) <= c.cps * c.ticks
  }

  lemma ReadOk(c: Sender, len: nat)
    requires SenderOk(c) && SenderCan(c, len) && c.pc.Reading?
    ensures SenderOk(SenderStep(c, len)) && Played(SenderStep(c, len)) == Played(c) + Unsent(SenderStep(c, len).pc)
  {
    if len == 0 {
      assert Song(c)[..c.offset] == Song(c);
    } else {
      assert Song(c)[..c.offset + len] == Song(c)[..c.offset] + Song(c)[c.offset..c.offset + len];
    }
  }

  lemma NoReadOk(c: Sender, len: nat)
    requires SenderOk(c) && SenderCan(c, len) && !c.pc.Reading?
    ensures SenderOk(SenderStep(c, len)) && Played(SenderStep(c, len)) == Played(c)
    ensures Unsent(SenderStep(c, len).pc) == if c.pc.Sending? then [] else Unsent(c.pc)
  {
  }

  lemma SenderStepOk(c: Sender, len: nat)
    requires SenderOk(c) && SenderCan(c, len)
    ensures SenderOk(SenderStep(c, len))
    ensures c.pc.Sending? ==> Played(SenderStep(c, len)) == Played(c) && Unsent(SenderStep(c, len).pc) == []
    ensures !c.pc.Sending? ==>
      var c' := SenderStep(c, len);
      || (Played(c') == Played(c) && Unsent(c'.pc) == Unsent(c.pc))
      || (Played(c') == Played(c) + Unsent(c'.pc) && Unsent(c.pc) == [])
  {
    if c.pc.Reading? { ReadOk(c, len); } else { NoReadOk(c, len); }
  }

  /** A fetch takes all the tokens there are, or as many as a packet has room for. */
  lemma FetchTakesAllItCan(c: Sender)
    requires SenderOk(c) && c.pc.Fetching? && SenderCan(c, 0)
    ensures var c' := SenderStep(c, 0); c'.pc.Reading? && (c'.token == 0 || c'.pc.got == MAX_DATA)
  {
  }

  /** Tokens are bytes: each step keeps their sum with the bytes played, unless a return meets the cap. */
  lemma SenderConserves(c: Sender, len: nat)
    requires SenderOk(c) && SenderCan(c, len)
    ensures var c' := SenderStep(c, len);
      var before, after := |Played(c)| + c.token + InHand(c.pc), |Played(c')| + c'.token + InHand(c'.pc);
      after == before || (after < before && c'.token == c'.burst && c.pc.Returning?)
  {
    SenderStepOk(c, len);
  }

  /** And a tick brings the whole rate, unless it meets the cap. */
  lemma TickBrings(c: Sender)
    requires SenderOk(c)
    ensures var c' := TickSender(c);
      c'.ticks == c.ticks + 1 && (c'.token == c.token + c.cps || (c'.token == c.burst < c.token + c.cps))
  {
  }

  lemma TickSenderOk(c: Sender)
    requires SenderOk(c)
    ensures SenderOk(TickSender(c)) && Played(TickSender(c)) == Played(c)
  {
    OneMore(c.cps, c.ticks);
  }

  // ---------- network and client ----------

  datatype Packet = Packet(fromServer: bool, chnid: byte, data: seq<byte>)

  /** `rest` is what the client has accepted and not yet written. */
  datatype Client = Receiving | Writing(rest: seq<byte>) | Failed(rest: seq<byte>)

  datatype State = State(senders: map<byte, Sender>, net: seq<Packet>, chosen: byte, client: Client, out: seq<byte>)

  datatype Act =
    | Tick(id: byte)
    | SenderGo(id: byte, len: nat)
    | Programme(data: seq<byte>)                  // the list thread sends its packet
    | Stranger(chnid: byte, data: seq<byte>)      // somebody else sends to the group
    | Receive
    | Write(n: nat)                               // the player's pipe takes n bytes
    | Interrupted
    | WriteFails

  predicate Enabled(s: State, a: Act) {
    match a
    case Tick(id) => id in s.senders
    case SenderGo(id, len) => id in s.senders && SenderCan(s.senders[id], len)
    case Programme(_) => true
    case Stranger(_, _) => true
    case Receive => s.client.Receiving? && s.net != []
    case Write(n) => s.client.Writing? && 1 <= n <= |s.client.rest|
    case Interrupted => s.client.Writing?
    case WriteFails => s.client.Writing?
  }

  /** What the client keeps of a datagram: its buffer holds MSG_CHNPACK_MAX bytes. */
  function Cut(p: Packet): seq<byte> {
    if |p.data| <= MAX_DATA then p.data else p.data[..MAX_DATA]
  }

  /** The client's three checks: sender's address, size, channel. */
  predicate Accepts(p: Packet, chosen: byte) {
    p.fromServer && CHNID_SIZE + |Cut(p)| >= CHANNEL_HEAD && p.chnid == chosen
  }

  function Apply(s: State, a: Act): State
    requires Enabled(s, a)
  {
    match a
    case Tick(id) => s.(senders := s.senders[id := TickSender(s.senders[id])])
    case SenderGo(id, len) =>
      var c := s.senders[id];
      s.(senders := s.senders[id := SenderStep(c, len)],
         net := if c.pc.Sending? then s.net + [Packet(true, id, c.pc.data)] else s.net)
    case Programme(data) => s.(net := s.net + [Packet(true, CHNLIST, data)])
    case Stranger(chnid, data) => s.(net := s.net + [Packet(false, chnid, data)])
    case Receive =>
      s.(net := s.net[1..], client := if Accepts(s.net[0], s.chosen) then Writing(Cut(s.net[0])) else Receiving)
    case Write(n) =>
      var rest := s.client.rest[n..];
      s.(out := s.out + s.client.rest[..n], client := if rest == [] then Receiving else Writing(rest))
    case Interrupted => s
    case WriteFails => s.(client := Failed(s.client.rest))
  }

  predicate Init(s: State) {
    && s.net == [] && s.client.Receiving? && s.out == []
    && s.chosen in s.senders
    && forall id :: id in s.senders ==>
         var c := s.senders[id];
         && MINCHNID <= id <= MAXCHNID
         && Opens(c.songs, c.start) && c.pos == c.start && c.offset == 0 && c.ended == 0
         && c.cps >= 0 && c.burst >= 0 && c.token == 0 && c.ticks == 0 && c.pc.Fetching?
  }

  predicate Feasible(s: State, acts: seq<Act>)
    decreases |acts|
  {
    acts == [] || (Enabled(s, acts[0]) && Feasible(Apply(s, acts[0]), acts[1..]))
  }

  function After(s: State, acts: seq<Act>): State
    requires Feasible(s, acts)
    decreases |acts|
  {
    if acts == [] then s else After(Apply(s, acts[0]), acts[1..])
  }

  // ---------- the invariant ----------

  /** The bytes in the queue that the client will accept. */
  function OnTheWay(net: seq<Packet>, chosen: byte): seq<byte> {
    if net == [] then []
    else (if Accepts(net[0], chosen) then Cut(net[0]) else []) + OnTheWay(net[1..], chosen)
  }

  lemma {:induction false} OnTheWayAppend(net: seq<Packet>, p: Packet, chosen: byte)
    ensures OnTheWay(net + [p], chosen) == OnTheWay(net, chosen) + (if Accepts(p, chosen) then Cut(p) else [])
  {
    if net != [] {
      assert (net + [p])[1..] == net[1..] + [p];
      OnTheWayAppend(net[1..], p, chosen);
    }
  }

  function Accepted(c: Client): seq<byte> {
    if c.Receiving? then [] else c.rest
  }

  /** What is written, accepted, on the way, and unsent is, in that order, what was read. */
  predicate StreamIntact(s: State)
    requires s.chosen in s.senders && Tuned(s.senders[s.chosen])
  {
    Flow(s, Unsent(s.senders[s.chosen].pc), Played(s.senders[s.chosen]))
  }

  predicate Flow(s: State, unsent: seq<byte>, played: seq<byte>) {
    s.out + Accepted(s.client) + OnTheWay(s.net, s.chosen) + unsent == played
  }

  predicate Fits(p: Packet) {
    p.fromServer && p.chnid != CHNLIST ==> CHNID_SIZE + |p.data| <= MSG_CHNPACK_MAX
  }

  predicate SendersOk(s: State) {
    s.chosen in s.senders && forall id :: id in s.senders ==> MINCHNID <= id <= MAXCHNID && SenderOk(s.senders[id])
  }

  predicate NetOk(s: State) {
    forall p :: p in s.net ==> Fits(p)
  }

  predicate Inv(s: State) {
    SendersOk(s) && NetOk(s) && StreamIntact(s)
  }

  /** Sending: what is unsent goes on its way, or is empty and will not be accepted. */
  lemma SendFlows(s: State, data: seq<byte>, played: seq<byte>)
    requires Flow(s, data, played) && |data| <= MAX_DATA
    ensures Flow(s.(net := s.net + [Packet(true, s.chosen, data)]), [], played)
  {
    OnTheWayAppend(s.net, Packet(true, s.chosen, data), s.chosen);
  }

  /** Other senders, the list thread and strangers put on the way nothing that will be accepted. */
  lemma OtherTrafficFlows(s: State, p: Packet, unsent: seq<byte>, played: seq<byte>)
    requires Flow(s, unsent, played) && !Accepts(p, s.chosen)
    ensures Flow(s.(net := s.net + [p]), unsent, played)
  {
    OnTheWayAppend(s.net, p, s.chosen);
  }

  lemma ReceiveFlows(s: State, unsent: seq<byte>, played: seq<byte>)
    requires Flow(s, unsent, played) && s.client.Receiving? && s.net != []
    ensures Flow(Apply(s, Receive), unsent, played)
  {
    var kept := if Accepts(s.net[0], s.chosen) then Cut(s.net[0]) else [];
    assert OnTheWay(s.net, s.chosen) == kept + OnTheWay(s.net[1..], s.chosen);
    assert s.out + [] + (kept + OnTheWay(s.net[1..], s.chosen)) == s.out + kept + OnTheWay(s.net[1..], s.chosen);
  }

  lemma WriteFlows(s: State, n: nat, unsent: seq<byte>, played: seq<byte>)
    requires Flow(s, unsent, played) && s.client.Writing? && 1 <= n <= |s.client.rest|
    ensures Flow(Apply(s, Write(n)), unsent, played)
  {
    assert s.client.rest == s.client.rest[..n] + s.client.rest[n..];
    assert s.out + s.client.rest == s.out + s.client.rest[..n] + s.client.rest[n..];
  }

  lemma SenderGoKeepsSenders(s: State, id: byte, len: nat)
    requires SendersOk(s) && NetOk(s) && Enabled(s, SenderGo(id, len))
    ensures SendersOk(Apply(s, SenderGo(id, len))) && NetOk(Apply(s, SenderGo(id, len)))
  {
    SenderStepOk(s.senders[id], len);
  }

  lemma ChosenGoFlows(s: State, len: nat)
    requires s.chosen in s.senders && SenderOk(s.senders[s.chosen]) && StreamIntact(s)
    requires Enabled(s, SenderGo(s.chosen, len))
    ensures SenderOk(SenderStep(s.senders[s.chosen], len)) && StreamIntact(Apply(s, SenderGo(s.chosen, len)))
  {
    var c := s.senders[s.chosen];
    SenderStepOk(c, len);
    if c.pc.Sending? { SendFlows(s, c.pc.data, Played(c)); }
  }

  lemma OtherGoFlows(s: State, id: byte, len: nat)
    requires s.chosen in s.senders && Tuned(s.senders[s.chosen]) && StreamIntact(s)
    requires id != s.chosen && Enabled(s, SenderGo(id, len))
    ensures StreamIntact(Apply(s, SenderGo(id, len)))
  {
    var c, ours := s.senders[id], s.senders[s.chosen];
    if c.pc.Sending? { OtherTrafficFlows(s, Packet(true, id, c.pc.data), Unsent(ours.pc), Played(ours)); }
  }

  lemma StepKeepsInv(s: State, a: Act)
    requires Inv(s) && Enabled(s, a)
    ensures Inv(Apply(s, a))
  {
    var c := s.senders[s.chosen];
    match a
    case Tick(id) => TickSenderOk(s.senders[id]);
    case SenderGo(id, len) =>
      SenderGoKeepsSenders(s, id, len);
      if id == s.chosen { ChosenGoFlows(s, len); } else { OtherGoFlows(s, id, len); }
    case Programme(data) => OtherTrafficFlows(s, Packet(true, CHNLIST, data), Unsent(c.pc), Played(c));
    case Stranger(id, data) => OtherTrafficFlows(s, Packet(false, id, data), Unsent(c.pc), Played(c));
    case Receive => ReceiveFlows(s, Unsent(c.pc), Played(c));
    case Write(n) => WriteFlows(s, n, Unsent(c.pc), Played(c));
    case _ =>
  }

  lemma {:induction false} RunKeepsInv(s: State, acts: seq<Act>)
    requires Inv(s) && Feasible(s, acts)
    ensures Inv(After(s, acts)) && After(s, acts).chosen == s.chosen && SameChannel(s, After(s, acts), s.chosen)
    decreases |acts|
  {
    if acts != [] {
      StepKeepsInv(s, acts[0]);
      StepKeepsChannel(s, acts[0], s.chosen);
      RunKeepsInv(Apply(s, acts[0]), acts[1..]);
    }
  }

  /** What a channel plays, from where, and at what rate never changes. */
  predicate SameChannel(s: State, s': State, id: byte) {
    id in s.senders && id in s'.senders
    && s'.senders[id].songs == s.senders[id].songs && s'.senders[id].start == s.senders[id].start
    && s'.senders[id].cps == s.senders[id].cps && s'.senders[id].burst == s.senders[id].burst
  }

  lemma StepKeepsChannel(s: State, a: Act, id: byte)
    requires Enabled(s, a) && id in s.senders
    ensures SameChannel(s, Apply(s, a), id) && Apply(s, a).chosen == s.chosen
  {
  }

  lemma InitInv(s: State)
    requires Init(s)
    ensures Inv(s)
  {
  }

  // ---------- what the listener gets ----------

  lemma PlayedIsPrefix(c: Sender)
    requires Tuned(c) && c.pos == NthSong(c.songs, c.start, c.ended)
    ensures Played(c) <= Stream(c.songs, c.start, c.ended + 1)
  {
  }

  /** End to end: whatever the ticks, the short reads, the partial writes and the traffic of other
      channels, what has reached the player is the beginning of the playlist, and never more of it
      than the ticks have paid for. */
  lemma PlayerHearsThePlaylist(s: State, acts: seq<Act>)
    requires Init(s) && Feasible(s, acts)
    ensures var c, e := s.senders[s.chosen], After(s, acts);
      && s.chosen in e.senders
      && e.out <= Stream(c.songs, c.start, e.senders[s.chosen].ended + 1)
      && |e.out| <= c.cps * e.senders[s.chosen].ticks
  {
    InitInv(s);
    RunKeepsInv(s, acts);
    var e := After(s, acts);
    PlayedIsPrefix(e.senders[s.chosen]);
  }

  /** Every packet of a channel fits the datagram limit, so the client's buffer never cuts one. */
  lemma PacketsFit(s: State, acts: seq<Act>, p: Packet)
    requires Init(s) && Feasible(s, acts) && p in After(s, acts).net && p.fromServer && p.chnid != CHNLIST
    ensures CHNID_SIZE + |p.data| <= MSG_CHNPACK_MAX && Cut(p) == p.data
  {
    InitInv(s);
    RunKeepsInv(s, acts);
  }

  // ---------- the code of the two ends ----------

  /** The channel in place and the sender of the model are at the same point of the same playlist. */
  ghost predicate Mirrors(ch: Channel, c: Sender)
    reads ch
  {
    ch.pos == c.pos && ch.offset == c.offset && ch.fd == Some(ch.pos) && Tuned(c)
  }

  /** The in-place read, when it does not fail, is the sender's read step with the length it brings. */
  method ReadStep(ch: Channel, ghost c: Sender, songs: Songs, tbfsize: nat, short: nat)
    returns (data: seq<byte>, back: nat)
    requires Mirrors(ch, c) && c.songs == songs && c.pc == Reading(tbfsize) && 0 < tbfsize && 0 < short
    modifies ch
    ensures SenderCan(c, |data|) && Tuned(SenderStep(c, |data|))
    ensures Mirrors(ch, SenderStep(c, |data|)) && SenderStep(c, |data|).pc == Returning(back, data)
  {
    var failed, running;
    data, back, failed, running := ch.ReadChannel(songs, tbfsize, [short]);
    assert failed == 0 by {
      assert [short][0] == short;
    }
  }

  /** The client's loop that keeps writing until all is written, against the results `write` gives: a count, 0,
      EINTR, or another error. It looks at `used` of them: an interrupted write is tried again, a write of
      nothing ends the loop, an error ends it with -1; it is still `running` if the results end before. */
  method Writen(buf: seq<byte>, results: seq<int>) returns (ret: int, out: seq<byte>, running: bool, used: nat)
    requires forall i :: 0 <= i < |results| ==> results[i] >= EINTR
    ensures used <= |results| && forall i :: 0 <= i < used ==> results[i] > 0 || results[i] == EINTR
    ensures out == buf[..Written(|buf|, results[..used])]
    ensures running <==> used == |results| && out != buf
    ensures !running && ret >= 0 ==> ret == |out| && (out == buf || results[used] == 0)
    ensures !running && ret < 0 ==> ret == -1 && out != buf && results[used] == -1
    ensures forall i :: 0 <= i < used ==> Written(|buf|, results[..i]) < |buf|
  {
    var len, pos := |buf|, 0;
    used := 0;
    while len > 0
      invariant used <= |results| && pos + len == |buf| && pos == Written(|buf|, results[..used]) && 0 <= len
      invariant forall i :: 0 <= i < used ==> results[i] > 0 || results[i] == EINTR
      invariant forall i :: 0 <= i < used ==> Written(|buf|, results[..i]) < |buf|
      decreases |results| - used
    {
      if used == |results| {
        return pos, buf[..pos], true, used;
      }
      var r := Min(results[used], len);
      if r == 0 {
        return pos, buf[..pos], false, used;
      }
      if r == -1 {
        return -1, buf[..pos], false, used;
      }
      WrittenNext(|buf|, results, used);
      used := used + 1;
      if r == EINTR {
        continue;
      }
      len, pos := len - r, pos + r;
    }
    return pos, buf[..pos], false, used;
  }
}
