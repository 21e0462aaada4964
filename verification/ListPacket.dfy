/** The programme list on the wire: the server's two-pass serializer and the
    client's walk over the packet. */
module ListPacket {
  import opened Tokens
  import opened Proto

  /** A channel and its description, a C string without its terminator. */
  datatype Entry = Entry(chnid: byte, desc: seq<byte>)

  predicate IsString(s: seq<byte>) {
    0 !in s
  }

  predicate AreStrings(list: seq<Entry>) {
    forall i :: 0 <= i < |list| ==> IsString(list[i].desc)
  }

  function Size(e: Entry): nat {
    RECORD_HEAD + |e.desc|
  }

  /** A 16-bit number in network order; wider ones lose their upper bits. */
  function Htons(n: nat): (r: seq<byte>)
    ensures |r| == 2
  {
    [n / 256 % 256, n % 256]
  }

  function Ntohs(hi: byte, lo: byte): nat {
    hi * 256 + lo
  }

  lemma NtohsHtons(n: nat)
    requires n < 65536
    ensures Ntohs(Htons(n)[0], Htons(n)[1]) == n
  {
  }

  /** Network order: the bytes of a smaller number sort before those of a larger one. */
  lemma NetworkOrder(m: nat, n: nat)
    requires m < n < 65536
    ensures Htons(m)[0] < Htons(n)[0] || (Htons(m)[0] == Htons(n)[0] && Htons(m)[1] < Htons(n)[1])
  {
  }

  function Record(e: Entry): (r: seq<byte>)
    ensures |r| == Size(e)
  {
    [e.chnid] + Htons(Size(e)) + e.desc + [0]
  }

  function Records(list: seq<Entry>): seq<byte> {
    if list == [] then [] else Record(list[0]) + Records(list[1..])
  }

  function PacketOf(list: seq<Entry>): seq<byte> {
    [CHNLIST] + Records(list)
  }

  /** Where each record starts, the first at `pos`. */
  function Heads(list: seq<Entry>, pos: nat): seq<nat> {
    if list == [] then [] else [pos] + Heads(list[1..], pos + Size(list[0]))
  }

  // ---------- the server ----------

  /** A byte of the buffer: None until it is written. */
  type Cell = Option<byte>

  /** Every store goes to a byte that was not written before. */
  method Store(buf: array<Cell>, k: nat, v: byte)
    requires k < buf.Length && buf[k].None?
    modifies buf
    ensures forall i :: 0 <= i < buf.Length ==> buf[i] == if i == k then Some(v) else old(buf[i])
  {
    buf[k] := Some(v);
  }

  /** Writes one record at `ptr`: the head, then the string, then its terminator, the record's last byte. */
  method PutRecord(buf: array<Cell>, ptr: nat, e: Entry)
    requires ptr + Size(e) <= buf.Length
    requires forall k :: ptr <= k < ptr + Size(e) ==> buf[k].None?
    modifies buf
    ensures forall k :: 0 <= k < buf.Length ==>
      buf[k] == if ptr <= k < ptr + Size(e) then Some(Record(e)[k - ptr]) else old(buf[k])
  {
    var size := RECORD_HEAD + |e.desc|;
    Store(buf, ptr, e.chnid);
    Store(buf, ptr + 1, Htons(size)[0]);
    Store(buf, ptr + 2, Htons(size)[1]);
    for j := 0 to |e.desc|
      invariant forall k :: 0 <= k < buf.Length ==>
        buf[k] == if ptr <= k < ptr + 3 + j then Some(Record(e)[k - ptr]) else old(buf[k])
    {
      Store(buf, ptr + 3 + j, e.desc[j]);
    }
    Store(buf, ptr + 3 + |e.desc|, 0);
  }

  lemma SliceAfter(head: seq<byte>, tail: seq<byte>, at: nat, size: nat)
    requires at + size <= |tail|
    ensures (head + tail)[|head| + at..|head| + at + size] == tail[at..at + size]
  {
  }

  lemma RecordsOfPrefix(list: seq<Entry>, i: nat)
    requires 1 <= i <= |list|
    ensures Records(list[..i]) == Record(list[0]) + Records(list[1..][..i - 1])
  {
    assert list[..i][1..] == list[1..][..i - 1];
  }

  lemma {:induction false} RecordsSplit(list: seq<Entry>, i: nat)
    requires i < |list|
    ensures var at := |Records(list[..i])|;
      && |Records(list[..i + 1])| == at + Size(list[i]) <= |Records(list)|
      && Records(list)[at..at + Size(list[i])] == Record(list[i])
    decreases i
  {
    RecordsOfPrefix(list, i + 1);
    if i == 0 {
      assert Records(list[1..][..0]) == [];
    } else {
      RecordsOfPrefix(list, i);
      RecordsSplit(list[1..], i - 1);
      SliceAfter(Record(list[0]), Records(list[1..]), |Records(list[1..][..i - 1])|, Size(list[i]));
    }
  }

  /** The first pass. */
  method SizePacket(list: seq<Entry>) returns (total: nat)
    ensures total == |PacketOf(list)|
  {
    total := CHNID_SIZE;
    for i := 0 to |list|
      invariant total == CHNID_SIZE + |Records(list[..i])|
    {
      RecordsSplit(list, i);
      total := total + RECORD_HEAD + |list[i].desc|;
    }
    assert list[..|list|] == list;
  }

  /** The bytes of record `i` in the packet, from `ptr` on. */
  lemma PacketBytes(list: seq<Entry>, i: nat, ptr: nat)
    requires i < |list| && ptr == CHNID_SIZE + |Records(list[..i])|
    ensures ptr + Size(list[i]) == CHNID_SIZE + |Records(list[..i + 1])| <= |PacketOf(list)|
    ensures forall k :: ptr <= k < ptr + Size(list[i]) ==> PacketOf(list)[k] == Record(list[i])[k - ptr]
  {
    RecordsSplit(list, i);
    var at := ptr - CHNID_SIZE;
    forall k | ptr <= k < ptr + Size(list[i]) ensures PacketOf(list)[k] == Record(list[i])[k - ptr] {
      assert Records(list)[at..at + Size(list[i])][k - ptr] == Records(list)[k - CHNID_SIZE];
    }
  }

  /** The second pass, into the buffer the first one sized: it fills it to the last byte, with the packet. */
  method Serialize(list: seq<Entry>) returns (buf: array<Cell>)
    ensures buf.Length == |PacketOf(list)|
    ensures forall k :: 0 <= k < buf.Length ==> buf[k] == Some(PacketOf(list)[k])
  {
    var total := SizePacket(list);
    buf := new Cell[total](_ => None);
    Store(buf, 0, CHNLIST);
    var ptr := CHNID_SIZE;
    for i := 0 to |list|
      invariant ptr == CHNID_SIZE + |Records(list[..i])| <= total
      invariant forall k :: 0 <= k < ptr ==> buf[k] == Some(PacketOf(list)[k])
      invariant forall k :: ptr <= k < total ==> buf[k].None?
    {
      PacketBytes(list, i, ptr);
      PutRecord(buf, ptr, list[i]);
      ptr := ptr + RECORD_HEAD + |list[i].desc|;
    }
    assert list[..|list|] == list;
  }

  // ---------- the client ----------

  /** What comes of a packet. `Overrun`: the walk reads past what was received. `Stuck`: a record of
      length 0, on which it would stand forever. `stop` is where the walk ends. */
  datatype Reading =
    | TooSmall | NotTheList | Overrun | Stuck
    | Listing(entries: seq<Entry>, heads: seq<nat>, stop: nat)

  /** The terminator of the string at `pos`, or `len` if there is none before it. */
  function FindNul(p: seq<byte>, len: nat, pos: nat): (r: nat)
    requires pos <= len <= |p|
    ensures pos <= r <= len && (r < len ==> p[r] == 0) && forall k :: pos <= k < r ==> p[k] != 0
    decreases len - pos
  {
    if pos == len || p[pos] == 0 then pos else FindNul(p, len, pos + 1)
  }

  function Prepend(e: Entry, head: nat, rest: Reading): Reading {
    if rest.Listing? then Listing([e] + rest.entries, [head] + rest.heads, rest.stop) else rest
  }

  function Walk(p: seq<byte>, len: nat, pos: nat): Reading
    requires len <= |p|
    decreases len - pos
  {
    if pos >= len then Listing([], [], pos)
    else if pos + RECORD_HEAD > len then Overrun
    else
      var nul := FindNul(p, len, pos + 3);
      var step := Ntohs(p[pos + 1], p[pos + 2]);
      if nul == len then Overrun
      else if step == 0 then Stuck
      else Prepend(Entry(p[pos], p[pos + 3..nul]), pos, Walk(p, len, pos + step))
  }

  /** The client reads at most MSG_LISTPACK_MAX bytes of the packet, checks size and channel, and walks. */
  function Receive(p: seq<byte>): Reading {
    var len := Min(|p|, MSG_LISTPACK_MAX);
    if len < LIST_HEAD then TooSmall
    else if p[0] != CHNLIST then NotTheList
    else Walk(p, len, CHNID_SIZE)
  }

  function PrependAll(entries: seq<Entry>, heads: seq<nat>, rest: Reading): Reading {
    if rest.Listing? then Listing(entries + rest.entries, heads + rest.heads, rest.stop) else rest
  }

  lemma PrependLast(entries: seq<Entry>, heads: seq<nat>, e: Entry, head: nat, rest: Reading)
    ensures PrependAll(entries, heads, Prepend(e, head, rest)) == PrependAll(entries + [e], heads + [head], rest)
  {
    if rest.Listing? {
      assert entries + ([e] + rest.entries) == entries + [e] + rest.entries;
      assert heads + ([head] + rest.heads) == heads + [head] + rest.heads;
    }
  }

  /** The client's code: the checks, then a pointer that moves by each record's own length. */
  method ReadProgramme(p: seq<byte>) returns (r: Reading)
    ensures r == Receive(p)
  {
    var len := Min(|p|, MSG_LISTPACK_MAX);
    if len < LIST_HEAD {
      return TooSmall;
    }
    if p[0] != CHNLIST {
      return NotTheList;
    }
    var pos := CHNID_SIZE;
    var entries: seq<Entry>, heads: seq<nat> := [], [];
    while pos < len
      invariant Walk(p, len, CHNID_SIZE) == PrependAll(entries, heads, Walk(p, len, pos))
      decreases len - pos
    {
      if pos + RECORD_HEAD > len {
        return Overrun;
      }
      var nul := FindNul(p, len, pos + 3);
      if nul == len {
        return Overrun;
      }
      var e := Entry(p[pos], p[pos + 3..nul]);
      var step := Ntohs(p[pos + 1], p[pos + 2]);
      if step == 0 {
        return Stuck;
      }
      PrependLast(entries, heads, e, pos, Walk(p, len, pos + step));
      entries, heads := entries + [e], heads + [pos];
      pos := pos + step;
    }
    return Listing(entries, heads, pos);
  }

  // ---------- what a reading means, for any packet ----------

  /** At `h`, wholly before `len`, there is a record of `e`: its id, any length, its description, a terminator. */
  predicate RecordAt(p: seq<byte>, len: nat, h: nat, e: Entry)
    requires len <= |p|
  {
    && h + Size(e) <= len && p[h] == e.chnid && IsString(e.desc)
    && p[h + 3..h + 3 + |e.desc|] == e.desc && p[h + 3 + |e.desc|] == 0
  }

  predicate Readable(p: seq<byte>, len: nat, h: nat)
    requires len <= |p|
  {
    h + RECORD_HEAD <= len && exists k :: h + 3 <= k < len && p[k] == 0
  }

  function StepAt(p: seq<byte>, h: nat): nat
    requires h + 2 < |p|
  {
    Ntohs(p[h + 1], p[h + 2])
  }

  /** Record by record, each head where the length of the one before it leads, `stop` where the last one leads. */
  predicate Visits(p: seq<byte>, len: nat, pos: nat, entries: seq<Entry>, heads: seq<nat>, stop: nat)
    requires len <= |p|
  {
    && |entries| == |heads| && (if heads == [] then stop == pos else heads[0] == pos)
    && (forall i :: 0 <= i < |heads| ==> RecordAt(p, len, heads[i], entries[i]) && StepAt(p, heads[i]) > 0)
    && (forall i :: 0 <= i < |heads| - 1 ==> heads[i + 1] == heads[i] + StepAt(p, heads[i]))
    && (heads != [] ==> stop == heads[|heads| - 1] + StepAt(p, heads[|heads| - 1]))
  }

  lemma FoundRecord(p: seq<byte>, len: nat, h: nat)
    requires len <= |p| && h + RECORD_HEAD <= len && FindNul(p, len, h + 3) < len
    ensures RecordAt(p, len, h, Entry(p[h], p[h + 3..FindNul(p, len, h + 3)]))
  {
  }

  lemma VisitsFirst(p: seq<byte>, len: nat, pos: nat, e: Entry, entries: seq<Entry>, heads: seq<nat>, stop: nat)
    requires len <= |p| && RecordAt(p, len, pos, e) && StepAt(p, pos) > 0
    requires Visits(p, len, pos + StepAt(p, pos), entries, heads, stop)
    ensures Visits(p, len, pos, [e] + entries, [pos] + heads, stop)
  {
  }

  lemma WalkGoesOn(p: seq<byte>, len: nat, pos: nat) returns (e: Entry)
    requires len <= |p| && pos < len && Readable(p, len, pos) && StepAt(p, pos) > 0
    ensures RecordAt(p, len, pos, e) && Walk(p, len, pos) == Prepend(e, pos, Walk(p, len, pos + StepAt(p, pos)))
  {
    var nul := FindNul(p, len, pos + 3);
    assert nul < len;
    FoundRecord(p, len, pos);
    e := Entry(p[pos], p[pos + 3..nul]);
  }

  /** What comes of a walk that has visited these records and ends at `stop`: a list past the packet, or else it
      stands where no record can be read, or on a record of length 0. */
  function Outcome(p: seq<byte>, len: nat, entries: seq<Entry>, heads: seq<nat>, stop: nat): Reading
    requires len <= |p|
  {
    if stop >= len then Listing(entries, heads, stop) else if Readable(p, len, stop) then Stuck else Overrun
  }

  lemma OutcomeFirst(p: seq<byte>, len: nat, e: Entry, pos: nat, entries: seq<Entry>, heads: seq<nat>, stop: nat)
    requires len <= |p|
    ensures Prepend(e, pos, Outcome(p, len, entries, heads, stop))
         == Outcome(p, len, [e] + entries, [pos] + heads, stop)
  {
  }

  /** Where a walk ends, and why. */
  predicate Ends(p: seq<byte>, len: nat, pos: nat, entries: seq<Entry>, heads: seq<nat>, stop: nat)
    requires len <= |p|
  {
    && Visits(p, len, pos, entries, heads, stop) && Walk(p, len, pos) == Outcome(p, len, entries, heads, stop)
    && (stop < len && Readable(p, len, stop) ==> StepAt(p, stop) == 0)
  }

  lemma EndsAtOnce(p: seq<byte>, len: nat, pos: nat)
    requires len <= |p|
    requires pos >= len || !Readable(p, len, pos) || StepAt(p, pos) == 0
    ensures Ends(p, len, pos, [], [], pos)
  {
    if pos < len && pos + RECORD_HEAD <= len {
      var nul := FindNul(p, len, pos + 3);
      assert nul < len <==> Readable(p, len, pos);
    }
  }

  lemma EndsLater(p: seq<byte>, len: nat, pos: nat, e: Entry, entries: seq<Entry>, heads: seq<nat>, stop: nat)
    requires len <= |p| && RecordAt(p, len, pos, e) && StepAt(p, pos) > 0
    requires Walk(p, len, pos) == Prepend(e, pos, Walk(p, len, pos + StepAt(p, pos)))
    requires Ends(p, len, pos + StepAt(p, pos), entries, heads, stop)
    ensures Ends(p, len, pos, [e] + entries, [pos] + heads, stop)
  {
    VisitsFirst(p, len, pos, e, entries, heads, stop);
    OutcomeFirst(p, len, e, pos, entries, heads, stop);
  }

  /** Every walk over any packet ends like that. */
  lemma {:induction false} WalkEnds(p: seq<byte>, len: nat, pos: nat)
    returns (entries: seq<Entry>, heads: seq<nat>, stop: nat)
    requires len <= |p|
    ensures Ends(p, len, pos, entries, heads, stop)
    decreases len - pos
  {
    if pos >= len || !Readable(p, len, pos) || StepAt(p, pos) == 0 {
      EndsAtOnce(p, len, pos);
      return [], [], pos;
    }
    var e := WalkGoesOn(p, len, pos);
    entries, heads, stop := WalkEnds(p, len, pos + StepAt(p, pos));
    EndsLater(p, len, pos, e, entries, heads, stop);
    entries, heads := [e] + entries, [pos] + heads;
  }

  /** A packet that is shorter than a list head or is not for the list channel never yields a list; what any
      other yields are the records that it carries, from the first on, and all of them that were received. */
  lemma ListingMeans(p: seq<byte>)
    requires Receive(p).Listing?
    ensures |p| >= LIST_HEAD && p[0] == CHNLIST
    ensures var r, len := Receive(p), Min(|p|, MSG_LISTPACK_MAX);
      Visits(p, len, CHNID_SIZE, r.entries, r.heads, r.stop) && r.stop >= len
  {
    var entries, heads, stop := WalkEnds(p, Min(|p|, MSG_LISTPACK_MAX), CHNID_SIZE);
  }

  // ---------- the round trip ----------

  /** A record that lies wholly before `len` is read back, and its length field leads to its end. */
  lemma ReadsRecord(p: seq<byte>, len: nat, pos: nat, e: Entry)
    requires IsString(e.desc) && Size(e) < 65536 && pos + Size(e) <= len <= |p| && p[pos..pos + Size(e)] == Record(e)
    ensures p[pos] == e.chnid && Ntohs(p[pos + 1], p[pos + 2]) == Size(e)
    ensures var nul := FindNul(p, len, pos + 3); nul == pos + Size(e) - 1 && p[pos + 3..nul] == e.desc
  {
    NtohsHtons(Size(e));
    var r := p[pos..pos + Size(e)];
    assert forall k :: 0 <= k < Size(e) ==> p[pos + k] == r[k];
    assert forall k :: 0 <= k < |e.desc| ==> p[pos + 3 + k] == e.desc[k];
    assert p[pos + 3 + |e.desc|] == 0;
    assert forall k :: pos + 3 <= k < pos + 3 + |e.desc| ==> p[k] == e.desc[k - pos - 3];
  }

  /** A record that `len` cuts has no terminator before `len`. */
  lemma CutRecordOverruns(p: seq<byte>, len: nat, pos: nat, e: Entry)
    requires IsString(e.desc) && pos < len < pos + Size(e) <= |p| && len <= |p| && p[pos..pos + Size(e)] == Record(e)
    ensures Walk(p, len, pos) == Overrun
  {
    if pos + RECORD_HEAD <= len {
      var r := p[pos..pos + Size(e)];
      assert forall k :: 0 <= k < Size(e) ==> p[pos + k] == r[k];
      assert forall k :: 0 <= k < |e.desc| ==> p[pos + 3 + k] == e.desc[k];
      assert forall k :: pos + 3 <= k < len ==> p[k] == e.desc[k - pos - 3];
    }
  }

  /** The packet carries the records of `list` at `pos`. */
  predicate Carries(p: seq<byte>, pos: nat, list: seq<Entry>) {
    pos + |Records(list)| <= |p| && p[pos..pos + |Records(list)|] == Records(list)
  }

  lemma CarriesParts(p: seq<byte>, pos: nat, list: seq<Entry>)
    requires Carries(p, pos, list) && list != []
    ensures pos + Size(list[0]) <= |p| && p[pos..pos + Size(list[0])] == Record(list[0])
    ensures Carries(p, pos + Size(list[0]), list[1..])
  {
    var size, all := Size(list[0]), p[pos..pos + |Records(list)|];
    assert p[pos..pos + size] == all[..size];
    assert p[pos + size..pos + |Records(list)|] == all[size..];
  }

  /** The walk reads the first record it stands on, if `len` does not cut it, and goes on at the next. */
  lemma WalkStep(p: seq<byte>, len: nat, pos: nat, list: seq<Entry>)
    requires AreStrings(list) && Carries(p, pos, list) && list != [] && pos + Size(list[0]) <= len <= |p| && len < 65536
    ensures Walk(p, len, pos) == Prepend(list[0], pos, Walk(p, len, pos + Size(list[0])))
  {
    CarriesParts(p, pos, list);
    ReadsRecord(p, len, pos, list[0]);
  }

  lemma PrependListing(list: seq<Entry>, pos: nat, len: nat)
    requires list != []
    ensures Prepend(list[0], pos, Listing(list[1..], Heads(list[1..], pos + Size(list[0])), len))
         == Listing(list, Heads(list, pos), len)
  {
  }

  lemma WalkAtEnd(p: seq<byte>, len: nat)
    requires len <= |p|
    ensures Walk(p, len, len) == Listing([], [], len)
  {
  }

  /** The packet carries the list at `pos`, and ends with it. */
  predicate Whole(p: seq<byte>, len: nat, pos: nat, list: seq<Entry>) {
    AreStrings(list) && Carries(p, pos, list) && pos + |Records(list)| == len < 65536
  }

  lemma WholeRest(p: seq<byte>, len: nat, pos: nat, list: seq<Entry>)
    requires Whole(p, len, pos, list) && list != []
    ensures Whole(p, len, pos + Size(list[0]), list[1..])
  {
    CarriesParts(p, pos, list);
  }

  lemma WholeAtEnd(p: seq<byte>, len: nat, pos: nat)
    requires Whole(p, len, pos, [])
    ensures Recovers(p, len, pos, [])
  {
    WalkAtEnd(p, len);
  }

  predicate Recovers(p: seq<byte>, len: nat, pos: nat, list: seq<Entry>)
    requires len <= |p|
  {
    Walk(p, len, pos) == Listing(list, Heads(list, pos), len)
  }

  /** From one record to the next. */
  lemma StepRecovers(p: seq<byte>, len: nat, pos: nat, list: seq<Entry>)
    requires Whole(p, len, pos, list) && list != [] && Recovers(p, len, pos + Size(list[0]), list[1..])
    ensures Recovers(p, len, pos, list)
  {
    WalkStep(p, len, pos, list);
    PrependListing(list, pos, len);
  }

  lemma {:induction false} WalkRecovers(p: seq<byte>, len: nat, pos: nat, list: seq<Entry>)
    requires Whole(p, len, pos, list)
    ensures Recovers(p, len, pos, list)
    decreases |list|
  {
    if list == [] {
      WholeAtEnd(p, len, pos);
    } else {
      WholeRest(p, len, pos, list);
      WalkRecovers(p, len, pos + Size(list[0]), list[1..]);
      StepRecovers(p, len, pos, list);
    }
  }

  predicate Loses(w: Reading, list: seq<Entry>) {
    w.Listing? ==> |w.entries| < |list|
  }

  lemma PrependLoses(list: seq<Entry>, head: nat, rest: Reading)
    requires list != [] && Loses(rest, list[1..])
    ensures Loses(Prepend(list[0], head, rest), list)
  {
  }

  lemma WalkStepLoses(p: seq<byte>, len: nat, pos: nat, list: seq<Entry>)
    requires AreStrings(list) && Carries(p, pos, list) && list != [] && pos + Size(list[0]) <= len <= |p| && len < 65536
    requires Loses(Walk(p, len, pos + Size(list[0])), list[1..])
    ensures Loses(Walk(p, len, pos), list)
  {
    WalkStep(p, len, pos, list);
    PrependLoses(list, pos, Walk(p, len, pos + Size(list[0])));
  }

  /** The packet carries the list at `pos`, and `len` cuts it short. */
  predicate Cuts(p: seq<byte>, len: nat, pos: nat, list: seq<Entry>) {
    AreStrings(list) && Carries(p, pos, list) && pos <= len < pos + |Records(list)| && len < 65536
  }

  /** What is left of the packet behind its first record is cut short, too. */
  lemma CutRest(p: seq<byte>, len: nat, pos: nat, list: seq<Entry>)
    requires Cuts(p, len, pos, list) && list != [] && pos + Size(list[0]) <= len
    ensures Cuts(p, len, pos + Size(list[0]), list[1..])
  {
    CarriesParts(p, pos, list);
  }

  lemma CutFirstLoses(p: seq<byte>, len: nat, pos: nat, list: seq<Entry>)
    requires Cuts(p, len, pos, list) && list != [] && len < pos + Size(list[0])
    ensures Loses(Walk(p, len, pos), list)
  {
    if pos == len {
      WalkAtEnd(p, len);
    } else {
      CarriesParts(p, pos, list);
      CutRecordOverruns(p, len, pos, list[0]);
    }
  }

  lemma CutRestLoses(p: seq<byte>, len: nat, pos: nat, list: seq<Entry>)
    requires Cuts(p, len, pos, list) && list != [] && pos + Size(list[0]) <= len
    requires Loses(Walk(p, len, pos + Size(list[0])), list[1..])
    ensures Loses(Walk(p, len, pos), list)
  {
    WalkStepLoses(p, len, pos, list);
  }

  lemma CutIsNotEmpty(p: seq<byte>, len: nat, pos: nat, list: seq<Entry>)
    requires Cuts(p, len, pos, list)
    ensures list != []
  {
  }

  /** A walk over a packet that `len` cuts short never yields the whole list. */
  lemma {:induction false} CutWalkLosesEntries(p: seq<byte>, len: nat, pos: nat, list: seq<Entry>)
    requires Cuts(p, len, pos, list)
    ensures Loses(Walk(p, len, pos), list)
    decreases |list|
  {
    CutIsNotEmpty(p, len, pos, list);
    if len < pos + Size(list[0]) {
      CutFirstLoses(p, len, pos, list);
    } else {
      CutRest(p, len, pos, list);
      CutWalkLosesEntries(p, len, pos + Size(list[0]), list[1..]);
      CutRestLoses(p, len, pos, list);
    }
  }

  /** The round trip: the client recovers the list, visits exactly its record heads, and stops exactly
      at the end of the packet, if and only if the list is not empty and its packet fits the datagram. */
  lemma RoundTrip(list: seq<Entry>)
    requires AreStrings(list)
    ensures Receive(PacketOf(list)) == Listing(list, Heads(list, CHNID_SIZE), |PacketOf(list)|)
            <==> list != [] && |PacketOf(list)| <= MSG_LISTPACK_MAX
  {
    var p := PacketOf(list);
    if list != [] {
      assert |Records(list)| >= Size(list[0]);
      assert p[CHNID_SIZE..CHNID_SIZE + |Records(list)|] == Records(list);
      if |p| <= MSG_LISTPACK_MAX {
        WalkRecovers(p, |p|, CHNID_SIZE, list);
      } else {
        CutWalkLosesEntries(p, MSG_LISTPACK_MAX, CHNID_SIZE, list);
      }
    }
  }
}
