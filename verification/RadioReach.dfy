/** What can reach the player: everything that the playlist starts with, and from
    every state of the radio that has not failed, ever more of it. */
module RadioReach {
  import opened Tokens
  import opened Proto
  import opened Playlist
  import R = Radio

  type State = R.State

  ghost predicate Leads(s: State, e: State) {
    exists acts :: R.Feasible(s, acts) && R.After(s, acts) == e
  }

  lemma LeadsNowhere(s: State)
    ensures Leads(s, s)
  {
    assert R.Feasible(s, []) && R.After(s, []) == s;
  }

  lemma OneAct(s: State, acts: seq<R.Act>)
    requires acts != [] && R.Enabled(s, acts[0]) && R.Feasible(R.Apply(s, acts[0]), acts[1..])
    ensures R.Feasible(s, acts) && R.After(s, acts) == R.After(R.Apply(s, acts[0]), acts[1..])
  {
  }

  lemma LeadsStep(s: State, a: R.Act)
    requires R.Enabled(s, a)
    ensures Leads(s, R.Apply(s, a))
  {
    assert [a][1..] == [];
    OneAct(s, [a]);
  }

  lemma {:induction false} RunAppend(s: State, a: seq<R.Act>, b: seq<R.Act>)
    requires R.Feasible(s, a) && R.Feasible(R.After(s, a), b)
    ensures R.Feasible(s, a + b) && R.After(s, a + b) == R.After(R.After(s, a), b)
    decreases |a|
  {
    if a == [] {
      assert a + b == b;
    } else {
      var ab := a + b;
      assert ab[0] == a[0] && ab[1..] == a[1..] + b;
      RunAppend(R.Apply(s, a[0]), a[1..], b);
      OneAct(s, ab);
    }
  }

  lemma LeadsOn(s: State, mid: State, e: State)
    requires Leads(s, mid) && Leads(mid, e)
    ensures Leads(s, e)
  {
    var a :| R.Feasible(s, a) && R.After(s, a) == mid;
    var b :| R.Feasible(mid, b) && R.After(mid, b) == e;
    RunAppend(s, a, b);
  }

  // ---------- states that the chosen channel's listener can be in ----------

  /** A client that is writing has something to write. */
  predicate ClientOk(s: State) {
    s.client.Writing? ==> s.client.rest != []
  }

  predicate Alive(s: State) {
    R.Inv(s) && ClientOk(s) && !s.client.Failed?
  }

  function Ours(s: State): R.Sender
    requires s.chosen in s.senders
  {
    s.senders[s.chosen]
  }

  /** The same listener of the same channel. */
  predicate SameRadio(s: State, e: State) {
    e.chosen == s.chosen && R.SameChannel(s, e, s.chosen)
  }

  /** Nothing is under way: the sender is about to fetch, and the player has all that was read. */
  predicate AtRest(s: State) {
    Alive(s) && s.net == [] && s.client.Receiving? && Ours(s).pc.Fetching?
  }

  lemma RestMeansHeard(s: State)
    requires AtRest(s)
    ensures s.out == R.Played(Ours(s))
  {
  }

  lemma StepStaysAlive(s: State, a: R.Act)
    requires Alive(s) && R.Enabled(s, a) && !a.WriteFails?
    ensures Alive(R.Apply(s, a)) && SameRadio(s, R.Apply(s, a)) && Leads(s, R.Apply(s, a))
  {
    R.StepKeepsInv(s, a);
    R.StepKeepsChannel(s, a, s.chosen);
    LeadsStep(s, a);
  }

  /** One more act, after a run that got here. */
  lemma Then(s: State, p: State, a: R.Act) returns (e: State)
    requires Leads(s, p) && SameRadio(s, p) && Alive(p) && R.Enabled(p, a) && !a.WriteFails?
    ensures e == R.Apply(p, a) && Leads(s, e) && SameRadio(s, e) && Alive(e)
  {
    StepStaysAlive(p, a);
    e := R.Apply(p, a);
    LeadsOn(s, p, e);
  }

  lemma Both(s: State, p: State, e: State)
    requires Leads(s, p) && SameRadio(s, p) && Leads(p, e) && SameRadio(p, e)
    ensures Leads(s, e) && SameRadio(s, e)
  {
    LeadsOn(s, p, e);
  }

  /** Any packet that is not a channel's can come in between at any moment: the list's, or a stranger's. */
  lemma AnythingCanComeBetween(s: State, p: R.Packet)
    requires p.fromServer ==> p.chnid == CHNLIST
    ensures Leads(s, s.(net := s.net + [p]))
  {
    LeadsStep(s, if p.fromServer then R.Programme(p.data) else R.Stranger(p.chnid, p.data));
  }

  // ---------- everything under way arrives ----------

  /** The client writes all it has. */
  lemma ClientEmpties(s: State) returns (e: State)
    requires Alive(s)
    ensures Leads(s, e) && SameRadio(s, e) && Alive(e) && e.client.Receiving?
    ensures e.net == s.net && e.senders == s.senders
  {
    LeadsNowhere(s);
    e := s;
    if s.client.Writing? {
      e := Then(s, s, R.Write(|s.client.rest|));
    }
  }

  /** The client takes what is in the network, packet by packet. */
  lemma {:induction false} NetworkEmpties(s: State) returns (e: State)
    requires Alive(s) && s.client.Receiving?
    ensures Leads(s, e) && SameRadio(s, e) && Alive(e) && e.client.Receiving? && e.net == [] && e.senders == s.senders
    decreases |s.net|
  {
    LeadsNowhere(s);
    if s.net == [] {
      return s;
    }
    var a := Then(s, s, R.Receive);
    var b := ClientEmpties(a);
    Both(s, a, b);
    e := NetworkEmpties(b);
    Both(s, b, e);
  }

  /** What a read may bring: nothing at the end of the song, else a byte, say. */
  function SomeLen(c: R.Sender): nat
    requires R.Tuned(c)
  {
    if c.offset == |R.Song(c)| then 0 else 1
  }

  lemma SenderCanGo(c: R.Sender)
    requires R.SenderOk(c) && !c.pc.Fetching?
    ensures R.SenderCan(c, SomeLen(c))
  {
  }

  function StepsLeft(pc: R.SenderPC): nat {
    match pc
    case Fetching => 0
    case Reading(_) => 3
    case Returning(_, _) => 2
    case Sending(_) => 1
  }

  lemma SenderAdvances(c: R.Sender, len: nat)
    requires R.SenderCan(c, len) && !c.pc.Fetching?
    ensures StepsLeft(R.SenderStep(c, len).pc) < StepsLeft(c.pc)
  {
  }

  /** The sender finishes the packet it is at. */
  lemma {:induction false} SenderFinishes(s: State) returns (e: State)
    requires Alive(s) && s.client.Receiving?
    ensures Leads(s, e) && SameRadio(s, e) && Alive(e) && e.client.Receiving? && Ours(e).pc.Fetching?
    decreases StepsLeft(Ours(s).pc)
  {
    LeadsNowhere(s);
    var c := Ours(s);
    if c.pc.Fetching? {
      return s;
    }
    SenderCanGo(c);
    SenderAdvances(c, SomeLen(c));
    var a := Then(s, s, R.SenderGo(s.chosen, SomeLen(c)));
    e := SenderFinishes(a);
    Both(s, a, e);
  }

  lemma ComesToRest(s: State) returns (e: State)
    requires Alive(s)
    ensures Leads(s, e) && SameRadio(s, e) && AtRest(e)
  {
    var a := ClientEmpties(s);
    var b := SenderFinishes(a);
    Both(s, a, b);
    e := NetworkEmpties(b);
    Both(s, b, e);
  }

  // ---------- the playlist goes on ----------

  predicate CanPlay(c: R.Sender) {
    c.cps >= 1 && c.burst >= 1
  }

  /** The next read brings a byte, or ends the song. */
  predicate Advanced(c: R.Sender, c': R.Sender)
    requires R.Tuned(c)
  {
    if c.offset < |R.Song(c)| then c'.ended == c.ended && c'.offset == c.offset + 1
    else c'.ended == c.ended + 1 && c'.offset == 0
  }

  lemma ReadAdvances(c: R.Sender)
    requires R.SenderOk(c) && c.pc.Reading?
    ensures R.SenderCan(c, SomeLen(c)) && Advanced(c, R.SenderStep(c, SomeLen(c)))
  {
  }

  lemma NoReadKeepsPlace(c: R.Sender, len: nat)
    requires R.SenderCan(c, len) && !c.pc.Reading?
    ensures R.SenderStep(c, len).ended == c.ended && R.SenderStep(c, len).offset == c.offset
  {
  }

  lemma TickLetsFetch(c: R.Sender)
    requires R.SenderOk(c) && CanPlay(c) && c.pc.Fetching?
    ensures var c' := R.TickSender(c);
      R.SenderCan(c', 0) && c'.pc.Fetching? && c'.ended == c.ended && c'.offset == c.offset
  {
  }

  /** From a rest, a tick, a fetch and a read. */
  lemma ReadsNext(s: State) returns (e: State)
    requires AtRest(s) && CanPlay(Ours(s))
    ensures Leads(s, e) && SameRadio(s, e) && Alive(e) && e.client.Receiving? && e.net == [] && e.out == s.out
    ensures Advanced(Ours(s), Ours(e)) && Ours(e).pc.Returning?
  {
    LeadsNowhere(s);
    var c := Ours(s);
    TickLetsFetch(c);
    var a := Then(s, s, R.Tick(s.chosen));
    var b := Then(s, a, R.SenderGo(s.chosen, 0));
    ReadAdvances(Ours(b));
    e := Then(s, b, R.SenderGo(s.chosen, SomeLen(Ours(b))));
  }

  lemma {:induction false} SenderFinishesHere(s: State) returns (e: State)
    requires Alive(s) && s.client.Receiving? && (Ours(s).pc.Returning? || Ours(s).pc.Sending?)
    ensures Leads(s, e) && SameRadio(s, e) && Alive(e) && e.client.Receiving? && Ours(e).pc.Fetching?
    ensures Ours(e).ended == Ours(s).ended && Ours(e).offset == Ours(s).offset
    decreases StepsLeft(Ours(s).pc)
  {
    LeadsNowhere(s);
    var c := Ours(s);
    NoReadKeepsPlace(c, 0);
    e := Then(s, s, R.SenderGo(s.chosen, 0));
    if c.pc.Returning? {
      var a := e;
      e := SenderFinishesHere(a);
      Both(s, a, e);
    }
  }

  /** One round of the sender, up to the next rest. */
  lemma PlayNext(s: State) returns (e: State)
    requires AtRest(s) && CanPlay(Ours(s))
    ensures Leads(s, e) && SameRadio(s, e) && AtRest(e) && Advanced(Ours(s), Ours(e))
  {
    var a := ReadsNext(s);
    var b := SenderFinishesHere(a);
    Both(s, a, b);
    e := NetworkEmpties(b);
    Both(s, b, e);
  }

  /** Any later place of the playlist can be reached: byte `o` of the song that is the `j`-th from the start. */
  lemma {:induction false} PlayTo(s: State, j: nat, o: nat) returns (e: State)
    requires AtRest(s) && CanPlay(Ours(s))
    requires var c := Ours(s); o <= |c.songs[NthSong(c.songs, c.start, j)].value|
    requires Ours(s).ended < j || (Ours(s).ended == j && Ours(s).offset <= o)
    ensures Leads(s, e) && SameRadio(s, e) && AtRest(e) && Ours(e).ended == j && Ours(e).offset == o
    decreases j - Ours(s).ended, |R.Song(Ours(s))| - Ours(s).offset
  {
    LeadsNowhere(s);
    if Ours(s).ended == j && Ours(s).offset == o {
      return s;
    }
    var a := PlayNext(s);
    e := PlayTo(a, j, o);
    Both(s, a, e);
  }

  // ---------- what can be heard ----------

  /** Every beginning of the playlist ends inside some song, or at its end. */
  lemma {:induction false} FindPlace(songs: Songs, start: nat, k: nat, w: seq<byte>) returns (j: nat, o: nat)
    requires Opens(songs, start) && w <= Stream(songs, start, k)
    ensures o <= |songs[NthSong(songs, start, j)].value|
    ensures w == Stream(songs, start, j) + songs[NthSong(songs, start, j)].value[..o]
  {
    if k == 0 {
      return 0, 0;
    }
    var before := Stream(songs, start, k - 1);
    if |w| <= |before| {
      j, o := FindPlace(songs, start, k - 1, w);
    } else {
      j, o := k - 1, |w| - |before|;
    }
  }

  lemma InitAtRest(s: State)
    requires R.Init(s)
    ensures AtRest(s)
  {
    R.InitInv(s);
  }

  lemma CanHear(s: State, k: nat, w: seq<byte>) returns (e: State)
    requires R.Init(s) && CanPlay(Ours(s)) && w <= Stream(Ours(s).songs, Ours(s).start, k)
    ensures Leads(s, e) && e.out == w
  {
    InitAtRest(s);
    var j, o := FindPlace(Ours(s).songs, Ours(s).start, k, w);
    e := PlayTo(s, j, o);
    RestMeansHeard(e);
  }

  /** A bucket that never fills lets nothing through. */
  predicate Mute(s: State) {
    R.Inv(s) && Ours(s).burst == 0 && Ours(s).pc.Fetching? && Ours(s).ended == 0 && Ours(s).offset == 0
  }

  lemma {:induction false} StaysMute(s: State, acts: seq<R.Act>)
    requires Mute(s) && R.Feasible(s, acts)
    ensures Mute(R.After(s, acts))
    decreases |acts|
  {
    if acts != [] {
      R.StepKeepsInv(s, acts[0]);
      StaysMute(R.Apply(s, acts[0]), acts[1..]);
    }
  }

  lemma MuteMeansNothing(s: State)
    requires Mute(s)
    ensures s.out == []
  {
  }

  /** Without a rate or without a cap, nothing is heard. */
  lemma CannotPlay(s: State, acts: seq<R.Act>)
    requires R.Init(s) && R.Feasible(s, acts) && !CanPlay(Ours(s))
    ensures R.After(s, acts).out == []
  {
    R.PlayerHearsThePlaylist(s, acts);
    if Ours(s).burst == 0 {
      InitAtRest(s);
      StaysMute(s, acts);
      MuteMeansNothing(R.After(s, acts));
    }
  }

  /** What can have reached the player is exactly the beginnings of the chosen channel's playlist, if its bucket has
      a rate and a cap; and nothing if it has not. */
  lemma HeardExactly(s: State, w: seq<byte>)
    requires R.Init(s)
    ensures (exists e :: Leads(s, e) && e.out == w)
            <==> w == [] || (CanPlay(Ours(s)) && exists k :: w <= Stream(Ours(s).songs, Ours(s).start, k))
  {
    if e :| Leads(s, e) && e.out == w {
      var acts :| R.Feasible(s, acts) && R.After(s, acts) == e;
      R.PlayerHearsThePlaylist(s, acts);
      if !CanPlay(Ours(s)) { CannotPlay(s, acts); }
    }
    if w == [] {
      LeadsNowhere(s);
    } else if CanPlay(Ours(s)) {
      if k :| w <= Stream(Ours(s).songs, Ours(s).start, k) {
        var e := CanHear(s, k, w);
      }
    }
  }

  lemma {:induction false} RunStaysAlive(s: State, acts: seq<R.Act>)
    requires R.Inv(s) && ClientOk(s) && R.Feasible(s, acts)
    ensures R.Inv(R.After(s, acts)) && ClientOk(R.After(s, acts)) && SameRadio(s, R.After(s, acts))
    decreases |acts|
  {
    if acts != [] {
      R.StepKeepsInv(s, acts[0]);
      R.StepKeepsChannel(s, acts[0], s.chosen);
      RunStaysAlive(R.Apply(s, acts[0]), acts[1..]);
    }
  }

  lemma {:induction false} StreamGrows(songs: Songs, start: nat, k: nat, j: nat)
    requires Opens(songs, start) && k <= j
    ensures Stream(songs, start, k) <= Stream(songs, start, j)
    decreases j
  {
    if k < j { StreamGrows(songs, start, k, j - 1); }
  }

  /** The player never falls silent: from every state that any run reaches, unless a write has failed, the radio can
      go on until any number of songs has been heard. */
  lemma NeverSilent(s: State, acts: seq<R.Act>, k: nat) returns (e: State)
    requires R.Init(s) && R.Feasible(s, acts) && CanPlay(Ours(s)) && !R.After(s, acts).client.Failed?
    ensures Leads(R.After(s, acts), e) && Stream(Ours(s).songs, Ours(s).start, k) <= e.out
  {
    InitAtRest(s);
    RunStaysAlive(s, acts);
    var m := R.After(s, acts);
    var a := ComesToRest(m);
    var j := if Ours(a).ended < k then k else Ours(a).ended + 1;
    e := PlayTo(a, j, 0);
    Both(m, a, e);
    RestMeansHeard(e);
    StreamGrows(Ours(s).songs, Ours(s).start, k, j);
  }
}
