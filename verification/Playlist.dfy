/** A channel's playlist: files played round and round, those that will not open
    passed over. */
module Playlist {
  import opened Tokens
  import opened Proto

  /** A file that opens has its bytes; one that does not is None. */
  type Songs = seq<Option<seq<byte>>>

  /** The index `d` places after `pos`, wrapping once. */
  function After(n: nat, pos: nat, d: nat): (r: nat)
    requires pos < n && d <= n
    ensures r < n
  {
    if pos + d < n then pos + d else pos + d - n
  }

  predicate Opens(songs: Songs, i: nat) {
    i < |songs| && songs[i].Some?
  }

  /** How far after `pos` the next file that opens is, looking from distance `d` on; |songs| + 1 if none is. */
  function Gap(songs: Songs, pos: nat, d: nat): (g: nat)
    requires pos < |songs| && 1 <= d <= |songs| + 1
    ensures d <= g <= |songs| + 1
    ensures g <= |songs| ==> Opens(songs, After(|songs|, pos, g))
    ensures forall e :: d <= e < g ==> !Opens(songs, After(|songs|, pos, e))
    decreases |songs| + 1 - d
  {
    if d == |songs| + 1 || Opens(songs, After(|songs|, pos, d)) then d else Gap(songs, pos, d + 1)
  }

  /** Some file at distance 1..n opens exactly when some file opens: the walk meets every index, itself last. */
  lemma GapFinds(songs: Songs, pos: nat)
    requires pos < |songs|
    ensures Gap(songs, pos, 1) <= |songs| <==> exists i :: Opens(songs, i)
  {
    if i: nat :| Opens(songs, i) {
      var d: nat := if i > pos then i - pos else i - pos + |songs|;
      assert After(|songs|, pos, d) == i;
    }
  }

  /** The song after `pos`; a song that opens is its own successor when no other does. */
  function NextSong(songs: Songs, pos: nat): (r: nat)
    requires Opens(songs, pos)
    ensures Opens(songs, r)
  {
    GapFinds(songs, pos);
    After(|songs|, pos, Gap(songs, pos, 1))
  }

  /** The song that plays once `k` songs from `start` have ended. */
  function NthSong(songs: Songs, start: nat, k: nat): (r: nat)
    requires Opens(songs, start)
    ensures Opens(songs, r)
  {
    if k == 0 then start else NextSong(songs, NthSong(songs, start, k - 1))
  }

  /** The bytes of the first `k` songs from `start` on. */
  function Stream(songs: Songs, start: nat, k: nat): seq<byte>
    requires Opens(songs, start)
  {
    if k == 0 then [] else Stream(songs, start, k - 1) + songs[NthSong(songs, start, k - 1)].value
  }

  /** When every file opens, the playlist is the plain cycle of its files: song `k` is the one
      at start + k, counted round the list. */
  lemma {:induction false} AllOpenCycles(songs: Songs, start: nat, k: nat) returns (laps: nat)
    requires start < |songs| && forall i :: 0 <= i < |songs| ==> songs[i].Some?
    ensures start + k == laps * |songs| + NthSong(songs, start, k)
  {
    if k == 0 {
      return 0;
    }
    laps := AllOpenCycles(songs, start, k - 1);
    assert Gap(songs, NthSong(songs, start, k - 1), 1) == 1;
    if NthSong(songs, start, k) == 0 {
      assert (laps + 1) * |songs| == laps * |songs| + |songs|;
      laps := laps + 1;
    }
  }

  /** What the search of the server looks at and changes. The result of `open` is
      the caller's, file by file; `fd` is the file that is open, if one is. */
  class Channel {
    var pos: nat
    var fd: Option<nat>
    var offset: nat

    constructor (first: nat)
      ensures pos == first && fd == Some(first) && offset == 0
    {
      pos, fd, offset := first, Some(first), 0;
    }

    /** The search for the next file that opens. It succeeds exactly when one does, at the first such
        file cyclically after the old one; otherwise it has gone all the way round, with nothing open. */
    method OpenNext(songs: Songs) returns (ret: int)
      requires pos < |songs|
      modifies this
      ensures ret == 0 || ret == -1
      ensures ret == 0 <==> exists i :: Opens(songs, i)
      ensures ret == 0 ==> exists d :: 1 <= d <= |songs| && pos == After(|songs|, old(pos), d) && Opens(songs, pos)
                                       && forall e :: 1 <= e < d ==> !Opens(songs, After(|songs|, old(pos), e))
      ensures ret == 0 ==> offset == 0 && fd == Some(pos)
      ensures ret == 0 && Opens(songs, old(pos)) ==> pos == NextSong(songs, old(pos))
      ensures ret == -1 ==> pos == old(pos) && offset == old(offset) && fd == None
    {
      ghost var start := pos;
      GapFinds(songs, start);
      for i := 0 to |songs|
        invariant pos == After(|songs|, start, i)
        invariant forall e :: 1 <= e <= i ==> !Opens(songs, After(|songs|, start, e))
        invariant offset == old(offset) && (i > 0 ==> fd == None)
      {
        pos := pos + 1;
        if pos == |songs| {
          pos := 0;
        }
        fd := if Opens(songs, pos) then Some(pos) else None;
        if fd.Some? {
          offset := 0;
          assert pos == After(|songs|, start, i + 1);
          return 0;
        }
      }
      return -1;
    }

    /** One paced read, against the results `pread` gives: an error, or at most so many bytes. After an error
        the next song is opened and read instead, from its start; `failed` songs are given up like that, and
        `running` says that the results ended before the loop did. A read brings bytes from where the last
        one ended, up to `tbfsize`, and none only at the end of the song, after which the next is opened.
        What is not read goes back to the bucket: that is `back`. */
    method ReadChannel(songs: Songs, tbfsize: nat, results: seq<int>)
      returns (data: seq<byte>, back: nat, failed: nat, running: bool)
      requires Opens(songs, pos) && fd == Some(pos) && offset <= |songs[pos].value|
      requires 0 < tbfsize && forall i :: 0 <= i < |results| ==> results[i] != 0
      modifies this
      ensures failed <= |results| && (running <==> failed == |results|)
      ensures (forall i :: 0 <= i < failed ==> results[i] < 0) && (!running ==> results[failed] > 0)
      ensures var song, start := NthSong(songs, old(pos), failed), (if failed == 0 then old(offset) else 0);
        && start <= |songs[song].value| && data <= songs[song].value[start..] && |data| + back == tbfsize
        && (running ==> data == [] && pos == song && offset == start)
        && (!running ==> (data == [] <==> start == |songs[song].value|))
        && (!running && data == [] ==> pos == NextSong(songs, song) && offset == 0)
        && (!running ==> |data| == Min(results[failed], Min(tbfsize, |songs[song].value| - start)))
        && (!running && data != [] ==> pos == song && offset == start + |data|)
      ensures Opens(songs, pos) && fd == Some(pos) && offset <= |songs[pos].value|
    {
      failed := 0;
      for i := 0 to |results|
        invariant failed == i && forall k :: 0 <= k < i ==> results[k] < 0
        invariant Opens(songs, pos) && fd == Some(pos) && offset <= |songs[pos].value|
        invariant pos == NthSong(songs, old(pos), i) && offset == if i == 0 then old(offset) else 0
      {
        if results[i] < 0 {
          var ret := OpenNext(songs);
          failed := failed + 1;
        } else {
          var len := Min(results[i], Min(tbfsize, |songs[pos].value| - offset));
          data := songs[pos].value[offset..offset + len];
          if len == 0 {
            var ret := OpenNext(songs);
          } else {
            offset := offset + len;
          }
          return data, tbfsize - len, failed, false;
        }
      }
      return [], tbfsize, failed, true;
    }
  }
}
