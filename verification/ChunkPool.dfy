/**
 * The replay player's chunk reader: a few lanes over one list of URLs, every
 * stream held to a cap of its own and all of them together to one more.
 */
module ChunkPool {
  import opened Wrappers

  /** A part of a stream as it arrives; `first` where a new stream begins (the stored bytes, then the inflated ones). */
  datatype Part = Part(size: nat, first: bool)

  /** What one URL answers: the parts that arrive, and then its events, or None when anything but size goes wrong. */
  datatype Chunk<E> = Chunk(parts: seq<Part>, events: Option<seq<E>>)

  datatype Limits = Limits(chunkMax: nat, captureMax: nat)

  datatype Lane = Reading(url: nat, size: nat) | Failed(at: nat) | Finished

  /** `takenBy[i]`: the lane that fetched URL i; `read[i]`: how many of its parts have arrived; `counted`: all bytes so far. */
  datatype Pool<E> = Pool(next: nat, takenBy: seq<nat>, lanes: seq<Lane>, read: seq<nat>, counted: nat, out: seq<Option<seq<E>>>)

  datatype Outcome<E> = Pending | Rejected | Resolved(events: seq<E>)

  // ---------------------------------------------------------------- the steps

  /** Promise.all starts min(parallel, n) lanes (none for a negative number), and each takes a URL at once. */
  function Width(parallel: int, n: nat): nat { Max(0, Min(parallel, n)) }

  function Start<E>(chunks: seq<Chunk<E>>, parallel: int): Pool<E> {
    var w := Width(parallel, |chunks|);
    Pool(w, seq(w, (l: nat) => l), seq(w, (l: nat) => Reading(l, 0)), seq(|chunks|, _ => 0), 0, seq(|chunks|, _ => None))
  }

  function Running(size: nat, part: Part): nat { (if part.first then 0 else size) + part.size }

  predicate Busy<E>(p: Pool<E>, lane: nat) { lane < |p.lanes| && p.lanes[lane].Reading? }

  predicate InRange<E>(chunks: seq<Chunk<E>>, p: Pool<E>, lane: nat) {
    Busy(p, lane) && |p.read| == |p.out| == |chunks| && p.lanes[lane].url < |chunks| &&
    p.read[p.lanes[lane].url] <= |chunks[p.lanes[lane].url].parts|
  }

  /** A part arrives, is counted, and is refused past either limit. */
  function OnPart<E>(chunks: seq<Chunk<E>>, lim: Limits, p: Pool<E>, lane: nat): Pool<E>
    requires InRange(chunks, p, lane) && p.read[p.lanes[lane].url] < |chunks[p.lanes[lane].url].parts|
  {
    var i := p.lanes[lane].url;
    var part := chunks[i].parts[p.read[i]];
    var size, counted := Running(p.lanes[lane].size, part), p.counted + part.size;
    var after := if size > lim.chunkMax || counted > lim.captureMax then Failed(i) else Reading(i, size);
    Pool(p.next, p.takenBy, p.lanes[lane := after], p.read[i := p.read[i] + 1], counted, p.out)
  }

  /** The chunk is all read: its events are kept in its place and the lane takes the next URL, if there is one. */
  function OnEnd<E>(chunks: seq<Chunk<E>>, p: Pool<E>, lane: nat): Pool<E>
    requires InRange(chunks, p, lane)
  {
    var i := p.lanes[lane].url;
    if chunks[i].events.None? then p.(lanes := p.lanes[lane := Failed(i)])
    else if p.next < |chunks| then
      Pool(p.next + 1, p.takenBy + [lane], p.lanes[lane := Reading(p.next, 0)], p.read, p.counted, p.out[i := chunks[i].events])
    else
      Pool(p.next, p.takenBy, p.lanes[lane := Finished], p.read, p.counted, p.out[i := chunks[i].events])
  }

  function Step<E>(chunks: seq<Chunk<E>>, lim: Limits, p: Pool<E>, lane: nat): Pool<E>
    requires InRange(chunks, p, lane)
  {
    if p.read[p.lanes[lane].url] < |chunks[p.lanes[lane].url].parts| then OnPart(chunks, lim, p, lane)
    else OnEnd(chunks, p, lane)
  }

  /** The lanes' events in URL order; a place never filled is skipped. */
  function Flat<E>(out: seq<Option<seq<E>>>): seq<E> {
    if out == [] then [] else out[0].GetOr([]) + Flat(out[1..])
  }

  /** What the caller's promise says: rejected by the first failure, resolved when every lane is through. */
  function Result<E>(p: Pool<E>): Outcome<E> {
    if exists l :: 0 <= l < |p.lanes| && p.lanes[l].Failed? then Rejected
    else if exists l :: 0 <= l < |p.lanes| && p.lanes[l].Reading? then Pending
    else Resolved(Flat(p.out))
  }

  // ---------------------------------------------------------------- what a whole capture is

  function Bytes(parts: seq<Part>): nat {
    if parts == [] then 0 else Bytes(Butlast(parts)) + Last(parts).size
  }

  /** How much of its current stream has arrived. */
  function Current(parts: seq<Part>): nat {
    if parts == [] then 0 else Running(Current(Butlast(parts)), Last(parts))
  }

  /** Since the last part that begins a stream, or since the first part if none does: that is the stream whose bytes are counted. */
  lemma {:induction false} CurrentIsItsStream(parts: seq<Part>, k: nat)
    requires k <= |parts| && (forall i :: k < i < |parts| ==> !parts[i].first) && (k == 0 || (k < |parts| && parts[k].first))
    ensures Current(parts) == Bytes(parts) - Bytes(parts[..k])
  {
    if parts != [] && k < |parts| - 1 {
      CurrentIsItsStream(Butlast(parts), k);
      assert Butlast(parts)[..k] == parts[..k];
    } else if parts != [] {
      assert k == |parts| - 1 && parts[..k] == Butlast(parts);
    }
  }

  ghost predicate StreamsFit(parts: seq<Part>, max: nat) {
    forall k :: 0 <= k <= |parts| ==> Current(parts[..k]) <= max
  }

  function AllBytes<E>(chunks: seq<Chunk<E>>): nat {
    if chunks == [] then 0 else Bytes(chunks[0].parts) + AllBytes(chunks[1..])
  }

  /** The bytes of the parts that have arrived. */
  function Arrived<E>(chunks: seq<Chunk<E>>, read: seq<nat>): nat
    requires |read| == |chunks|
    requires forall i :: 0 <= i < |read| ==> read[i] <= |chunks[i].parts|
  {
    if chunks == [] then 0 else Bytes(chunks[0].parts[..read[0]]) + Arrived(chunks[1..], read[1..])
  }

  /** Reading in order, one after the other: everything, if every stream and the whole capture fit and nothing goes wrong. */
  ghost predicate Readable<E>(chunks: seq<Chunk<E>>, lim: Limits) {
    AllBytes(chunks) <= lim.captureMax &&
    forall i :: 0 <= i < |chunks| ==> ChunkReads(chunks[i], lim)
  }

  ghost predicate ChunkReads<E>(c: Chunk<E>, lim: Limits) {
    c.events.Some? && StreamsFit(c.parts, lim.chunkMax)
  }

  function InOrder<E>(chunks: seq<Chunk<E>>): seq<E> {
    if chunks == [] then [] else chunks[0].events.GetOr([]) + InOrder(chunks[1..])
  }

  // ---------------------------------------------------------------- the invariant

  ghost predicate Shape<E>(chunks: seq<Chunk<E>>, p: Pool<E>) {
    |p.read| == |p.out| == |chunks| && |p.takenBy| == p.next && |p.lanes| <= p.next <= |chunks| &&
    (forall i :: 0 <= i < |p.read| ==> p.read[i] <= |chunks[i].parts|)
  }

  /** The lane is the one that took its URL, and the size it holds is that of the stream it is in. */
  ghost predicate Holds<E>(chunks: seq<Chunk<E>>, lim: Limits, p: Pool<E>, l: nat)
    requires Shape(chunks, p) && l < |p.lanes|
  {
    match p.lanes[l]
    case Reading(i, size) =>
      i < p.next && p.takenBy[i] == l && p.out[i].None? &&
      size == Current(chunks[i].parts[..p.read[i]]) && StreamsFit(chunks[i].parts[..p.read[i]], lim.chunkMax)
    case Failed(i) => i < p.next && p.takenBy[i] == l && p.out[i].None? && !Readable(chunks, lim)
    case Finished => p.next == |chunks|
  }

  predicate At(lane: Lane, i: nat) { (lane.Reading? && lane.url == i) || (lane.Failed? && lane.at == i) }

  /** A URL not taken is untouched; one taken is in the hands of the lane that took it, or wholly read. */
  ghost predicate Kept<E>(chunks: seq<Chunk<E>>, lim: Limits, p: Pool<E>, i: nat)
    requires Shape(chunks, p) && i < |chunks|
  {
    if i >= p.next then p.out[i].None? && p.read[i] == 0
    else
      p.takenBy[i] < |p.lanes| &&
      (p.out[i].None? ==> At(p.lanes[p.takenBy[i]], i)) &&
      (p.out[i].Some? ==> p.out[i] == chunks[i].events && p.read[i] == |chunks[i].parts| && ChunkReads(chunks[i], lim))
  }

  ghost predicate SomeFailed<E>(p: Pool<E>) { exists l :: 0 <= l < |p.lanes| && p.lanes[l].Failed? }

  ghost predicate LanesHold<E>(chunks: seq<Chunk<E>>, lim: Limits, p: Pool<E>)
    requires Shape(chunks, p)
  {
    forall l :: 0 <= l < |p.lanes| ==> Holds(chunks, lim, p, l)
  }

  ghost predicate UrlsKept<E>(chunks: seq<Chunk<E>>, lim: Limits, p: Pool<E>)
    requires Shape(chunks, p)
  {
    forall i :: 0 <= i < |chunks| ==> Kept(chunks, lim, p, i)
  }

  ghost predicate Inv<E>(chunks: seq<Chunk<E>>, lim: Limits, p: Pool<E>) {
    Shape(chunks, p) && LanesHold(chunks, lim, p) && UrlsKept(chunks, lim, p) &&
    p.counted == Arrived(chunks, p.read) && (p.counted <= lim.captureMax || SomeFailed(p))
  }

  // ---------------------------------------------------------------- sums

  lemma {:induction false} BytesGrow(parts: seq<Part>, k: nat)
    requires k < |parts|
    ensures Bytes(parts[..k + 1]) == Bytes(parts[..k]) + parts[k].size
    ensures Current(parts[..k + 1]) == Running(Current(parts[..k]), parts[k])
  {
    assert Butlast(parts[..k + 1]) == parts[..k];
  }

  lemma {:induction false} StreamsFitGrow(parts: seq<Part>, k: nat, max: nat)
    requires k < |parts| && StreamsFit(parts[..k], max) && Current(parts[..k + 1]) <= max
    ensures StreamsFit(parts[..k + 1], max)
  {
    var more := parts[..k + 1];
    forall j | 0 <= j <= |more| ensures Current(more[..j]) <= max {
      if j <= k {
        assert more[..j] == parts[..k][..j];
      } else {
        assert more[..j] == more;
      }
    }
  }

  lemma {:induction false} BytesUpTo(parts: seq<Part>, k: nat)
    requires k <= |parts|
    ensures Bytes(parts[..k]) <= Bytes(parts)
    decreases |parts| - k
  {
    if k < |parts| {
      BytesGrow(parts, k);
      BytesUpTo(parts, k + 1);
    } else {
      assert parts[..k] == parts;
    }
  }

  lemma {:induction false} ArrivedUpTo<E>(chunks: seq<Chunk<E>>, read: seq<nat>)
    requires |read| == |chunks| && forall i :: 0 <= i < |read| ==> read[i] <= |chunks[i].parts|
    ensures Arrived(chunks, read) <= AllBytes(chunks)
    ensures (forall i :: 0 <= i < |read| ==> read[i] == |chunks[i].parts|) ==> Arrived(chunks, read) == AllBytes(chunks)
  {
    if chunks != [] {
      BytesUpTo(chunks[0].parts, read[0]);
      ArrivedUpTo(chunks[1..], read[1..]);
      if read[0] == |chunks[0].parts| {
        assert chunks[0].parts[..read[0]] == chunks[0].parts;
      }
    }
  }

  lemma {:induction false} ArrivedGrow<E>(chunks: seq<Chunk<E>>, read: seq<nat>, i: nat)
    requires |read| == |chunks| && forall j :: 0 <= j < |read| ==> read[j] <= |chunks[j].parts|
    requires i < |chunks| && read[i] < |chunks[i].parts|
    ensures Arrived(chunks, read[i := read[i] + 1]) == Arrived(chunks, read) + chunks[i].parts[read[i]].size
  {
    var next := read[i := read[i] + 1];
    if i == 0 {
      BytesGrow(chunks[0].parts, read[0]);
      assert next[1..] == read[1..];
    } else {
      ArrivedGrow(chunks[1..], read[1..], i - 1);
      assert next[1..] == read[1..][i - 1 := read[i] + 1];
    }
  }

  lemma {:induction false} NothingArrived<E>(chunks: seq<Chunk<E>>, read: seq<nat>)
    requires |read| == |chunks| && forall i :: 0 <= i < |read| ==> read[i] == 0
    ensures Arrived(chunks, read) == 0
  {
    if chunks != [] {
      NothingArrived(chunks[1..], read[1..]);
    }
  }

  lemma {:induction false} FlatInOrder<E>(chunks: seq<Chunk<E>>, out: seq<Option<seq<E>>>)
    requires |out| == |chunks| && forall i :: 0 <= i < |out| ==> out[i] == chunks[i].events
    ensures Flat(out) == InOrder(chunks)
  {
    if out != [] {
      FlatInOrder(chunks[1..], out[1..]);
    }
  }

  // ---------------------------------------------------------------- every step keeps the invariant

  lemma {:induction false} StartInv<E>(chunks: seq<Chunk<E>>, lim: Limits, parallel: int)
    ensures Inv(chunks, lim, Start(chunks, parallel))
  {
    var p := Start(chunks, parallel);
    NothingArrived(chunks, p.read);
    forall l | 0 <= l < |p.lanes| ensures Holds(chunks, lim, p, l) {
      assert chunks[l].parts[..0] == [];
    }
  }

  /** A part that is refused makes the capture unreadable, whichever limit it passed. */
  lemma {:induction false} RefusalIsFinal<E>(chunks: seq<Chunk<E>>, lim: Limits, read: seq<nat>, i: nat)
    requires |read| == |chunks| && forall j :: 0 <= j < |read| ==> read[j] <= |chunks[j].parts|
    requires i < |chunks|
    requires Current(chunks[i].parts[..read[i]]) > lim.chunkMax || Arrived(chunks, read) > lim.captureMax
    ensures !Readable(chunks, lim)
  {
    ArrivedUpTo(chunks, read);
  }

  lemma {:induction false} OnPartCounts<E>(chunks: seq<Chunk<E>>, lim: Limits, p: Pool<E>, lane: nat)
    requires Inv(chunks, lim, p) && InRange(chunks, p, lane) && p.read[p.lanes[lane].url] < |chunks[p.lanes[lane].url].parts|
    ensures var q := OnPart(chunks, lim, p, lane);
            Shape(chunks, q) && q.counted == Arrived(chunks, q.read) && (q.counted <= lim.captureMax || SomeFailed(q))
  {
    var q, i := OnPart(chunks, lim, p, lane), p.lanes[lane].url;
    ArrivedGrow(chunks, p.read, i);
    if p.counted + chunks[i].parts[p.read[i]].size > lim.captureMax {
      assert q.lanes[lane].Failed?;
    }
  }

  lemma {:induction false} OnPartHolds<E>(chunks: seq<Chunk<E>>, lim: Limits, p: Pool<E>, lane: nat)
    requires Inv(chunks, lim, p) && InRange(chunks, p, lane) && p.read[p.lanes[lane].url] < |chunks[p.lanes[lane].url].parts|
    requires var q := OnPart(chunks, lim, p, lane); Shape(chunks, q) && q.counted == Arrived(chunks, q.read)
    ensures Holds(chunks, lim, OnPart(chunks, lim, p, lane), lane)
  {
    var q, i := OnPart(chunks, lim, p, lane), p.lanes[lane].url;
    var parts, k := chunks[i].parts, p.read[i];
    assert Holds(chunks, lim, p, lane);
    BytesGrow(parts, k);
    var size := Current(parts[..k + 1]);
    assert size == Running(p.lanes[lane].size, parts[k]) && q.read[i] == k + 1;
    if size > lim.chunkMax || q.counted > lim.captureMax {
      RefusalIsFinal(chunks, lim, q.read, i);
    } else {
      StreamsFitGrow(parts, k, lim.chunkMax);
    }
  }

  lemma {:induction false} OnPartKeeps<E>(chunks: seq<Chunk<E>>, lim: Limits, p: Pool<E>, lane: nat)
    requires Inv(chunks, lim, p) && InRange(chunks, p, lane) && p.read[p.lanes[lane].url] < |chunks[p.lanes[lane].url].parts|
    ensures Inv(chunks, lim, OnPart(chunks, lim, p, lane))
  {
    var q, i := OnPart(chunks, lim, p, lane), p.lanes[lane].url;
    OnPartCounts(chunks, lim, p, lane);
    OnPartHolds(chunks, lim, p, lane);
    assert Holds(chunks, lim, p, lane);
    forall l | 0 <= l < |q.lanes| ensures Holds(chunks, lim, q, l) {
      assert Holds(chunks, lim, p, l);
    }
    forall j | 0 <= j < |chunks| ensures Kept(chunks, lim, q, j) {
      assert Kept(chunks, lim, p, j);
    }
  }

  /** The lanes after an end: the one it came to holds the next URL, or its failure, or nothing more. */
  lemma {:induction false} OnEndHolds<E>(chunks: seq<Chunk<E>>, lim: Limits, p: Pool<E>, lane: nat)
    requires Inv(chunks, lim, p) && InRange(chunks, p, lane) && p.read[p.lanes[lane].url] == |chunks[p.lanes[lane].url].parts|
    requires Shape(chunks, OnEnd(chunks, p, lane))
    ensures LanesHold(chunks, lim, OnEnd(chunks, p, lane))
  {
    var q := OnEnd(chunks, p, lane);
    assert Holds(chunks, lim, p, lane);
    if p.next < |chunks| {
      assert Kept(chunks, lim, p, p.next);
      assert chunks[p.next].parts[..0] == [];
    }
    forall l | 0 <= l < |q.lanes| ensures Holds(chunks, lim, q, l) {
      assert Holds(chunks, lim, p, l);
    }
  }

  lemma {:induction false} OnEndUrls<E>(chunks: seq<Chunk<E>>, lim: Limits, p: Pool<E>, lane: nat)
    requires Inv(chunks, lim, p) && InRange(chunks, p, lane) && p.read[p.lanes[lane].url] == |chunks[p.lanes[lane].url].parts|
    requires Shape(chunks, OnEnd(chunks, p, lane))
    ensures UrlsKept(chunks, lim, OnEnd(chunks, p, lane))
  {
    var q, i := OnEnd(chunks, p, lane), p.lanes[lane].url;
    assert Holds(chunks, lim, p, lane);
    assert chunks[i].parts[..p.read[i]] == chunks[i].parts;
    forall j | 0 <= j < |chunks| ensures Kept(chunks, lim, q, j) {
      assert Kept(chunks, lim, p, j);
    }
  }

  lemma {:induction false} OnEndKeeps<E>(chunks: seq<Chunk<E>>, lim: Limits, p: Pool<E>, lane: nat)
    requires Inv(chunks, lim, p) && InRange(chunks, p, lane) && p.read[p.lanes[lane].url] == |chunks[p.lanes[lane].url].parts|
    ensures Inv(chunks, lim, OnEnd(chunks, p, lane))
  {
    var q := OnEnd(chunks, p, lane);
    assert Holds(chunks, lim, p, lane);
    if SomeFailed(p) {
      var l :| 0 <= l < |p.lanes| && p.lanes[l].Failed?;
      assert q.lanes[l].Failed?;
    }
    OnEndHolds(chunks, lim, p, lane);
    OnEndUrls(chunks, lim, p, lane);
  }

  lemma {:induction false} StepInv<E>(chunks: seq<Chunk<E>>, lim: Limits, p: Pool<E>, lane: nat)
    requires Inv(chunks, lim, p) && Busy(p, lane)
    ensures InRange(chunks, p, lane) && Inv(chunks, lim, Step(chunks, lim, p, lane))
  {
    assert Holds(chunks, lim, p, lane);
    if p.read[p.lanes[lane].url] < |chunks[p.lanes[lane].url].parts| {
      OnPartKeeps(chunks, lim, p, lane);
    } else {
      OnEndKeeps(chunks, lim, p, lane);
    }
  }

  // ---------------------------------------------------------------- whole runs

  predicate Possible<E>(chunks: seq<Chunk<E>>, lim: Limits, p: Pool<E>, turns: seq<nat>)
    decreases |turns|
  {
    turns == [] || (InRange(chunks, p, turns[0]) && Possible(chunks, lim, Step(chunks, lim, p, turns[0]), turns[1..]))
  }

  function Run<E>(chunks: seq<Chunk<E>>, lim: Limits, p: Pool<E>, turns: seq<nat>): Pool<E>
    requires Possible(chunks, lim, p, turns)
    decreases |turns|
  {
    if turns == [] then p else Run(chunks, lim, Step(chunks, lim, p, turns[0]), turns[1..])
  }

  lemma {:induction false} RunInv<E>(chunks: seq<Chunk<E>>, lim: Limits, p: Pool<E>, turns: seq<nat>)
    requires Inv(chunks, lim, p) && Possible(chunks, lim, p, turns)
    ensures Inv(chunks, lim, Run(chunks, lim, p, turns)) && |Run(chunks, lim, p, turns).lanes| == |p.lanes|
    decreases |turns|
  {
    if turns != [] {
      StepInv(chunks, lim, p, turns[0]);
      RunInv(chunks, lim, Step(chunks, lim, p, turns[0]), turns[1..]);
    }
  }

  ghost predicate Quiet<E>(p: Pool<E>) { forall l :: 0 <= l < |p.lanes| ==> !p.lanes[l].Reading? }

  /** When no lane is reading and none failed, every URL has been read and is in its place. */
  lemma {:induction false} QuietIsWhole<E>(chunks: seq<Chunk<E>>, lim: Limits, p: Pool<E>)
    requires Inv(chunks, lim, p) && Quiet(p) && !SomeFailed(p) && (p.lanes != [] || chunks == [])
    ensures Readable(chunks, lim) && Flat(p.out) == InOrder(chunks)
  {
    if p.lanes != [] {
      assert Holds(chunks, lim, p, 0);
    }
    forall i | 0 <= i < |chunks| ensures p.out[i].Some? && Kept(chunks, lim, p, i) {
      assert Kept(chunks, lim, p, i);
    }
    ArrivedUpTo(chunks, p.read);
    FlatInOrder(chunks, p.out);
  }

  lemma {:induction false} NothingHeld<E>(out: seq<Option<seq<E>>>)
    requires forall i :: 0 <= i < |out| ==> out[i].None?
    ensures Flat(out) == []
  {
    if out != [] {
      NothingHeld(out[1..]);
    }
  }

  lemma {:induction false} EnoughLanes<E>(chunks: seq<Chunk<E>>, lim: Limits, parallel: int, turns: seq<nat>)
    requires Possible(chunks, lim, Start(chunks, parallel), turns)
    requires Quiet(Run(chunks, lim, Start(chunks, parallel), turns))
    requires parallel >= 1 || chunks == []
    ensures var p := Run(chunks, lim, Start(chunks, parallel), turns);
            (p.next == |chunks| || SomeFailed(p)) &&
            Result(p) == if Readable(chunks, lim) then Resolved(InOrder(chunks)) else Rejected
  {
    var start := Start(chunks, parallel);
    StartInv(chunks, lim, parallel);
    RunInv(chunks, lim, start, turns);
    var p := Run(chunks, lim, start, turns);
    if SomeFailed(p) {
      var l :| 0 <= l < |p.lanes| && p.lanes[l].Failed?;
      assert Holds(chunks, lim, p, l);
    } else {
      QuietIsWhole(chunks, lim, p);
      if p.lanes != [] {
        assert Holds(chunks, lim, p, 0);
      }
    }
  }

  /**
   * The pool refines reading in order: whatever the number of lanes and however
   * they interleave, once nothing is being read the answer is the concatenation
   * in URL order when every stream is within its cap, the whole capture within
   * its own, and nothing else goes wrong; otherwise it is a rejection. Every URL
   * is asked for, or a read fails, if and only if there is a lane or no URL:
   * with no lanes the answer is empty, at once and without reading.
   */
  lemma {:induction false} PoolReadsInOrder<E>(chunks: seq<Chunk<E>>, lim: Limits, parallel: int, turns: seq<nat>)
    requires Possible(chunks, lim, Start(chunks, parallel), turns)
    requires Quiet(Run(chunks, lim, Start(chunks, parallel), turns))
    ensures var p := Run(chunks, lim, Start(chunks, parallel), turns);
            (p.next == |chunks| || SomeFailed(p) <==> parallel >= 1 || chunks == []) &&
            Result(p) == if parallel <= 0 then Resolved([])
                         else if Readable(chunks, lim) then Resolved(InOrder(chunks)) else Rejected
  {
    var start := Start(chunks, parallel);
    if parallel >= 1 || chunks == [] {
      EnoughLanes(chunks, lim, parallel, turns);
    }
    if parallel <= 0 {
      NothingHeld(start.out);
      assert turns == [];
    }
  }

  /**
   * At every moment: as many lanes as were asked for and there are URLs for,
   * none of them done before every URL is taken, no two on one URL, each URL
   * fetched by one lane only and in order, and no more bytes accepted than a
   * capture may hold.
   */
  lemma {:induction false} EachUrlOnce<E>(chunks: seq<Chunk<E>>, lim: Limits, parallel: int, turns: seq<nat>)
    requires Possible(chunks, lim, Start(chunks, parallel), turns)
    ensures var p := Run(chunks, lim, Start(chunks, parallel), turns);
            |p.lanes| == (if parallel <= 0 then 0 else if parallel <= |chunks| then parallel else |chunks|) &&
            (p.next < |chunks| ==> forall l :: 0 <= l < |p.lanes| ==> !p.lanes[l].Finished?) &&
            |p.takenBy| == p.next <= |chunks| &&
            (forall a, b :: 0 <= a < b < |p.lanes| && p.lanes[a].Reading? && p.lanes[b].Reading? ==> p.lanes[a].url != p.lanes[b].url) &&
            (forall l :: 0 <= l < |p.lanes| && p.lanes[l].Reading? ==> p.lanes[l].url < p.next && p.takenBy[p.lanes[l].url] == l) &&
            (p.counted <= lim.captureMax || SomeFailed(p))
  {
    StartInv(chunks, lim, parallel);
    RunInv(chunks, lim, Start(chunks, parallel), turns);
    var p := Run(chunks, lim, Start(chunks, parallel), turns);
    forall l | 0 <= l < |p.lanes| && p.lanes[l].Reading? ensures p.lanes[l].url < p.next && p.takenBy[p.lanes[l].url] == l {
      assert Holds(chunks, lim, p, l);
    }
    if p.next < |chunks| {
      forall l | 0 <= l < |p.lanes| ensures !p.lanes[l].Finished? {
        assert Holds(chunks, lim, p, l);
      }
    }
  }

  // ---------------------------------------------------------------- progress

  function Unread<E>(chunks: seq<Chunk<E>>, read: seq<nat>): nat
    requires |read| == |chunks|
    requires forall i :: 0 <= i < |read| ==> read[i] <= |chunks[i].parts|
  {
    if chunks == [] then 0 else |chunks[0].parts| - read[0] + Unread(chunks[1..], read[1..])
  }

  function BusyLanes(lanes: seq<Lane>): nat {
    if lanes == [] then 0 else (if lanes[0].Reading? then 1 else 0) + BusyLanes(lanes[1..])
  }

  lemma {:induction false} UnreadFalls<E>(chunks: seq<Chunk<E>>, read: seq<nat>, i: nat)
    requires |read| == |chunks| && forall j :: 0 <= j < |read| ==> read[j] <= |chunks[j].parts|
    requires i < |chunks| && read[i] < |chunks[i].parts|
    ensures Unread(chunks, read[i := read[i] + 1]) == Unread(chunks, read) - 1
  {
    var next := read[i := read[i] + 1];
    if i == 0 {
      assert next[1..] == read[1..];
    } else {
      UnreadFalls(chunks[1..], read[1..], i - 1);
      assert next[1..] == read[1..][i - 1 := read[i] + 1];
    }
  }

  lemma {:induction false} BusyAfter(lanes: seq<Lane>, l: nat, after: Lane)
    requires l < |lanes| && lanes[l].Reading?
    ensures BusyLanes(lanes[l := after]) == BusyLanes(lanes) - if after.Reading? then 0 else 1
  {
    var next := lanes[l := after];
    if l == 0 {
      assert next[1..] == lanes[1..];
    } else {
      BusyAfter(lanes[1..], l - 1, after);
      assert next[1..] == lanes[1..][l - 1 := after];
    }
  }

  function ToDo<E>(chunks: seq<Chunk<E>>, p: Pool<E>): int
    requires |p.read| == |chunks| && forall i :: 0 <= i < |p.read| ==> p.read[i] <= |chunks[i].parts|
  {
    Unread(chunks, p.read) + (|chunks| - p.next) + BusyLanes(p.lanes)
  }

  /** Every turn of every lane brings the end nearer, so no run goes on for ever. */
  lemma {:induction false} EveryTurnIsProgress<E>(chunks: seq<Chunk<E>>, lim: Limits, p: Pool<E>, lane: nat)
    requires Inv(chunks, lim, p) && InRange(chunks, p, lane)
    ensures Inv(chunks, lim, Step(chunks, lim, p, lane)) && 0 <= ToDo(chunks, Step(chunks, lim, p, lane)) < ToDo(chunks, p)
  {
    StepInv(chunks, lim, p, lane);
    var i, q := p.lanes[lane].url, Step(chunks, lim, p, lane);
    BusyAfter(p.lanes, lane, q.lanes[lane]);
    if p.read[i] < |chunks[i].parts| {
      UnreadFalls(chunks, p.read, i);
    }
  }

  // ---------------------------------------------------------------- the reader, in place

  /** `next` and `out` are shared by the lanes; between its turns a lane is suspended at an await. */
  class Reader<E> {
    const chunks: seq<Chunk<E>>
    const lim: Limits
    var next: nat
    var out: array<Option<seq<E>>>
    var lanes: seq<Lane>
    var read: seq<nat>
    var counted: nat
    ghost var takenBy: seq<nat>

    ghost function State(): Pool<E>
      reads this, out
    {
      Pool(next, takenBy, lanes, read, counted, out[..])
    }

    constructor (chunks: seq<Chunk<E>>, lim: Limits, parallel: int)
      ensures State() == Start(chunks, parallel) && this.chunks == chunks && this.lim == lim && fresh(out)
    {
      this.chunks, this.lim := chunks, lim;
      var w := Width(parallel, |chunks|);
      next, lanes, counted := w, seq(w, (l: nat) => Reading(l, 0)), 0;
      read := seq(|chunks|, _ => 0);
      out := new Option<seq<E>>[|chunks|](_ => None);
      takenBy := seq(w, (l: nat) => l);
      new;
      assert out[..] == Start(chunks, parallel).out;
    }

    method PartArrives(lane: nat)
      requires InRange(chunks, State(), lane) && read[lanes[lane].url] < |chunks[lanes[lane].url].parts|
      modifies this`lanes, this`read, this`counted
      ensures State() == OnPart(chunks, lim, old(State()), lane)
    {
      var i := lanes[lane].url;
      var part := chunks[i].parts[read[i]];
      read := read[i := read[i] + 1];
      var size := Running(lanes[lane].size, part);
      counted := counted + part.size;
      if size > lim.chunkMax || counted > lim.captureMax {
        lanes := lanes[lane := Failed(i)];
      } else {
        lanes := lanes[lane := Reading(i, size)];
      }
    }

    method ChunkEnds(lane: nat)
      requires InRange(chunks, State(), lane)
      modifies this, out
      ensures State() == OnEnd(chunks, old(State()), lane) && out == old(out)
    {
      var i := lanes[lane].url;
      if chunks[i].events.None? {
        lanes := lanes[lane := Failed(i)];
        return;
      }
      out[i] := chunks[i].events;
      if next < |chunks| {
        lanes := lanes[lane := Reading(next, 0)];
        next := next + 1;
        takenBy := takenBy + [lane];
      } else {
        lanes := lanes[lane := Finished];
      }
    }
  }

  // ---------------------------------------------------------------- one stream's bytes

  type Byte = x: int | 0 <= x < 256

  function Sum(xs: seq<nat>): nat {
    if xs == [] then 0 else Sum(Butlast(xs)) + Last(xs)
  }

  /** After the first `k` parts the stream, or the capture with what other lanes read meanwhile, is past its cap. */
  predicate Over(parts: seq<seq<Byte>>, others: seq<nat>, before: nat, lim: Limits, k: nat)
    requires |others| == |parts| && k <= |parts|
  {
    |Flatten(parts[..k])| > lim.chunkMax || before + Sum(others[..k]) + |Flatten(parts[..k])| > lim.captureMax
  }

  lemma {:induction false} JoinGrows(parts: seq<seq<Byte>>, k: nat)
    requires k < |parts|
    ensures Flatten(parts[..k + 1]) == Flatten(parts[..k]) + parts[k]
  {
    assert parts[..k + 1] == parts[..k] + [parts[k]];
    FlattenPush(parts[..k], parts[k]);
  }

  lemma {:induction false} SumGrows(xs: seq<nat>, k: nat)
    requires k < |xs|
    ensures Sum(xs[..k + 1]) == Sum(xs[..k]) + xs[k]
  {
    assert Butlast(xs[..k + 1]) == xs[..k];
  }

  /** Once past a cap, past it at the end. */
  lemma {:induction false} OverStays(parts: seq<seq<Byte>>, others: seq<nat>, before: nat, lim: Limits, k: nat)
    requires |others| == |parts| && k <= |parts| && Over(parts, others, before, lim, k)
    ensures Over(parts, others, before, lim, |parts|)
    decreases |parts| - k
  {
    if k < |parts| {
      JoinGrows(parts, k);
      SumGrows(others, k);
      OverStays(parts, others, before, lim, k + 1);
    }
  }

  /**
   * A stream's bytes: all of them exactly, in one array, when the whole stream
   * is within its cap and the capture within its own at its last part; else
   * refused at the first part past a cap.
   */
  method ReadCapped(parts: seq<seq<Byte>>, others: seq<nat>, before: nat, lim: Limits)
    returns (bytes: Option<array<Byte>>, total: nat, taken: nat)
    requires |others| == |parts|
    ensures bytes.Some? <==> parts == [] || !Over(parts, others, before, lim, |parts|)
    ensures bytes.Some? ==> fresh(bytes.value) && bytes.value[..] == Flatten(parts) && taken == |parts|
    ensures bytes.None? ==> 0 < taken <= |parts| && Over(parts, others, before, lim, taken)
    ensures bytes.None? ==> forall k :: 0 < k < taken ==> !Over(parts, others, before, lim, k)
    ensures taken <= |parts| && total == before + Sum(others[..taken]) + |Flatten(parts[..taken])|
  {
    var kept: seq<seq<Byte>> := [];
    var n := 0;
    total, taken := before, 0;
    while taken < |parts|
      invariant taken <= |parts| && kept == parts[..taken]
      invariant n == |Flatten(parts[..taken])| && total == before + Sum(others[..taken]) + n
      invariant forall k :: 0 < k <= taken ==> !Over(parts, others, before, lim, k)
    {
      JoinGrows(parts, taken);
      SumGrows(others, taken);
      var value := parts[taken];
      total := total + others[taken];
      n := n + |value|;
      total := total + |value|;
      taken := taken + 1;
      if n > lim.chunkMax || total > lim.captureMax {
        OverStays(parts, others, before, lim, taken);
        return None, total, taken;
      }
      kept := kept + [value];
    }
    assert kept == parts;
    var out := Copied(kept, n);
    return Some(out), total, taken;
  }

  method Copied(parts: seq<seq<Byte>>, n: nat) returns (out: array<Byte>)
    requires n == |Flatten(parts)|
    ensures fresh(out) && out[..] == Flatten(parts)
  {
    out := new Byte[n](_ => 0);
    var at := 0;
    assert parts[..|parts|] == parts;
    for k := 0 to |parts|
      invariant at == |Flatten(parts[..k])| <= n
      invariant out[..at] == Flatten(parts[..k])
    {
      JoinGrows(parts, k);
      JoinIsPrefix(parts, k + 1);
      var p := parts[k];
      forall j | 0 <= j < |p| {
        out[at + j] := p[j];
      }
      at := at + |p|;
    }
  }

  lemma {:induction false} JoinIsPrefix(parts: seq<seq<Byte>>, k: nat)
    requires k <= |parts|
    ensures |Flatten(parts[..k])| <= |Flatten(parts)|
    decreases |parts| - k
  {
    if k < |parts| {
      JoinGrows(parts, k);
      JoinIsPrefix(parts, k + 1);
    } else {
      assert parts[..k] == parts;
    }
  }
}
