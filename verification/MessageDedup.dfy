/**
 server/src/protocol/message_dedup.ts: a window of remembered ids, kept as a map
 from id to the tick of its last touch. The map is shown to be a fact about the
 history of calls alone: an id is remembered exactly when it was touched and fewer
 than `windowSize` distinct ids were touched since.
 */
module MessageDedup {
  import opened Common

  const MAX_SAFE_INTEGER := 0x1F_FFFF_FFFF_FFFF

  // ------------------------------------------------------------------
  // The reference
  // ------------------------------------------------------------------

  // The distinct ids touched after call `j`.
  function After<Id>(h: seq<Id>, j: int): set<Id> {
    set k | 0 <= k < |h| && j < k :: h[k]
  }

  ghost predicate IsLastTouch<Id>(h: seq<Id>, id: Id, j: int) {
    && 0 <= j < |h| && h[j] == id
    && forall k :: j < k < |h| ==> h[k] != id
  }

  // `id` stands among the newest `window` entries of the most-recently-used order.
  ghost predicate TouchedWithin<Id>(h: seq<Id>, id: Id, window: nat) {
    exists j :: IsLastTouch(h, id, j) && |After(h, j)| < window
  }

  // ------------------------------------------------------------------
  // The tick map follows the history
  // ------------------------------------------------------------------

  ghost predicate Remembers<Id(!new)>(seen: map<Id, nat>, h: seq<Id>, window: nat) {
    && (forall id :: id in seen ==> IsLastTouch(h, id, seen[id]) && |After(h, seen[id])| < window)
    && (forall id, j :: IsLastTouch(h, id, j) && |After(h, j)| < window ==> id in seen)
  }

  lemma SubsetSize<Id>(a: set<Id>, b: set<Id>)
    requires a <= b
    ensures |a| <= |b|
    ensures a != b ==> |a| < |b|
  {
    assert b == a + (b - a);
  }

  lemma AfterTouch<Id>(h: seq<Id>, id: Id, j: int)
    requires j < |h|
    ensures After(h + [id], j) == After(h, j) + {id}
  {
    var g := h + [id];
    assert g[|h|] == id;
    forall x | x in After(h, j)
      ensures x in After(g, j)
    {
      var k :| 0 <= k < |h| && j < k && h[k] == x;
      assert g[k] == x;
    }
  }

  // Later calls touch fewer ids.
  lemma AfterShrinks<Id>(h: seq<Id>, i: int, j: int)
    requires i < j
    ensures After(h, j) <= After(h, i)
    ensures |After(h, j)| <= |After(h, i)|
    ensures 0 <= j < |h| && IsLastTouch(h, h[j], j) ==> |After(h, j)| < |After(h, i)|
  {
    SubsetSize(After(h, j), After(h, i));
    if 0 <= j < |h| && IsLastTouch(h, h[j], j) {
      assert h[j] in After(h, i);
      assert h[j] !in After(h, j);
    }
  }

  lemma LastTouchMoves<Id>(h: seq<Id>, id: Id, other: Id, j: int)
    ensures IsLastTouch(h + [id], other, j) <==>
      if other == id then j == |h| else IsLastTouch(h, other, j)
  {
    var g := h + [id];
    assert forall k :: 0 <= k < |h| ==> g[k] == h[k];
    assert g[|h|] == id;
  }

  lemma {:induction false} FindLastTouch<Id>(h: seq<Id>, id: Id, i: int) returns (j: int)
    requires 0 <= i < |h| && h[i] == id
    ensures i <= j && IsLastTouch(h, id, j)
  {
    j := i;
    var k := i + 1;
    while k < |h|
      invariant i <= j < k <= |h| && h[j] == id
      invariant forall l :: j < l < k ==> h[l] != id
    {
      if h[k] == id {
        j := k;
      }
      k := k + 1;
    }
  }

  // Touching `id` leaves any other id within the window when fewer than `window`
  // ids, `id` included, follow it.
  lemma OthersAfterTouch<Id(!new)>(seen: map<Id, nat>, h: seq<Id>, window: nat, id: Id, other: Id)
    requires Remembers(seen, h, window) && other != id
    ensures TouchedWithin(h + [id], other, window) <==>
      other in seen && |After(h, seen[other]) + {id}| < window
    ensures other in seen ==> IsLastTouch(h + [id], other, seen[other])
  {
    hide After;
    if other in seen {
      LastTouchMoves(h, id, other, seen[other]);
      AfterTouch(h, id, seen[other]);
    }
    if TouchedWithin(h + [id], other, window) {
      var j :| IsLastTouch(h + [id], other, j) && |After(h + [id], j)| < window;
      LastTouchMoves(h, id, other, j);
      AfterTouch(h, id, j);
      SubsetSize(After(h, j), After(h + [id], j));
    }
  }

  // A map holding exactly the ids within the window, with their last touches.
  lemma RemembersFromEach<Id(!new)>(seen: map<Id, nat>, h: seq<Id>, window: nat)
    requires forall id :: id in seen <==> TouchedWithin(h, id, window)
    requires forall id :: id in seen ==> IsLastTouch(h, id, seen[id])
    ensures Remembers(seen, h, window)
  {
    forall id, j | IsLastTouch(h, id, j) && |After(h, j)| < window
      ensures id in seen
    {
      assert TouchedWithin(h, id, window);
    }
    forall id | id in seen
      ensures |After(h, seen[id])| < window
    {
      var j :| IsLastTouch(h, id, j) && |After(h, j)| < window;
      assert j == seen[id];
    }
  }

  lemma TouchedIsNewest<Id>(h: seq<Id>, id: Id, window: nat)
    ensures IsLastTouch(h + [id], id, |h|) && After(h + [id], |h|) == {}
    ensures TouchedWithin(h + [id], id, window) <==> window > 0
  {
    LastTouchMoves(h, id, id, |h|);
    var g := h + [id];
    assert After(g, |h|) == {};
    if window > 0 {
      assert IsLastTouch(g, id, |h|) && |After(g, |h|)| < window;
    }
  }

  lemma TouchKnown<Id(!new)>(seen: map<Id, nat>, h: seq<Id>, window: nat, id: Id)
    requires Remembers(seen, h, window) && id in seen
    ensures Remembers(seen[id := |h|], h + [id], window)
  {
    TouchedIsNewest(h, id, window);
    forall other | other != id
      ensures other in seen <==> TouchedWithin(h + [id], other, window)
      ensures other in seen ==> IsLastTouch(h + [id], other, seen[other])
    {
      OthersAfterTouch(seen, h, window, id, other);
      if other in seen {
        var i, j := seen[id], seen[other];
        if i < j {
          AfterShrinks(h, i, j);
          SubsetSize(After(h, j) + {id}, After(h, i) + {id});
        } else {
          assert id in After(h, j);
          assert After(h, j) + {id} == After(h, j);
        }
      }
    }
    RemembersFromEach(seen[id := |h|], h + [id], window);
  }

  // The ids after the oldest remembered one are all the other remembered ids.
  lemma OldestSize<Id(!new)>(seen: map<Id, nat>, h: seq<Id>, window: nat, oldest: Id)
    requires Remembers(seen, h, window) && oldest in seen
    requires forall id :: id in seen ==> seen[oldest] <= seen[id]
    ensures seen.Keys == After(h, seen[oldest]) + {oldest}
    ensures |seen| == |After(h, seen[oldest])| + 1
  {
    var later := After(h, seen[oldest]);
    forall id | id in later
      ensures id in seen
    {
      var i :| 0 <= i < |h| && seen[oldest] < i && h[i] == id;
      var j := FindLastTouch(h, id, i);
      AfterShrinks(h, seen[oldest], j);
    }
    forall id | id in seen && id != oldest
      ensures id in later
    {
      assert h[seen[id]] == id;
      assert seen[oldest] < seen[id];
    }
    assert oldest !in later;
    assert |seen| == |seen.Keys|;
  }

  // A new id was not touched since any remembered one.
  lemma NewIsNotLater<Id(!new)>(seen: map<Id, nat>, h: seq<Id>, window: nat, id: Id, other: Id)
    requires Remembers(seen, h, window) && id !in seen && other in seen
    ensures id !in After(h, seen[other])
    ensures |After(h, seen[other]) + {id}| == |After(h, seen[other])| + 1
  {
    if id in After(h, seen[other]) {
      var i :| 0 <= i < |h| && seen[other] < i && h[i] == id;
      var j := FindLastTouch(h, id, i);
      AfterShrinks(h, seen[other], j);
    }
  }

  // A remembered id other than the new one stays exactly if it is not the oldest of a
  // full map.
  lemma OtherStays<Id(!new)>(seen: map<Id, nat>, h: seq<Id>, window: nat, id: Id, oldest: Id, other: Id)
    requires Remembers(seen, h, window) && id !in seen && other in seen
    requires oldest in seen && forall o :: o in seen ==> seen[oldest] <= seen[o]
    ensures TouchedWithin(h + [id], other, window) <==> other != oldest || |seen| < window
    ensures IsLastTouch(h + [id], other, seen[other])
  {
    OthersAfterTouch(seen, h, window, id, other);
    NewIsNotLater(seen, h, window, id, other);
    OldestSize(seen, h, window, oldest);
    hide TouchedWithin, After;
    if other != oldest {
      assert h[seen[other]] == other && h[seen[oldest]] == oldest;
      AfterShrinks(h, seen[oldest], seen[other]);
    }
  }

  lemma TouchNew<Id(!new)>(seen: map<Id, nat>, h: seq<Id>, window: nat, id: Id, oldest: Id)
    requires Remembers(seen, h, window) && id !in seen
    requires var touched := seen[id := |h|];
      oldest in touched && forall o :: o in touched ==> touched[oldest] <= touched[o]
    ensures
      var touched := seen[id := |h|];
      Remembers(if |touched| > window then touched - {oldest} else touched, h + [id], window)
  {
    var touched := seen[id := |h|];
    var after := if |touched| > window then touched - {oldest} else touched;
    assert |touched| == |seen| + 1;
    TouchedIsNewest(h, id, window);
    OldestOfTouched(seen, h, window, id, oldest);
    forall other | other != id
      ensures other in after <==> TouchedWithin(h + [id], other, window)
      ensures other in after ==> IsLastTouch(h + [id], other, after[other])
    {
      if other in seen {
        OtherStays(seen, h, window, id, oldest, other);
      } else {
        OthersAfterTouch(seen, h, window, id, other);
      }
    }
    hide Remembers, TouchedWithin, IsLastTouch;
    RemembersFromEach(after, h + [id], window);
  }

  lemma OldestOfTouched<Id(!new)>(seen: map<Id, nat>, h: seq<Id>, window: nat, id: Id, oldest: Id)
    requires Remembers(seen, h, window) && id !in seen
    requires var touched := seen[id := |h|];
      oldest in touched && forall o :: o in touched ==> touched[oldest] <= touched[o]
    ensures if oldest == id then seen == map[] else oldest in seen && forall o :: o in seen ==> seen[oldest] <= seen[o]
  {
    var touched := seen[id := |h|];
    assert forall o :: o in seen ==> touched[o] == seen[o] < |h|;
    if oldest == id {
      assert forall o :: o !in seen;
    }
  }

  // ------------------------------------------------------------------
  // The tick map is a least-recently-used list
  // ------------------------------------------------------------------

  function Without<Id(==, !new)>(s: seq<Id>, id: Id): (r: seq<Id>)
    ensures forall x :: x in r <==> x in s && x != id
  {
    if s == [] then [] else (if s[0] == id then [] else [s[0]]) + Without(s[1..], id)
  }

  // Moves `id` to the front; the list is cut at `window`.
  function Touch<Id(==, !new)>(recent: seq<Id>, id: Id, window: nat): seq<Id> {
    var moved := [id] + Without(recent, id);
    if |moved| > window then moved[..window] else moved
  }

  // The newest ids of a history, most recently touched first.
  function Recent<Id(==, !new)>(h: seq<Id>, window: nat): seq<Id> {
    if h == [] then [] else Touch(Recent(h[..|h| - 1], window), h[|h| - 1], window)
  }

  ghost predicate Descends<Id(!new)>(seen: map<Id, nat>, recent: seq<Id>) {
    && (forall x :: x in recent ==> x in seen)
    && (forall i, j :: 0 <= i < j < |recent| ==> seen[recent[i]] > seen[recent[j]])
  }

  // The map holds the ids of the list, and its ticks are the list's order.
  ghost predicate Listed<Id(!new)>(seen: map<Id, nat>, recent: seq<Id>) {
    Descends(seen, recent) && forall x :: x in seen ==> x in recent
  }

  lemma {:induction false} WithoutDescends<Id(!new)>(seen: map<Id, nat>, s: seq<Id>, id: Id)
    requires Descends(seen, s)
    ensures Descends(seen, Without(s, id))
  {
    if s == [] {
    } else {
      WithoutDescends(seen, s[1..], id);
      forall x | x in s[1..]
        ensures seen[s[0]] > seen[x]
      {
        var k :| 0 <= k < |s[1..]| && s[1..][k] == x;
        assert s[k + 1] == x;
      }
    }
  }

  lemma {:induction false} WithoutSize<Id(!new)>(s: seq<Id>, id: Id)
    requires forall i, j :: 0 <= i < j < |s| ==> s[i] != s[j]
    ensures |Without(s, id)| == if id in s then |s| - 1 else |s|
  {
    if s == [] {
    } else {
      WithoutSize(s[1..], id);
      assert s == [s[0]] + s[1..];
      assert s[0] !in s[1..];
    }
  }

  lemma {:induction false} DistinctSize<Id(!new)>(s: seq<Id>)
    requires forall i, j :: 0 <= i < j < |s| ==> s[i] != s[j]
    ensures |set x | x in s| == |s|
  {
    if s == [] {
    } else {
      var n := |s| - 1;
      DistinctSize(s[..n]);
      var before := set x | x in s[..n];
      assert s[n] !in before;
      assert (set x | x in s) == before + {s[n]};
    }
  }

  lemma ListedSize<Id(!new)>(seen: map<Id, nat>, recent: seq<Id>)
    requires Listed(seen, recent)
    ensures |seen| == |recent|
  {
    DistinctSize(recent);
    assert seen.Keys == set x | x in recent;
    assert |seen| == |seen.Keys|;
  }

  // A touch with a tick above all others moves the id to the front.
  lemma MovesToFront<Id(!new)>(seen: map<Id, nat>, recent: seq<Id>, id: Id, tick: nat)
    requires Listed(seen, recent) && forall x :: x in seen ==> seen[x] < tick
    ensures Listed(seen[id := tick], [id] + Without(recent, id))
  {
    WithoutDescends(seen, recent, id);
  }

  // The oldest entry is the last of the list.
  lemma OldestIsLast<Id(!new)>(seen: map<Id, nat>, recent: seq<Id>, oldest: Id)
    requires Listed(seen, recent)
    requires oldest in seen && forall x :: x in seen ==> seen[oldest] <= seen[x]
    ensures recent != [] && recent[|recent| - 1] == oldest
    ensures Listed(seen - {oldest}, recent[..|recent| - 1])
  {
    var n := |recent| - 1;
    assert recent == recent[..n] + [recent[n]];
    var i :| 0 <= i < |recent| && recent[i] == oldest;
  }

  lemma KnownTouches<Id(!new)>(seen: map<Id, nat>, recent: seq<Id>, id: Id, tick: nat, window: nat)
    requires Listed(seen, recent) && |recent| <= window && id in seen && forall x :: x in seen ==> seen[x] < tick
    ensures Listed(seen[id := tick], Touch(recent, id, window)) && |Touch(recent, id, window)| <= window
  {
    assert id in recent;
    WithoutSize(recent, id);
    hide Listed, Descends, Without;
    MovesToFront(seen, recent, id, tick);
  }

  lemma NewTouches<Id(!new)>(seen: map<Id, nat>, recent: seq<Id>, id: Id, tick: nat, oldest: Id, window: nat)
    requires Listed(seen, recent) && |recent| <= window && id !in seen && forall x :: x in seen ==> seen[x] < tick
    requires var touched := seen[id := tick];
      oldest in touched && forall o :: o in touched ==> touched[oldest] <= touched[o]
    ensures |Touch(recent, id, window)| <= window
    ensures
      var touched := seen[id := tick];
      Listed(if |touched| > window then touched - {oldest} else touched, Touch(recent, id, window))
  {
    assert id !in recent;
    WithoutSize(recent, id);
    hide Listed, Descends, Without;
    var touched, moved := seen[id := tick], [id] + Without(recent, id);
    MovesToFront(seen, recent, id, tick);
    FullIsCut(touched, moved, oldest, window);
  }

  lemma FullIsCut<Id(!new)>(touched: map<Id, nat>, moved: seq<Id>, oldest: Id, window: nat)
    requires Listed(touched, moved) && |moved| <= window + 1
    requires oldest in touched && forall o :: o in touched ==> touched[oldest] <= touched[o]
    ensures
      Listed(if |touched| > window then touched - {oldest} else touched,
             if |moved| > window then moved[..window] else moved)
  {
    hide Listed, Descends;
    ListedSize(touched, moved);
    OldestIsLast(touched, moved, oldest);
  }

  // ------------------------------------------------------------------
  // The object
  // ------------------------------------------------------------------

  // What the map is, both ways of saying it.
  ghost predicate Tracks<Id(!new)>(seen: map<Id, nat>, h: seq<Id>, window: nat) {
    && Remembers(seen, h, window)
    && Listed(seen, Recent(h, window)) && |Recent(h, window)| <= window
  }

  // The map after a call whose eviction scan, if it runs, finds `oldest`.
  function AfterAccept<Id(==)>(seen: map<Id, nat>, id: Id, tick: nat, oldest: Id, window: nat): map<Id, nat> {
    var touched := seen[id := tick];
    if id !in seen && |touched| > window then touched - {oldest} else touched
  }

  lemma RecentStep<Id(!new)>(h: seq<Id>, id: Id, window: nat)
    ensures Recent(h + [id], window) == Touch(Recent(h, window), id, window)
  {
    assert (h + [id])[..|h|] == h;
  }

  lemma AcceptTracks<Id(!new)>(seen: map<Id, nat>, h: seq<Id>, window: nat, id: Id, oldest: Id)
    requires Tracks(seen, h, window)
    requires var touched := seen[id := |h|];
      oldest in touched && forall o :: o in touched ==> touched[oldest] <= touched[o]
    ensures Tracks(AfterAccept(seen, id, |h|, oldest, window), h + [id], window)
  {
    assert forall x :: x in seen ==> seen[x] < |h|;
    RecentStep(h, id, window);
    hide Remembers, Listed, Recent, Touch;
    if id in seen {
      TouchKnown(seen, h, window, id);
      KnownTouches(seen, Recent(h, window), id, |h|, window);
    } else {
      TouchNew(seen, h, window, id, oldest);
      NewTouches(seen, Recent(h, window), id, |h|, oldest, window);
    }
  }

  lemma TracksMeans<Id(!new)>(seen: map<Id, nat>, h: seq<Id>, window: nat)
    requires Tracks(seen, h, window)
    ensures forall id :: id in seen <==> TouchedWithin(h, id, window)
    ensures seen.Keys == set x | x in Recent(h, window)
    ensures forall id :: id in seen ==> seen[id] < |h|
    ensures forall id, other :: id in seen && other in seen && seen[id] == seen[other] ==> id == other
  {
    assert forall id :: id in seen ==> IsLastTouch(h, id, seen[id]);
  }

  // The newest entries of the most-recently-used list are the ids touched with
  // fewer than `window` distinct others since.
  lemma RecentExactlyWhen<Id(!new)>(h: seq<Id>, window: nat, id: Id)
    ensures id in Recent(h, window) <==> TouchedWithin(h, id, window)
  {
    var seen := Tracked(h, window);
    TracksMeans(seen, h, window);
    assert id in Recent(h, window) <==> id in seen;
  }

  lemma TrackNext<Id(!new)>(before: map<Id, nat>, h: seq<Id>, window: nat, id: Id) returns (seen: map<Id, nat>)
    requires Tracks(before, h, window)
    ensures Tracks(seen, h + [id], window)
  {
    hide Tracks, AfterAccept;
    assert id in before[id := |h|];
    var oldest := OldestOf(before[id := |h|]);
    AcceptTracks(before, h, window, id, oldest);
    seen := AfterAccept(before, id, |h|, oldest, window);
  }

  lemma {:induction false} Tracked<Id(!new)>(h: seq<Id>, window: nat) returns (seen: map<Id, nat>)
    ensures Tracks(seen, h, window)
  {
    if h == [] {
      seen := map[];
    } else {
      hide Tracks;
      var before := Tracked(h[..|h| - 1], window);
      seen := TrackNext(before, h[..|h| - 1], window, h[|h| - 1]);
      assert h[..|h| - 1] + [h[|h| - 1]] == h;
    }
  }

  class MessageDedup<Id(==, !new)> {
    const windowSize: nat
    var seen: map<Id, nat>
    var clockTick: nat
    // Every id given to Accept so far, oldest call first.
    ghost var history: seq<Id>

    ghost predicate Valid()
      reads this
    {
      clockTick == |history| && Tracks(seen, history, windowSize)
    }

    constructor (windowSize: nat)
      ensures Valid() && history == [] && this.windowSize == windowSize
    {
      this.windowSize := windowSize;
      seen, clockTick, history := map[], 0, [];
    }

    // Sound as long as ticks stay below the start value of the eviction scan.
    method Accept(id: Id) returns (isNew: bool)
      requires Valid() && |history| < MAX_SAFE_INTEGER
      modifies this
      ensures Valid() && history == old(history) + [id]
      ensures isNew <==> !TouchedWithin(old(history), id, windowSize)
      ensures seen.Keys == set x | x in Recent(history, windowSize)
    {
      hide Tracks, Recent, TouchedWithin;
      TracksMeans(seen, history, windowSize);
      assert id in seen[id := clockTick];
      ghost var oldest := OldestOf(seen[id := clockTick]);
      AcceptTracks(seen, history, windowSize, id, oldest);
      history := history + [id];
      if id in seen {
        seen := seen[id := clockTick];
        clockTick := clockTick + 1;
        TracksMeans(seen, history, windowSize);
        return false;
      }
      seen := seen[id := clockTick];
      clockTick := clockTick + 1;
      if |seen| > windowSize {
        EvictOldest(oldest);
      }
      TracksMeans(seen, history, windowSize);
      return true;
    }

    method EvictOldest(ghost least: Id)
      requires least in seen && forall id :: id in seen ==> seen[least] <= seen[id]
      requires forall id, id' :: id in seen && id' in seen && seen[id] == seen[id'] ==> id == id'
      requires seen[least] < MAX_SAFE_INTEGER
      modifies this`seen
      ensures seen == old(seen) - {least}
    {
      var oldest: Option<Id> := None;
      var oldestTick := MAX_SAFE_INTEGER;
      var rest := seen.Keys;
      while rest != {}
        invariant rest <= seen.Keys
        invariant oldest.None? ==> oldestTick == MAX_SAFE_INTEGER
        invariant oldest.Some? ==> oldest.value in seen && seen[oldest.value] == oldestTick
        invariant forall id :: id in seen && id !in rest ==> oldestTick <= seen[id]
        decreases rest
      {
        var id :| id in rest;
        if seen[id] < oldestTick {
          oldestTick := seen[id];
          oldest := Some(id);
        }
        rest := rest - {id};
      }
      if oldest.Some? {
        seen := seen - {oldest.value};
      }
    }
  }

  lemma OldestOf<Id>(seen: map<Id, nat>) returns (oldest: Id)
    requires seen != map[]
    ensures oldest in seen && forall id :: id in seen ==> seen[oldest] <= seen[id]
  {
    oldest :| oldest in seen;
    var rest := seen.Keys - {oldest};
    while rest != {}
      invariant oldest in seen && rest <= seen.Keys
      invariant forall id :: id in seen && id !in rest ==> seen[oldest] <= seen[id]
      decreases rest
    {
      var id :| id in rest;
      if seen[id] < seen[oldest] {
        oldest := id;
      }
      rest := rest - {id};
    }
  }
}
