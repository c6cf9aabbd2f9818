/** The cursor: the state machine that walks the grid, lays tracks of blocks
    behind it once started, retraces to undo, and finishes the build. */
module Cursors {
  import opened Geometry
  import opened Pieces
  import opened Blocks
  import opened Grids
  import opened Tracks

  /** A track's blocks form a chain in the grid's store and each occupies
      its own cell. */
  ghost predicate Chained(g: Grid, t: seq<BlockId>)
    reads g`blocks, g`cells, g.cells
  {
    ChainOk(g.blocks, t) &&
    forall i :: 0 <= i < |t| ==> g.Get(g.blocks[t[i]].position) == Some(t[i])
  }

  /** A track chained in a snapshot of the store and the cells. */
  ghost predicate ChainedIn(blocks: seq<Block>, m: CellMap, u: seq<BlockId>)
  {
    ChainOk(blocks, u) &&
    forall k :: 0 <= k < |u| ==> blocks[u[k]].position in m && m[blocks[u[k]].position] == Some(u[k])
  }

  /** Two tracks share no block. */
  predicate Disjoint(s: seq<BlockId>, u: seq<BlockId>)
  {
    forall k :: k in s ==> k !in u
  }

  /** A chain survives any change that leaves its blocks, and the cells
      holding them, as they were. */
  lemma ChainKept(g: Grid, blocks: seq<Block>, u: seq<BlockId>)
    requires ChainOk(blocks, u)
    requires forall k :: 0 <= k < |u| ==>
      u[k] < |g.blocks| && g.blocks[u[k]] == blocks[u[k]] && g.Get(blocks[u[k]].position) == Some(u[k])
    ensures Chained(g, u)
  {
    ChainFrame(blocks, g.blocks, u);
  }

  /** A block placed at p, an empty cell next to the tail of a chain, and
      linked behind that tail, extends the chain. */
  lemma AppendChained(g: Grid, bs0: seq<Block>, m0: CellMap, t0: seq<BlockId>, p: Vec)
    requires ChainedIn(bs0, m0, t0)
    requires t0 != [] ==> IsDirection(Minus(p, bs0[Tail(t0)].position))
    requires |t0| == 1 ==> p.y == bs0[t0[0]].position.y
    requires g.blocks == Appended(bs0 + [NewBlock(p)], t0, |bs0|)
    requires p in m0 && m0[p].None?
    requires g.Get(p) == Some(|bs0|) && forall q :: q != p ==> q in m0 && g.Get(q) == m0[q]
    ensures Chained(g, t0 + [|bs0|])
  {
    ChainExtend(bs0, t0, p);
    var t := t0 + [|bs0|];
    if t0 != [] {
      LinkJoins(bs0 + [NewBlock(p)], Tail(t0), |bs0|);
    }
    forall i | 0 <= i < |t| ensures g.Get(g.blocks[t[i]].position) == Some(t[i]) {
      if i < |t0| {
        assert g.blocks[t[i]].position == bs0[t0[i]].position;
        assert bs0[t0[i]].position != p;
      } else {
        assert g.blocks[t[i]].position == p;
      }
    }
  }

  /** The same append leaves every other block that held its cell with its
      record and its cell. */
  lemma AppendedOthers(g: Grid, bs0: seq<Block>, m0: CellMap, t0: seq<BlockId>, p: Vec)
    requires ChainedIn(bs0, m0, t0)
    requires g.blocks == Appended(bs0 + [NewBlock(p)], t0, |bs0|)
    requires p in m0 && m0[p].None?
    requires forall q :: q != p ==> q in m0 && g.Get(q) == m0[q]
    ensures forall k :: 0 <= k < |bs0| && k !in t0 && bs0[k].position in m0 && m0[bs0[k].position] == Some(k) ==>
      k < |g.blocks| && g.blocks[k] == bs0[k] && g.Get(bs0[k].position) == Some(k)
  {
    if t0 != [] {
      assert Tail(t0) in t0;
      LinkJoins(bs0 + [NewBlock(p)], Tail(t0), |bs0|);
    }
  }

  /** The undo clean-up applies when the block before p is resolved to a
      type on the clean-up list. */
  predicate Cleans(bs: seq<Block>, ls: seq<Option<Look>>, p: BlockId)
  {
    p < |bs| && bs[p].prev.Some? && bs[p].prev.value < |bs| && bs[p].prev.value < |ls| &&
    ls[bs[p].prev.value].Some? && ModelName(ls[bs[p].prev.value].value.piece) in UNDO_CLEANUP
  }

  /** The store after an undo that leaves p as the newest block: p loses
      its forward link, and with the clean-up so does the block before it. */
  function Retraced(bs: seq<Block>, p: BlockId, cleaned: bool): (r: seq<Block>)
    requires p < |bs|
    ensures |r| == |bs|
  {
    var popped := bs[p := RemoveNext(bs[p])];
    var pp := bs[p].prev;
    if cleaned && pp.Some? && pp.value < |bs| then popped[pp.value := RemoveNext(popped[pp.value])] else popped
  }

  /** The looks after the same undo: p loses its look, and with the
      clean-up so does the block before it. */
  function RetracedLooks(ls: seq<Option<Look>>, bs: seq<Block>, p: BlockId, cleaned: bool): (r: seq<Option<Look>>)
    requires p < |bs| && p < |ls|
    ensures |r| == |ls|
  {
    var pp := bs[p].prev;
    if cleaned && pp.Some? && pp.value < |ls| then ls[p := None][pp.value := None] else ls[p := None]
  }

  /** Appending a block at p behind a chain and then retracing restores
      the store up to the new block, but for the clean-up. */
  lemma RetracedStore(bs0: seq<Block>, t0: seq<BlockId>, p: Vec, ls: seq<Option<Look>>, cleaned: bool)
    requires ChainOk(bs0, t0) && t0 != [] && Tail(t0) < |ls|
    ensures var bs1 := Link(bs0 + [NewBlock(p)], Tail(t0), |bs0|);
      Cleans(bs1, ls, Tail(t0)) == Cleans(bs0, ls, Tail(t0)) &&
      RetracedLooks(ls, bs1, Tail(t0), cleaned) == RetracedLooks(ls, bs0, Tail(t0), cleaned)
    ensures var tail := Tail(t0);
      var r := Retraced(Link(bs0 + [NewBlock(p)], tail, |bs0|), tail, cleaned);
      var pp := bs0[tail].prev;
      (cleaned && pp.Some? ==> pp.value < |bs0| && r[..|bs0|] == bs0[pp.value := RemoveNext(bs0[pp.value])]) &&
      (!cleaned || pp.None? ==> r[..|bs0|] == bs0)
  {
    var tail := Tail(t0);
    var bs1 := Link(bs0 + [NewBlock(p)], tail, |bs0|);
    LinkJoins(bs0 + [NewBlock(p)], tail, |bs0|);
    assert LinkedAt(bs0, t0, |t0| - 1);
    assert RemoveNext(bs1[tail]) == bs0[tail];
    var pp := bs0[tail].prev;
    if |t0| > 1 {
      assert pp == Some(t0[|t0| - 2]) && t0[|t0| - 2] != tail;
    }
  }

  /** Filling an empty cell and clearing it again leaves every cell as it
      was. */
  lemma CellsRestored(m0: CellMap, m1: CellMap, m2: CellMap, p: Vec)
    requires forall q :: q in m0 && q in m1 && q in m2
    requires m0[p].None? && m2[p].None?
    requires forall q :: q != p ==> m1[q] == m0[q] && m2[q] == m1[q]
    ensures m2 == m0
  {
  }

  /** Popping the tail of a chain, clearing its cell and detaching the
      block before it, leaves a chain. */
  lemma PoppedChained(g: Grid, bs0: seq<Block>, m0: CellMap, t: seq<BlockId>)
    requires ChainedIn(bs0, m0, t) && |t| >= 2
    requires g.blocks == bs0[t[|t| - 2] := RemoveNext(bs0[t[|t| - 2]])]
    requires forall q :: q != bs0[Tail(t)].position ==> q in m0 && g.Get(q) == m0[q]
    ensures Chained(g, t[..|t| - 1])
  {
    ChainTruncate(bs0, t);
    var t' := t[..|t| - 1];
    forall i | 0 <= i < |t'| ensures g.Get(g.blocks[t'[i]].position) == Some(t'[i]) {
      assert g.blocks[t'[i]].position == bs0[t[i]].position;
      assert t[i] != Tail(t);
    }
  }

  /** The same pop leaves every other block that held its cell with its
      record and its cell. */
  lemma PoppedOthers(g: Grid, bs0: seq<Block>, m0: CellMap, t: seq<BlockId>)
    requires ChainedIn(bs0, m0, t) && |t| >= 2
    requires g.blocks == bs0[t[|t| - 2] := RemoveNext(bs0[t[|t| - 2]])]
    requires forall q :: q != bs0[Tail(t)].position ==> q in m0 && g.Get(q) == m0[q]
    ensures forall k :: 0 <= k < |bs0| && k !in t && bs0[k].position in m0 && m0[bs0[k].position] == Some(k) ==>
      k < |g.blocks| && g.blocks[k] == bs0[k] && g.Get(bs0[k].position) == Some(k)
  {
    forall k | 0 <= k < |bs0| && k !in t && bs0[k].position in m0 && m0[bs0[k].position] == Some(k)
      ensures k < |g.blocks| && g.blocks[k] == bs0[k] && g.Get(bs0[k].position) == Some(k)
    {
      assert Tail(t) in t && t[|t| - 2] in t;
      assert m0[bs0[Tail(t)].position] == Some(Tail(t));
    }
  }

  /** Distinct blocks of a chained track sit in distinct cells. */
  lemma ChainedCellsDistinct(g: Grid, t: seq<BlockId>, a: nat, b: nat)
    requires Chained(g, t) && a < b < |t|
    ensures g.blocks[t[a]].position != g.blocks[t[b]].position
  {
    assert g.Get(g.blocks[t[a]].position) == Some(t[a]);
    assert g.Get(g.blocks[t[b]].position) == Some(t[b]);
  }

  /** Every block of a chained track carries track sides: unit directions,
      and two different ones, since its two neighbours sit in different
      cells. */
  lemma {:induction false} ChainSides(g: Grid, t: seq<BlockId>, i: nat)
    requires Chained(g, t) && i < |t|
    ensures TrackSides(g.blocks[t[i]])
  {
    assert LinkedAt(g.blocks, t, i);
    var b := g.blocks[t[i]];
    if 0 < i && i + 1 < |t| && b.toSide.Some? {
      ChainedCellsDistinct(g, t, i - 1, i + 1);
      assert b.fromSide.value == Minus(g.blocks[t[i - 1]].position, b.position);
      assert b.toSide.value == Minus(g.blocks[t[i + 1]].position, b.position);
    }
  }

  /** Every block of a chained track can be resolved, and the decision sees
      track geometry: the block the decision looks back to when leaving a
      shaft has an entry side, since the second block of a track never lies
      below the first; and the block and both its neighbours carry track
      sides. */
  lemma ChainedResolvable(g: Grid, t: seq<BlockId>, j: nat)
    requires g.Valid() && Chained(g, t) && j < |t|
    ensures AppearanceDefined(g.blocks[t[j]], g.PrevOf(t[j]), g.NextOf(t[j]))
    ensures Geometric(g.blocks[t[j]], g.PrevOf(t[j]), g.NextOf(t[j]))
  {
    assert LinkedAt(g.blocks, t, j);
    ChainSides(g, t, j);
    if j + 1 < |t| {
      assert LinkedAt(g.blocks, t, j + 1);
      ChainSides(g, t, j + 1);
    }
    if j >= 1 {
      ChainSides(g, t, j - 1);
    }
    if j >= 2 {
      assert LinkedAt(g.blocks, t, j - 1);
    }
  }

  /** On the blocks the cursor builds, what getMesh decides is oriented:
      every look it picks is the canonical piece turned onto the block's
      sides, and it leaves a block unresolved exactly in the configurations
      no rule covers. */
  lemma ChainedOriented(g: Grid, t: seq<BlockId>, j: nat)
    requires g.Valid() && Chained(g, t) && j < |t|
    ensures g.Inferred(t[j]).Some? ==> Oriented(g.Inferred(t[j]).value, g.blocks[t[j]], g.PrevOf(t[j]))
    ensures g.Inferred(t[j]).None? <==>
      g.blocks[t[j]].fromSide.Some? && g.blocks[t[j]].toSide.Some? &&
      Unmatched(g.blocks[t[j]], g.PrevOf(t[j]), g.NextOf(t[j]))
  {
    ChainedResolvable(g, t, j);
    var b, prev := g.blocks[t[j]], g.PrevOf(t[j]);
    var ceil, prevCeil := g.Ceiled(b.position), prev.Some? && g.Ceiled(prev.value.position);
    AppearanceOriented(b, prev, g.NextOf(t[j]), ceil, prevCeil);
    UnresolvedExactlyWhenUnmatched(b, prev, g.NextOf(t[j]), ceil, prevCeil);
  }

  /** The newest block of a non-empty track. */
  function Tail(t: seq<BlockId>): BlockId
    requires t != []
  {
    t[|t| - 1]
  }

  /** Cell p comes before cell (x, y, z) in the order of the finishing
      pass: columns by x, then by z, each column from the top down. */
  predicate Visited(g: Grid, p: Vec, x: int, z: int, y: int)
  {
    g.InBounds(p) && (p.x < x || (p.x == x && (p.z < z || (p.z == z && p.y > y))))
  }

  class Cursor {
    const grid: Grid
    var position: Vec
    var started: bool
    var tracks: seq<Track>

    /** The grid is consistent, the cursor is on the grid, the current track
        (the newest, at index 0) is chained; a started cursor sits on the
        track's unresolved tail, and a stopped one has an empty current
        track. */
    ghost predicate Valid()
      reads this, grid, grid.cells, tracks
    {
      grid.Valid() && |tracks| > 0 && grid.InBounds(position) &&
      Chained(grid, tracks[0].track) && TracksSound() &&
      (started ==>
         tracks[0].track != [] &&
         grid.blocks[Tail(tracks[0].track)].position == position &&
         grid.looks[Tail(tracks[0].track)].None?) &&
      (!started ==> tracks[0].track == [])
    }

    /** The tracks are distinct objects that share no block, and the
        finished ones (all but the current one, at index 0) stay chained. */
    ghost predicate TracksSound()
      reads this`tracks, tracks, grid`blocks, grid`cells, grid.cells
    {
      (forall i, j :: 0 <= i < j < |tracks| ==> tracks[i] != tracks[j] && Disjoint(tracks[i].track, tracks[j].track)) &&
      (forall i :: 0 < i < |tracks| ==> Chained(grid, tracks[i].track))
    }

    /** The finished tracks as chains of the current grid, in snapshot
        form. */
    lemma OthersSnapshot()
      requires |tracks| > 0 && Chained(grid, tracks[0].track) && TracksSound()
      ensures forall i :: 0 <= i < |tracks| ==> ChainedIn(grid.blocks, grid.Occupancy(), tracks[i].track)
    {
    }

    /** The finished tracks stay sound through a change to the current track
        (from t0) that leaves every stored block outside t0 that held its
        cell in the snapshot bs0, m0 unchanged and in its cell, and that puts
        on the current track only blocks of t0 or blocks added since. */
    lemma SoundKept(bs0: seq<Block>, m0: CellMap, t0: seq<BlockId>)
      requires |tracks| > 0
      requires forall i, j :: 0 <= i < j < |tracks| ==> tracks[i] != tracks[j]
      requires forall i, j :: 0 < i < j < |tracks| ==> Disjoint(tracks[i].track, tracks[j].track)
      requires forall i :: 0 < i < |tracks| ==> Disjoint(t0, tracks[i].track) && ChainedIn(bs0, m0, tracks[i].track)
      requires forall k :: k in tracks[0].track ==> k in t0 || k >= |bs0|
      requires forall k :: 0 <= k < |bs0| && k !in t0 && bs0[k].position in m0 && m0[bs0[k].position] == Some(k) ==>
        k < |grid.blocks| && grid.blocks[k] == bs0[k] && grid.Get(bs0[k].position) == Some(k)
      ensures TracksSound()
    {
      forall i | 0 < i < |tracks| ensures Chained(grid, tracks[i].track) {
        var u := tracks[i].track;
        forall k | 0 <= k < |u|
          ensures u[k] < |grid.blocks| && grid.blocks[u[k]] == bs0[u[k]] && grid.Get(bs0[u[k]].position) == Some(u[k])
        {
          assert u[k] in u;
        }
        ChainKept(grid, bs0, u);
      }
      forall j | 0 < j < |tracks| ensures Disjoint(tracks[0].track, tracks[j].track) {
        var u := tracks[j].track;
        forall k | k in tracks[0].track ensures k !in u {
          assert k in t0 || k >= |bs0|;
        }
      }
    }

    /** A fresh empty track put in front of sound, chained tracks keeps them
        sound. */
    lemma PushedSound(older: seq<Track>)
      requires |tracks| == |older| + 1 && tracks[1..] == older && tracks[0].track == [] && tracks[0] !in older
      requires forall i, j :: 0 <= i < j < |older| ==> older[i] != older[j] && Disjoint(older[i].track, older[j].track)
      requires forall i :: 0 <= i < |older| ==> Chained(grid, older[i].track)
      ensures TracksSound()
    {
      assert forall i :: 0 < i < |tracks| ==> tracks[i] == older[i - 1];
    }

    /** A cursor at x = 0, z = 0 on the top layer, not started, with one
        empty track. */
    constructor (g: Grid)
      requires g.Valid() && g.worldX > 0 && g.worldY > 0 && g.worldZ > 0
      ensures Valid()
      ensures grid == g && position == Vec(0, g.worldY - 1, 0) && !started
      ensures |tracks| == 1 && fresh(tracks[0]) && tracks[0].track == []
    {
      grid := g;
      position := Vec(0, g.worldY - 1, 0);
      started := false;
      var track := new Track();
      tracks := [track];
    }

    /** isInsideGrid: exactly the cells the grid can hold. */
    function IsInsideGrid(p: Vec): bool
    {
      grid.InBounds(p)
    }

    /** Under a valid grid, isInsideGrid accepts exactly the points that
        index the cell array, and no point it rejects holds a block. */
    lemma InsideGridIndexable(p: Vec)
      requires grid.Valid()
      ensures IsInsideGrid(p) <==>
        0 <= p.x < grid.cells.Length0 && 0 <= p.y < grid.cells.Length1 && 0 <= p.z < grid.cells.Length2
      ensures !IsInsideGrid(p) ==> grid.Get(p).None?
    {
    }

    /** verifyNextPosition: a forward step to next is legal when next is on
        the grid and empty, the step stays on its level while the track holds
        a single block, the cell below next is empty unless the step climbs,
        and the cell above next is empty unless the step descends. */
    function VerifyNextPosition(next: Vec): (ok: bool)
      reads this`position, this`tracks, grid`cells, grid.cells
      reads if |tracks| > 0 then {tracks[0]} else {}
      requires |tracks| > 0
      ensures ok <==>
        grid.InBounds(next) && grid.Get(next).None? &&
        (next.y != position.y ==> |tracks[0].track| != 1) &&
        (next.y - position.y != 1 ==> grid.Get(Plus(next, BOTTOM)).None?) &&
        (next.y - position.y != -1 ==> grid.Get(Plus(next, TOP)).None?)
    {
      if !IsInsideGrid(next) then false
      else if grid.Get(next).Some? then false
      else
        var upOrDown := Minus(next, position).y;
        if upOrDown != 0 && tracks[0].Length() == 1 then false
        else if upOrDown != 1 && grid.Get(Plus(next, Vec(0, -1, 0))).Some? then false
        else if upOrDown != -1 && grid.Get(Plus(next, Vec(0, 1, 0))).Some? then false
        else true
    }

    /** An occupied cell is never a legal forward step. */
    lemma OccupiedRejected(next: Vec)
      requires |tracks| > 0 && grid.Get(next).Some?
      ensures !VerifyNextPosition(next)
    {
    }

    /** What spawnBlock needs to keep the tracks chained: the cursor cell is
        on the grid and empty, it neighbours the tail of the current track,
        and a second block stays on the first one's level. */
    ghost predicate CanSpawn()
      reads this, grid, grid.cells, tracks
    {
      grid.Valid() && |tracks| > 0 && grid.InBounds(position) && grid.Get(position).None? &&
      Chained(grid, tracks[0].track) && TracksSound() &&
      (tracks[0].track != [] ==> IsDirection(Minus(position, grid.blocks[Tail(tracks[0].track)].position))) &&
      (|tracks[0].track| == 1 ==> grid.blocks[tracks[0].track[0]].position.y == position.y)
    }

    /** The state after the first half of spawnBlock: the store gained a new
        block with this id at the cursor, linked behind the old tail of the
        current track, which now ends with it; the cursor cell holds it and
        no other cell changed; it has no look yet. */
    twostate predicate Linked(id: BlockId)
      reads this, grid, grid.cells, tracks
    {
      |tracks| > 0 && |old(tracks)| > 0 && tracks[0] == old(tracks[0]) &&
      id == old(|grid.blocks|) && tracks[0].track == old(tracks[0].track) + [id] &&
      (old(tracks[0].track) != [] ==> old(Tail(tracks[0].track)) < old(|grid.blocks|)) &&
      grid.blocks == Appended(old(grid.blocks) + [NewBlock(position)], old(tracks[0].track), id) &&
      grid.blocks[id].position == position &&
      grid.looks == old(grid.looks) + [None] &&
      grid.Get(position) == Some(id) && (forall q :: q != position ==> grid.Get(q) == old(grid.Get(q)))
    }

    /** The state after a block with this id was placed at the cursor and
        appended to the current track: the store gained the new block, linked
        behind the old tail; the cursor cell holds it and no other cell
        changed; it is unresolved, and every earlier block of the track that
        was unresolved is now resolved by the decision, all other looks being
        kept. */
    twostate predicate Placed(id: BlockId)
      reads this, grid, grid.cells, tracks
    {
      |tracks| > 0 && |old(tracks)| > 0 && tracks[0] == old(tracks[0]) &&
      id == old(|grid.blocks|) && old(|grid.looks|) == id &&
      tracks[0].track == old(tracks[0].track) + [id] &&
      (old(tracks[0].track) != [] ==> old(Tail(tracks[0].track)) < old(|grid.blocks|)) &&
      grid.blocks == Appended(old(grid.blocks) + [NewBlock(position)], old(tracks[0].track), id) &&
      grid.Get(position) == Some(id) &&
      (forall q :: q != position ==> grid.Get(q) == old(grid.Get(q))) &&
      |grid.looks| == |grid.blocks| && grid.looks[id].None? &&
      (forall k :: 0 <= k < id ==>
        grid.looks[k] ==
          if k in old(tracks[0].track) && old(grid.looks[k]).None? then grid.Inferred(k) else old(grid.looks[k]))
    }

    /** The loop of spawnBlock: every block of the track but the newest that
        has no look yet is resolved by the decision, newest first; nothing
        else changes. */
    method ResolveEarlierBlocks(track: Track)
      requires grid.Valid() && Chained(grid, track.track) && track.track != []
      modifies grid`looks
      ensures grid.Valid() && |grid.looks| == old(|grid.looks|)
      ensures forall k :: 0 <= k < |grid.looks| ==>
        grid.looks[k] ==
          if k in track.track[..|track.track| - 1] && old(grid.looks[k]).None? then grid.Inferred(k)
          else old(grid.looks[k])
    {
      ghost var t := track.track;
      var i := 1;
      while i < track.Length()
        invariant 1 <= i <= |t|
        invariant grid.Valid() && |grid.looks| == old(|grid.looks|)
        invariant forall k :: 0 <= k < |grid.looks| ==>
          grid.looks[k] ==
            if k in t[|t| - i..|t| - 1] && old(grid.looks[k]).None? then grid.Inferred(k)
            else old(grid.looks[k])
      {
        var lastBlock := track.Peek(i);
        ghost var j := |t| - 1 - i;
        assert t[j..|t| - 1] == [t[j]] + t[|t| - i..|t| - 1];
        if lastBlock.Some? && grid.looks[lastBlock.value].None? {
          ChainedResolvable(grid, t, j);
          grid.Resolve(lastBlock.value);
        }
        i := i + 1;
      }
    }

    /** spawnBlock: put a new block at the cursor, append it to the current
        track, then resolve every earlier block of the track that has no look
        yet, newest first. */
    method SpawnBlock() returns (id: BlockId)
      requires CanSpawn() && started
      modifies grid`blocks, grid`looks, grid.cells, tracks[0]
      ensures Valid() && Placed(id)
    {
      ghost var t0, ls0 := tracks[0].track, grid.looks;
      id := AppendSound();
      var track := tracks[0];
      ghost var t, ls1 := track.track, grid.looks;
      assert ls1 == ls0 + [None];
      ResolveEarlierBlocks(track);
      assert t[..|t| - 1] == t0;
      assert id !in t0;
      forall k | 0 <= k < id
        ensures grid.looks[k] == if k in t0 && ls0[k].None? then grid.Inferred(k) else ls0[k]
      {
        assert ls1[k] == ls0[k];
      }
    }

    /** The first half of spawnBlock, keeping the finished tracks sound: they
        share no block with the current one and lose none of theirs. */
    method AppendSound() returns (id: BlockId)
      requires CanSpawn()
      modifies grid`blocks, grid`looks, grid.cells, tracks[0]
      ensures grid.Valid() && Chained(grid, tracks[0].track) && TracksSound() && Linked(id)
    {
      ghost var t0, bs0, m0 := tracks[0].track, grid.blocks, grid.Occupancy();
      OthersSnapshot();
      assert forall i :: 0 < i < |tracks| ==> tracks[i] != tracks[0];
      id := AppendAtCursor();
      AppendedOthers(grid, bs0, m0, t0, position);
      SoundKept(bs0, m0, t0);
    }

    /** The first half of spawnBlock: a new, unresolved block at the cursor
        cell, linked behind the tail of the current track. */
    method AppendAtCursor() returns (id: BlockId)
      requires CanSpawn()
      modifies grid`blocks, grid`looks, grid.cells, tracks[0]
      ensures grid.Valid() && Chained(grid, tracks[0].track) && Linked(id)
    {
      ghost var t0, bs0, m0 := tracks[0].track, grid.blocks, grid.Occupancy();
      assert ChainedIn(bs0, m0, t0);
      id := grid.AddBlockAt(position);
      assert forall i :: 0 <= i < |t0| ==> t0[i] < id && grid.blocks[t0[i]] == old(grid.blocks[t0[i]]);
      tracks[0].Add(grid, id);
      AppendChained(grid, bs0, m0, t0, position);
    }

    /** start: a stopped cursor on an empty cell starts a track with a block
        there; otherwise nothing happens. */
    method Start()
      requires Valid()
      modifies this`started, tracks[0], grid`blocks, grid`looks, grid.cells
      ensures Valid()
      ensures old(started) || old(grid.Get(position)).Some? ==>
        started == old(started) && unchanged(tracks[0]) && unchanged(grid) && unchanged(grid.cells)
      ensures !old(started) && old(grid.Get(position)).None? ==> started && Placed(old(|grid.blocks|))
    {
      if started {
        return;
      }
      if grid.Get(position).Some? {
        return;
      }
      started := true;
      var _ := SpawnBlock();
    }

    /** The entry side of the current track's newest block. */
    ghost function TailEntry(): Option<Vec>
      reads this`tracks, tracks, grid`blocks
      requires |tracks| > 0 && tracks[0].track != [] && Tail(tracks[0].track) < |grid.blocks|
    {
      grid.blocks[Tail(tracks[0].track)].fromSide
    }

    /** stop: a started track whose newest block was not entered from above
        is closed: its newest block is resolved (to an end piece, open
        towards the block before it), the cursor stops, and a fresh empty
        track goes in front of the others. Otherwise nothing happens. A
        started track must hold two blocks, since the check reads the
        newest block's entry side. */
    method Stop()
      requires Valid()
      requires started ==> |tracks[0].track| > 1
      modifies this`started, this`tracks, grid`looks
      ensures Valid()
      ensures !old(started) || old(TailEntry()) == Some(TOP) ==>
        started == old(started) && tracks == old(tracks) && grid.looks == old(grid.looks)
      ensures old(started) && old(TailEntry()) != Some(TOP) ==>
        old(TailEntry()).Some? && !started && |tracks| == old(|tracks|) + 1 && tracks[1..] == old(tracks) &&
        fresh(tracks[0]) && tracks[0].track == [] &&
        grid.looks == old(grid.looks)[old(Tail(tracks[0].track)) := Some(Look(End, EndTurn(old(TailEntry()).value)))]
    {
      if !started {
        return;
      }
      ghost var t := tracks[0].track;
      assert LinkedAt(grid.blocks, t, |t| - 1);
      var tail := tracks[0].Peek(0).value;
      assert tail == Tail(t);
      if grid.blocks[tail].fromSide.value == TOP {
        return;
      }
      CloseTail();
      started := false;
      var track := new Track();
      ghost var older := tracks;
      tracks := [track] + tracks;
      PushedSound(older);
    }

    /** The closing step of stop: the newest block of the current track is
        resolved to an end piece. */
    method CloseTail()
      requires Valid() && started && |tracks[0].track| > 1
      modifies grid`looks
      ensures grid.Valid() && old(TailEntry()).Some?
      ensures grid.looks == old(grid.looks)[old(Tail(tracks[0].track)) := Some(Look(End, EndTurn(old(TailEntry()).value)))]
    {
      ghost var t := tracks[0].track;
      assert LinkedAt(grid.blocks, t, |t| - 1);
      var tail := tracks[0].Peek(0).value;
      ChainedResolvable(grid, t, |t| - 1);
      grid.Resolve(tail);
    }

    /** moveTo: move the cursor; a started cursor places a block there. */
    method MoveTo(p: Vec) returns (r: Option<BlockId>)
      requires Valid() && grid.InBounds(p) && (started ==> VerifyNextPosition(p) && IsDirection(Minus(p, position)))
      modifies this`position, tracks[0], grid`blocks, grid`looks, grid.cells
      ensures Valid() && position == p
      ensures !started ==> r.None? && unchanged(tracks[0]) && unchanged(grid) && unchanged(grid.cells)
      ensures started ==> r.Some? && Placed(r.value)
    {
      if started {
        var block := StepAndSpawn(p);
        return Some(block);
      }
      position := p;
      return None;
    }

    /** The started branch of moveTo. */
    method StepAndSpawn(p: Vec) returns (id: BlockId)
      requires Valid() && started && grid.InBounds(p) && VerifyNextPosition(p) && IsDirection(Minus(p, position))
      modifies this`position, tracks[0], grid`blocks, grid`looks, grid.cells
      ensures Valid() && position == p && Placed(id)
    {
      ghost var tail := Tail(tracks[0].track);
      assert grid.blocks[tail].position == position;
      assert grid.Get(p).None? && (|tracks[0].track| == 1 ==> p.y == position.y);
      position := p;
      assert grid.blocks == old(grid.blocks) && grid.looks == old(grid.looks) && tracks[0].track == old(tracks[0].track);
      assert forall q :: grid.Get(q) == old(grid.Get(q));
      assert CanSpawn();
      id := SpawnBlock();
    }

    /** The state after cancelLastMove: the newest block was popped and its
        cell cleared, the block before it lost its forward link, its exit
        side and its look, and the cursor sits on it; nothing else changed. */
    twostate predicate Cancelled()
      reads this, grid, grid.cells, tracks
    {
      |old(tracks)| > 0 && |tracks| > 0 && tracks[0] == old(tracks[0]) &&
      var t := old(tracks[0].track);
      |t| >= 2 && t[|t| - 1] < old(|grid.blocks|) && t[|t| - 2] < old(|grid.blocks|) &&
      old(|grid.looks|) == old(|grid.blocks|) &&
      var tail, p := t[|t| - 1], t[|t| - 2];
      tracks[0].track == t[..|t| - 1] &&
      grid.blocks == old(grid.blocks)[p := RemoveNext(old(grid.blocks[p]))] &&
      grid.looks == old(grid.looks)[p := None] &&
      grid.Get(old(grid.blocks[tail].position)).None? &&
      (forall q :: q != old(grid.blocks[tail].position) ==> grid.Get(q) == old(grid.Get(q))) &&
      position == old(grid.blocks[p].position)
    }

    /** cancelLastMove: pop the newest block, clear its cell and the forward
        link of the block before it, and put the cursor on that block. */
    method CancelLastMove()
      requires Valid() && started && |tracks[0].track| >= 2
      modifies this`position, tracks[0], grid`blocks, grid`looks, grid.cells
      ensures Valid() && Cancelled()
    {
      PopSound();
    }

    /** The steps of cancelLastMove, keeping the finished tracks sound. */
    method PopSound()
      requires Valid() && started && |tracks[0].track| >= 2
      modifies this`position, tracks[0], grid`blocks, grid`looks, grid.cells
      ensures grid.Valid() && Chained(grid, tracks[0].track) && TracksSound() && Cancelled() && grid.InBounds(position)
      ensures tracks[0].track != [] && grid.blocks[Tail(tracks[0].track)].position == position &&
        grid.looks[Tail(tracks[0].track)].None?
    {
      ghost var t, bs0, m0 := tracks[0].track, grid.blocks, grid.Occupancy();
      OthersSnapshot();
      assert forall i :: 0 < i < |tracks| ==> tracks[i] != tracks[0];
      PopTail();
      PoppedOthers(grid, bs0, m0, t);
      SoundKept(bs0, m0, t);
    }

    /** The steps of cancelLastMove on the current track and the grid. */
    method PopTail()
      requires Valid() && started && |tracks[0].track| >= 2
      modifies this`position, tracks[0], grid`blocks, grid`looks, grid.cells
      ensures grid.Valid() && Chained(grid, tracks[0].track) && Cancelled() && grid.InBounds(position)
      ensures tracks[0].track != [] && grid.blocks[Tail(tracks[0].track)].position == position &&
        grid.looks[Tail(tracks[0].track)].None?
    {
      ghost var t, bs0, m0 := tracks[0].track, grid.blocks, grid.Occupancy();
      assert ChainedIn(bs0, m0, t);
      assert LinkedAt(grid.blocks, t, |t| - 1);
      var removedBlock := tracks[0].RemoveLast();
      grid.Remove(removedBlock.value);
      var lastBlock := tracks[0].Peek(0);
      assert lastBlock.value == t[|t| - 2];
      position := grid.blocks[lastBlock.value].position;
      PoppedChained(grid, bs0, m0, t);
    }

    /** A step to next retraces the track: next is where the block before
        the newest one sits. */
    ghost predicate Retraces(next: Vec)
      reads this`tracks, tracks, grid`blocks
      requires |tracks| > 0
    {
      var prevBlock := tracks[0].Peek(1);
      prevBlock.Some? && prevBlock.value < |grid.blocks| && grid.blocks[prevBlock.value].position == next
    }

    /** The state after an undo: the newest block was popped and its cell
        cleared; the block before it lost its forward link, its exit side and
        its look, and the cursor sits on it; and when the block before that
        one is resolved to a type on the clean-up list, it is detached the
        same way. Nothing else changed. */
    twostate predicate Undone()
      reads this, grid, grid.cells, tracks
    {
      |old(tracks)| > 0 && |tracks| > 0 && tracks[0] == old(tracks[0]) &&
      var t := old(tracks[0].track);
      |t| >= 2 && t[|t| - 1] < old(|grid.blocks|) && t[|t| - 2] < old(|grid.blocks|) &&
      old(|grid.looks|) == old(|grid.blocks|) &&
      var tail, p := t[|t| - 1], t[|t| - 2];
      var cleanup := Cleans(old(grid.blocks), old(grid.looks), p);
      tracks[0].track == t[..|t| - 1] &&
      position == old(grid.blocks[p].position) &&
      grid.Get(old(grid.blocks[tail].position)).None? &&
      (forall q :: q != old(grid.blocks[tail].position) ==> grid.Get(q) == old(grid.Get(q))) &&
      grid.blocks == Retraced(old(grid.blocks), p, cleanup) &&
      grid.looks == RetracedLooks(old(grid.looks), old(grid.blocks), p, cleanup)
    }

    /** What moveInDirection did. A stopped cursor moves to the target when
        it is on the grid and touches nothing else. A started cursor undoes
        the last step when the target is the block before the newest; else
        it places a block at the target, and moves there, exactly when the
        step is legal; else nothing changes. */
    twostate predicate Moved(direction: Vec, new r: Option<BlockId>)
      reads this, grid, grid.cells, tracks
      requires old(|tracks|) > 0
    {
      var next := old(Plus(position, direction));
      (!old(started) ==>
        r.None? && tracks == old(tracks) && unchanged(old(tracks[0])) && unchanged(grid) && unchanged(grid.cells) &&
        position == if IsInsideGrid(next) then next else old(position)) &&
      (old(started) && old(Retraces(next)) ==> r.None? && Undone()) &&
      (old(started) && !old(Retraces(next)) && old(VerifyNextPosition(next)) ==>
        r.Some? && position == next && Placed(r.value)) &&
      (old(started) && !old(Retraces(next)) && !old(VerifyNextPosition(next)) ==>
        r.None? && position == old(position) &&
        tracks == old(tracks) && unchanged(old(tracks[0])) && unchanged(grid) && unchanged(grid.cells))
    }

    /** The retracing branch of moveInDirection: cancelLastMove, then the
        clean-up of the block two steps back. */
    method UndoLastMove(prevBlock: BlockId)
      requires Valid() && started && tracks[0].Peek(1) == Some(prevBlock)
      modifies this`position, tracks[0], grid`blocks, grid`looks, grid.cells
      ensures Valid() && Undone()
    {
      ghost var t, bs0, ls0 := tracks[0].track, grid.blocks, grid.looks;
      assert LinkedAt(grid.blocks, t, |t| - 2);
      CancelLastMove();
      var before := grid.blocks[prevBlock].prev;
      assert before == bs0[prevBlock].prev;
      if before.Some? && grid.looks[before.value].Some? &&
         ModelName(grid.looks[before.value].value.piece) in UNDO_CLEANUP {
        assert before.value == t[|t| - 3];
        assert Cleans(bs0, ls0, prevBlock);
        DetachEarlier(before.value, |t| - 3);
        assert grid.blocks == Retraced(bs0, prevBlock, true);
        assert grid.looks == RetracedLooks(ls0, bs0, prevBlock, true);
      } else {
        assert !Cleans(bs0, ls0, prevBlock);
        assert grid.blocks == Retraced(bs0, prevBlock, false);
        assert grid.looks == RetracedLooks(ls0, bs0, prevBlock, false);
      }
    }

    /** The clean-up of the undo: an earlier block of the current track
        loses its forward link, its exit side and its look. */
    method DetachEarlier(id: BlockId, ghost j: nat)
      requires Valid() && started && j + 1 < |tracks[0].track| && tracks[0].track[j] == id
      modifies grid`blocks, grid`looks
      ensures Valid()
      ensures grid.blocks == old(grid.blocks)[id := RemoveNext(old(grid.blocks[id]))] &&
        grid.looks == old(grid.looks)[id := None]
    {
      ghost var t, bs0, m0 := tracks[0].track, grid.blocks, grid.Occupancy();
      OthersSnapshot();
      ChainDetach(grid.blocks, t, j);
      assert t[j] != Tail(t);
      grid.RemoveNextOf(id);
      assert Chained(grid, t) by {
        forall i | 0 <= i < |t| ensures grid.Get(grid.blocks[t[i]].position) == Some(t[i]) {
          assert grid.blocks[t[i]].position == old(grid.blocks[t[i]].position);
        }
      }
      assert t[j] in t;
      SoundKept(bs0, m0, t);
    }

    /** moveInDirection: undo by retracing, a legal forward step, or a free
        move before the track is started. */
    method MoveInDirection(direction: Vec) returns (r: Option<BlockId>)
      requires Valid() && IsDirection(direction)
      modifies this`position, tracks[0], grid`blocks, grid`looks, grid.cells
      ensures Valid()
      ensures Moved(direction, r)
    {
      var prevBlock := tracks[0].Peek(1);
      var nextPosition := Plus(position, direction);
      if started {
        if prevBlock.Some? && grid.blocks[prevBlock.value].position == nextPosition {
          assert Retraces(nextPosition);
          UndoLastMove(prevBlock.value);
          return None;
        } else if VerifyNextPosition(nextPosition) {
          assert !Retraces(nextPosition);
          r := MoveTo(nextPosition);
        } else {
          assert !Retraces(nextPosition);
          r := None;
        }
      } else {
        if IsInsideGrid(nextPosition) {
          r := MoveTo(nextPosition);
        } else {
          r := None;
        }
      }
    }

    /** A legal step followed by the step straight back. The cursor, the
        current track and every cell are as before, and so is every stored
        block, except that the block two steps back loses its forward link
        when the clean-up applies to it (cleaned). The step's block stays in
        the store, off the track and without a look. The looks are not all
        restored: mid is the looks right after the step, which resolved
        blocks of the track that had none; the step back clears the look of
        the newest block, and of the cleaned one, and keeps the others. */
    method StepThenRetrace(direction: Vec)
      returns (placed: Option<BlockId>, back: Option<BlockId>, ghost mid: seq<Option<Look>>, ghost cleaned: bool)
      requires Valid() && started && IsDirection(direction)
      requires !Retraces(Plus(position, direction)) && VerifyNextPosition(Plus(position, direction))
      modifies this`position, tracks[0], grid`blocks, grid`looks, grid.cells
      ensures Valid()
      ensures placed == Some(old(|grid.blocks|)) && back.None?
      ensures position == old(position) && tracks[0].track == old(tracks[0].track)
      ensures forall q :: grid.Get(q) == old(grid.Get(q))
      ensures |grid.blocks| == old(|grid.blocks|) + 1
      ensures var tail := old(Tail(tracks[0].track));
        var pp := old(grid.blocks[tail].prev);
        cleaned == Cleans(old(grid.blocks), mid, tail) &&
        (cleaned ==> grid.blocks[..old(|grid.blocks|)] == old(grid.blocks)[pp.value := RemoveNext(old(grid.blocks[pp.value]))]) &&
        (!cleaned ==> grid.blocks[..old(|grid.blocks|)] == old(grid.blocks)) &&
        |mid| == old(|grid.looks|) + 1 && mid[old(|grid.blocks|)].None? &&
        (forall k :: 0 <= k < old(|grid.blocks|) && (k !in old(tracks[0].track) || old(grid.looks[k]).Some?) ==>
           mid[k] == old(grid.looks[k])) &&
        grid.looks == RetracedLooks(mid, old(grid.blocks), tail, cleaned)
    {
      ghost var t0, bs0, m0 := tracks[0].track, grid.blocks, grid.Occupancy();
      placed := StepAhead(direction);
      ghost var next, bs1, m1 := position, grid.blocks, grid.Occupancy();
      mid := grid.looks;
      back, cleaned := StepBack(direction);
      CellsRestored(m0, m1, grid.Occupancy(), next);
      RetracedStore(bs0, t0, next, mid, cleaned);
    }

    /** The forward half of StepThenRetrace: a legal step places a block. */
    method StepAhead(direction: Vec) returns (placed: Option<BlockId>)
      requires Valid() && started && IsDirection(direction)
      requires !Retraces(Plus(position, direction)) && VerifyNextPosition(Plus(position, direction))
      modifies this`position, tracks[0], grid`blocks, grid`looks, grid.cells
      ensures Valid() && placed == Some(old(|grid.blocks|))
      ensures position == Plus(old(position), direction) && Retraces(Plus(position, Negate(direction)))
      ensures tracks[0].track == old(tracks[0].track) + [old(|grid.blocks|)]
      ensures grid.blocks == Link(old(grid.blocks) + [NewBlock(position)], old(Tail(tracks[0].track)), old(|grid.blocks|))
      ensures old(grid.Get(Plus(position, direction))).None? && grid.Get(position) == Some(old(|grid.blocks|))
      ensures forall q :: q != position ==> grid.Get(q) == old(grid.Get(q))
      ensures |grid.looks| == old(|grid.looks|) + 1 && grid.looks[old(|grid.blocks|)].None?
      ensures forall k :: 0 <= k < old(|grid.blocks|) && (k !in old(tracks[0].track) || old(grid.looks[k]).Some?) ==>
        grid.looks[k] == old(grid.looks[k])
    {
      ghost var t0, start := tracks[0].track, position;
      placed := MoveInDirection(direction);
      assert Placed(placed.value);
      PlusNegate(start, direction);
      assert tracks[0].Peek(1) == Some(Tail(t0));
    }

    /** The backward half of StepThenRetrace: the step back undoes, and
        cleaned says whether the clean-up applied. */
    method StepBack(direction: Vec) returns (back: Option<BlockId>, ghost cleaned: bool)
      requires Valid() && started && IsDirection(direction) && Retraces(Plus(position, Negate(direction)))
      modifies this`position, tracks[0], grid`blocks, grid`looks, grid.cells
      ensures Valid() && back.None?
      ensures old(|tracks[0].track|) >= 2 && tracks[0].track == old(tracks[0].track[..|tracks[0].track| - 1])
      ensures position == Plus(old(position), Negate(direction))
      ensures grid.Get(old(position)).None? && forall q :: q != old(position) ==> grid.Get(q) == old(grid.Get(q))
      ensures var p := old(tracks[0].track[|tracks[0].track| - 2]);
        cleaned == Cleans(old(grid.blocks), old(grid.looks), p) &&
        grid.blocks == Retraced(old(grid.blocks), p, cleaned) &&
        grid.looks == RetracedLooks(old(grid.looks), old(grid.blocks), p, cleaned)
    {
      ghost var t, start, bs0 := tracks[0].track, position, grid.blocks;
      ghost var p := t[|t| - 2];
      assert start == bs0[t[|t| - 1]].position;
      cleaned := Cleans(grid.blocks, grid.looks, p);
      NegateDirection(direction);
      back := MoveInDirection(Negate(direction));
      assert Undone();
      assert tracks[0] == old(tracks[0]);
      assert tracks[0].track == t[..|t| - 1];
      assert position == bs0[p].position;
      assert grid.Get(start).None?;
      assert forall q :: q != start ==> grid.Get(q) == old(grid.Get(q));
      assert grid.blocks == Retraced(old(grid.blocks), t[|t| - 2], cleaned);
      assert grid.looks == RetracedLooks(old(grid.looks), old(grid.blocks), t[|t| - 2], cleaned);
      PlusNegate(start, Negate(direction));
    }

    /** moveBottom: a move one layer down. */
    method MoveBottom() returns (r: Option<BlockId>)
      requires Valid()
      modifies this`position, tracks[0], grid`blocks, grid`looks, grid.cells
      ensures Valid()
      ensures Moved(BOTTOM, r)
    {
      r := MoveInDirection(BOTTOM);
    }

    /** moveTop: a move one layer up, which a started cursor only attempts
        onto an occupied cell. Such a cell is never a legal step, so while
        started the move can only undo or do nothing. */
    method MoveTop() returns (r: Option<BlockId>)
      requires Valid()
      modifies this`position, tracks[0], grid`blocks, grid`looks, grid.cells
      ensures Valid()
      ensures !old(started) ==> Moved(TOP, r)
      ensures old(started) && old(grid.Get(Plus(position, TOP))).Some? && old(Retraces(Plus(position, TOP))) ==>
        r.None? && Undone()
      ensures old(started) && old(grid.Get(Plus(position, TOP))).Some? && !old(Retraces(Plus(position, TOP))) ==>
        r.None? && position == old(position) && unchanged(tracks[0]) && unchanged(grid) && unchanged(grid.cells)
      ensures old(started) && old(grid.Get(Plus(position, TOP))).None? ==>
        r.None? && position == old(position) && unchanged(tracks[0]) && unchanged(grid) && unchanged(grid.cells)
    {
      var nextPosition := Plus(position, TOP);
      if !started || grid.Get(nextPosition).Some? {
        if started {
          OccupiedRejected(nextPosition);
        }
        r := MoveInDirection(TOP);
      } else {
        r := None;
      }
    }

    /** reset: an empty grid, a single empty track, and a stopped cursor back
        at its starting cell. */
    method Reset()
      requires Valid()
      modifies this`tracks, this`started, this`position, grid`cells, grid`blocks, grid`looks
      ensures Valid()
      ensures grid.blocks == [] && grid.looks == [] && forall p :: grid.Get(p).None?
      ensures |tracks| == 1 && fresh(tracks[0]) && tracks[0].track == []
      ensures !started && position == Vec(0, grid.worldY - 1, 0)
    {
      grid.Reset();
      var track := new Track();
      tracks := [track];
      started := false;
      position := Vec(0, grid.worldY - 1, 0);
    }

    /** The effect of one step of the finishing pass on cell p, taking
        the grid m1, b1, l1 to m2, b2, l2, told whether a resolved block lies
        above p in its column: a resolved block under one becomes its hole
        variant; an empty cell under one whose cell beneath is empty, or off
        the grid, gets a new block, resolved as a cap; anything else, an
        unresolved block included, is left alone. */
    ghost predicate CellCompleted(m1: CellMap, b1: seq<Block>, l1: seq<Option<Look>>,
                                  m2: CellMap, b2: seq<Block>, l2: seq<Option<Look>>,
                                  p: Vec, needSupport: bool)
    {
      grid.ValidSnapshot(m1, b1, l1) &&
      (grid.ResolvedIn(m1, l1, p) && needSupport ==>
         m2 == m1 && b2 == b1 && l2 == l1[m1[p].value := Some(ConvertToHole(l1[m1[p].value].value))]) &&
      (m1[p].None? && needSupport && m1[Plus(p, BOTTOM)].None? ==>
         m2 == m1[p := Some(|b1|)] && b2 == b1 + [NewBlock(p)] && l2 == l1 + [Some(Look(Cap, Zero))]) &&
      ((!(grid.ResolvedIn(m1, l1, p) && needSupport) &&
        !(m1[p].None? && needSupport && m1[Plus(p, BOTTOM)].None?)) ==>
         m2 == m1 && b2 == b1 && l2 == l1)
    }

    /** The support block the finishing pass places in the empty cell p:
        a fresh block, stored, put in the cell and resolved, which makes it
        a cap. */
    method PlaceSupport(p: Vec) returns (id: BlockId)
      requires grid.Valid() && grid.InBounds(p) && grid.Get(p).None?
      modifies grid`blocks, grid`looks, grid.cells
      ensures grid.Valid()
      ensures id == old(|grid.blocks|)
      ensures grid.blocks == old(grid.blocks) + [NewBlock(p)]
      ensures grid.looks == old(grid.looks) + [Some(Look(Cap, Zero))]
      ensures grid.Occupancy() == old(grid.Occupancy())[p := Some(id)]
    {
      ghost var m1 := grid.Occupancy();
      id := grid.AddBlockAt(p);
      assert grid.Inferred(id) == Some(Look(Cap, Zero));
      grid.Resolve(id);
    }

    /** The body of the finishing pass at cell p. Reports whether p holds
        a resolved block. */
    method CompleteCell(p: Vec, needSupport: bool) returns (resolved: bool)
      requires grid.Valid() && grid.InBounds(p)
      modifies grid`blocks, grid`looks, grid.cells
      ensures grid.Valid()
      ensures resolved == old(grid.Resolved(p))
      ensures CellCompleted(old(grid.Occupancy()), old(grid.blocks), old(grid.looks),
                            grid.Occupancy(), grid.blocks, grid.looks, p, needSupport)
    {
      grid.OccupancyValid();
      ghost var m1 := grid.Occupancy();
      var block := grid.Get(p);
      resolved := block.Some? && grid.looks[block.value].Some?;
      if resolved {
        if needSupport {
          if !IsHole(grid.looks[block.value]) {
            grid.ConvertToHoleAt(block.value);
          } else {
            ConvertToHoleKeepsHoles(grid.looks[block.value].value);
            assert grid.looks == grid.looks[block.value := Some(ConvertToHole(grid.looks[block.value].value))];
          }
        }
      } else if block.None? && needSupport {
        var underBlock := grid.Get(Vec(p.x, p.y - 1, p.z));
        if underBlock.None? {
          var id := PlaceSupport(p);
        }
      }
    }

    /** The state m, bs, ls the finishing pass has reached before cell
        (x, y, z), starting from the grid m0, bs0, ls0: the blocks it began
        with are kept, their looks, the cells and the blocks added are as
        described below for the cells visited, and nothing else has
        changed. */
    ghost predicate CompletedBefore(m0: CellMap, bs0: seq<Block>, ls0: seq<Option<Look>>,
                                    m: CellMap, bs: seq<Block>, ls: seq<Option<Look>>,
                                    x: int, z: int, y: int)
    {
      grid.ValidSnapshot(m0, bs0, ls0) && grid.ValidSnapshot(m, bs, ls) &&
      |bs0| <= |bs| && bs[..|bs0|] == bs0 &&
      LooksBefore(m0, bs0, ls0, ls, x, z, y) &&
      CellsBefore(m0, bs0, ls0, m, x, z, y) &&
      SupportsBefore(m0, bs0, ls0, m, bs, ls, x, z, y)
    }

    /** Each block the pass began with that sat in its cell, resolved, under
        a resolved block has been turned into its hole variant if its cell
        was visited; every other look is as it was. */
    ghost predicate LooksBefore(m0: CellMap, bs0: seq<Block>, ls0: seq<Option<Look>>, ls: seq<Option<Look>>,
                                x: int, z: int, y: int)
      requires grid.ValidSnapshot(m0, bs0, ls0) && |bs0| <= |ls|
    {
      forall k :: 0 <= k < |bs0| ==>
        ls[k] ==
          if grid.CoveredIn(m0, bs0, ls0, k) && Visited(grid, bs0[k].position, x, z, y)
          then Some(ConvertToHole(ls0[k].value))
          else ls0[k]
    }

    /** Every visited cell that needed a support block holds a new block;
        every other cell is as it was. */
    ghost predicate CellsBefore(m0: CellMap, bs0: seq<Block>, ls0: seq<Option<Look>>, m: CellMap,
                                x: int, z: int, y: int)
      requires grid.ValidSnapshot(m0, bs0, ls0)
      requires forall p :: p in m
    {
      forall p :: grid.InBounds(p) ==>
        if Visited(grid, p, x, z, y) && grid.NeedsSupportIn(m0, ls0, p)
        then m[p].Some? && m[p].value >= |bs0|
        else m[p] == m0[p]
    }

    /** The blocks added are support blocks of visited cells that needed
        one, each in its own cell and resolved as a cap. */
    ghost predicate SupportsBefore(m0: CellMap, bs0: seq<Block>, ls0: seq<Option<Look>>,
                                   m: CellMap, bs: seq<Block>, ls: seq<Option<Look>>,
                                   x: int, z: int, y: int)
      requires grid.ValidSnapshot(m0, bs0, ls0) && grid.ValidSnapshot(m, bs, ls)
    {
      forall k :: |bs0| <= k < |bs| ==>
        bs[k] == NewBlock(bs[k].position) &&
        Visited(grid, bs[k].position, x, z, y) && grid.NeedsSupportIn(m0, ls0, bs[k].position) &&
        m[bs[k].position] == Some(k) && ls[k] == Some(Look(Cap, Zero))
    }

    /** The finishing pass took the grid m0, bs0, ls0 to m, bs, ls: the
        blocks it began with are kept; each that sat in its cell, resolved,
        under a resolved block became its hole variant, and every other look
        is kept; every cell that needed a support block holds a new one,
        and every other cell is as it was; the new blocks are exactly these
        supports, each in its own cell and resolved as a cap. */
    ghost predicate Completed(m0: CellMap, bs0: seq<Block>, ls0: seq<Option<Look>>,
                              m: CellMap, bs: seq<Block>, ls: seq<Option<Look>>)
    {
      grid.ValidSnapshot(m0, bs0, ls0) && grid.ValidSnapshot(m, bs, ls) &&
      |bs0| <= |bs| && bs[..|bs0|] == bs0 &&
      (forall k :: 0 <= k < |bs0| ==>
         ls[k] == if grid.CoveredIn(m0, bs0, ls0, k) then Some(ConvertToHole(ls0[k].value)) else ls0[k]) &&
      (forall p :: grid.InBounds(p) ==>
         if grid.NeedsSupportIn(m0, ls0, p) then m[p].Some? && m[p].value >= |bs0| else m[p] == m0[p]) &&
      (forall k :: |bs0| <= k < |bs| ==>
         bs[k] == NewBlock(bs[k].position) && grid.NeedsSupportIn(m0, ls0, bs[k].position) &&
         m[bs[k].position] == Some(k) && ls[k] == Some(Look(Cap, Zero)))
    }

    /** After the pass, a block that was under a resolved block is a hole
        unless it is a cap. */
    lemma CompletedHoles(m0: CellMap, bs0: seq<Block>, ls0: seq<Option<Look>>,
                         m: CellMap, bs: seq<Block>, ls: seq<Option<Look>>, k: BlockId)
      requires Completed(m0, bs0, ls0, m, bs, ls) && grid.CoveredIn(m0, bs0, ls0, k)
      ensures ls0[k].value.piece != Cap <==> IsHole(ls[k])
    {
      ConvertToHoleMakesHole(ls0[k].value);
    }

    /** A cell under a resolved block after the pass was already under one
        before it: the only new resolved blocks are supports, and those lie
        under a resolved block themselves. */
    lemma CompletedUnderResolved(m0: CellMap, bs0: seq<Block>, ls0: seq<Option<Look>>,
                                 m: CellMap, bs: seq<Block>, ls: seq<Option<Look>>, p: Vec)
      requires Completed(m0, bs0, ls0, m, bs, ls) && grid.InBounds(p)
      requires grid.UnderResolvedIn(m, ls, p)
      ensures grid.UnderResolvedIn(m0, ls0, p)
    {
      var y :| p.y < y < grid.worldY && grid.ResolvedIn(m, ls, Vec(p.x, y, p.z));
      var q := Vec(p.x, y, p.z);
      assert grid.InBounds(q);
      if grid.NeedsSupportIn(m0, ls0, q) {
        var y' :| q.y < y' < grid.worldY && grid.ResolvedIn(m0, ls0, Vec(q.x, y', q.z));
        assert p.y < y' < grid.worldY && grid.ResolvedIn(m0, ls0, Vec(p.x, y', p.z));
      } else {
        assert m[q] == m0[q];
        var j := m0[q].value;
        assert j < |bs0|;
        assert grid.ResolvedIn(m0, ls0, q);
      }
    }

    /** complete is idempotent: a second pass over a finished grid changes
        nothing. */
    lemma CompleteIdempotent(m0: CellMap, bs0: seq<Block>, ls0: seq<Option<Look>>,
                             m1: CellMap, bs1: seq<Block>, ls1: seq<Option<Look>>,
                             m2: CellMap, bs2: seq<Block>, ls2: seq<Option<Look>>)
      requires Completed(m0, bs0, ls0, m1, bs1, ls1)
      requires Completed(m1, bs1, ls1, m2, bs2, ls2)
      ensures m2 == m1 && bs2 == bs1 && ls2 == ls1
    {
      forall p | grid.InBounds(p) ensures !grid.NeedsSupportIn(m1, ls1, p) {
        if m1[p].None? && grid.UnderResolvedIn(m1, ls1, p) {
          CompletedUnderResolved(m0, bs0, ls0, m1, bs1, ls1, p);
          assert m0[p] == m1[p];
          assert m1[Plus(p, BOTTOM)].Some?;
        }
      }
      assert |bs2| > |bs1| ==> grid.NeedsSupportIn(m1, ls1, bs2[|bs1|].position);
      assert bs2 == bs1 by {
        assert bs2[..|bs1|] == bs1;
      }
      forall k | 0 <= k < |bs1| ensures ls2[k] == ls1[k] {
        if grid.CoveredIn(m1, bs1, ls1, k) {
          var p := bs1[k].position;
          CompletedUnderResolved(m0, bs0, ls0, m1, bs1, ls1, p);
          if k < |bs0| {
            assert bs0[k] == bs1[k];
            assert m1[p] == m0[p];
            assert grid.CoveredIn(m0, bs0, ls0, k);
            ConvertToHoleIdempotent(ls0[k].value);
          }
        }
      }
      assert ls2 == ls1;
      forall p ensures p in m2 && p in m1 && m2[p] == m1[p] {
        if grid.InBounds(p) {
          assert m2[p] == m1[p];
        }
      }
      assert m2 == m1;
    }

    /** The same progress, described by an equivalent position. */
    lemma CompletedShift(m0: CellMap, bs0: seq<Block>, ls0: seq<Option<Look>>,
                         m: CellMap, bs: seq<Block>, ls: seq<Option<Look>>,
                         x: int, z: int, y: int, x': int, z': int, y': int)
      requires forall p :: Visited(grid, p, x, z, y) <==> Visited(grid, p, x', z', y')
      requires CompletedBefore(m0, bs0, ls0, m, bs, ls, x, z, y)
      ensures CompletedBefore(m0, bs0, ls0, m, bs, ls, x', z', y')
    {
    }

    /** The finishing pass keeps every chain of the grid it began on: it
        changes no stored block and no occupied cell. */
    lemma CompletedKeepsChain(m0: CellMap, bs0: seq<Block>, ls0: seq<Option<Look>>, u: seq<BlockId>)
      requires Completed(m0, bs0, ls0, grid.Occupancy(), grid.blocks, grid.looks) && ChainedIn(bs0, m0, u)
      ensures Chained(grid, u)
    {
      forall k | 0 <= k < |u|
        ensures u[k] < |grid.blocks| && grid.blocks[u[k]] == bs0[u[k]] && grid.Get(bs0[u[k]].position) == Some(u[k])
      {
        var p := bs0[u[k]].position;
        assert grid.InBounds(p);
        assert grid.Occupancy()[p] == m0[p];
      }
      ChainKept(grid, bs0, u);
    }

    /** Progress past the last cell is the finished pass. */
    lemma CompletedAtEnd(m0: CellMap, bs0: seq<Block>, ls0: seq<Option<Look>>,
                         m: CellMap, bs: seq<Block>, ls: seq<Option<Look>>)
      requires CompletedBefore(m0, bs0, ls0, m, bs, ls, grid.worldX, 0, grid.worldY - 1)
      ensures Completed(m0, bs0, ls0, m, bs, ls)
    {
      forall k | 0 <= k < |bs0| && grid.CoveredIn(m0, bs0, ls0, k)
        ensures Visited(grid, bs0[k].position, grid.worldX, 0, grid.worldY - 1)
      {
        assert bs0[k].position in m0 && m0[bs0[k].position] == Some(k);
      }
    }

    /** The pass has not yet touched the cell it is about to visit, and the
        cell beneath it. */
    lemma StepReady(m0: CellMap, bs0: seq<Block>, ls0: seq<Option<Look>>,
                    m: CellMap, bs: seq<Block>, ls: seq<Option<Look>>,
                    x: int, z: int, y: int)
      requires grid.InBounds(Vec(x, y, z)) && CompletedBefore(m0, bs0, ls0, m, bs, ls, x, z, y)
      ensures var p := Vec(x, y, z);
        m[p] == m0[p] && m[Plus(p, BOTTOM)] == m0[Plus(p, BOTTOM)] &&
        (m[p].Some? ==> m[p].value < |bs0| && ls[m[p].value] == ls0[m[p].value]) &&
        grid.ResolvedIn(m, ls, p) == grid.ResolvedIn(m0, ls0, p)
    {
      var p := Vec(x, y, z);
      assert !Visited(grid, p, x, z, y) && !Visited(grid, Plus(p, BOTTOM), x, z, y);
      assert m[p] == m0[p];
      if m[p].Some? {
        var id := m[p].value;
        assert bs0[id].position == p;
        assert ls[id] == ls0[id];
      }
    }

    /** One step keeps the looks of the blocks the pass began with as the
        progress past the step's cell describes. */
    lemma LooksAdvance(m0: CellMap, bs0: seq<Block>, ls0: seq<Option<Look>>,
                       m1: CellMap, b1: seq<Block>, l1: seq<Option<Look>>,
                       m2: CellMap, b2: seq<Block>, l2: seq<Option<Look>>,
                       x: int, z: int, y: int, needSupport: bool)
      requires grid.InBounds(Vec(x, y, z)) && CompletedBefore(m0, bs0, ls0, m1, b1, l1, x, z, y)
      requires needSupport == grid.UnderResolvedIn(m0, ls0, Vec(x, y, z))
      requires CellCompleted(m1, b1, l1, m2, b2, l2, Vec(x, y, z), needSupport)
      requires grid.ValidSnapshot(m2, b2, l2)
      ensures |bs0| <= |b2| && b2[..|bs0|] == bs0
      ensures LooksBefore(m0, bs0, ls0, l2, x, z, y - 1)
    {
      var p := Vec(x, y, z);
      StepReady(m0, bs0, ls0, m1, b1, l1, x, z, y);
      assert b2[..|bs0|] == bs0 by {
        assert b1[..|bs0|] == bs0;
      }
      forall k | 0 <= k < |bs0|
        ensures l2[k] ==
          if grid.CoveredIn(m0, bs0, ls0, k) && Visited(grid, bs0[k].position, x, z, y - 1)
          then Some(ConvertToHole(ls0[k].value))
          else ls0[k]
      {
        assert Visited(grid, bs0[k].position, x, z, y - 1) <==>
          Visited(grid, bs0[k].position, x, z, y) || bs0[k].position == p;
        if bs0[k].position == p && grid.CoveredIn(m0, bs0, ls0, k) {
          assert m0[p] == Some(k);
        }
      }
    }

    /** One step leaves the cells as the progress past the step's cell
        describes. */
    lemma CellsAdvance(m0: CellMap, bs0: seq<Block>, ls0: seq<Option<Look>>,
                       m1: CellMap, b1: seq<Block>, l1: seq<Option<Look>>,
                       m2: CellMap, b2: seq<Block>, l2: seq<Option<Look>>,
                       x: int, z: int, y: int, needSupport: bool)
      requires grid.InBounds(Vec(x, y, z)) && CompletedBefore(m0, bs0, ls0, m1, b1, l1, x, z, y)
      requires needSupport == grid.UnderResolvedIn(m0, ls0, Vec(x, y, z))
      requires CellCompleted(m1, b1, l1, m2, b2, l2, Vec(x, y, z), needSupport)
      requires grid.ValidSnapshot(m2, b2, l2)
      ensures CellsBefore(m0, bs0, ls0, m2, x, z, y - 1)
    {
      var p := Vec(x, y, z);
      StepReady(m0, bs0, ls0, m1, b1, l1, x, z, y);
      forall q | grid.InBounds(q)
        ensures if Visited(grid, q, x, z, y - 1) && grid.NeedsSupportIn(m0, ls0, q)
          then m2[q].Some? && m2[q].value >= |bs0|
          else m2[q] == m0[q]
      {
        assert Visited(grid, q, x, z, y - 1) <==> Visited(grid, q, x, z, y) || q == p;
      }
    }

    /** One step keeps the blocks added so far the support blocks of the
        cells visited. */
    lemma SupportsAdvance(m0: CellMap, bs0: seq<Block>, ls0: seq<Option<Look>>,
                          m1: CellMap, b1: seq<Block>, l1: seq<Option<Look>>,
                          m2: CellMap, b2: seq<Block>, l2: seq<Option<Look>>,
                          x: int, z: int, y: int, needSupport: bool)
      requires grid.InBounds(Vec(x, y, z)) && CompletedBefore(m0, bs0, ls0, m1, b1, l1, x, z, y)
      requires needSupport == grid.UnderResolvedIn(m0, ls0, Vec(x, y, z))
      requires CellCompleted(m1, b1, l1, m2, b2, l2, Vec(x, y, z), needSupport)
      requires grid.ValidSnapshot(m2, b2, l2)
      ensures |bs0| <= |b2|
      ensures SupportsBefore(m0, bs0, ls0, m2, b2, l2, x, z, y - 1)
    {
      var p := Vec(x, y, z);
      StepReady(m0, bs0, ls0, m1, b1, l1, x, z, y);
      forall k | |bs0| <= k < |b2|
        ensures b2[k] == NewBlock(b2[k].position) &&
          Visited(grid, b2[k].position, x, z, y - 1) && grid.NeedsSupportIn(m0, ls0, b2[k].position) &&
          m2[b2[k].position] == Some(k) && l2[k] == Some(Look(Cap, Zero))
      {
        if k < |b1| {
          assert b2[k] == b1[k] && l2[k] == l1[k];
          assert b1[k].position != p;
        }
      }
    }

    /** One step of the finishing pass, at cell (x, y, z), told whether a
        resolved block lies above it in the grid the pass began on: the
        progress advances past the cell, and the step reports whether the
        cell held a resolved block. */
    method CompleteAt(ghost m0: CellMap, ghost bs0: seq<Block>, ghost ls0: seq<Option<Look>>,
                      x: int, z: int, y: int, needSupport: bool) returns (resolved: bool)
      requires grid.Valid() && grid.InBounds(Vec(x, y, z))
      requires CompletedBefore(m0, bs0, ls0, grid.Occupancy(), grid.blocks, grid.looks, x, z, y)
      requires needSupport == grid.UnderResolvedIn(m0, ls0, Vec(x, y, z))
      modifies grid`blocks, grid`looks, grid.cells
      ensures grid.Valid()
      ensures CompletedBefore(m0, bs0, ls0, grid.Occupancy(), grid.blocks, grid.looks, x, z, y - 1)
      ensures resolved == grid.ResolvedIn(m0, ls0, Vec(x, y, z))
    {
      ghost var m1, b1, l1 := grid.Occupancy(), grid.blocks, grid.looks;
      StepReady(m0, bs0, ls0, m1, b1, l1, x, z, y);
      resolved := CompleteCell(Vec(x, y, z), needSupport);
      grid.OccupancyValid();
      LooksAdvance(m0, bs0, ls0, m1, b1, l1, grid.Occupancy(), grid.blocks, grid.looks, x, z, y, needSupport);
      CellsAdvance(m0, bs0, ls0, m1, b1, l1, grid.Occupancy(), grid.blocks, grid.looks, x, z, y, needSupport);
      SupportsAdvance(m0, bs0, ls0, m1, b1, l1, grid.Occupancy(), grid.blocks, grid.looks, x, z, y, needSupport);
    }

    /** The finishing pass down the column at x, z. */
    method CompleteColumn(ghost m0: CellMap, ghost bs0: seq<Block>, ghost ls0: seq<Option<Look>>, x: int, z: int)
      requires 0 <= x < grid.worldX && 0 <= z < grid.worldZ && grid.Valid()
      requires CompletedBefore(m0, bs0, ls0, grid.Occupancy(), grid.blocks, grid.looks, x, z, grid.worldY - 1)
      modifies grid`blocks, grid`looks, grid.cells
      ensures grid.Valid()
      ensures CompletedBefore(m0, bs0, ls0, grid.Occupancy(), grid.blocks, grid.looks, x, z, -1)
    {
      var needSupport := false;
      var y := grid.worldY - 1;
      while 0 <= y
        invariant -1 <= y <= grid.worldY - 1 && grid.Valid()
        invariant CompletedBefore(m0, bs0, ls0, grid.Occupancy(), grid.blocks, grid.looks, x, z, y)
        invariant needSupport == grid.UnderResolvedIn(m0, ls0, Vec(x, y, z))
      {
        var resolvedHere := CompleteAt(m0, bs0, ls0, x, z, y, needSupport);
        grid.UnderResolvedStep(m0, ls0, x, y, z);
        needSupport := needSupport || resolvedHere;
        y := y - 1;
      }
    }

    /** The finishing pass over the columns at x, front to back. */
    method CompleteRow(ghost m0: CellMap, ghost bs0: seq<Block>, ghost ls0: seq<Option<Look>>, x: int)
      requires 0 <= x < grid.worldX && grid.Valid()
      requires CompletedBefore(m0, bs0, ls0, grid.Occupancy(), grid.blocks, grid.looks, x, 0, grid.worldY - 1)
      modifies grid`blocks, grid`looks, grid.cells
      ensures grid.Valid()
      ensures CompletedBefore(m0, bs0, ls0, grid.Occupancy(), grid.blocks, grid.looks, x + 1, 0, grid.worldY - 1)
    {
      var z := 0;
      while z < grid.worldZ
        invariant 0 <= z <= grid.worldZ && grid.Valid()
        invariant CompletedBefore(m0, bs0, ls0, grid.Occupancy(), grid.blocks, grid.looks, x, z, grid.worldY - 1)
      {
        CompleteColumn(m0, bs0, ls0, x, z);
        CompletedShift(m0, bs0, ls0, grid.Occupancy(), grid.blocks, grid.looks, x, z, -1, x, z + 1, grid.worldY - 1);
        z := z + 1;
      }
      CompletedShift(m0, bs0, ls0, grid.Occupancy(), grid.blocks, grid.looks,
                     x, grid.worldZ, grid.worldY - 1, x + 1, 0, grid.worldY - 1);
    }

    /** complete: finish the build. Column by column, from the top down,
        every resolved block below the topmost resolved block of its column
        becomes its hole variant, and every empty cell below that block
        whose cell beneath is empty, or off the grid, gets a support block,
        resolved as a cap. A cell directly above an occupied one gets no
        support, and an unresolved block neither counts as the top of a
        column nor is converted. */
    method Complete()
      requires Valid()
      modifies grid`blocks, grid`looks, grid.cells
      ensures Valid()
      ensures Completed(old(grid.Occupancy()), old(grid.blocks), old(grid.looks),
                        grid.Occupancy(), grid.blocks, grid.looks)
    {
      ghost var m0, bs0, ls0 := grid.Occupancy(), grid.blocks, grid.looks;
      OthersSnapshot();
      FinishingPass();
      forall i | 0 <= i < |tracks| ensures Chained(grid, tracks[i].track) {
        CompletedKeepsChain(m0, bs0, ls0, tracks[i].track);
      }
    }

    /** The loop of complete, over the rows of the grid. */
    method FinishingPass()
      requires grid.Valid()
      modifies grid`blocks, grid`looks, grid.cells
      ensures grid.Valid()
      ensures Completed(old(grid.Occupancy()), old(grid.blocks), old(grid.looks),
                        grid.Occupancy(), grid.blocks, grid.looks)
    {
      grid.OccupancyValid();
      ghost var m0, bs0, ls0 := grid.Occupancy(), grid.blocks, grid.looks;
      assert bs0[..|bs0|] == bs0;
      var x := 0;
      while x < grid.worldX
        invariant 0 <= x <= grid.worldX && grid.Valid()
        invariant CompletedBefore(m0, bs0, ls0, grid.Occupancy(), grid.blocks, grid.looks, x, 0, grid.worldY - 1)
      {
        CompleteRow(m0, bs0, ls0, x);
        x := x + 1;
      }
      CompletedAtEnd(m0, bs0, ls0, grid.Occupancy(), grid.blocks, grid.looks);
    }
  }
}
