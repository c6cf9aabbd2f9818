/** A track: the blocks of one run in the order they were placed, linked to
    each other in the block store as they are appended. */
module Tracks {
  import opened Geometry
  import opened Pieces
  import opened Blocks
  import opened Grids

  /** The store after block id is appended behind block last: last leads
      on to id, id comes from last, and the two exit/entry sides are the
      step between their positions and its negation. */
  function Link(blocks: seq<Block>, last: BlockId, id: BlockId): (r: seq<Block>)
    requires last < |blocks| && id < |blocks|
    ensures |r| == |blocks|
  {
    var direction := Minus(blocks[id].position, blocks[last].position);
    var linked := blocks[last := blocks[last].(next := Some(id), toSide := Some(direction))];
    linked[id := linked[id].(prev := Some(last), fromSide := Some(Negate(direction)))]
  }

  /** The store after block id is added to a track t: linked behind the
      tail, or left as it is when t is empty. */
  function Appended(blocks: seq<Block>, t: seq<BlockId>, id: BlockId): (r: seq<Block>)
    requires id < |blocks| && (t != [] ==> t[|t| - 1] < |blocks|)
    ensures |r| == |blocks|
  {
    if t == [] then blocks else Link(blocks, t[|t| - 1], id)
  }

  /** Linking two distinct blocks joins them symmetrically: each points at
      the other, the exit side of last leads from its position to id's, the
      entry side of id is its negation, and nothing else in the store
      changes. */
  lemma LinkJoins(blocks: seq<Block>, last: BlockId, id: BlockId)
    requires last < |blocks| && id < |blocks| && last != id
    ensures var r := Link(blocks, last, id);
      r[last].next == Some(id) && r[id].prev == Some(last) &&
      r[last].toSide.Some? && r[id].fromSide == Some(Negate(r[last].toSide.value)) &&
      Plus(blocks[last].position, r[last].toSide.value) == blocks[id].position &&
      r[last].prev == blocks[last].prev && r[last].fromSide == blocks[last].fromSide &&
      r[id].next == blocks[id].next && r[id].toSide == blocks[id].toSide &&
      (forall k :: 0 <= k < |blocks| ==> r[k].position == blocks[k].position) &&
      (forall k :: 0 <= k < |blocks| && k != last && k != id ==> r[k] == blocks[k])
  {
  }

  /** The sequence read from its last element back to its first. */
  function Reversed(s: seq<BlockId>): (r: seq<BlockId>)
    ensures |r| == |s|
  {
    if s == [] then [] else [s[|s| - 1]] + Reversed(s[..|s| - 1])
  }

  lemma {:induction false} ReversedIndex(s: seq<BlockId>, i: nat)
    requires i < |s|
    ensures Reversed(s)[i] == s[|s| - 1 - i]
  {
    if i > 0 {
      ReversedIndex(s[..|s| - 1], i - 1);
    }
  }

  /** Appending puts the new element at the front of the reversed view and
      shifts every earlier one back by one. */
  lemma ReversedAppend(s: seq<BlockId>, x: BlockId)
    ensures Reversed(s + [x]) == [x] + Reversed(s)
  {
    assert (s + [x])[..|s|] == s;
  }

  /** The link structure a track keeps in the store: every block is stored
      and appears once; the first block has no predecessor and no entry
      side; each later block comes from the one before it, with the entry
      side pointing back at it; each block either leads on to the block after
      it, with the exit side pointing at it, or (once detached by an undo)
      has no forward link and no exit side, and the last block never has one;
      the sides are unit directions, so consecutive blocks are neighbouring
      cells; and the second block was entered horizontally (the first move
      of a track cannot change level). */
  ghost predicate ChainOk(blocks: seq<Block>, t: seq<BlockId>)
  {
    (forall i :: 0 <= i < |t| ==> t[i] < |blocks|) &&
    (forall i, j :: 0 <= i < j < |t| ==> t[i] != t[j]) &&
    (forall i :: 0 <= i < |t| ==> LinkedAt(blocks, t, i))
  }

  ghost predicate LinkedAt(blocks: seq<Block>, t: seq<BlockId>, i: nat)
  {
    i < |t| && t[i] < |blocks| && (i > 0 ==> t[i - 1] < |blocks|) && (i + 1 < |t| ==> t[i + 1] < |blocks|) &&
    var b := blocks[t[i]];
    (if i == 0 then b.prev.None? && b.fromSide.None?
     else b.prev == Some(t[i - 1]) && b.fromSide == Some(Minus(blocks[t[i - 1]].position, b.position))) &&
    (if i == |t| - 1 then b.next.None? && b.toSide.None?
     else (b.next == Some(t[i + 1]) && b.toSide == Some(Minus(blocks[t[i + 1]].position, b.position))) ||
          (b.next.None? && b.toSide.None?)) &&
    (b.fromSide.Some? ==> IsDirection(b.fromSide.value)) &&
    (b.toSide.Some? ==> IsDirection(b.toSide.value)) &&
    (i == 1 ==> b.fromSide.value.y == 0)
  }

  /** Appending a fresh block at p behind a chain, linked to the old tail,
      gives a chain, provided p neighbours the tail and a second block stays
      on the first one's level. */
  lemma ChainExtend(blocks: seq<Block>, t: seq<BlockId>, p: Vec)
    requires ChainOk(blocks, t)
    requires t != [] ==> IsDirection(Minus(p, blocks[t[|t| - 1]].position))
    requires |t| == 1 ==> p.y == blocks[t[0]].position.y
    ensures ChainOk(Appended(blocks + [NewBlock(p)], t, |blocks|), t + [|blocks|])
  {
    var id := |blocks|;
    var bs := blocks + [NewBlock(p)];
    var t' := t + [id];
    if t == [] {
      assert LinkedAt(bs, t', 0);
    } else {
      var r := Link(bs, t[|t| - 1], id);
      ExtendTail(blocks, t, p);
      ExtendNew(blocks, t, p);
      forall i | 0 <= i < |t'| ensures LinkedAt(r, t', i) {
        if i < |t| - 1 {
          ExtendInterior(blocks, t, p, i);
        } else if i != |t| - 1 {
          assert i == |t|;
        }
      }
    }
  }

  /** A link of a chain other than its last one holds in any store that
      keeps the block unchanged and its neighbours in place, and in any
      longer run of blocks starting with the chain. */
  lemma LinkedFrame(blocks: seq<Block>, t: seq<BlockId>, more: seq<Block>, t2: seq<BlockId>, i: nat)
    requires LinkedAt(blocks, t, i) && i + 1 < |t| <= |t2| && t2[..|t|] == t
    requires t[i] < |more| && more[t[i]] == blocks[t[i]]
    requires i > 0 ==> t[i - 1] < |more| && more[t[i - 1]].position == blocks[t[i - 1]].position
    requires t[i + 1] < |more| && more[t[i + 1]].position == blocks[t[i + 1]].position
    ensures LinkedAt(more, t2, i)
  {
    assert t2[i] == t[i] && t2[i + 1] == t[i + 1];
    if i > 0 {
      assert t2[i - 1] == t[i - 1];
    }
  }

  /** After appending at p, the links before the old tail are as they were. */
  lemma ExtendInterior(blocks: seq<Block>, t: seq<BlockId>, p: Vec, i: nat)
    requires ChainOk(blocks, t) && i + 1 < |t|
    ensures LinkedAt(Link(blocks + [NewBlock(p)], t[|t| - 1], |blocks|), t + [|blocks|], i)
  {
    var bs, last, id := blocks + [NewBlock(p)], t[|t| - 1], |blocks|;
    var r := Link(bs, last, id);
    LinkJoins(bs, last, id);
    assert LinkedAt(blocks, t, i);
    assert t[i] != last && r[t[i]] == bs[t[i]] == blocks[t[i]];
    assert r[t[i + 1]].position == blocks[t[i + 1]].position;
    if i > 0 {
      assert r[t[i - 1]].position == blocks[t[i - 1]].position;
    }
    assert (t + [id])[..|t|] == t;
    LinkedFrame(blocks, t, r, t + [id], i);
  }

  /** After appending at p, the old tail leads on to the new block. */
  lemma ExtendTail(blocks: seq<Block>, t: seq<BlockId>, p: Vec)
    requires ChainOk(blocks, t) && t != []
    requires IsDirection(Minus(p, blocks[t[|t| - 1]].position))
    ensures LinkedAt(Link(blocks + [NewBlock(p)], t[|t| - 1], |blocks|), t + [|blocks|], |t| - 1)
  {
    var last := t[|t| - 1];
    LinkJoins(blocks + [NewBlock(p)], last, |blocks|);
    assert LinkedAt(blocks, t, |t| - 1);
    if |t| > 1 {
      assert t[|t| - 2] != last;
    }
  }

  /** After appending at p, the new block comes from the old tail. */
  lemma ExtendNew(blocks: seq<Block>, t: seq<BlockId>, p: Vec)
    requires ChainOk(blocks, t) && t != []
    requires IsDirection(Minus(p, blocks[t[|t| - 1]].position))
    requires |t| == 1 ==> p.y == blocks[t[0]].position.y
    ensures LinkedAt(Link(blocks + [NewBlock(p)], t[|t| - 1], |blocks|), t + [|blocks|], |t|)
  {
    var bs, last, id := blocks + [NewBlock(p)], t[|t| - 1], |blocks|;
    var d := Minus(p, blocks[last].position);
    var r := Link(bs, last, id);
    assert LinkedAt(blocks, t, |t| - 1);
    assert bs[id].position == p && bs[last] == blocks[last];
    assert r[id] == NewBlock(p).(prev := Some(last), fromSide := Some(Negate(d)));
    assert r[last].position == blocks[last].position;
    NegateDirection(d);
    var t' := t + [id];
    assert t'[|t|] == id && t'[|t| - 1] == last;
    var b := r[id];
    assert b.position == p;
    NegateMinus(p, blocks[last].position);
    assert b.prev == Some(t'[|t| - 1]);
    assert b.fromSide == Some(Minus(r[t'[|t| - 1]].position, b.position));
    assert b.next.None? && b.toSide.None?;
    assert IsDirection(b.fromSide.value);
    assert |t| == 1 ==> b.fromSide.value.y == 0;
  }

  /** Undoing a placement restores the store: when a fresh block is linked
      behind the tail of a chain and the tail's forward link is then
      dropped again, every block the store held before is as it was. */
  lemma AppendedUndone(blocks: seq<Block>, t: seq<BlockId>, p: Vec)
    requires ChainOk(blocks, t) && t != []
    ensures var last := t[|t| - 1];
      var r := Appended(blocks + [NewBlock(p)], t, |blocks|);
      r[last := RemoveNext(r[last])][..|blocks|] == blocks
  {
    var last := t[|t| - 1];
    var bs := blocks + [NewBlock(p)];
    var r := Link(bs, last, |blocks|);
    assert LinkedAt(blocks, t, |t| - 1);
    LinkJoins(bs, last, |blocks|);
    assert r[last := RemoveNext(r[last])][last] == blocks[last];
  }

  /** Detaching the forward link of any block of a chain keeps it a chain. */
  lemma ChainDetach(blocks: seq<Block>, t: seq<BlockId>, j: nat)
    requires ChainOk(blocks, t) && j < |t|
    ensures ChainOk(blocks[t[j] := RemoveNext(blocks[t[j]])], t)
  {
    var r := blocks[t[j] := RemoveNext(blocks[t[j]])];
    forall i | 0 <= i < |t| ensures LinkedAt(r, t, i) {
      assert LinkedAt(blocks, t, i);
    }
  }

  /** Dropping the tail of a chain after detaching the block before it keeps
      it a chain. */
  lemma ChainTruncate(blocks: seq<Block>, t: seq<BlockId>)
    requires ChainOk(blocks, t) && |t| >= 2
    ensures ChainOk(blocks[t[|t| - 2] := RemoveNext(blocks[t[|t| - 2]])], t[..|t| - 1])
  {
    var p := t[|t| - 2];
    var r := blocks[p := RemoveNext(blocks[p])];
    var t' := t[..|t| - 1];
    forall i | 0 <= i < |t'| ensures LinkedAt(r, t', i) {
      assert LinkedAt(blocks, t, i);
    }
  }

  /** A chain depends on its own blocks only: any store that holds them
      unchanged holds the same chain, whatever else it adds or changes. */
  lemma ChainFrame(blocks: seq<Block>, more: seq<Block>, t: seq<BlockId>)
    requires ChainOk(blocks, t)
    requires forall i :: 0 <= i < |t| ==> t[i] < |more| && more[t[i]] == blocks[t[i]]
    ensures ChainOk(more, t)
  {
    forall i | 0 <= i < |t| ensures LinkedAt(more, t, i) {
      assert LinkedAt(blocks, t, i);
      assert more[t[i]] == blocks[t[i]];
      if i > 0 {
        assert more[t[i - 1]] == blocks[t[i - 1]];
      }
      if i + 1 < |t| {
        assert more[t[i + 1]] == blocks[t[i + 1]];
      }
    }
  }

  class Track {
    var track: seq<BlockId>

    /** A new track holds no blocks. */
    constructor ()
      ensures track == []
    {
      track := [];
    }

    /** The length getter. */
    function Length(): nat
      reads this`track
    {
      |track|
    }

    /** peek: the index-th block counted back from the newest, or nothing
        when the track is not that long. */
    function Peek(index: nat): (r: Option<BlockId>)
      reads this`track
      ensures r.None? <==> index >= |track|
      ensures r.Some? ==> r.value == Reversed(track)[index]
    {
      if |track| - 1 < index then None
      else
        ReversedIndex(track, index);
        Some(track[|track| - 1 - index])
    }

    /** add: append a block; when the track is not empty, link it behind the
        current tail. */
    method Add(g: Grid, id: BlockId)
      requires g.Valid() && id < |g.blocks|
      requires track != [] ==> track[|track| - 1] < |g.blocks|
      modifies this`track, g`blocks
      ensures g.Valid()
      ensures track == old(track) + [id]
      ensures g.blocks == Appended(old(g.blocks), old(track), id)
      ensures forall k :: 0 <= k < |g.blocks| ==> g.blocks[k].position == old(g.blocks[k].position)
    {
      if |track| > 0 {
        var last := track[|track| - 1];
        ghost var before := g.blocks;
        var direction := Minus(g.blocks[id].position, g.blocks[last].position);
        g.blocks := g.blocks[last := g.blocks[last].(next := Some(id), toSide := Some(direction))];
        g.blocks := g.blocks[id := g.blocks[id].(prev := Some(last), fromSide := Some(Negate(direction)))];
        assert g.blocks == Link(before, last, id);
        assert forall k :: 0 <= k < |before| ==> g.blocks[k].position == before[k].position;
      }
      track := track + [id];
    }

    /** removeLast: pop the newest block; nothing when the track is empty. */
    method RemoveLast() returns (r: Option<BlockId>)
      modifies this`track
      ensures old(track) == [] ==> r.None? && track == []
      ensures old(track) != [] ==>
        r == Some(old(track)[|old(track)| - 1]) && track == old(track)[..|old(track)| - 1]
    {
      if track == [] {
        return None;
      }
      r := Some(track[|track| - 1]);
      track := track[..|track| - 1];
    }
  }
}
