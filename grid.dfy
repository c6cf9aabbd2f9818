/** The grid cell store: a dense three-dimensional array of optional block
    references, together with the store of block records those references
    point into (a block reference of the source is an id into `blocks`
    here, and the block's resolved look sits at the same id in `looks`). */
module Grids {
  import opened Geometry
  import opened Pieces
  import opened Blocks

  /** A block's links point into a store of n blocks. */
  predicate LinksBelow(b: Block, n: nat)
  {
    (b.prev.Some? ==> b.prev.value < n) && (b.next.Some? ==> b.next.value < n)
  }

  /** The order forEach walks the grid in: by x, then y, then z. */
  predicate Before(p: Vec, q: Vec)
  {
    p.x < q.x || (p.x == q.x && (p.y < q.y || (p.y == q.y && p.z < q.z)))
  }

  /** How many entries of vs lie in m. */
  function CountIn(vs: seq<Vec>, m: set<Vec>): nat
  {
    if vs == [] then 0
    else CountIn(vs[..|vs| - 1], m) + (if vs[|vs| - 1] in m then 1 else 0)
  }

  /** Over distinct entries the count is the size of the common part. */
  lemma {:induction false} CountInIsCardinality(vs: seq<Vec>, m: set<Vec>)
    requires forall i, j :: 0 <= i < j < |vs| ==> vs[i] != vs[j]
    ensures CountIn(vs, m) == |set p | p in vs && p in m|
  {
    if vs != [] {
      var init, last := vs[..|vs| - 1], vs[|vs| - 1];
      CountInIsCardinality(init, m);
      var before := set p | p in init && p in m;
      assert last !in before by {
        forall j | 0 <= j < |init| ensures init[j] != last {
          assert vs[j] != vs[|vs| - 1];
        }
      }
      var extra: set<Vec> := if last in m then {last} else {};
      assert vs == init + [last];
      assert (set p | p in vs && p in m) == before + extra;
    }
  }

  /** What every cell of a grid holds, as a value. */
  type CellMap = imap<Vec, Option<BlockId>>

  class Grid {
    const worldX: nat
    const worldY: nat
    const worldZ: nat
    var cells: array3<Option<BlockId>>
    var blocks: seq<Block>
    var looks: seq<Option<Look>>

    predicate InBounds(p: Vec)
    {
      0 <= p.x < worldX && 0 <= p.y < worldY && 0 <= p.z < worldZ
    }

    /** The array has the world's dimensions, every occupied cell refers to a
        stored block sitting at that cell, and every stored link is an id of
        the store. */
    ghost predicate Valid()
      reads this, cells
    {
      cells.Length0 == worldX && cells.Length1 == worldY && cells.Length2 == worldZ &&
      |looks| == |blocks| &&
      (forall p :: Get(p).Some? ==> Get(p).value < |blocks| && blocks[Get(p).value].position == p) &&
      (forall i :: 0 <= i < |blocks| ==> LinksBelow(blocks[i], |blocks|))
    }

    /** buildCells and the grid constructor: every cell empty. */
    constructor (x: nat, y: nat, z: nat)
      ensures Valid()
      ensures worldX == x && worldY == y && worldZ == z
      ensures blocks == [] && looks == []
      ensures forall p :: Get(p).None?
    {
      worldX, worldY, worldZ := x, y, z;
      cells := new Option<BlockId>[x, y, z]((i, j, k) => None);
      blocks, looks := [], [];
    }

    /** get: the occupant of a cell; never fails, and gives nothing outside
        the grid. */
    function Get(p: Vec): (r: Option<BlockId>)
      reads this`cells, cells
      ensures !InBounds(p) ==> r.None?
    {
      if InBounds(p) && p.x < cells.Length0 && p.y < cells.Length1 && p.z < cells.Length2
      then cells[p.x, p.y, p.z]
      else None
    }

    /** set: write one cell, leaving every other cell as it was. */
    method Set(v: Option<BlockId>, p: Vec)
      requires Valid() && InBounds(p)
      requires v.Some? ==> v.value < |blocks| && blocks[v.value].position == p
      modifies cells
      ensures Valid()
      ensures Get(p) == v
      ensures forall q :: q != p ==> Get(q) == old(Get(q))
      ensures Occupancy() == old(Occupancy())[p := v]
    {
      ghost var m := Occupancy();
      cells[p.x, p.y, p.z] := v;
      assert forall q :: Get(q) == if q == p then v else old(Get(q));
      assert forall q :: Occupancy()[q] == m[p := v][q];
    }

    /** Some occupied cell lies strictly above p in its column. */
    ghost predicate Ceiled(p: Vec)
      reads this`cells, cells
    {
      exists y :: p.y < y < worldY && Get(Vec(p.x, y, p.z)).Some?
    }

    /** hasCeil: scan the column upwards from the cell above b. */
    method HasCeil(b: Block) returns (r: bool)
      ensures r <==> Ceiled(b.position)
    {
      var p := b.position;
      var y := p.y + 1;
      while y < worldY
        invariant p.y < y
        invariant forall y' :: p.y < y' < y ==> Get(Vec(p.x, y', p.z)).None?
        decreases worldY - y
      {
        if Get(Vec(p.x, y, p.z)).Some? {
          return true;
        }
        y := y + 1;
      }
      return false;
    }

    /** The stored records a block links back and forward to. */
    function PrevOf(id: BlockId): Option<Block>
      reads this`blocks
      requires id < |blocks|
    {
      var l := blocks[id].prev;
      if l.Some? && l.value < |blocks| then Some(blocks[l.value]) else None
    }

    function NextOf(id: BlockId): Option<Block>
      reads this`blocks
      requires id < |blocks|
    {
      var l := blocks[id].next;
      if l.Some? && l.value < |blocks| then Some(blocks[l.value]) else None
    }

    /** What getMesh resolves the block to in the present grid (nothing for
        an id outside the store or a block whose neighbours the decision
        cannot read). */
    ghost function Inferred(id: BlockId): Option<Look>
      reads this`blocks, this`cells, cells
    {
      if id < |blocks| && AppearanceDefined(blocks[id], PrevOf(id), NextOf(id)) then
        var b := blocks[id];
        var prev := PrevOf(id);
        Appearance(b, prev, NextOf(id), Ceiled(b.position), prev.Some? && Ceiled(prev.value.position))
      else
        None
    }

    /** new Block: a fresh, unlinked and unresolved block at p. */
    method NewBlock(p: Vec) returns (id: BlockId)
      requires Valid()
      modifies this`blocks, this`looks
      ensures Valid()
      ensures id == old(|blocks|)
      ensures blocks == old(blocks) + [Blocks.NewBlock(p)] && looks == old(looks) + [None]
    {
      id := |blocks|;
      blocks := blocks + [Blocks.NewBlock(p)];
      looks := looks + [None];
    }

    /** new Block at p followed by set: a fresh, unresolved block stored
        and written into cell p, every other cell left as it was. */
    method AddBlockAt(p: Vec) returns (id: BlockId)
      requires Valid() && InBounds(p)
      modifies this`blocks, this`looks, cells
      ensures Valid()
      ensures id == old(|blocks|)
      ensures blocks == old(blocks) + [Blocks.NewBlock(p)] && looks == old(looks) + [None]
      ensures Get(p) == Some(id) && forall q :: q != p ==> Get(q) == old(Get(q))
      ensures Occupancy() == old(Occupancy())[p := Some(id)]
    {
      id := NewBlock(p);
      Set(Some(id), p);
    }

    /** getMesh, as far as the type goes: an unresolved block is resolved by
        the decision; a resolved one keeps its look. */
    method Resolve(id: BlockId)
      requires Valid() && id < |blocks|
      requires AppearanceDefined(blocks[id], PrevOf(id), NextOf(id))
      modifies this`looks
      ensures Valid()
      ensures looks == if old(looks[id]).Some? then old(looks) else old(looks)[id := Inferred(id)]
    {
      if looks[id].None? {
        var b := blocks[id];
        var ceil := HasCeil(b);
        var prevCeil := false;
        var prev := PrevOf(id);
        if prev.Some? {
          prevCeil := HasCeil(prev.value);
        }
        looks := looks[id := Appearance(b, prev, NextOf(id), ceil, prevCeil)];
      }
    }

    /** convertToHole on a resolved block. */
    method ConvertToHoleAt(id: BlockId)
      requires Valid() && id < |blocks| && looks[id].Some?
      modifies this`looks
      ensures Valid()
      ensures looks == old(looks)[id := Some(ConvertToHole(old(looks[id]).value))]
    {
      looks := looks[id := Some(ConvertToHole(looks[id].value))];
    }

    /** removeNext on the block with this id: drop its forward link, its exit
        side and its look. */
    method RemoveNextOf(id: BlockId)
      requires Valid() && id < |blocks|
      modifies this`blocks, this`looks
      ensures Valid()
      ensures blocks == old(blocks)[id := RemoveNext(old(blocks[id]))]
      ensures looks == old(looks)[id := None]
    {
      blocks := blocks[id := RemoveNext(blocks[id])];
      looks := looks[id := None];
    }

    /** remove: detach the previous block's forward link, then clear the cell
        of the removed block. */
    method Remove(id: BlockId)
      requires Valid() && id < |blocks| && blocks[id].prev.Some?
      requires InBounds(blocks[id].position)
      modifies this`blocks, this`looks, cells
      ensures Valid()
      ensures var p := old(blocks[id].prev.value);
        blocks == old(blocks)[p := RemoveNext(old(blocks[p]))] && looks == old(looks)[p := None]
      ensures Get(old(blocks[id].position)) == None
      ensures forall q :: q != old(blocks[id].position) ==> Get(q) == old(Get(q))
    {
      RemoveNextOf(blocks[id].prev.value);
      Set(None, blocks[id].position);
    }

    /** reset: a fresh empty array; the blocks are released with it. */
    method Reset()
      requires Valid()
      modifies this`cells, this`blocks, this`looks
      ensures Valid() && fresh(cells)
      ensures blocks == [] && looks == []
      ensures forall p :: Get(p).None?
    {
      cells := new Option<BlockId>[worldX, worldY, worldZ]((i, j, k) => None);
      blocks, looks := [], [];
    }

    /** What every cell holds, as a value: a snapshot the finishing pass
        is described against. */
    ghost function Occupancy(): (m: CellMap)
      reads this`cells, cells
      ensures forall p :: p in m && m[p] == Get(p)
    {
      imap p: Vec | true :: Get(p)
    }

    /** m, bs and ls are a snapshot of a consistent grid: every position has
        an entry, cells off the grid are empty, and each occupied cell refers
        to a stored block sitting there. */
    ghost predicate ValidSnapshot(m: CellMap, bs: seq<Block>, ls: seq<Option<Look>>)
    {
      |ls| == |bs| &&
      forall p :: p in m &&
        (!InBounds(p) ==> m[p].None?) &&
        (m[p].Some? ==> m[p].value < |bs| && bs[m[p].value].position == p)
    }

    /** The snapshot of a consistent grid is consistent. */
    lemma OccupancyValid()
      requires Valid()
      ensures ValidSnapshot(Occupancy(), blocks, looks)
    {
      var m := Occupancy();
      forall p ensures p in m && (!InBounds(p) ==> m[p].None?) &&
        (m[p].Some? ==> m[p].value < |blocks| && blocks[m[p].value].position == p)
      {
        assert m[p] == Get(p);
      }
    }

    /** In the snapshot, cell p holds a block whose type is resolved. */
    ghost predicate ResolvedIn(m: CellMap, ls: seq<Option<Look>>, p: Vec)
    {
      p in m && m[p].Some? && m[p].value < |ls| && ls[m[p].value].Some?
    }

    /** In the snapshot, a resolved block lies strictly above p in its
        column. */
    ghost predicate UnderResolvedIn(m: CellMap, ls: seq<Option<Look>>, p: Vec)
    {
      exists y :: p.y < y < worldY && ResolvedIn(m, ls, Vec(p.x, y, p.z))
    }

    /** Going one cell down a column, the cell left behind joins the cells
        above. */
    lemma UnderResolvedStep(m: CellMap, ls: seq<Option<Look>>, x: int, y: int, z: int)
      requires y < worldY
      ensures UnderResolvedIn(m, ls, Vec(x, y - 1, z)) ==
              (UnderResolvedIn(m, ls, Vec(x, y, z)) || ResolvedIn(m, ls, Vec(x, y, z)))
    {
      if UnderResolvedIn(m, ls, Vec(x, y - 1, z)) {
        var y' :| y - 1 < y' < worldY && ResolvedIn(m, ls, Vec(x, y', z));
        if y' != y {
          assert y < y' < worldY && ResolvedIn(m, ls, Vec(x, y', z));
        }
      }
      if UnderResolvedIn(m, ls, Vec(x, y, z)) {
        var y' :| y < y' < worldY && ResolvedIn(m, ls, Vec(x, y', z));
        assert y - 1 < y' < worldY && ResolvedIn(m, ls, Vec(x, y', z));
      }
    }

    /** In the snapshot, block k sits in its cell, is resolved, and lies
        under a resolved block. */
    ghost predicate CoveredIn(m: CellMap, bs: seq<Block>, ls: seq<Option<Look>>, k: BlockId)
    {
      k < |bs| && bs[k].position in m && m[bs[k].position] == Some(k) && k < |ls| && ls[k].Some? &&
      UnderResolvedIn(m, ls, bs[k].position)
    }

    /** In the snapshot, p is an empty cell of the grid under a resolved
        block, and the cell beneath it is empty or off the grid. */
    ghost predicate NeedsSupportIn(m: CellMap, ls: seq<Option<Look>>, p: Vec)
    {
      InBounds(p) && p in m && m[p].None? && UnderResolvedIn(m, ls, p) &&
      Plus(p, BOTTOM) in m && m[Plus(p, BOTTOM)].None?
    }

    /** The cell holds a block whose type is resolved. */
    ghost predicate Resolved(p: Vec)
      reads this`cells, cells, this`looks
    {
      ResolvedIn(Occupancy(), looks, p)
    }

    /** The piece type of the block in cell p, if it is resolved. */
    ghost function PieceAt(p: Vec): Option<Piece>
      reads this`cells, cells, this`looks
    {
      var c := Get(p);
      if c.Some? && c.value < |looks| && looks[c.value].Some? then Some(looks[c.value].value.piece) else None
    }

    /** Every cell of the grid. */
    ghost function AllCells(): set<Vec>
    {
      set x, y, z | 0 <= x < worldX && 0 <= y < worldY && 0 <= z < worldZ :: Vec(x, y, z)
    }

    /** The cells holding a resolved block of type k. */
    ghost function CellsOfPiece(k: Piece): set<Vec>
      reads this`cells, cells, this`looks
    {
      set p | p in AllCells() && PieceAt(p) == Some(k)
    }

    /** forEach: the cells it hands to the handler, in its order: every
        occupied cell (every cell when withNull), each once, x first, then y,
        then z. */
    method ForEach(withNull: bool) returns (visits: seq<Vec>)
      requires Valid()
      ensures forall i, j :: 0 <= i < j < |visits| ==> Before(visits[i], visits[j])
      ensures forall i :: 0 <= i < |visits| ==> InBounds(visits[i]) && (withNull || Get(visits[i]).Some?)
      ensures forall p :: InBounds(p) && (withNull || Get(p).Some?) ==> p in visits
    {
      visits := [];
      var x := 0;
      while x < worldX
        invariant 0 <= x <= worldX
        invariant forall i, j :: 0 <= i < j < |visits| ==> Before(visits[i], visits[j])
        invariant forall i :: 0 <= i < |visits| ==> InBounds(visits[i]) && (withNull || Get(visits[i]).Some?)
        invariant forall i :: 0 <= i < |visits| ==> visits[i].x < x
        invariant forall p :: InBounds(p) && p.x < x && (withNull || Get(p).Some?) ==> p in visits
      {
        var y := 0;
        while y < worldY
          invariant 0 <= y <= worldY
          invariant forall i, j :: 0 <= i < j < |visits| ==> Before(visits[i], visits[j])
          invariant forall i :: 0 <= i < |visits| ==> InBounds(visits[i]) && (withNull || Get(visits[i]).Some?)
          invariant forall i :: 0 <= i < |visits| ==> Before(visits[i], Vec(x, y, 0))
          invariant forall p :: InBounds(p) && Before(p, Vec(x, y, 0)) && (withNull || Get(p).Some?) ==> p in visits
        {
          var z := 0;
          while z < worldZ
            invariant 0 <= z <= worldZ
            invariant forall i, j :: 0 <= i < j < |visits| ==> Before(visits[i], visits[j])
            invariant forall i :: 0 <= i < |visits| ==> InBounds(visits[i]) && (withNull || Get(visits[i]).Some?)
            invariant forall i :: 0 <= i < |visits| ==> Before(visits[i], Vec(x, y, z))
            invariant forall p :: InBounds(p) && Before(p, Vec(x, y, z)) && (withNull || Get(p).Some?) ==> p in visits
          {
            var p := Vec(x, y, z);
            if withNull || Get(p).Some? {
              visits := visits + [p];
            }
            z := z + 1;
          }
          y := y + 1;
        }
        x := x + 1;
      }
    }

    /** getSummary: how many resolved blocks of each type the grid holds;
        types with none are absent. */
    method GetSummary() returns (summary: map<Piece, nat>)
      requires Valid()
      ensures forall k :: k in summary <==> CellsOfPiece(k) != {}
      ensures forall k :: k in summary ==> summary[k] == |CellsOfPiece(k)|
    {
      var visits := ForEach(false);
      summary := map[];
      var i := 0;
      while i < |visits|
        invariant 0 <= i <= |visits|
        invariant forall k :: k in summary <==> CountIn(visits[..i], CellsOfPiece(k)) > 0
        invariant forall k :: k in summary ==> summary[k] == CountIn(visits[..i], CellsOfPiece(k))
      {
        assert visits[..i + 1][..i] == visits[..i];
        var id := Get(visits[i]).value;
        if looks[id].Some? {
          var k := looks[id].value.piece;
          summary := summary[k := if k in summary then summary[k] + 1 else 1];
        }
        i := i + 1;
      }
      assert visits[..i] == visits;
      forall k
        ensures (k in summary <==> CellsOfPiece(k) != {})
        ensures k in summary ==> summary[k] == |CellsOfPiece(k)|
      {
        CountInIsCardinality(visits, CellsOfPiece(k));
        assert (set p | p in visits && p in CellsOfPiece(k)) == CellsOfPiece(k) by {
          forall p | p in CellsOfPiece(k) ensures p in visits {
            assert InBounds(p);
          }
        }
      }
    }
  }
}
