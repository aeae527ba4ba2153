/** The index from chunks to their records that the heap relies on, kept in the linear hash table. */
module Registry {
  import opened Chains
  import opened Binning
  import opened LinearHash

  /** A table in which no chunk has two records is a map from chunks to records. */
  class ChunkIndex {
    const htbl: Metadata
    ghost var index: map<int, Ref>

    ghost function Footprint(): set<object>
      reads this, htbl, htbl.dir
    {
      {this} + htbl.Footprint()
    }

    ghost predicate Valid()
      reads this, htbl, htbl.dir, htbl.Footprint()
    {
      && this !in htbl.Footprint() && htbl.Valid()
      && forall k {:trigger htbl.StackOf(k)} :: htbl.StackOf(k) == if k in index then [index[k]] else []
    }

    constructor (hash: Hash)
      ensures Valid() && fresh(Footprint()) && index == map[]
    {
      htbl := new Metadata(hash);
      index := map[];
    }

    /** Gives a chunk that has none a record. */
    method RegisterChunk(p: int, b: Ref)
      requires Valid() && b != NIL && b !in index.Values && p !in index
      modifies Footprint()
      ensures Valid() && index == old(index)[p := b] && fresh(Footprint() - old(Footprint()))
    {
      htbl.InNoChain(b);
      htbl.Add(b, p);
      index := index[p := b];
    }

    /** The record of a chunk, or NIL. */
    method LookupChunk(p: int) returns (b: Ref)
      requires Valid()
      modifies Footprint()
      ensures Valid() && index == old(index) && fresh(Footprint() - old(Footprint()))
      ensures b == if p in index then index[p] else NIL
    {
      b := htbl.Lookup(p);
    }

    /** Takes the record of a chunk out of the table; false when there is none. */
    method UnregisterChunk(p: int) returns (found: bool)
      requires Valid()
      modifies Footprint()
      ensures Valid() && index == old(index) - {p} && (found <==> p in old(index))
      ensures fresh(Footprint() - old(Footprint()))
    {
      found := htbl.Delete(p);
      index := index - {p};
    }
  }
}
