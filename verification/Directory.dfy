/** The bins of a linear hash table: a growing directory of fixed-size segments, recycled through a pool. */
module Directories {
  import opened Chains

  const SEGMENT_LENGTH: int := 256
  const DIRECTORY_LENGTH: int := 1024

  type Segment = array<Ref>

  function SegmentOf(i: int): int { i / SEGMENT_LENGTH }
  function PlaceOf(i: int): int { i % SEGMENT_LENGTH }

  predicate IsRow(row: seq<Ref>) { |row| == SEGMENT_LENGTH }

  predicate AreRows(rows: seq<seq<Ref>>) {
    forall k {:trigger rows[k]} | 0 <= k < |rows| :: IsRow(rows[k])
  }

  /** Bin `i` of the segments of a directory, taken in order. */
  function Bin(rows: seq<seq<Ref>>, i: int): Ref {
    if AreRows(rows) && 0 <= i < SEGMENT_LENGTH * |rows| then rows[SegmentOf(i)][PlaceOf(i)] else NIL
  }

  function WithBin(rows: seq<seq<Ref>>, i: int, b: Ref): seq<seq<Ref>>
    requires AreRows(rows) && 0 <= i < SEGMENT_LENGTH * |rows|
  {
    rows[SegmentOf(i) := rows[SegmentOf(i)][PlaceOf(i) := b]]
  }

  lemma SegmentFacts(i: int, n: int)
    requires 0 <= i < SEGMENT_LENGTH * n
    ensures 0 <= SegmentOf(i) < n && 0 <= PlaceOf(i) < SEGMENT_LENGTH
    ensures i == SEGMENT_LENGTH * SegmentOf(i) + PlaceOf(i)
  {
  }

  lemma WithBinFacts(rows: seq<seq<Ref>>, i: int, b: Ref)
    requires AreRows(rows) && 0 <= i < SEGMENT_LENGTH * |rows|
    ensures AreRows(WithBin(rows, i, b)) && |WithBin(rows, i, b)| == |rows|
    ensures forall j {:trigger Bin(WithBin(rows, i, b), j)} ::
              Bin(WithBin(rows, i, b), j) == if j == i then b else Bin(rows, j)
  {
    var rows' := WithBin(rows, i, b);
    SegmentFacts(i, |rows|);
    forall j {:trigger Bin(rows', j)} ensures Bin(rows', j) == if j == i then b else Bin(rows, j) {
      if 0 <= j < SEGMENT_LENGTH * |rows| { SegmentFacts(j, |rows|); }
    }
  }

  const EMPTY_ROW: seq<Ref> := seq(SEGMENT_LENGTH, _ => NIL)

  /** A segment of empty bins at the end adds empty bins only. */
  lemma AppendFacts(rows: seq<seq<Ref>>)
    requires AreRows(rows)
    ensures AreRows(rows + [EMPTY_ROW])
    ensures forall j {:trigger Bin(rows + [EMPTY_ROW], j)} :: Bin(rows + [EMPTY_ROW], j) == Bin(rows, j)
  {
    var rows' := rows + [EMPTY_ROW];
    forall j {:trigger Bin(rows', j)} ensures Bin(rows', j) == Bin(rows, j) {
      if 0 <= j < SEGMENT_LENGTH * |rows'| { SegmentFacts(j, |rows'|); }
      if 0 <= j < SEGMENT_LENGTH * |rows| { SegmentFacts(j, |rows|); }
    }
  }

  lemma DropFacts(rows: seq<seq<Ref>>)
    requires AreRows(rows) && |rows| > 0
    requires forall j {:trigger Bin(rows, j)} | SEGMENT_LENGTH * (|rows| - 1) <= j < SEGMENT_LENGTH * |rows| ::
              Bin(rows, j) == NIL
    ensures var last := |rows| - 1; AreRows(rows[..last]) && rows[last] == EMPTY_ROW
    ensures forall j {:trigger Bin(rows[..|rows| - 1], j)} :: Bin(rows[..|rows| - 1], j) == Bin(rows, j)
  {
    var last := |rows| - 1;
    forall x {:trigger rows[last][x]} | 0 <= x < SEGMENT_LENGTH ensures rows[last][x] == NIL {
      SegmentFacts(SEGMENT_LENGTH * last + x, |rows|);
      assert Bin(rows, SEGMENT_LENGTH * last + x) == rows[last][x];
    }
    assert IsRow(rows[last]) && rows[last] == EMPTY_ROW;
    forall j {:trigger Bin(rows[..last], j)} ensures Bin(rows[..last], j) == Bin(rows, j) {
      if 0 <= j < SEGMENT_LENGTH * last { SegmentFacts(j, last); }
    }
  }

  class Directory {
    var directory: array<array?<Ref>>
    var directoryCurrent: int
    var recycled: set<Segment>         // segments that were given back to the pool
    ghost var rows: seq<seq<Ref>>      // the bins, segment by segment
    ghost var segments: set<Segment>   // every segment that the pool has handed out

    ghost predicate Valid()
      reads this, directory, segments
    {
      && 0 < directoryCurrent == |rows| <= directory.Length && AreRows(rows) && recycled <= segments
      && (forall k {:trigger rows[k]} {:trigger directory[k]} | 0 <= k < |rows| :: Holds(directory[k], rows[k]))
      && (forall k {:trigger directory[k]} | |rows| <= k < directory.Length :: directory[k] == null)
      && (forall k, l {:trigger directory[k], directory[l]} | 0 <= k < l < |rows| :: directory[k] != directory[l])
      && (forall s {:trigger s in recycled} | s in recycled :: s[..] == EMPTY_ROW)
    }

    ghost predicate Holds(s: array?<Ref>, row: seq<Ref>)
      reads this, segments
    {
      s != null && s in segments && s !in recycled && s[..] == row
    }

    /** The directory has one segment at first, of empty bins. */
    constructor ()
      ensures Valid() && fresh(directory) && fresh(segments)
      ensures rows == [EMPTY_ROW] && directory.Length == DIRECTORY_LENGTH
    {
      var d := new array?<Ref>[DIRECTORY_LENGTH](_ => null);
      var seg := new Ref[SEGMENT_LENGTH](_ => NIL);
      d[0] := seg;
      directory := d;
      directoryCurrent := 1;
      recycled := {};
      rows := [EMPTY_ROW];
      segments := {seg};
    }

    method Get(i: int) returns (b: Ref)
      requires Valid() && 0 <= i < SEGMENT_LENGTH * |rows|
      ensures b == Bin(rows, i)
    {
      SegmentFacts(i, |rows|);
      assert Holds(directory[SegmentOf(i)], rows[SegmentOf(i)]);
      var seg := directory[SegmentOf(i)];
      b := seg[PlaceOf(i)];
      assert b == seg[..][PlaceOf(i)];
    }

    method Set(i: int, b: Ref)
      requires Valid() && 0 <= i < SEGMENT_LENGTH * |rows|
      modifies this`rows, segments
      ensures Valid() && rows == WithBin(old(rows), i, b)
    {
      SegmentFacts(i, |rows|);
      assert IsRow(rows[SegmentOf(i)]);
      WithBinFacts(rows, i, b);
      hide SegmentOf, PlaceOf;
      assert Holds(directory[SegmentOf(i)], rows[SegmentOf(i)]);
      var seg := directory[SegmentOf(i)];
      seg[PlaceOf(i)] := b;
      rows := WithBin(rows, i, b);
      assert seg[..] == rows[SegmentOf(i)];
    }

    /** The pool may hand out a segment that was used before, as it was left. */
    method AllocSegment() returns (seg: Segment)
      requires Valid()
      modifies this`recycled, this`segments
      ensures seg in segments && seg !in recycled && seg[..] == EMPTY_ROW
      ensures segments == old(segments) + {seg} && recycled <= old(recycled)
      ensures seg in old(recycled) || fresh(seg)
    {
      if recycled != {} {
        seg :| seg in recycled;
        recycled := recycled - {seg};
      } else {
        seg := new Ref[SEGMENT_LENGTH](_ => NIL);
        segments := segments + {seg};
      }
    }

    /** Puts a segment after the current ones. */
    method AddSegment()
      requires Valid() && directoryCurrent < directory.Length
      modifies this`rows, this`recycled, this`segments, this`directoryCurrent, directory
      ensures Valid() && rows == old(rows) + [EMPTY_ROW] && fresh(segments - old(segments))
    {
      ghost var was := rows;
      var n := directoryCurrent;
      AppendFacts(rows);
      var seg := AllocSegment();
      assert forall k {:trigger directory[k]} | 0 <= k < n :: Holds(directory[k], rows[k]) && directory[k] != seg;
      directory[n] := seg;
      directoryCurrent := n + 1;
      rows := rows + [EMPTY_ROW];
    }

    /** Gives the last segment, whose bins are empty, back to the pool. */
    method DropSegment()
      requires Valid() && directoryCurrent > 1 && rows[|rows| - 1] == EMPTY_ROW
      modifies this`rows, this`recycled, this`directoryCurrent, directory
      ensures Valid() && rows == old(rows)[..|old(rows)| - 1] && segments == old(segments)
    {
      var last := directoryCurrent - 1;
      assert Holds(directory[last], rows[last]);
      recycled := recycled + {directory[last]};
      directory[last] := null;
      directoryCurrent := last;
      rows := rows[..last];
    }

    /** Copies the segments into a directory of `length` entries. */
    method Resize(length: int)
      requires Valid() && directoryCurrent <= length
      modifies this`directory
      ensures Valid() && fresh(directory) && directory.Length == length
    {
      var olddir := directory;
      var newdir := new array?<Ref>[length](_ => null);
      var n := if length < olddir.Length then length else olddir.Length;
      for index := 0 to n
        modifies newdir
        invariant forall k {:trigger newdir[k]} | 0 <= k < length :: newdir[k] == if k < index then olddir[k] else null
      {
        newdir[index] := olddir[index];
      }
      assert forall k {:trigger newdir[k]} | 0 <= k < |rows| :: newdir[k] == olddir[k] && Holds(olddir[k], rows[k]);
      directory := newdir;
    }
  }
}
