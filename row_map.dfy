/** The line-to-row map of the pager (src/core/utils/mod.rs): entry `ln`
    is the index of the first row of line `ln` in the formatted rows. */
module RowMap {
  import opened Common

  /** `Vec::pop` when the append continues the last line, then nothing:
      the entry of a reopened line is dropped before its new entry comes. */
  function Reopened(entries: seq<nat>, cleanAppend: bool): (r: seq<nat>)
    ensures cleanAppend || entries == [] ==> r == entries
    ensures !cleanAppend && entries != [] ==> r + [entries[|entries| - 1]] == entries
  {
    if cleanAppend || entries == [] then entries else entries[..|entries| - 1]
  }

  /** `LinesRowMap`, a growable vector of row indexes. */
  class LinesRowMap {
    var entries: seq<nat>

    /** `LinesRowMap::new()`. */
    constructor ()
      ensures entries == []
    {
      entries := [];
    }

    /** `append(idx, clean_append)`: drops the own last entry unless the
        append is clean, then moves all of `idx`'s entries to the end, in
        order, leaving `idx` empty. */
    method Append(idx: LinesRowMap, cleanAppend: bool)
      requires idx != this
      modifies this, idx
      ensures entries == Reopened(old(entries), cleanAppend) + old(idx.entries)
      ensures idx.entries == []
    {
      entries := Reopened(entries, cleanAppend) + idx.entries;
      idx.entries := [];
    }

    /** `insert(ln, clean_append)`: pushes `ln`, first dropping the last
        entry unless the append is clean. */
    method Insert(ln: nat, cleanAppend: bool)
      modifies this
      ensures entries == Reopened(old(entries), cleanAppend) + [ln]
    {
      entries := Reopened(entries, cleanAppend) + [ln];
    }

    /** `get(ln)`: the entry of line `ln` when there is one. */
    function Get(ln: nat): (r: Option<nat>)
      reads this
      ensures r.Some? <==> ln < |entries|
      ensures r.Some? ==> r.value == entries[ln]
    {
      if ln < |entries| then Some(entries[ln]) else None
    }
  }

  /** After an insert, the new entry is the last one and every entry before
      the reopened one reads as before; a clean insert adds one entry, an
      unclean insert into a non-empty map keeps the count and overwrites
      only the last entry. */
  lemma InsertReplacesLast(entries: seq<nat>, ln: nat, cleanAppend: bool)
    ensures var e := Reopened(entries, cleanAppend) + [ln];
            && e[|e| - 1] == ln
            && (cleanAppend || entries == [] ==> |e| == |entries| + 1)
            && (!cleanAppend && entries != [] ==> |e| == |entries| && e[..|e| - 1] == entries[..|entries| - 1])
            && forall i :: 0 <= i < |e| - 1 ==> e[i] == entries[i]
  {
    var e := Reopened(entries, cleanAppend) + [ln];
    if !cleanAppend && entries != [] {
      assert e[..|e| - 1] == entries[..|entries| - 1];
    }
  }

  /** Clean inserts, one per entry of `starts`, build exactly `starts`
      behind the existing entries: this is how `format_text_block` records
      the first row of each line. */
  lemma {:induction false} CleanInsertsBuild(entries: seq<nat>, starts: seq<nat>)
    ensures InsertAll(entries, starts) == entries + starts
  {
    if starts != [] {
      CleanInsertsBuild(entries, starts[..|starts| - 1]);
      assert starts == starts[..|starts| - 1] + [starts[|starts| - 1]];
    }
  }

  /** The entries after a clean insert of each of `starts` in order. */
  function InsertAll(entries: seq<nat>, starts: seq<nat>): seq<nat>
  {
    if starts == [] then entries
    else Reopened(InsertAll(entries, starts[..|starts| - 1]), true) + [starts[|starts| - 1]]
  }

  /** Appending a block's map equals inserting its entries one by one after
      the reopened entry is dropped. */
  lemma AppendIsInserts(entries: seq<nat>, block: seq<nat>, cleanAppend: bool)
    ensures Reopened(entries, cleanAppend) + block == InsertAll(Reopened(entries, cleanAppend), block)
  {
    CleanInsertsBuild(Reopened(entries, cleanAppend), block);
  }
}
