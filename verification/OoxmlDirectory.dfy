/**
 The directory loop of the container inspection, over what each record says rather than its bytes.
 */
module OoxmlDirectory {
  import opened Wrappers
  import opened Unicode

  type Name = seq<int>

  /** An acceptable record: where the next one starts, the entry's name and its uncompressed size. */
  datatype Record = Record(next: nat, name: Name, size: nat)

  /** The acceptable record at each offset, if there is one. */
  type View = nat -> Option<Record>

  const MAX_TOTAL_UNCOMPRESSED_BYTES: nat := 100 * 1024 * 1024

  // --- The directory, declaratively ---------------------------------------------------------------

  /** Record offsets that follow one another without gap or overlap, each record acceptable. */
  predicate Tiles(v: View, offs: seq<nat>) {
    && |offs| > 0
    && forall i | 0 <= i < |offs| - 1 :: v(offs[i]).Some? && offs[i + 1] == v(offs[i]).value.next
  }

  predicate DistinctNames(v: View, offs: seq<nat>)
    requires Tiles(v, offs)
  {
    forall i, j | 0 <= i < j < |offs| - 1 :: v(offs[i]).value.name != v(offs[j]).value.name
  }

  function NamesOf(v: View, offs: seq<nat>): set<Name>
    requires Tiles(v, offs)
  {
    set i | 0 <= i < |offs| - 1 :: v(offs[i]).value.name
  }

  function TotalSize(v: View, offs: seq<nat>): nat
    requires Tiles(v, offs)
  {
    if |offs| == 1 then 0
    else
      assert forall i | 0 <= i < |offs[1..]| - 1 :: offs[1..][i] == offs[i + 1];
      v(offs[0]).value.size + TotalSize(v, offs[1..])
  }

  /** `count` distinctly named records within the byte budget tile exactly from `dir` to `end`. */
  predicate Directory(v: View, dir: nat, end: nat, count: nat, offs: seq<nat>) {
    && Tiles(v, offs) && |offs| == count + 1 && offs[0] == dir && offs[count] == end
    && DistinctNames(v, offs) && TotalSize(v, offs) <= MAX_TOTAL_UNCOMPRESSED_BYTES
  }

  // --- The loop -------------------------------------------------------------------------------------

  datatype Walked = Walked(at: nat, names: set<Name>)

  /** The directory loop from one record on, with the names and bytes seen so far. */
  function Walk(v: View, at: nat, left: nat, names: set<Name>, total: nat): Option<Walked>
    decreases left
  {
    if left == 0 then Some(Walked(at, names))
    else
      var r := v(at);
      if r.None? || r.value.name in names || total + r.value.size > MAX_TOTAL_UNCOMPRESSED_BYTES then None
      else Walk(v, r.value.next, left - 1, names + {r.value.name}, total + r.value.size)
  }

  lemma WalkStep(v: View, at: nat, r: Option<Record>, left: nat, names: set<Name>, total: nat)
    requires left > 0 && v(at) == r
    ensures Walk(v, at, left, names, total) ==
            if r.None? || r.value.name in names || total + r.value.size > MAX_TOTAL_UNCOMPRESSED_BYTES then None
            else Walk(v, r.value.next, left - 1, names + {r.value.name}, total + r.value.size)
  {
  }

  /** Putting one record in front of a tiling. */
  lemma TilesCons(v: View, at: nat, rest: seq<nat>)
    requires v(at).Some? && Tiles(v, rest) && rest[0] == v(at).value.next
    ensures Tiles(v, [at] + rest)
    ensures TotalSize(v, [at] + rest) == v(at).value.size + TotalSize(v, rest)
  {
    var offs := [at] + rest;
    assert offs[1..] == rest;
    assert forall i | 0 < i < |offs| :: offs[i] == rest[i - 1];
  }

  lemma NamesCons(v: View, at: nat, rest: seq<nat>)
    requires v(at).Some? && Tiles(v, rest) && Tiles(v, [at] + rest)
    ensures NamesOf(v, [at] + rest) == {v(at).value.name} + NamesOf(v, rest)
  {
    var offs := [at] + rest;
    forall n | n in NamesOf(v, offs) ensures n in {v(at).value.name} + NamesOf(v, rest) {
      var i :| 0 <= i < |offs| - 1 && v(offs[i]).value.name == n;
      if i > 0 { assert offs[i] == rest[i - 1]; }
    }
    assert v(offs[0]).value.name in NamesOf(v, offs);
    forall n | n in NamesOf(v, rest) ensures n in NamesOf(v, offs) {
      var i :| 0 <= i < |rest| - 1 && v(rest[i]).value.name == n;
      assert v(offs[i + 1]).value.name == n;
    }
  }

  lemma DistinctCons(v: View, at: nat, rest: seq<nat>)
    requires v(at).Some? && Tiles(v, rest) && Tiles(v, [at] + rest)
    ensures DistinctNames(v, [at] + rest) <==> DistinctNames(v, rest) && v(at).value.name !in NamesOf(v, rest)
  {
    var offs := [at] + rest;
    assert forall i | 0 < i < |offs| :: offs[i] == rest[i - 1];
    if DistinctNames(v, offs) {
      forall i, j | 0 <= i < j < |rest| - 1 ensures v(rest[i]).value.name != v(rest[j]).value.name {
        assert v(offs[i + 1]).value.name != v(offs[j + 1]).value.name;
      }
      forall i | 0 <= i < |rest| - 1 ensures v(rest[i]).value.name != v(at).value.name {
        assert v(offs[i + 1]).value.name != v(offs[0]).value.name;
      }
    }
  }

  lemma {:induction false} WalkSound(v: View, at: nat, left: nat, names: set<Name>, total: nat) returns (offs: seq<nat>)
    requires Walk(v, at, left, names, total).Some? && total <= MAX_TOTAL_UNCOMPRESSED_BYTES
    ensures Tiles(v, offs) && |offs| == left + 1 && offs[0] == at
    ensures DistinctNames(v, offs) && NamesOf(v, offs) !! names
    ensures total + TotalSize(v, offs) <= MAX_TOTAL_UNCOMPRESSED_BYTES
    ensures Walk(v, at, left, names, total) == Some(Walked(offs[left], names + NamesOf(v, offs)))
    decreases left
  {
    if left == 0 {
      offs := [at];
      assert names + NamesOf(v, offs) == names;
    } else {
      var r := v(at).value;
      var rest := WalkSound(v, r.next, left - 1, names + {r.name}, total + r.size);
      offs := [at] + rest;
      TilesCons(v, at, rest);
      NamesCons(v, at, rest);
      DistinctCons(v, at, rest);
      assert names + {r.name} + NamesOf(v, rest) == names + NamesOf(v, offs);
    }
  }

  lemma {:induction false} WalkComplete(v: View, offs: seq<nat>, names: set<Name>, total: nat)
    requires Tiles(v, offs) && DistinctNames(v, offs) && NamesOf(v, offs) !! names
    requires total + TotalSize(v, offs) <= MAX_TOTAL_UNCOMPRESSED_BYTES
    ensures Walk(v, offs[0], |offs| - 1, names, total) == Some(Walked(offs[|offs| - 1], names + NamesOf(v, offs)))
    decreases |offs|
  {
    if |offs| > 1 {
      var rest := offs[1..];
      assert forall i | 0 <= i < |rest| :: rest[i] == offs[i + 1];
      assert offs == [offs[0]] + rest;
      TilesCons(v, offs[0], rest);
      NamesCons(v, offs[0], rest);
      DistinctCons(v, offs[0], rest);
      var r := v(offs[0]).value;
      WalkComplete(v, rest, names + {r.name}, total + r.size);
      assert names + {r.name} + NamesOf(v, rest) == names + NamesOf(v, offs);
    } else {
      assert names + NamesOf(v, offs) == names;
    }
  }

  /** The walk ends at `end` with all the required parts exactly when such a directory exists. */
  lemma WalkAcceptsIff(v: View, dir: nat, end: nat, count: nat, parts: set<Name>)
    ensures var w := Walk(v, dir, count, {}, 0);
            (w.Some? && w.value.at == end && parts <= w.value.names)
            <==> exists offs :: Directory(v, dir, end, count, offs) && parts <= NamesOf(v, offs)
  {
    var w := Walk(v, dir, count, {}, 0);
    if w.Some? && w.value.at == end && parts <= w.value.names {
      var offs := WalkSound(v, dir, count, {}, 0);
      assert Directory(v, dir, end, count, offs);
    }
    if offs :| Directory(v, dir, end, count, offs) && parts <= NamesOf(v, offs) {
      WalkComplete(v, offs, {}, 0);
    }
  }

  // --- Directories given entry by entry ---------------------------------------------------------------

  datatype Shown = Shown(name: Name, size: nat)

  function TotalOf(entries: seq<Shown>): nat {
    if |entries| == 0 then 0 else entries[0].size + TotalOf(entries[1..])
  }

  predicate DistinctlyNamed(entries: seq<Shown>) {
    forall i, j | 0 <= i < j < |entries| :: entries[i].name != entries[j].name
  }

  predicate Contains(entries: seq<Shown>, name: Name) {
    exists i | 0 <= i < |entries| :: entries[i].name == name
  }

  /** A view that shows these entries at these offsets. */
  predicate Displays(v: View, offs: seq<nat>, entries: seq<Shown>) {
    && |offs| == |entries| + 1
    && forall i | 0 <= i < |entries| :: Reads(v, offs[i], offs[i + 1], entries[i])
  }

  /** The record at `at` shows this entry and is followed by `next`. */
  predicate Reads(v: View, at: nat, next: nat, entry: Shown) {
    v(at).Some? && v(at).value.next == next && v(at).value.name == entry.name && v(at).value.size == entry.size
  }

  lemma {:induction false} DisplayedTotal(v: View, offs: seq<nat>, entries: seq<Shown>)
    requires Displays(v, offs, entries)
    ensures Tiles(v, offs) && TotalSize(v, offs) == TotalOf(entries)
  {
    if |entries| > 0 {
      assert Reads(v, offs[0], offs[1], entries[0]);
      assert forall i | 0 <= i < |entries[1..]| :: entries[1..][i] == entries[i + 1] && offs[1..][i] == offs[i + 1];
      DisplayedTotal(v, offs[1..], entries[1..]);
    }
  }

  lemma DisplayedDirectory(
      v: View, dir: nat, end: nat, count: nat, offs: seq<nat>, entries: seq<Shown>, parts: set<Name>)
    requires Displays(v, offs, entries) && count == |entries| && offs[0] == dir && offs[count] == end
    requires DistinctlyNamed(entries) && TotalOf(entries) <= MAX_TOTAL_UNCOMPRESSED_BYTES
    requires forall p <- parts :: Contains(entries, p)
    ensures Directory(v, dir, end, count, offs) && parts <= NamesOf(v, offs)
  {
    DisplayedTotal(v, offs, entries);
    forall i, j | 0 <= i < j < |offs| - 1 ensures v(offs[i]).value.name != v(offs[j]).value.name {
      assert Reads(v, offs[i], offs[i + 1], entries[i]) && Reads(v, offs[j], offs[j + 1], entries[j]);
      assert entries[i].name != entries[j].name;
    }
    forall p | p in parts ensures p in NamesOf(v, offs) {
      var i :| 0 <= i < |entries| && entries[i].name == p;
      assert Reads(v, offs[i], offs[i + 1], entries[i]);
      assert v(offs[i]).value.name == p;
    }
  }
}
