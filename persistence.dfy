/** Saving assignments as flat records and rebuilding them on load, where the
    kind is guessed from the stored name. */
module Persistence {
  import opened Wrappers
  import opened Text
  import opened Assignments

  /** `save_assignments`: the records written, in list order. */
  function Serialize(assignments: seq<Assignment>): (records: seq<Record>)
    ensures |records| == |assignments|
    ensures forall i :: 0 <= i < |assignments| ==> records[i] == ToDict(assignments[i])
  {
    seq(|assignments|, i requires 0 <= i < |assignments| => ToDict(assignments[i]))
  }

  /** The body of the loop in `load_assignments`. The kind test has no space
      after the word, and the prefix is removed with `replace`, so every
      occurrence of it goes. */
  function Reconstruct(item: Record): (a: Assignment)
    ensures WellFormed(a)
    ensures a.dueDate == item.dueDate && a.status == item.status
    ensures a.kind == Writeup <==> StartsWith(item.name, "Writeup")
    ensures a.kind == Execution <==> !StartsWith(item.name, "Writeup") && StartsWith(item.name, "Execution")
    ensures a.kind == Plain ==> a.name == item.name
    ensures a.kind != Plain ==> BaseName(a) == RemoveAll(item.name, Prefix(a.kind))
  {
    if StartsWith(item.name, "Writeup") then
      Create(Writeup, RemoveAll(item.name, "Writeup "), item.dueDate, item.status)
    else if StartsWith(item.name, "Execution") then
      Create(Execution, RemoveAll(item.name, "Execution "), item.dueDate, item.status)
    else
      Create(Plain, item.name, item.dueDate, item.status)
  }

  /** The list `load_assignments` returns for a decoded file. */
  function ReconstructAll(items: seq<Record>): (r: seq<Assignment>)
    ensures |r| == |items|
    ensures forall i :: 0 <= i < |items| ==> r[i] == Reconstruct(items[i])
  {
    if items == [] then [] else ReconstructAll(items[..|items| - 1]) + [Reconstruct(items[|items| - 1])]
  }

  /** `load_assignments`. `decoded` is the parsed JSON array, or `None` when
      the file is missing or not valid JSON, which loads as no assignments. */
  method LoadAssignments(decoded: Option<seq<Record>>) returns (assignments: seq<Assignment>)
    ensures decoded.None? ==> assignments == []
    ensures decoded.Some? ==> assignments == ReconstructAll(decoded.value)
  {
    match decoded
    case None =>
      assignments := [];
    case Some(data) =>
      assignments := [];
      for i := 0 to |data|
        invariant |assignments| == i
        invariant forall j :: 0 <= j < i ==> assignments[j] == Reconstruct(data[j])
      {
        var item := data[i];
        if StartsWith(item.name, "Writeup") {
          assignments := assignments + [Create(Writeup, RemoveAll(item.name, "Writeup "), item.dueDate, item.status)];
        } else if StartsWith(item.name, "Execution") {
          assignments := assignments + [Create(Execution, RemoveAll(item.name, "Execution "), item.dueDate, item.status)];
        } else {
          assignments := assignments + [Create(Plain, item.name, item.dueDate, item.status)];
        }
      }
  }

  /** When an assignment comes back from its record unchanged: a writeup's or
      execution's base name must not contain its own prefix, and a plain name
      must not start with either kind word. */
  predicate Restorable(a: Assignment)
    requires WellFormed(a)
  {
    match a.kind
    case Plain => !StartsWith(a.name, "Writeup") && !StartsWith(a.name, "Execution")
    case Writeup => !Contains(BaseName(a), "Writeup ")
    case Execution => !Contains(BaseName(a), "Execution ")
  }

  lemma PrefixedStartsWith(pre: string, word: string, base: string)
    requires StartsWith(pre, word)
    ensures StartsWith(pre + base, word)
  {
    assert (pre + base)[..|word|] == pre[..|word|];
  }

  lemma PrefixedNotStartsWith(pre: string, word: string, base: string)
    requires |word| <= |pre| && !StartsWith(pre, word)
    ensures !StartsWith(pre + base, word)
  {
    assert (pre + base)[..|word|] == pre[..|word|];
  }

  /** Saving and loading one assignment gives back the same assignment, kind
      included, exactly when it is restorable. */
  lemma RoundTrip(a: Assignment)
    requires WellFormed(a)
    ensures Reconstruct(ToDict(a)) == a <==> Restorable(a)
  {
    var base := BaseName(a);
    assert a.name == Prefix(a.kind) + base;
    match a.kind
    case Plain =>
    case Writeup =>
      PrefixedStartsWith("Writeup ", "Writeup", base);
      RemoveAllLeading("Writeup ", base);
      RemoveAllUnchangedIff(base, "Writeup ");
    case Execution =>
      assert "Execution "[..|"Writeup"|][0] != "Writeup"[0];
      PrefixedNotStartsWith("Execution ", "Writeup", base);
      PrefixedStartsWith("Execution ", "Execution", base);
      RemoveAllLeading("Execution ", base);
      RemoveAllUnchangedIff(base, "Execution ");
  }

  /** The list form: loading what was saved gives back the list exactly when
      every entry is restorable; length, order, due dates and statuses always
      come back. */
  lemma {:induction false} LoadSaveRoundTrip(assignments: seq<Assignment>)
    requires forall i :: 0 <= i < |assignments| ==> WellFormed(assignments[i])
    ensures var loaded := ReconstructAll(Serialize(assignments));
      && |loaded| == |assignments|
      && (forall i :: 0 <= i < |assignments| ==>
            loaded[i].dueDate == assignments[i].dueDate && loaded[i].status == assignments[i].status)
      && (loaded == assignments <==> forall i :: 0 <= i < |assignments| ==> Restorable(assignments[i]))
  {
    var loaded := ReconstructAll(Serialize(assignments));
    forall i | 0 <= i < |assignments|
      ensures loaded[i] == assignments[i] <==> Restorable(assignments[i])
    {
      RoundTrip(assignments[i]);
    }
    if loaded != assignments {
      var i :| 0 <= i < |assignments| && loaded[i] != assignments[i];
      assert !Restorable(assignments[i]);
    }
  }

  /** Two entries survive a save and a load exactly when both are restorable. */
  lemma PairRoundTrip(a: Assignment, b: Assignment)
    requires WellFormed(a) && WellFormed(b)
    ensures ReconstructAll(Serialize([a, b])) == [a, b] <==> Restorable(a) && Restorable(b)
  {
    var loaded := ReconstructAll(Serialize([a, b]));
    assert loaded[0] == Reconstruct(ToDict(a)) && loaded[1] == Reconstruct(ToDict(b));
    RoundTrip(a);
    RoundTrip(b);
    assert loaded == [a, b] <==> loaded[0] == a && loaded[1] == b;
  }

  /** A writeup or execution numbered "3" survives a save and a load. */
  lemma NumberedRoundTrip()
    ensures Reconstruct(ToDict(Create(Writeup, "3", "2025-01-01"))) == Create(Writeup, "3", "2025-01-01")
    ensures Reconstruct(ToDict(Create(Execution, "3", "2025-01-01"))) == Create(Execution, "3", "2025-01-01")
    ensures ToDict(Create(Writeup, "3", "2025-01-01")).name == "Writeup 3"
  {
    assert !Contains("3", "Writeup ") by {
      assert !StartsWith("3", "Writeup ") && !StartsWith("", "Writeup ");
    }
    assert !Contains("3", "Execution ") by {
      assert !StartsWith("3", "Execution ") && !StartsWith("", "Execution ");
    }
    RoundTrip(Create(Writeup, "3", "2025-01-01"));
    RoundTrip(Create(Execution, "3", "2025-01-01"));
  }

  /** A plain name that starts with "Writeup" but holds no "Writeup " comes
      back as a writeup, its stored name gaining the prefix. */
  lemma PlainMisread(name: string, dueDate: string, status: string)
    requires StartsWith(name, "Writeup") && !Contains(name, "Writeup ")
    ensures Reconstruct(ToDict(Create(Plain, name, dueDate, status))) == Create(Writeup, name, dueDate, status)
    ensures Reconstruct(ToDict(Create(Plain, name, dueDate, status))).name == "Writeup " + name
  {
    RemoveAllUnchangedIff(name, "Writeup ");
  }

  /** In general a writeup or execution comes back with every occurrence of
      its own prefix removed from its base name. */
  lemma PrefixedReload(kind: Kind, base: string, dueDate: string, status: string)
    requires kind != Plain
    ensures Reconstruct(ToDict(Create(kind, base, dueDate, status))) ==
              Create(kind, RemoveAll(base, Prefix(kind)), dueDate, status)
  {
    if kind == Writeup {
      PrefixedStartsWith("Writeup ", "Writeup", base);
    } else {
      assert "Execution "[..|"Writeup"|][0] != "Writeup"[0];
      PrefixedNotStartsWith("Execution ", "Writeup", base);
      PrefixedStartsWith("Execution ", "Execution", base);
    }
    RemoveAllLeading(Prefix(kind), base);
  }
}
