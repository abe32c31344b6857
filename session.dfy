/** The rules the interactive session applies to the assignment list, with
    the prompting taken out: what a lecture's assignment question adds, what
    marking one completed changes, and which assignments are still pending. */
module Session {
  import opened Text
  import opened Assignments
  import Persistence

  /** ASCII `str.lower` of one character. */
  function LowerChar(c: char): char
  {
    if 'A' <= c <= 'Z' then ((c as int) + 32) as char else c
  }

  /** ASCII `str.lower`. */
  function Lower(s: string): (r: string)
    ensures |r| == |s| && forall i :: 0 <= i < |s| ==> r[i] == LowerChar(s[i])
  {
    seq(|s|, i requires 0 <= i < |s| => LowerChar(s[i]))
  }

  /** `lecture.type.lower() == "lab"`: three letters spelling "lab" in any case. */
  predicate IsLab(lectureType: string)
    ensures IsLab(lectureType) <==>
              |lectureType| == 3 && lectureType[0] in "lL" && lectureType[1] in "aA" && lectureType[2] in "bB"
  {
    Lower(lectureType) == "lab"
  }

  /** What answering "y" for a lecture appends: for a lab, a writeup named by
      the writeup number and then an execution named by the experiment
      number; otherwise one plain assignment named `first`, and `second` and
      `secondDue` are never asked for. All start as "Not Started". */
  function NewAssignmentsFor(lectureType: string, first: string, firstDue: string,
                             second: string, secondDue: string): (r: seq<Assignment>)
    ensures |r| == if IsLab(lectureType) then 2 else 1
    ensures forall i :: 0 <= i < |r| ==> WellFormed(r[i]) && r[i].status == NotStarted
    ensures r[0].kind == (if IsLab(lectureType) then Writeup else Plain)
    ensures BaseName(r[0]) == first && r[0].dueDate == firstDue
    ensures IsLab(lectureType) ==>
              r[1].kind == Execution && BaseName(r[1]) == second && r[1].dueDate == secondDue
  {
    if IsLab(lectureType) then
      [Create(Writeup, first, firstDue, NotStarted), Create(Execution, second, secondDue, NotStarted)]
    else
      [Create(Plain, first, firstDue, NotStarted)]
  }

  /** Only the spelling of "lab" matters, not its case. */
  lemma IsLabExamples()
    ensures IsLab("Lab") && IsLab("LAB") && IsLab("lab")
    ensures !IsLab("Theory") && !IsLab("Other") && !IsLab("Labs")
  {
  }

  /** The two assignments of a lab survive a save and a load exactly when
      the writeup number holds no "Writeup " and the experiment number
      no "Execution ". */
  lemma LabAssignmentsRoundTrip(lectureType: string, first: string, firstDue: string,
                                second: string, secondDue: string)
    requires IsLab(lectureType)
    ensures var r := NewAssignmentsFor(lectureType, first, firstDue, second, secondDue);
      Persistence.ReconstructAll(Persistence.Serialize(r)) == r <==>
        !Contains(first, "Writeup ") && !Contains(second, "Execution ")
  {
    var r := NewAssignmentsFor(lectureType, first, firstDue, second, secondDue);
    assert r == [r[0], r[1]];
    Persistence.PairRoundTrip(r[0], r[1]);
    assert Persistence.Restorable(r[0]) <==> !Contains(first, "Writeup ");
    assert Persistence.Restorable(r[1]) <==> !Contains(second, "Execution ");
  }

  /** Marking the assignment with 1-based number `choice` completed; a number
      outside the list changes nothing. */
  function MarkCompleted(assignments: seq<Assignment>, choice: int): (r: seq<Assignment>)
    ensures |r| == |assignments|
    ensures !(1 <= choice <= |assignments|) ==> r == assignments
    ensures 1 <= choice <= |assignments| ==>
              var k := choice - 1;
              r[k].status == Completed && r[k].kind == assignments[k].kind
              && r[k].name == assignments[k].name && r[k].dueDate == assignments[k].dueDate
    ensures forall j :: 0 <= j < |assignments| && j != choice - 1 ==> r[j] == assignments[j]
  {
    var k := choice - 1;
    if 0 <= k < |assignments| then assignments[k := assignments[k].(status := Completed)]
    else assignments
  }

  /** The assignments whose status is not "Completed", in list order. */
  function Pending(assignments: seq<Assignment>): (r: seq<Assignment>)
    ensures |r| <= |assignments|
    ensures forall a :: a in r ==> a in assignments && a.status != Completed
    ensures forall a :: a in assignments && a.status != Completed ==> a in r
    ensures |assignments| == 1 ==> r == if assignments[0].status != Completed then assignments else []
  {
    if assignments == [] then []
    else
      var rest := Pending(assignments[1..]);
      assert forall a :: a in assignments[1..] ==> a in assignments;
      if assignments[0].status != Completed then [assignments[0]] + rest else rest
  }

  /** Filtering a concatenation filters each part in place: with the
      one-element case in the contract of `Pending`, this fixes the order and
      the number of copies of every kept assignment. */
  lemma {:induction false} PendingConcat(xs: seq<Assignment>, ys: seq<Assignment>)
    ensures Pending(xs + ys) == Pending(xs) + Pending(ys)
    decreases |xs|
  {
    if xs == [] {
      assert xs + ys == ys;
    } else {
      assert (xs + ys)[0] == xs[0];
      assert (xs + ys)[1..] == xs[1..] + ys;
      PendingConcat(xs[1..], ys);
    }
  }

  /** Marking one assignment completed removes one pending assignment if it
      was pending, and none otherwise. */
  lemma {:induction false} MarkCompletedPending(assignments: seq<Assignment>, choice: int)
    requires 1 <= choice <= |assignments|
    ensures |Pending(MarkCompleted(assignments, choice))| ==
              |Pending(assignments)| - (if assignments[choice - 1].status != Completed then 1 else 0)
    decreases |assignments|
  {
    var marked := MarkCompleted(assignments, choice);
    if choice == 1 {
      assert marked[1..] == assignments[1..];
    } else {
      assert marked[1..] == MarkCompleted(assignments[1..], choice - 1);
      MarkCompletedPending(assignments[1..], choice - 1);
      assert marked[0] == assignments[0];
    }
  }

  /** A completion is kept through a save and a load, and the completed
      assignment is no longer pending afterwards. */
  lemma MarkCompletedPersists(assignments: seq<Assignment>, choice: int)
    requires 1 <= choice <= |assignments|
    ensures var loaded := Persistence.ReconstructAll(Persistence.Serialize(MarkCompleted(assignments, choice)));
      loaded[choice - 1].status == Completed && loaded[choice - 1] !in Pending(loaded)
  {
  }
}
