/** The three kinds of assignment and their flat record form. */
module Assignments {
  import opened Text

  /** `Assignment`, `Writeup` and `Execution`. */
  datatype Kind = Plain | Writeup | Execution

  /** An assignment as the program holds it: the name is the stored,
      already prefixed, name. */
  datatype Assignment = Assignment(kind: Kind, name: string, dueDate: string, status: string)

  /** The dictionary `to_dict` returns (and the JSON object that is saved). */
  datatype Record = Record(name: string, dueDate: string, status: string)

  const NotStarted := "Not Started"
  const Completed := "Completed"

  /** What each kind puts in front of the name it is given. */
  function Prefix(kind: Kind): string
  {
    match kind
    case Plain => ""
    case Writeup => "Writeup "
    case Execution => "Execution "
  }

  /** The stored name carries its kind's prefix, which every constructor ensures. */
  predicate WellFormed(a: Assignment)
  {
    StartsWith(a.name, Prefix(a.kind))
  }

  /** The name the assignment was created with. */
  function BaseName(a: Assignment): string
    requires WellFormed(a)
  {
    a.name[|Prefix(a.kind)|..]
  }

  /** The constructors of `Assignment`, `Writeup` and `Execution`, with the
      status defaulting to "Not Started". */
  function Create(kind: Kind, base: string, dueDate: string, status: string := NotStarted): (a: Assignment)
    ensures WellFormed(a) && a.kind == kind && BaseName(a) == base
    ensures a.name == Prefix(kind) + base
    ensures a.dueDate == dueDate && a.status == status
  {
    Assignment(kind, Prefix(kind) + base, dueDate, status)
  }

  /** Every well-formed assignment is the one its constructor builds from
      its base name: `Create` and `BaseName` are inverse. */
  lemma CreateBaseName(a: Assignment)
    requires WellFormed(a)
    ensures Create(a.kind, BaseName(a), a.dueDate, a.status) == a
  {
    assert Prefix(a.kind) + BaseName(a) == a.name;
  }

  /** `to_dict`: the stored name, the due date and the status, unchanged. */
  function ToDict(a: Assignment): (r: Record)
    ensures r.name == a.name && r.dueDate == a.dueDate && r.status == a.status
  {
    Record(a.name, a.dueDate, a.status)
  }

  /** The stored name of a writeup or execution names its base name after
      the prefix; a plain one is its base name. */
  lemma StoredName(kind: Kind, base: string, dueDate: string)
    ensures kind == Writeup ==> Create(kind, base, dueDate).name == "Writeup " + base
    ensures kind == Execution ==> Create(kind, base, dueDate).name == "Execution " + base
    ensures kind == Plain ==> Create(kind, base, dueDate).name == base
    ensures Create(kind, base, dueDate).status == NotStarted
  {
  }
}
