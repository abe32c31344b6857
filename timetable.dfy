/** Lectures, the five weekdays that hold them, and the text a day renders to. */
module Schedule {
  import opened Wrappers
  import opened Text
  import Clock

  /** One scheduled class; immutable once built. Times are kept as the text
      they were given or computed as. */
  datatype Lecture = Lecture(
    name: string,
    startTime: string,
    endTime: string,
    location: string,
    instructor: string,
    lectureType: string)

  /** The errors `add_lecture` and `get_lectures` can raise. */
  datatype ScheduleError = TimeFault(cause: Clock.TimeError) | IndexError

  const DayNames: seq<string> := ["monday", "tuesday", "wednesday", "thursday", "friday"]

  const NoLectures := "No lectures scheduled"

  /** Python indexing into the list of five days: `-5..-1` count from Friday
      backwards, anything else outside `0..4` raises `IndexError`. */
  function DayIndex(idx: int): (r: Option<nat>)
    ensures r.Some? <==> -|DayNames| <= idx < |DayNames|
    ensures r.Some? ==> r.value < |DayNames| && r.value == idx % |DayNames|
  {
    if 0 <= idx < |DayNames| then Some(idx)
    else if -|DayNames| <= idx < 0 then Some(idx + |DayNames|)
    else None
  }

  /** The paragraph that `get_lectures` writes for one lecture. */
  function Block(l: Lecture): (r: string)
    ensures |r| == |l.name| + |l.lectureType| + |l.startTime| + |l.endTime|
                   + |l.location| + |l.instructor| + 38
    ensures StartsWith(r, l.name) && r[|r| - 1] == '\n'
  {
    l.name + " (" + l.lectureType + ")\n"
    + "Time: " + l.startTime + " - " + l.endTime + "\n"
    + "Location: " + l.location + "\n"
    + "Instructor: " + l.instructor + "\n"
  }

  /** One paragraph per lecture, in insertion order. */
  function Blocks(ls: seq<Lecture>): (r: seq<string>)
    ensures |r| == |ls|
    ensures forall i :: 0 <= i < |ls| ==> r[i] == Block(ls[i])
  {
    if ls == [] then [] else Blocks(ls[..|ls| - 1]) + [Block(ls[|ls| - 1])]
  }

  /** The text of a day: its paragraphs joined by newlines, or the fixed
      message when there are none. */
  function RenderDay(ls: seq<Lecture>): (r: string)
    ensures ls == [] ==> r == NoLectures
    ensures ls != [] ==> var last := Block(ls[|ls| - 1]);
              |last| <= |r| && r[|r| - |last|..] == last
  {
    if ls == [] then NoLectures
    else
      var bs := Blocks(ls);
      assert |bs| > 1 ==> bs[..|bs| - 1] != [];
      Join(bs, "\n")
  }

  /** A day with one more lecture renders as before, then a newline, then the
      new lecture's paragraph. */
  lemma RenderDaySnoc(ls: seq<Lecture>, l: Lecture)
    requires ls != []
    ensures RenderDay(ls + [l]) == RenderDay(ls) + "\n" + Block(l)
  {
    assert (ls + [l])[..|ls|] == ls;
    assert Blocks(ls + [l]) == Blocks(ls) + [Block(l)];
    JoinSnoc(Blocks(ls), "\n", Block(l));
  }

  /** A single lecture renders as exactly its paragraph. */
  lemma RenderDaySingle(l: Lecture)
    ensures RenderDay([l]) == Block(l)
  {
  }

  /** The rendering of the first `k` lectures is followed by a newline and the
      paragraphs of the rest: the paragraph of lecture `k` starts right after
      that of lecture `k - 1` and one newline. */
  lemma RenderDaySplit(ls: seq<Lecture>, k: nat)
    requires 0 < k < |ls|
    ensures RenderDay(ls) == RenderDay(ls[..k]) + "\n" + Join(Blocks(ls[k..]), "\n")
  {
    BlocksPrefix(ls, k);
    BlocksSuffix(ls, k);
    JoinSplit(Blocks(ls), "\n", k);
  }

  /** The paragraphs of the first `k` lectures are the first `k` paragraphs. */
  lemma BlocksPrefix(ls: seq<Lecture>, k: nat)
    requires k <= |ls|
    ensures Blocks(ls)[..k] == Blocks(ls[..k])
  {
    var bs, front := Blocks(ls), Blocks(ls[..k]);
    forall i | 0 <= i < k ensures bs[..k][i] == front[i] {
      assert ls[..k][i] == ls[i];
    }
  }

  /** The paragraphs of the lectures after the first `k` are the paragraphs
      after the first `k`. */
  lemma BlocksSuffix(ls: seq<Lecture>, k: nat)
    requires k <= |ls|
    ensures Blocks(ls)[k..] == Blocks(ls[k..])
  {
    var bs, back := Blocks(ls), Blocks(ls[k..]);
    forall i | 0 <= i < |ls| - k ensures bs[k..][i] == back[i] {
      assert bs[k..][i] == bs[k + i] == Block(ls[k + i]);
      assert ls[k..][i] == ls[k + i];
    }
  }

  /** The fixed message appears exactly for a day with no lectures: any
      non-empty rendering ends with a newline. */
  lemma RenderDayEmptyIff(ls: seq<Lecture>)
    ensures RenderDay(ls) == NoLectures <==> ls == []
  {
    if ls != [] {
      var r, b := RenderDay(ls), Block(ls[|ls| - 1]);
      assert r[|r| - 1] == r[|r| - |b|..][|b| - 1] == '\n';
      assert NoLectures[|NoLectures| - 1] == 'd';
    }
  }

  /** A weekday: its name and its lectures in the order they were added. */
  class Day {
    const name: string
    var lectures: seq<Lecture>

    constructor (name: string)
      ensures this.name == name && lectures == []
    {
      this.name := name;
      lectures := [];
    }

    method AddLecture(l: Lecture)
      modifies this
      ensures lectures == old(lectures) + [l]
    {
      lectures := lectures + [l];
    }
  }

  /** Exactly five days, Monday to Friday, indexed 0 to 4. */
  class Timetable {
    const days: seq<Day>

    /** The five days carry the five weekday names in order (so they are
        also five distinct objects). */
    ghost predicate Valid()
    {
      |days| == |DayNames| &&
      forall i :: 0 <= i < |days| ==> days[i].name == DayNames[i]
    }

    /** The lectures of each day, Monday first. */
    ghost function Lectures(): (s: seq<seq<Lecture>>)
      requires Valid()
      reads days
      ensures |s| == |DayNames|
      ensures forall i :: 0 <= i < |DayNames| ==> s[i] == days[i].lectures
    {
      [days[0].lectures, days[1].lectures, days[2].lectures, days[3].lectures, days[4].lectures]
    }

    constructor ()
      ensures Valid()
      ensures forall i :: 0 <= i < |days| ==> fresh(days[i])
      ensures Lectures() == [[], [], [], [], []]
    {
      var monday := new Day(DayNames[0]);
      var tuesday := new Day(DayNames[1]);
      var wednesday := new Day(DayNames[2]);
      var thursday := new Day(DayNames[3]);
      var friday := new Day(DayNames[4]);
      days := [monday, tuesday, wednesday, thursday, friday];
    }

    /** `add_lecture`: compute the end time, then append the lecture to the
        chosen day. A bad start time or an overflow is raised before the day
        index is looked at; on any error no day changes. */
    method AddLecture(name: string, dayIdx: int, startTime: string, duration: int,
                      location: string, instructor: string, lectureType: string)
      returns (r: Outcome<ScheduleError>)
      requires Valid()
      modifies days
      ensures Valid()
      ensures match Clock.EndTime(startTime, duration)
        case Failure(e) => r == Fail(TimeFault(e)) && Lectures() == old(Lectures())
        case Success(endTime) =>
          match DayIndex(dayIdx)
          case None => r == Fail(IndexError) && Lectures() == old(Lectures())
          case Some(k) =>
            r == Pass &&
            Lectures() == old(Lectures())[k := old(Lectures())[k] +
              [Lecture(name, startTime, endTime, location, instructor, lectureType)]]
    {
      match Clock.EndTime(startTime, duration)
      case Failure(e) =>
        r := Fail(TimeFault(e));
      case Success(endTime) =>
        var lecture := Lecture(name, startTime, endTime, location, instructor, lectureType);
        match DayIndex(dayIdx)
        case None =>
          r := Fail(IndexError);
        case Some(k) =>
          days[k].AddLecture(lecture);
          r := Pass;
    }

    /** `get_lectures`: the text of one day, built paragraph by paragraph. */
    method GetLectures(dayIdx: int) returns (r: Result<string, ScheduleError>)
      requires Valid()
      ensures match DayIndex(dayIdx)
        case None => r == Failure(IndexError)
        case Some(k) => r == Success(RenderDay(Lectures()[k]))
    {
      match DayIndex(dayIdx)
      case None =>
        r := Failure(IndexError);
      case Some(k) =>
        var lectures := days[k].lectures;
        var res: seq<string> := [];
        for i := 0 to |lectures|
          invariant |res| == i
          invariant forall j :: 0 <= j < i ==> res[j] == Block(lectures[j])
        {
          res := res + [Block(lectures[i])];
        }
        assert res == Blocks(lectures);
        r := Success(if res == [] then NoLectures else Join(res, "\n"));
    }
  }

  /** A fresh timetable given one fifty-minute Monday lecture from 09:00:
      Monday reads as that lecture's paragraph with end time 09:50, an index
      of 5 is refused, and Tuesday is still empty. */
  method MondayExample() returns (monday: string, badIndex: Outcome<ScheduleError>, tuesday: string)
    ensures monday == Block(Lecture("Algorithms", "09:00", "09:50", "Room 1", "Dr. X", "Theory"))
    ensures badIndex == Fail(IndexError)
    ensures tuesday == NoLectures
  {
    var t := new Timetable();
    Clock.EndTimeMorning();
    var lecture := Lecture("Algorithms", "09:00", "09:50", "Room 1", "Dr. X", "Theory");
    assert DayIndex(0) == Some(0) && DayIndex(1) == Some(1) && DayIndex(5) == None;
    var added := t.AddLecture("Algorithms", 0, "09:00", 50, "Room 1", "Dr. X", "Theory");
    assert t.Lectures()[0] == [] + [lecture];
    assert t.Lectures()[1] == [];
    badIndex := t.AddLecture("Algorithms", 5, "09:00", 50, "Room 1", "Dr. X", "Theory");
    var text := t.GetLectures(0);
    RenderDaySingle(lecture);
    monday := text.value;
    text := t.GetLectures(1);
    tuesday := text.value;
  }
}
