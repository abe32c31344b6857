# Timetabler, modelled in Dafny

Timetabler is a small weekly-schedule and assignment tracker. A timetable has
five weekdays, Monday to Friday. Each day holds its lectures in the order they
were added. Adding a lecture computes its end time from a start time and a
duration. A day renders as text, one paragraph per lecture. Assignments come in
three kinds: plain, writeup and execution. A writeup or execution stores its
name with a `"Writeup "` or `"Execution "` prefix. Assignments are saved as flat
`{name, due_date, status}` records. On load the kind is guessed again from the
stored name.

This project models that core and proves properties of it:

- `clock.dfy` (module `Clock`): `strptime("%H:%M")` parsing, including its
  one-digit forms; `strftime("%H:%M")` formatting; the end-time sum. The date
  is discarded, so the sum wraps at midnight. A sum outside the range of
  Python's `datetime` raises `OverflowError`.
- `timetable.dfy` (module `Schedule`): the `Lecture` record, and `Day` and
  `Timetable` as classes whose lecture lists change in place. Also the text of
  `get_lectures`.
- `assignments.dfy` (module `Assignments`): the three kinds, their
  constructors (status defaults to `"Not Started"`) and `to_dict`.
- `persistence.dfy` (module `Persistence`): the saved records and the
  reconstruction loop of `load_assignments`, with the round-trip theorems.
- `session.dfy` (module `Session`): three rules of the interactive session
  with the prompts stripped out. A lab yields a writeup and an execution.
  Marking a number completed changes only that entry. The pending list keeps
  what is not `"Completed"`.
- `text.dfy` (module `Text`) and `wrappers.dfy` (module `Wrappers`): the
  Python string operations used (`startswith`, `replace(pat, "")` and
  `join`) and `Option`/`Result`/`Outcome`. `Text.Contains` is a substring
  test the code never calls; it only states when a `replace` changes
  nothing, the side condition of the round-trip theorems.

In four places the code does less, or more, than its names suggest; the model follows the code:

- Load tests `startswith("Writeup")` and `startswith("Execution")` with no
  trailing space. It strips the prefix with `str.replace`, which removes every
  occurrence, not only the first. So a plain assignment named `"Writeups"`
  comes back as a writeup named `"Writeup Writeups"` (`Persistence.PlainMisread`).
  A writeup whose base name contains `"Writeup "` loses that inner occurrence
  (`Persistence.PrefixedReload`).
- A day index from -5 to -1 is accepted, because Python list indexing counts
  from the end. Only indices outside -5..4 raise `IndexError`.
- A negative duration is accepted; it moves the end time backwards.
- The end time is computed before the day is looked up. So a bad start time
  is reported even when the day index is also out of range.

## Model

| member | source | states |
|---|---|---|
| `Clock.ParseTime` | Timetabler.py:53 | a start time that strptime accepts denotes a minute of the day below 1440 and is 3 to 5 characters long |
| `Clock.FormatTime` | Timetabler.py:54 | `strftime("%H:%M")` of a time of day is five characters with a colon at position 2; `Clock.ParseFormatTime` is its inverse |
| `Clock.EndTime` | Timetabler.py:52-54 | a successful end time is five characters long; what it computes is stated by `Clock.EndTimeWraps` and `Clock.EndTimeFails` |
| `Clock.ParseFormatTime` | Timetabler.py:52-54 | parsing the zero-padded `HH:MM` text of any time of day gives back that time |
| `Clock.FormatParseTime` | Timetabler.py:52-54 | on five-character text the parser is one-to-one: formatting what it parsed gives back the text |
| `Clock.AdvanceWraps` | Timetabler.py:52-54 | the 1900-01-01 date that strptime supplies drops out: a parsed start plus a duration in range ends at `(start + duration) mod 1440` |
| `Clock.EndTimeWraps` | Timetabler.py:52-54 | when the start parses and the sum stays in the `datetime` range, the end time is `FormatTime((start + duration) mod 1440)` and parses back to that minute |
| `Clock.EndTimeFails` | Timetabler.py:52-54 | the end time fails exactly when the start does not parse (`ParseError`) or the sum leaves the `datetime` range (`Overflow`) |
| `Clock.EndTimeCompose` | Timetabler.py:52-54 | adding `d1` and then `d2` minutes ends where adding `d1 + d2` ends, when nothing overflows |
| `Clock.EndTimeMidnight` | Timetabler.py:52-54 | `23:50` plus 20 minutes ends at `00:10` |
| `Clock.EndTimeMorning` | Timetabler.py:52-54 | `09:00` (and the one-digit `9:00`) plus 50 minutes ends at `09:50` |
| `Clock.EndTimeRejects` | Timetabler.py:53 | `24:00` is a parse error |
| `Schedule.DayIndex` | Timetabler.py:63 | an index selects a day exactly when it lies in -5..4, and then selects day `idx mod 5` |
| `Schedule.Block` | Timetabler.py:69-72 | a lecture's paragraph starts with its name, ends with a newline, and is as long as its six fields plus the 38 fixed characters of the template |
| `Schedule.Blocks` | Timetabler.py:66-73 | one paragraph per lecture, paragraph i formatted from lecture i |
| `Schedule.RenderDay` | Timetabler.py:66-74 | a day without lectures renders as `"No lectures scheduled"`; otherwise the text ends with the paragraph of its last lecture |
| `Schedule.RenderDaySingle` | Timetabler.py:66-74 | a day with one lecture renders as exactly that lecture's paragraph |
| `Schedule.RenderDaySnoc` | Timetabler.py:66-74 | appending a lecture to a non-empty day appends a newline and its paragraph to the text |
| `Schedule.RenderDaySplit` | Timetabler.py:66-74 | the text of a day is the text of its first k lectures, a newline, then the remaining paragraphs joined by newlines |
| `Schedule.RenderDayEmptyIff` | Timetabler.py:74 | the text is `"No lectures scheduled"` if and only if the day has no lectures |
| `Schedule.Day.constructor` | Timetabler.py:36-38 | a new day has the given name and no lectures |
| `Schedule.Day.AddLecture` | Timetabler.py:40-41 | the lecture list grows by exactly the given lecture at the end |
| `Schedule.Timetable.constructor` | Timetabler.py:45-47 | a new timetable has five fresh days named monday to friday in order, all empty |
| `Schedule.Timetable.AddLecture` | Timetabler.py:49-63 | on success the chosen day gains exactly one lecture at the end, carrying the given fields and the computed end time, and the other four days are unchanged; on a time error or a bad index nothing changes; the five days and their names are kept |
| `Schedule.Timetable.GetLectures` | Timetabler.py:65-74 | the loop's result is the rendering of the chosen day, or `IndexError` for an index outside -5..4 |
| `Schedule.MondayExample` | Timetabler.py:49-74 | a 50-minute Monday lecture from 09:00 renders with end time 09:50; index 5 is refused; Tuesday stays `"No lectures scheduled"` |
| `Assignments.Create` | Timetabler.py:5-22 | each constructor stores its kind's prefix followed by the base name and keeps due date and status; the base name can be read back |
| `Assignments.CreateBaseName` | Timetabler.py:5-22 | every well-formed assignment is what its constructor builds from its base name |
| `Assignments.StoredName` | Timetabler.py:15-22 | a writeup stores `"Writeup " + b`, an execution `"Execution " + b`, a plain assignment `b`; a missing status is `"Not Started"` |
| `Assignments.ToDict` | Timetabler.py:11-12 | the record holds the stored name, due date and status unchanged |
| `Text.RemoveAll` | Timetabler.py:99 | `replace(pat, "")` never makes a string longer |
| `Text.RemoveAllUnchangedIff` | Timetabler.py:91 | `replace(pat, "")` leaves a string unchanged exactly when `pat` does not occur in it, and otherwise shortens it |
| `Text.JoinSplit` | Timetabler.py:74 | a join splits at any inner boundary into two joins around one separator |
| `Persistence.Serialize` | Timetabler.py:77-79 | the saved list has one record per assignment, in order, each its `to_dict` |
| `Persistence.Reconstruct` | Timetabler.py:87-107 | due date and status carry over; the result is a writeup exactly when the name starts with `"Writeup"`, an execution exactly when it does not but starts with `"Execution"`, and plain otherwise; a plain result keeps the literal name, and a writeup's or execution's base name is the stored name with every occurrence of its prefix removed |
| `Persistence.ReconstructAll` | Timetabler.py:86-108 | reconstruction keeps the length and order of the records |
| `Persistence.LoadAssignments` | Timetabler.py:82-110 | a missing or undecodable file loads as an empty list; otherwise the loop builds exactly the reconstruction of each record, in order |
| `Persistence.RoundTrip` | Timetabler.py:86-107 | saving and loading one assignment gives back the same assignment, kind included, if and only if its base name does not contain its own prefix (writeup, execution) or its name starts with neither kind word (plain) |
| `Persistence.LoadSaveRoundTrip` | Timetabler.py:77-108 | load after save keeps length, order, due dates and statuses of any list, and gives back the list itself if and only if every entry is restorable |
| `Persistence.NumberedRoundTrip` | Timetabler.py:88-103 | a writeup or execution numbered `"3"` is stored as `"Writeup 3"` (resp. `"Execution 3"`) and comes back unchanged |
| `Persistence.PlainMisread` | Timetabler.py:88-91 | a plain name starting with `"Writeup"` but without `"Writeup "` comes back as a writeup whose stored name gains the prefix |
| `Persistence.PrefixedReload` | Timetabler.py:88-103 | a writeup or execution comes back with every occurrence of its prefix removed from its base name |
| `Session.NewAssignmentsFor` | Timetabler.py:194-216 | a lab lecture yields a writeup then an execution, any other lecture one plain assignment, all `"Not Started"`, with the entered names and due dates |
| `Session.IsLab` | Timetabler.py:194 | `type.lower() == "lab"` holds exactly for three characters spelling `l`, `a`, `b`, each in either case |
| `Session.IsLabExamples` | Timetabler.py:194 | the lab test ignores case: `Lab` and `LAB` are labs, `Theory` and `Labs` are not |
| `Persistence.PairRoundTrip` | Timetabler.py:77-108 | a list of two assignments survives save and load if and only if both are restorable |
| `Session.LabAssignmentsRoundTrip` | Timetabler.py:194-208 | a lab's two assignments survive save and load if and only if the writeup number holds no `"Writeup "` and the experiment number no `"Execution "` |
| `Session.MarkCompleted` | Timetabler.py:233-235 | a number from 1 to the list length sets that entry's status to `"Completed"` and nothing else; any other number changes nothing |
| `Session.Pending` | Timetabler.py:244 | the pending list holds exactly the assignments whose status is not `"Completed"`, and a one-entry list keeps its entry exactly when it is not completed |
| `Session.PendingConcat` | Timetabler.py:244 | the filter distributes over concatenation; with the one-entry case this fixes the order and the number of copies of every kept assignment |
| `Session.MarkCompletedPending` | Timetabler.py:233-244 | marking an entry completed shrinks the pending list by one if the entry was pending, and by none otherwise |
| `Session.MarkCompletedPersists` | Timetabler.py:233-241 | a completion survives a save and a load, and the completed entry is then not pending |

## Left out

- File I/O and JSON (`open`, `json.dump`, `json.load`) are not modelled. The
  decoded file is a parameter `Option<seq<Record>>`. `None` stands for a
  missing file or invalid JSON; both load as an empty list.
- Only JSON that decodes to a list of objects with string fields `name`,
  `due_date` and `status` is modelled, because records here hold strings.
  Other JSON splits two ways in the source. An entry without one of the
  three keys, an entry or `name` that cannot be indexed or has no
  `startswith`, and a top-level number, `true`/`false` or `null` raise an
  uncaught exception. A `due_date` or `status` of any other JSON type is
  accepted and stored as it is, and a top-level empty object or empty string
  loads as an empty list; neither of these is modelled.
- The `timetable.json` sentinel check and the placeholder it writes are file
  I/O that feed nothing into the model.
- Console prompting and printing are not modelled. This covers `input`,
  `print`, the loop over today's lectures asking about assignments and the
  menu loop. The weekday lookup from `datetime.now()` is left out too, because
  it depends on the clock.
- `int(duration)` and `int(complete)` parsing, with its `ValueError`, are left
  out. The duration and the chosen number are already integers here.
- Clock.ParseTime: only ASCII digits are modelled. Python's regular
  expression `\d` also matches other Unicode decimal digits.
- Session.IsLab: lowercasing is modelled for ASCII only. No non-ASCII
  character lowercases to `l`, `a` or `b`, so the test has the same outcome.
- Clock.EndTime: its own contract says only that a result is five
  characters long. `Clock.EndTimeWraps` states what it computes.
- Session.MarkCompleted: the source mutates the `status` field of the
  assignment object in the list. It is modelled on a sequence of values. The
  source never shares one assignment object between two list entries, so no
  aliasing is lost.
