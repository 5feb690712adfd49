/** The records the application shares between its store, its components and
    its services (src/types/index.ts). Dates are opaque `YYYY-MM-DD` strings;
    timestamps are integers supplied by the caller. */
module FamilyTypes {

  datatype Option<T> = None | Some(value: T)

  /** `'present' | 'absent' | 'unknown'` */
  datatype AttendanceStatus = Present | Absent | Unknown

  /** The string a status is stored and compared as. */
  function StatusName(s: AttendanceStatus): string
  {
    match s
    case Present => "present"
    case Absent => "absent"
    case Unknown => "unknown"
  }

  datatype FamilyMember = FamilyMember(id: string, name: string, color: string, order: int)

  /** One member's attendance on one day; `note` is optional. */
  datatype AttendanceRecord = AttendanceRecord(
    memberId: string,
    date: string,
    status: AttendanceStatus,
    note: Option<string>,
    updatedAt: int)

  /** date -> memberId -> record */
  type WeeklyAttendance = map<string, map<string, AttendanceRecord>>

  datatype Note = Note(
    id: string,
    memberId: string,
    date: string,
    text: string,
    createdAt: int,
    updatedAt: int)

  /** The part of a note a component hands to `onAddNote`
      (`Omit<Note, 'id' | 'createdAt' | 'updatedAt'>`). */
  datatype NoteInput = NoteInput(memberId: string, date: string, text: string)

  /** A member without its id (`Omit<FamilyMember, 'id'>`). */
  datatype MemberData = MemberData(name: string, color: string, order: int)

  /** Whether `w` holds a record for `memberId` on `date`. */
  predicate HasEntry(w: WeeklyAttendance, date: string, memberId: string)
  {
    date in w && memberId in w[date]
  }

  /** The day's map, or the empty map for a day without records
      (`attendance[date] || {}`). */
  function DayOf(w: WeeklyAttendance, date: string): map<string, AttendanceRecord>
  {
    if date in w then w[date] else map[]
  }

  /** `s.filter(keep)`: the elements that satisfy `keep`, in order. */
  function Filter<T(!new)>(s: seq<T>, keep: T -> bool): (r: seq<T>)
    ensures |r| <= |s|
    ensures forall x :: x in r <==> x in s && keep(x)
  {
    if s == [] then []
    else
      assert s == [s[0]] + s[1..];
      (if keep(s[0]) then [s[0]] else []) + Filter(s[1..], keep)
  }

  /** A filter that every element passes changes nothing. */
  lemma {:induction false} FilterKeepsAll<T(!new)>(s: seq<T>, keep: T -> bool)
    requires forall x | x in s :: keep(x)
    ensures Filter(s, keep) == s
  {
    if s != [] {
      assert s == [s[0]] + s[1..];
      FilterKeepsAll(s[1..], keep);
    }
  }

  /** A filter that no element passes leaves nothing. */
  lemma {:induction false} FilterDropsAll<T(!new)>(s: seq<T>, keep: T -> bool)
    requires forall x | x in s :: !keep(x)
    ensures Filter(s, keep) == []
  {
    if s != [] {
      assert s[0] in s;
      FilterDropsAll(s[1..], keep);
    }
  }

  /** Filtering distributes over concatenation, so it keeps the original
      order of the elements it selects. */
  lemma {:induction false} FilterAppend<T(!new)>(a: seq<T>, b: seq<T>, keep: T -> bool)
    ensures Filter(a + b, keep) == Filter(a, keep) + Filter(b, keep)
  {
    if a == [] {
      assert a + b == b;
    } else {
      assert (a + b)[1..] == a[1..] + b;
      FilterAppend(a[1..], b, keep);
    }
  }

  function OnDate(date: string): Note -> bool
  {
    (n: Note) => n.date == date
  }

  /** Notes whose date equals `date`, in their original order
      (`notes.filter(note => note.date === date)`). */
  function NotesForDate(notes: seq<Note>, date: string): (r: seq<Note>)
    ensures forall n :: n in r <==> n in notes && n.date == date
  {
    Filter(notes, OnDate(date))
  }

  /** The notes of one date are those of the earlier notes followed by
      those of the later ones. */
  lemma NotesForDateAppend(a: seq<Note>, b: seq<Note>, date: string)
    ensures NotesForDate(a + b, date) == NotesForDate(a, date) + NotesForDate(b, date)
  {
    FilterAppend(a, b, OnDate(date));
  }
}
