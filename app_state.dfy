/** The application's local state (src/App.tsx): the member list, the
    attendance map and the note list, and the handlers that update them. The
    attendance state is the nested date -> member -> record map that its
    handlers build. The functions say what each handler computes; the `App`
    class holds the state and its methods perform the handlers' updates. */
module AppState {
  import opened FamilyTypes
  import FamilyStore
  import WeeklyCalendar

  // ---------------------------------------------------------------------------
  // Attendance

  /** `handleAttendanceChange`: the record for (date, member) becomes a new
      record with the given status; the day's map is created if missing. */
  function SetAttendance(w: WeeklyAttendance, memberId: string, date: string, status: AttendanceStatus,
                         now: int): WeeklyAttendance
  {
    w[date := DayOf(w, date)[memberId := AttendanceRecord(memberId, date, status, None, now)]]
  }

  /** The changed entry holds the new status; every other entry, present or
      absent, is as it was. */
  lemma SetAttendanceEffect(w: WeeklyAttendance, memberId: string, date: string, status: AttendanceStatus,
                            now: int)
    ensures var r := SetAttendance(w, memberId, date, status, now);
      HasEntry(r, date, memberId) && r[date][memberId].status == status &&
      r[date][memberId] == AttendanceRecord(memberId, date, status, None, now)
    ensures var r := SetAttendance(w, memberId, date, status, now);
      r.Keys == w.Keys + {date} &&
      forall d, m | (d, m) != (date, memberId) ::
        HasEntry(r, d, m) == HasEntry(w, d, m) && (HasEntry(w, d, m) ==> r[d][m] == w[d][m])
  {
  }

  /** After the change, the calendar shows the new status in that cell. */
  lemma CellShowsChange(w: WeeklyAttendance, memberId: string, date: string, status: AttendanceStatus, now: int)
    ensures WeeklyCalendar.CellStatus(SetAttendance(w, memberId, date, status, now), date, memberId) == status
  {
    SetAttendanceEffect(w, memberId, date, status, now);
  }

  /** The attendance after a member's delete: the member's entry is gone from
      every day; the days themselves stay, possibly empty. */
  function RemoveMemberAttendance(w: WeeklyAttendance, memberId: string): (r: WeeklyAttendance)
    ensures r.Keys == w.Keys
    ensures forall d | d in r :: memberId !in r[d]
    ensures forall d, m | d in w && m in w[d] && m != memberId :: m in r[d] && r[d][m] == w[d][m]
    ensures forall d, m | d in r && m in r[d] :: m in w[d]
  {
    map d | d in w :: w[d] - {memberId}
  }

  // ---------------------------------------------------------------------------
  // Members

  /** `Partial<FamilyMember>`: the fields the patch sets. */
  datatype MemberPatch = MemberPatch(id: Option<string>, name: Option<string>, color: Option<string>,
                                     order: Option<int>)

  function Pick<T>(patch: Option<T>, current: T): T
  {
    if patch.Some? then patch.value else current
  }

  /** `{ ...member, ...patch }` */
  function ApplyPatch(m: FamilyMember, p: MemberPatch): FamilyMember
  {
    FamilyMember(Pick(p.id, m.id), Pick(p.name, m.name), Pick(p.color, m.color), Pick(p.order, m.order))
  }

  /** Applying a patch twice is applying it once; the empty patch changes
      nothing. */
  lemma ApplyPatchIdempotent(m: FamilyMember, p: MemberPatch)
    ensures ApplyPatch(ApplyPatch(m, p), p) == ApplyPatch(m, p)
    ensures ApplyPatch(m, MemberPatch(None, None, None, None)) == m
  {
  }

  /** `handleUpdateMember`: every member with a matching id gets the patch. */
  function UpdateMembers(ms: seq<FamilyMember>, id: string, p: MemberPatch): (r: seq<FamilyMember>)
    ensures |r| == |ms|
    ensures forall i | 0 <= i < |ms| && ms[i].id != id :: r[i] == ms[i]
    ensures forall i | 0 <= i < |ms| && ms[i].id == id :: r[i] == ApplyPatch(ms[i], p)
  {
    seq(|ms|, i requires 0 <= i < |ms| => if ms[i].id == id then ApplyPatch(ms[i], p) else ms[i])
  }

  /** Applying the same patch to the same id a second time changes nothing. */
  lemma UpdateMembersIdempotent(ms: seq<FamilyMember>, id: string, p: MemberPatch)
    ensures UpdateMembers(UpdateMembers(ms, id, p), id, p) == UpdateMembers(ms, id, p)
  {
    var once := UpdateMembers(ms, id, p);
    forall i | 0 <= i < |ms|
      ensures UpdateMembers(once, id, p)[i] == once[i]
    {
      if ms[i].id == id {
        ApplyPatchIdempotent(ms[i], p);
      }
    }
  }

  function NotMember(id: string): FamilyMember -> bool
  {
    (m: FamilyMember) => m.id != id
  }

  // ---------------------------------------------------------------------------
  // Notes

  function NotOfMember(memberId: string): Note -> bool
  {
    (n: Note) => n.memberId != memberId
  }

  function NotNote(id: string): Note -> bool
  {
    (n: Note) => n.id != id
  }

  /** `handleUpdateNote`: the note with that id gets the new text and time. */
  function UpdateNoteText(notes: seq<Note>, id: string, text: string, now: int): (r: seq<Note>)
    ensures |r| == |notes|
    ensures forall i | 0 <= i < |notes| && notes[i].id != id :: r[i] == notes[i]
    ensures forall i | 0 <= i < |notes| && notes[i].id == id ::
              r[i] == notes[i].(text := text, updatedAt := now)
  {
    seq(|notes|, i requires 0 <= i < |notes| =>
      if notes[i].id == id then notes[i].(text := text, updatedAt := now) else notes[i])
  }

  /** Deleting a note after editing it is deleting it. */
  lemma {:induction false} UpdateThenDeleteNote(notes: seq<Note>, id: string, text: string, now: int)
    ensures Filter(UpdateNoteText(notes, id, text, now), NotNote(id)) == Filter(notes, NotNote(id))
  {
    if notes != [] {
      var u := UpdateNoteText(notes, id, text, now);
      assert u[1..] == UpdateNoteText(notes[1..], id, text, now);
      UpdateThenDeleteNote(notes[1..], id, text, now);
    }
  }

  /** Deleting a freshly added note restores the list. */
  lemma AddThenDeleteNote(notes: seq<Note>, n: Note)
    requires forall m | m in notes :: m.id != n.id
    ensures Filter(notes + [n], NotNote(n.id)) == notes
  {
    FilterAppend(notes, [n], NotNote(n.id));
    FilterKeepsAll(notes, NotNote(n.id));
    assert Filter([n], NotNote(n.id)) == [];
  }

  // ---------------------------------------------------------------------------
  // The date -> member -> status view built for the calendar

  type StatusMap = map<string, map<string, AttendanceStatus>>

  /** One step of the `weeklyAttendanceData` loop. */
  function PlaceStatus(v: StatusMap, r: AttendanceRecord): StatusMap
  {
    v[r.date := (if r.date in v then v[r.date] else map[])[r.memberId := r.status]]
  }

  /** `weeklyAttendanceData` for a list of records, in order. */
  function StatusView(rs: seq<AttendanceRecord>): StatusMap
  {
    if rs == [] then map[] else PlaceStatus(StatusView(rs[..|rs| - 1]), rs[|rs| - 1])
  }

  /** The statuses of a record map. */
  function Statuses(w: WeeklyAttendance): StatusMap
  {
    map d | d in w :: map m | m in w[d] :: w[d][m].status
  }

  lemma PlaceCommutes(w: WeeklyAttendance, r: AttendanceRecord)
    ensures Statuses(FamilyStore.Place(w, r)) == PlaceStatus(Statuses(w), r)
  {
    var a, b := Statuses(FamilyStore.Place(w, r)), PlaceStatus(Statuses(w), r);
    assert a.Keys == b.Keys;
    forall d | d in a
      ensures a[d] == b[d]
    {
      if d == r.date {
        assert a[d].Keys == b[d].Keys;
      }
    }
  }

  /** The status view is the record projection of the attendance
      subscription with only the statuses kept, so every property of that
      projection (later records win, no entry without a record) holds for
      it. */
  lemma {:induction false} StatusViewIsProjection(rs: seq<AttendanceRecord>)
    ensures StatusView(rs) == Statuses(FamilyStore.Project(rs))
  {
    if rs != [] {
      StatusViewIsProjection(rs[..|rs| - 1]);
      PlaceCommutes(FamilyStore.Project(rs[..|rs| - 1]), rs[|rs| - 1]);
    }
  }

  /** A record that no later record replaces gives its status to the view. */
  lemma StatusViewLastWins(rs: seq<AttendanceRecord>, i: nat)
    requires i < |rs|
    requires forall j | i < j < |rs| :: !FamilyStore.SamePair(rs[j], rs[i].date, rs[i].memberId)
    ensures rs[i].date in StatusView(rs) && rs[i].memberId in StatusView(rs)[rs[i].date]
    ensures StatusView(rs)[rs[i].date][rs[i].memberId] == rs[i].status
  {
    StatusViewIsProjection(rs);
    FamilyStore.ProjectLastWins(rs, i);
  }

  /** `weeklyAttendanceData`, built by the loop over the records. */
  method WeeklyAttendanceData(records: seq<AttendanceRecord>) returns (v: StatusMap)
    ensures v == StatusView(records)
  {
    v := map[];
    var i := 0;
    while i < |records|
      invariant 0 <= i <= |records|
      invariant v == StatusView(records[..i])
    {
      var record := records[i];
      if record.date !in v {
        v := v[record.date := map[]];
      }
      v := v[record.date := v[record.date][record.memberId := record.status]];
      assert records[..i + 1][..i] == records[..i];
      i := i + 1;
    }
    assert records[..|records|] == records;
  }

  // ---------------------------------------------------------------------------
  // How the view reaches the components

  /** What the `attendance` state holds: the array it is declared and reset
      as, or the date-keyed object that `handleAttendanceChange` and the
      attendance subscription store into it. */
  datatype AttendanceState = RecordList(records: seq<AttendanceRecord>) | RecordMap(byDate: WeeklyAttendance)

  /** `weeklyAttendanceData` as written: `attendance.forEach` runs over an
      array, and on a plain object it is not a function, so rendering throws
      (`None`). */
  function WeeklyViewAsWritten(s: AttendanceState): (r: Option<StatusMap>)
    ensures s.RecordList? ==> r == Some(StatusView(s.records))
    ensures s.RecordMap? ==> r.None?
  {
    match s
    case RecordList(rs) => Some(StatusView(rs))
    case RecordMap(_) => None
  }

  /** Once a status has been changed the state is an object, and the view
      can no longer be built. */
  lemma ViewFailsAfterChange(w: WeeklyAttendance, memberId: string, date: string, status: AttendanceStatus,
                             now: int)
    ensures WeeklyViewAsWritten(RecordMap(SetAttendance(w, memberId, date, status, now))).None?
  {
  }

  /** No change is needed: the attendance subscription's callback stores the
      date/member map of its first snapshot, and the view fails on that. */
  lemma ViewFailsOnFirstSnapshot(snapshot: seq<AttendanceRecord>)
    ensures WeeklyViewAsWritten(RecordMap(FamilyStore.Project(snapshot))).None?
  {
  }

  /** The view built from the date-keyed state itself: every record's
      status, at the record's place. */
  function WeeklyView(w: WeeklyAttendance): (r: StatusMap)
    ensures r.Keys == w.Keys
    ensures forall d, m | HasEntry(w, d, m) :: d in r && m in r[d] && r[d][m] == w[d][m].status
    ensures forall d, m | d in r && m in r[d] :: HasEntry(w, d, m)
  {
    Statuses(w)
  }

  /** The view from the date-keyed state shows a change at once. */
  lemma WeeklyViewShowsChange(w: WeeklyAttendance, memberId: string, date: string, status: AttendanceStatus,
                              now: int)
    ensures var v := WeeklyView(SetAttendance(w, memberId, date, status, now));
      date in v && memberId in v[date] && v[date][memberId] == status
  {
    SetAttendanceEffect(w, memberId, date, status, now);
  }

  /** A value the calendar finds at `attendance[date][memberId]`: a record,
      as its props declare, or a bare status, as `weeklyAttendanceData`
      holds. */
  datatype CellValue = RecordValue(record: AttendanceRecord) | StatusValue(status: AttendanceStatus) | Missing

  /** `value?.status || 'unknown'`: only a record has a `status` property. */
  function StatusOfCell(c: CellValue): (r: AttendanceStatus)
    ensures c.RecordValue? ==> r == c.record.status
    ensures !c.RecordValue? ==> r == Unknown
  {
    match c
    case RecordValue(rec) => rec.status
    case _ => Unknown
  }

  /** The calendar cell as wired: the component is handed the status view. */
  function CellAsWired(v: StatusMap, date: string, memberId: string): CellValue
  {
    if date in v && memberId in v[date] then StatusValue(v[date][memberId]) else Missing
  }

  /** As wired, every cell shows `unknown` whatever was recorded, and every
      tap sends `present`. */
  lemma CalendarShowsUnknownAsWired(rs: seq<AttendanceRecord>, date: string, memberId: string)
    ensures StatusOfCell(CellAsWired(StatusView(rs), date, memberId)) == Unknown
    ensures WeeklyCalendar.NextStatus(StatusOfCell(CellAsWired(StatusView(rs), date, memberId))) == Present
  {
  }

  /** A concrete case: one `absent` record, yet the cell shows `unknown`
      and the next tap sends `present` rather than `unknown`. */
  lemma CalendarLosesAbsent()
    ensures var rs := [AttendanceRecord("m1", "2024-05-01", Absent, None, 0)];
      StatusView(rs)["2024-05-01"]["m1"] == Absent &&
      StatusOfCell(CellAsWired(StatusView(rs), "2024-05-01", "m1")) == Unknown &&
      WeeklyCalendar.NextStatus(StatusOfCell(CellAsWired(StatusView(rs), "2024-05-01", "m1"))) == Present &&
      WeeklyCalendar.NextStatus(Absent) == Unknown
  {
    var rs := [AttendanceRecord("m1", "2024-05-01", Absent, None, 0)];
    assert rs[..0] == [];
  }

  // ---------------------------------------------------------------------------
  // The component state

  class App {
    var members: seq<FamilyMember>
    var attendance: WeeklyAttendance
    var notes: seq<Note>

    constructor()
      ensures members == [] && attendance == map[] && notes == []
    {
      members := [];
      attendance := map[];
      notes := [];
    }

    method HandleAttendanceChange(memberId: string, date: string, status: AttendanceStatus, now: int)
      modifies this
      ensures attendance == SetAttendance(old(attendance), memberId, date, status, now)
      ensures members == old(members) && notes == old(notes)
    {
      var record := AttendanceRecord(memberId, date, status, None, now);
      attendance := attendance[date := DayOf(attendance, date)[memberId := record]];
    }

    /** `handleAddMember`, with the id `Date.now().toString()` gives. */
    method HandleAddMember(data: MemberData, id: string)
      modifies this
      ensures members == old(members) + [FamilyMember(id, data.name, data.color, data.order)]
      ensures attendance == old(attendance) && notes == old(notes)
    {
      members := members + [FamilyMember(id, data.name, data.color, data.order)];
    }

    method HandleUpdateMember(id: string, patch: MemberPatch)
      modifies this
      ensures members == UpdateMembers(old(members), id, patch)
      ensures attendance == old(attendance) && notes == old(notes)
    {
      members := UpdateMembers(members, id, patch);
    }

    /** `handleDeleteMember`: drops the member, deletes its entry from each
        day of the attendance map one day at a time, and drops its notes. */
    method HandleDeleteMember(id: string)
      modifies this
      ensures members == Filter(old(members), NotMember(id))
      ensures attendance == RemoveMemberAttendance(old(attendance), id)
      ensures notes == Filter(old(notes), NotOfMember(id))
    {
      members := Filter(members, NotMember(id));

      var before := attendance;
      var newAttendance := attendance;
      var dates := attendance.Keys;
      while dates != {}
        invariant newAttendance.Keys == before.Keys && dates <= before.Keys
        invariant forall d | d in newAttendance ::
                    newAttendance[d] == if d in dates then before[d] else before[d] - {id}
        decreases dates
      {
        var date :| date in dates;
        if id in newAttendance[date] {
          newAttendance := newAttendance[date := newAttendance[date] - {id}];
        }
        dates := dates - {date};
      }
      attendance := newAttendance;

      notes := Filter(notes, NotOfMember(id));
    }

    /** `handleAddNote`, with the id and time the caller supplies. */
    method HandleAddNote(input: NoteInput, id: string, now: int)
      modifies this
      ensures notes == old(notes) + [Note(id, input.memberId, input.date, input.text, now, now)]
      ensures members == old(members) && attendance == old(attendance)
    {
      notes := notes + [Note(id, input.memberId, input.date, input.text, now, now)];
    }

    method HandleUpdateNote(id: string, text: string, now: int)
      modifies this
      ensures notes == UpdateNoteText(old(notes), id, text, now)
      ensures members == old(members) && attendance == old(attendance)
    {
      notes := UpdateNoteText(notes, id, text, now);
    }

    method HandleDeleteNote(id: string)
      modifies this
      ensures notes == Filter(old(notes), NotNote(id))
      ensures members == old(members) && attendance == old(attendance)
    {
      notes := Filter(notes, NotNote(id));
    }
  }

  /** After `handleDeleteMember(id)` nothing refers to the member: no member
      has the id, no day holds an entry for it, no note belongs to it; every
      other member, entry and note is kept. */
  lemma DeleteMemberLeavesNoTrace(ms: seq<FamilyMember>, w: WeeklyAttendance, notes: seq<Note>, id: string)
    ensures forall m | m in Filter(ms, NotMember(id)) :: m.id != id
    ensures forall m | m in ms && m.id != id :: m in Filter(ms, NotMember(id))
    ensures forall n | n in Filter(notes, NotOfMember(id)) :: n.memberId != id
    ensures forall n | n in notes && n.memberId != id :: n in Filter(notes, NotOfMember(id))
    ensures forall d | d in RemoveMemberAttendance(w, id) :: !HasEntry(RemoveMemberAttendance(w, id), d, id)
  {
  }

  /** Deleting a member nobody refers to changes nothing. */
  lemma DeleteAbsentMember(ms: seq<FamilyMember>, notes: seq<Note>, id: string)
    requires forall m | m in ms :: m.id != id
    requires forall n | n in notes :: n.memberId != id
    ensures Filter(ms, NotMember(id)) == ms && Filter(notes, NotOfMember(id)) == notes
  {
    FilterKeepsAll(ms, NotMember(id));
    FilterKeepsAll(notes, NotOfMember(id));
  }
}
