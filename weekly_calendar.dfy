/** The weekly calendar's attendance rules (src/components/WeeklyCalendar.tsx):
    one tap on a cell moves the member's status for that day one step round
    the fixed cycle unknown -> present -> absent -> unknown, and a cell without a
    record counts as unknown. The header's per-day note filter is
    `FamilyTypes.NotesForDate`. */
module WeeklyCalendar {
  import opened FamilyTypes

  /** `getNextStatus` on the three statuses. */
  function NextStatus(current: AttendanceStatus): (r: AttendanceStatus)
    ensures r != current
  {
    match current
    case Unknown => Present
    case Present => Absent
    case Absent => Unknown
  }

  /** `getNextStatus` on the string it actually switches over: the stored
      status may be any string, and the `default` branch sends every
      unrecognised one to `unknown`. */
  function NextStatusOfName(current: string): (r: AttendanceStatus)
    ensures current !in {"unknown", "present", "absent"} ==> r == Unknown
  {
    if current == "unknown" then Present
    else if current == "present" then Absent
    else if current == "absent" then Unknown
    else Unknown
  }

  /** The switch over names agrees with the cycle on every recognised status. */
  lemma NextStatusOfNameAgrees(s: AttendanceStatus)
    ensures NextStatusOfName(StatusName(s)) == NextStatus(s)
  {
  }

  /** Three taps bring a status back to where it started. */
  lemma CycleOfThree(s: AttendanceStatus)
    ensures NextStatus(NextStatus(NextStatus(s))) == s
  {
  }

  /** One or two taps never leave a status unchanged. */
  lemma NoShortCycle(s: AttendanceStatus)
    ensures NextStatus(s) != s && NextStatus(NextStatus(s)) != s
  {
  }

  /** The status a cell shows: the record's status, or `unknown` when the
      day or the member has no record (`attendance[date]?.[memberId]?.status
      || 'unknown'`). */
  function CellStatus(w: WeeklyAttendance, date: string, memberId: string): (r: AttendanceStatus)
    ensures !HasEntry(w, date, memberId) ==> r == Unknown
    ensures HasEntry(w, date, memberId) ==> r == w[date][memberId].status
  {
    if date in w && memberId in w[date] then w[date][memberId].status else Unknown
  }

  /** The one call `handleStatusChange` makes to `onAttendanceChange`. */
  datatype AttendanceChange = AttendanceChange(memberId: string, date: string, status: AttendanceStatus)

  /** `handleStatusChange(memberId, date)`: a single change for the same
      member and date, carrying the next status after the cell's current one. */
  function HandleStatusChange(w: WeeklyAttendance, memberId: string, date: string): (r: AttendanceChange)
    ensures r.memberId == memberId && r.date == date
    ensures r.status != CellStatus(w, date, memberId)
    ensures !HasEntry(w, date, memberId) ==> r.status == Present
    ensures HasEntry(w, date, memberId) ==> r.status == NextStatus(w[date][memberId].status)
  {
    AttendanceChange(memberId, date, NextStatus(CellStatus(w, date, memberId)))
  }
}
