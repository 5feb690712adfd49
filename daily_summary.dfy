/** Today's dinner count (src/components/DailySummary.tsx): of the roster, the
    members whose record for today says present, counted and listed by name
    in roster order. `today` is the caller's formatted date. */
module DailySummary {
  import opened FamilyTypes
  import AppState

  /** `attendance[todayStr] || {}` */
  function TodayAttendance(w: WeeklyAttendance, today: string): (r: map<string, AttendanceRecord>)
    ensures today !in w ==> r == map[]
    ensures today in w ==> r == w[today]
  {
    DayOf(w, today)
  }

  /** `todayAttendance[member.id]?.status === 'present'` */
  function IsPresentIn(day: map<string, AttendanceRecord>): FamilyMember -> bool
  {
    (m: FamilyMember) => m.id in day && day[m.id].status == Present
  }

  function PresentMembers(members: seq<FamilyMember>, day: map<string, AttendanceRecord>): seq<FamilyMember>
  {
    Filter(members, IsPresentIn(day))
  }

  /** `presentCount` */
  function PresentCount(members: seq<FamilyMember>, day: map<string, AttendanceRecord>): (r: nat)
    ensures r <= |members|
  {
    |PresentMembers(members, day)|
  }

  function Names(ms: seq<FamilyMember>): (r: seq<string>)
    ensures |r| == |ms|
    ensures forall i | 0 <= i < |ms| :: r[i] == ms[i].name
  {
    seq(|ms|, i requires 0 <= i < |ms| => ms[i].name)
  }

  /** `presentMembers`: the names of the present members, in roster order. */
  function PresentNames(members: seq<FamilyMember>, day: map<string, AttendanceRecord>): (r: seq<string>)
    ensures |r| == PresentCount(members, day)
  {
    Names(PresentMembers(members, day))
  }

  /** Exactly the members whose record today is `present` are counted; an
      absent, unknown or missing record is never counted. */
  lemma CountedIffPresent(members: seq<FamilyMember>, day: map<string, AttendanceRecord>, m: FamilyMember)
    requires m in members
    ensures m in PresentMembers(members, day) <==> m.id in day && day[m.id].status == Present
    ensures m.id !in day || day[m.id].status != Present ==> m !in PresentMembers(members, day)
  {
  }

  /** One more roster member adds one to the count exactly when that member
      is present. */
  lemma PresentCountAppend(members: seq<FamilyMember>, m: FamilyMember, day: map<string, AttendanceRecord>)
    ensures PresentCount(members + [m], day) ==
              PresentCount(members, day) + (if m.id in day && day[m.id].status == Present then 1 else 0)
    ensures PresentNames(members + [m], day) ==
              PresentNames(members, day) + (if m.id in day && day[m.id].status == Present then [m.name] else [])
  {
    var p := IsPresentIn(day);
    FilterAppend(members, [m], p);
    var tail := Filter([m], p);
    assert tail == if p(m) then [m] else [];
    assert PresentMembers(members + [m], day) == PresentMembers(members, day) + tail;
    NamesAppend(PresentMembers(members, day), tail);
  }

  lemma NamesAppend(a: seq<FamilyMember>, b: seq<FamilyMember>)
    ensures Names(a + b) == Names(a) + Names(b)
  {
  }

  /** With nobody present today the count is zero and the list empty. */
  lemma NobodyPresent(members: seq<FamilyMember>, day: map<string, AttendanceRecord>)
    requires forall m | m in members :: m.id !in day || day[m.id].status != Present
    ensures PresentCount(members, day) == 0 && PresentNames(members, day) == []
  {
    FilterDropsAll(members, IsPresentIn(day));
  }

  // ---------------------------------------------------------------------------
  // How the component is wired

  /** What `attendance[todayStr] || {}` yields as wired: the component is
      handed the day's member → status map, so the date is looked up among
      member ids. Unless some member id equals the date the lookup misses
      and gives `{}`; otherwise it gives that member's bare status string. */
  datatype TodayValueAsWired = EmptyObject | BareStatus(status: AttendanceStatus)

  function TodayAttendanceAsWired(statuses: map<string, AttendanceStatus>, today: string): (r: TodayValueAsWired)
    ensures r.EmptyObject? <==> today !in statuses
  {
    if today in statuses then BareStatus(statuses[today]) else EmptyObject
  }

  /** `todayAttendance[member.id]` as wired: a key of `{}` is missing, and
      indexing a status string gives a character or nothing; neither is a
      record, so neither has a `status`. */
  function MemberEntryAsWired(v: TodayValueAsWired, memberId: string): AppState.CellValue
  {
    AppState.Missing
  }

  /** The count as wired. */
  function PresentCountAsWired(members: seq<FamilyMember>, statuses: map<string, AttendanceStatus>, today: string): nat
  {
    |Filter(members, (m: FamilyMember) =>
       AppState.StatusOfCell(MemberEntryAsWired(TodayAttendanceAsWired(statuses, today), m.id)) == Present)|
  }

  /** As wired, whatever today's statuses are, the date lookup finds no
      record map (the member map has no date keys unless a member id is the
      date), and the count is zero. */
  lemma CountIsZeroAsWired(members: seq<FamilyMember>, statuses: map<string, AttendanceStatus>, today: string)
    ensures (forall id | id in statuses :: id != today) ==> TodayAttendanceAsWired(statuses, today) == EmptyObject
    ensures PresentCountAsWired(members, statuses, today) == 0
  {
    FilterDropsAll(members, (m: FamilyMember) =>
       AppState.StatusOfCell(MemberEntryAsWired(TodayAttendanceAsWired(statuses, today), m.id)) == Present);
  }

  /** Handed the day's records instead, a member marked present today is
      counted and listed. */
  lemma MarkedPresentIsCounted(members: seq<FamilyMember>, w: WeeklyAttendance, today: string, m: FamilyMember,
                               now: int)
    requires m in members
    ensures var day := TodayAttendance(AppState.SetAttendance(w, m.id, today, Present, now), today);
      m in PresentMembers(members, day) && m.name in PresentNames(members, day) && PresentCount(members, day) >= 1
  {
    var day := TodayAttendance(AppState.SetAttendance(w, m.id, today, Present, now), today);
    AppState.SetAttendanceEffect(w, m.id, today, Present, now);
    var p := PresentMembers(members, day);
    assert m in p;
    var i :| 0 <= i < |p| && p[i] == m;
    assert Names(p)[i] == m.name;
  }
}
