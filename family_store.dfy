/** The per-family document store of src/services/firestoreService.ts, as
    values. A family (tenant) owns a family document, a members collection, an
    attendance collection keyed `${date}_${memberId}`, a notes collection and
    the `system/initialization` flag document. The functions here are what
    one call of the service does to its family's documents; the service class
    in module Firestore performs them step by step. */
module FamilyStore {
  import opened FamilyTypes
  import Strings

  // ---------------------------------------------------------------------------
  // Tenant key

  /** The signed-in principal: a provider uid and the profile's `photoURL`. */
  datatype User = User(uid: string, photoURL: Option<string>)

  const FamilyPrefix: string := "family_"

  /** The family a user's data lives under: the `photoURL` when it carries the
      `family_` marker, otherwise the uid. */
  function TenantKey(u: User): (k: string)
    ensures u.photoURL.Some? && Strings.StartsWith(u.photoURL.value, FamilyPrefix) ==> k == u.photoURL.value
    ensures !(u.photoURL.Some? && Strings.StartsWith(u.photoURL.value, FamilyPrefix)) ==> k == u.uid
    ensures k == u.uid || Strings.StartsWith(k, FamilyPrefix)
  {
    if u.photoURL.Some? && Strings.StartsWith(u.photoURL.value, FamilyPrefix) then u.photoURL.value else u.uid
  }

  /** Two users with the same marked `photoURL` share one family, whatever
      their uids. */
  lemma SharedFamilyAccount(a: User, b: User)
    requires a.photoURL == b.photoURL
    requires a.photoURL.Some? && Strings.StartsWith(a.photoURL.value, FamilyPrefix)
    ensures TenantKey(a) == TenantKey(b)
  {
  }

  datatype StoreError = NotLoggedIn | NotFound | Backend(message: string)

  datatype Result<T> = Ok(value: T) | Err(error: StoreError)

  // ---------------------------------------------------------------------------
  // Documents of one family

  datatype NoteDoc = NoteDoc(memberId: string, date: string, text: string, createdAt: int, updatedAt: int)

  datatype FlagStatus = Initializing | Completed

  datatype Tenant = Tenant(
    familyName: Option<string>,                  // families/{id}
    members: map<string, MemberData>,            // families/{id}/members/{memberId}
    attendance: map<string, AttendanceRecord>,   // families/{id}/attendance/{date}_{memberId}
    notes: map<string, NoteDoc>,                 // families/{id}/notes/{noteId}
    initFlag: Option<FlagStatus>)                // families/{id}/system/initialization

  const EmptyTenant: Tenant := Tenant(None, map[], map[], map[], None)

  // ---------------------------------------------------------------------------
  // Attendance

  /** The attendance document id `${date}_${memberId}`. */
  function AttendanceKey(date: string, memberId: string): string
  {
    date + "_" + memberId
  }

  /** With `_`-free dates (as `YYYY-MM-DD` is) the key determines the pair, so
      two different (member, date) pairs never share a document. */
  lemma {:induction false} AttendanceKeyInjective(d1: string, m1: string, d2: string, m2: string)
    requires '_' !in d1 && '_' !in d2
    requires AttendanceKey(d1, m1) == AttendanceKey(d2, m2)
    ensures d1 == d2 && m1 == m2
  {
    var k := AttendanceKey(d1, m1);
    assert forall i | 0 <= i < |d1| :: k[i] == d1[i] && d1[i] != '_';
    assert forall i | 0 <= i < |d2| :: k[i] == d2[i] && d2[i] != '_';
    assert k[|d1|] == '_' && k[|d2|] == '_';
    assert |d1| == |d2|;
    assert d1 == k[..|d1|] == d2;
    assert m1 == k[|d1| + 1..] == m2;
  }

  /** `updateAttendance`: a full replace (`setDoc` without merge) of the
      pair's document; a note the old record carried does not survive. */
  function WriteAttendance(t: Tenant, memberId: string, date: string, status: AttendanceStatus, now: int): (r: Tenant)
    ensures r.attendance.Keys == t.attendance.Keys + {AttendanceKey(date, memberId)}
    ensures r.attendance[AttendanceKey(date, memberId)] == AttendanceRecord(memberId, date, status, None, now)
    ensures forall k | k in t.attendance && k != AttendanceKey(date, memberId) :: r.attendance[k] == t.attendance[k]
    ensures r.members == t.members && r.notes == t.notes && r.initFlag == t.initFlag && r.familyName == t.familyName
  {
    t.(attendance := t.attendance[AttendanceKey(date, memberId) := AttendanceRecord(memberId, date, status, None, now)])
  }

  /** Two writes for the same member and day leave one document, holding the
      second status: last writer wins. */
  lemma LastWriteWins(t: Tenant, memberId: string, date: string, s1: AttendanceStatus, s2: AttendanceStatus, t1: int, t2: int)
    ensures WriteAttendance(WriteAttendance(t, memberId, date, s1, t1), memberId, date, s2, t2)
         == WriteAttendance(t, memberId, date, s2, t2)
    ensures |WriteAttendance(WriteAttendance(t, memberId, date, s1, t1), memberId, date, s2, t2).attendance|
         == |WriteAttendance(t, memberId, date, s1, t1).attendance|
  {
    var k := AttendanceKey(date, memberId);
    var once := WriteAttendance(t, memberId, date, s1, t1);
    var twice := WriteAttendance(once, memberId, date, s2, t2);
    assert twice.attendance.Keys == once.attendance.Keys;
  }

  /** Every attendance document sits at the key of its own (date, member). */
  predicate KeysMatchRecords(t: Tenant)
  {
    forall k | k in t.attendance :: k == AttendanceKey(t.attendance[k].date, t.attendance[k].memberId)
  }

  lemma WritePreservesKeys(t: Tenant, memberId: string, date: string, status: AttendanceStatus, now: int)
    requires KeysMatchRecords(t)
    ensures KeysMatchRecords(WriteAttendance(t, memberId, date, status, now))
  {
  }

  // ---------------------------------------------------------------------------
  // Projection of the attendance snapshot

  /** The callback's step for one record: create the day's map if missing,
      then put the record at `[date][memberId]`, replacing what was there. */
  function Place(w: WeeklyAttendance, r: AttendanceRecord): WeeklyAttendance
  {
    w[r.date := DayOf(w, r.date)[r.memberId := r]]
  }

  /** The weekly map the attendance subscription hands to its callback, for the
      snapshot's documents in order. */
  function Project(rs: seq<AttendanceRecord>): WeeklyAttendance
  {
    if rs == [] then map[] else Place(Project(rs[..|rs| - 1]), rs[|rs| - 1])
  }

  predicate SamePair(a: AttendanceRecord, date: string, memberId: string)
  {
    a.date == date && a.memberId == memberId
  }

  /** A day appears in the projection exactly when some record is for that day. */
  lemma {:induction false} ProjectDays(rs: seq<AttendanceRecord>, date: string)
    ensures date in Project(rs) <==> exists i | 0 <= i < |rs| :: rs[i].date == date
  {
    if rs != [] {
      var init := rs[..|rs| - 1];
      ProjectDays(init, date);
      if exists i | 0 <= i < |init| :: init[i].date == date {
        var i :| 0 <= i < |init| && init[i].date == date;
        assert rs[i] == init[i];
      }
      if exists i | 0 <= i < |rs| :: rs[i].date == date {
        var i :| 0 <= i < |rs| && rs[i].date == date;
        if i < |init| { assert init[i] == rs[i]; }
      }
    }
  }

  /** The projection holds an entry for (date, member) exactly when some record
      is for that pair. */
  lemma {:induction false} ProjectEntries(rs: seq<AttendanceRecord>, date: string, memberId: string)
    ensures HasEntry(Project(rs), date, memberId) <==> exists i | 0 <= i < |rs| :: SamePair(rs[i], date, memberId)
  {
    if rs != [] {
      var init := rs[..|rs| - 1];
      ProjectEntries(init, date, memberId);
      if exists i | 0 <= i < |init| :: SamePair(init[i], date, memberId) {
        var i :| 0 <= i < |init| && SamePair(init[i], date, memberId);
        assert rs[i] == init[i];
      }
      if exists i | 0 <= i < |rs| :: SamePair(rs[i], date, memberId) {
        var i :| 0 <= i < |rs| && SamePair(rs[i], date, memberId);
        if i < |init| { assert init[i] == rs[i]; }
      }
    }
  }

  /** The entry for a pair is the LAST record for that pair: later records
      overwrite earlier ones. */
  lemma {:induction false} ProjectLastWins(rs: seq<AttendanceRecord>, i: nat)
    requires i < |rs|
    requires forall j | i < j < |rs| :: !SamePair(rs[j], rs[i].date, rs[i].memberId)
    ensures HasEntry(Project(rs), rs[i].date, rs[i].memberId)
    ensures Project(rs)[rs[i].date][rs[i].memberId] == rs[i]
  {
    if i < |rs| - 1 {
      var init := rs[..|rs| - 1];
      assert init[i] == rs[i];
      forall j | i < j < |init| ensures !SamePair(init[j], rs[i].date, rs[i].memberId) {
        assert init[j] == rs[j];
      }
      ProjectLastWins(init, i);
      assert !SamePair(rs[|rs| - 1], rs[i].date, rs[i].memberId);
    }
  }

  // ---------------------------------------------------------------------------
  // Deleting a member

  /** The writes of one batch; `commit` applies all of them or none. */
  datatype Batch = Batch(members: set<string>, attendance: set<string>, notes: set<string>)

  const EmptyBatch: Batch := Batch({}, {}, {})

  function Commit(t: Tenant, b: Batch): Tenant
  {
    t.(members := t.members - b.members, attendance := t.attendance - b.attendance, notes := t.notes - b.notes)
  }

  /** `where('memberId', '==', memberId)` over the attendance collection. */
  function AttendanceOfMember(t: Tenant, memberId: string): set<string>
  {
    set k | k in t.attendance && t.attendance[k].memberId == memberId
  }

  /** `where('memberId', '==', memberId)` over the notes collection. */
  function NotesOfMember(t: Tenant, memberId: string): set<string>
  {
    set k | k in t.notes && t.notes[k].memberId == memberId
  }

  /** The batch `deleteMember` commits: the member document and every
      attendance record and note the two queries return. */
  function DeleteMemberBatch(t: Tenant, memberId: string): Batch
  {
    Batch({memberId}, AttendanceOfMember(t, memberId), NotesOfMember(t, memberId))
  }

  /** After the batch no document refers to the member, and every other
      document is exactly as it was. */
  lemma DeleteMemberCascade(t: Tenant, memberId: string)
    ensures var r := Commit(t, DeleteMemberBatch(t, memberId));
      && memberId !in r.members
      && (forall k | k in r.attendance :: r.attendance[k].memberId != memberId)
      && (forall k | k in r.notes :: r.notes[k].memberId != memberId)
      && (forall m | m in t.members && m != memberId :: m in r.members && r.members[m] == t.members[m])
      && (forall k | k in t.attendance && t.attendance[k].memberId != memberId ::
            k in r.attendance && r.attendance[k] == t.attendance[k])
      && (forall k | k in t.notes && t.notes[k].memberId != memberId :: k in r.notes && r.notes[k] == t.notes[k])
      && r.familyName == t.familyName && r.initFlag == t.initFlag
  {
  }

  // ---------------------------------------------------------------------------
  // Notes

  /** `addNote` with the id the backend generated. */
  function AddNote(t: Tenant, id: string, memberId: string, date: string, text: string, now: int): (r: Tenant)
    requires id !in t.notes
    ensures r.notes.Keys == t.notes.Keys + {id}
    ensures r.notes[id] == NoteDoc(memberId, date, text, now, now)
    ensures r.(notes := t.notes) == t
  {
    t.(notes := t.notes[id := NoteDoc(memberId, date, text, now, now)])
  }

  /** `updateNote`: patches only `text` and `updatedAt`; `updateDoc` fails on a
      document that does not exist. */
  function UpdateNote(t: Tenant, id: string, text: string, now: int): (r: Result<Tenant>)
    ensures id !in t.notes <==> r == Err(NotFound)
    ensures r.Ok? ==> r.value.(notes := t.notes) == t && r.value.notes.Keys == t.notes.Keys
    ensures r.Ok? ==> r.value.notes[id] == t.notes[id].(text := text, updatedAt := now)
    ensures r.Ok? ==> forall k | k in t.notes && k != id :: r.value.notes[k] == t.notes[k]
  {
    if id in t.notes then Ok(t.(notes := t.notes[id := t.notes[id].(text := text, updatedAt := now)]))
    else Err(NotFound)
  }

  /** `deleteNote`: removes that id only; deleting a missing note is not an
      error. */
  function DeleteNote(t: Tenant, id: string): (r: Tenant)
    ensures r.notes.Keys == t.notes.Keys - {id}
    ensures forall k | k in r.notes :: r.notes[k] == t.notes[k]
    ensures r.(notes := t.notes) == t
  {
    t.(notes := t.notes - {id})
  }

  /** Deleting a freshly added note restores the family's documents. */
  lemma AddThenDeleteNote(t: Tenant, id: string, memberId: string, date: string, text: string, now: int)
    requires id !in t.notes
    ensures DeleteNote(AddNote(t, id, memberId, date, text, now), id) == t
  {
    assert AddNote(t, id, memberId, date, text, now).notes - {id} == t.notes;
  }
}
