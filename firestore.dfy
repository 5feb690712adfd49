/** The service object of src/services/firestoreService.ts: it remembers the
    signed-in user, derives the family id from it, and performs each store
    operation on that family's documents step by step. The store is the
    `Database` object, one `Tenant` value per family id; each method is proved
    against the function in module FamilyStore or Bootstrap that says what the
    call does to the family. A backend call that throws is an input
    (`backendError`); when it is given, nothing is written. */
module Firestore {
  import opened FamilyTypes
  import opened FamilyStore
  import opened Bootstrap
  import Strings

  /** All families' documents. A family id that was never written holds the
      empty family. */
  class Database {
    var tenants: map<string, Tenant>

    constructor()
      ensures tenants == map[]
    {
      tenants := map[];
    }

    function At(fid: string): Tenant
      reads this
    {
      if fid in tenants then tenants[fid] else EmptyTenant
    }
  }

  /** The callback body of `subscribeToAttendance`: one pass over the
      snapshot's documents, creating each day's map on first use and putting
      the record at `[date][memberId]`. */
  method ProjectSnapshot(docs: seq<AttendanceRecord>) returns (w: WeeklyAttendance)
    ensures w == Project(docs)
  {
    w := map[];
    var i := 0;
    while i < |docs|
      invariant 0 <= i <= |docs|
      invariant w == Project(docs[..i])
    {
      var record := docs[i];
      if record.date !in w {
        w := w[record.date := map[]];
      }
      w := w[record.date := w[record.date][record.memberId := record]];
      assert docs[..i + 1][..i] == docs[..i];
      i := i + 1;
    }
    assert docs[..|docs|] == docs;
  }

  /** How `ensureFamilyExists` begins: it joins a pending initialization, or
      fails before starting one when nobody is signed in, or starts one for
      the family. */
  datatype EnsureStart = Joined | StartFailed(error: StoreError) | Started(familyId: string)

  class FirestoreService {
    var user: Option<User>
    var familyId: Option<string>
    /** `initializationPromise !== null` */
    var initializationPending: bool
    const db: Database

    /** `familyId` is always the tenant key of the signed-in user. */
    ghost predicate Valid()
      reads this
    {
      familyId == (if user.Some? then Some(TenantKey(user.value)) else None)
    }

    constructor(db: Database)
      ensures Valid() && user.None? && !initializationPending && this.db == db
    {
      user := None;
      familyId := None;
      initializationPending := false;
      this.db := db;
    }

    /** `setUser`: records the user and its tenant key. */
    method SetUser(u: Option<User>)
      modifies this
      ensures user == u && Valid()
      ensures initializationPending == old(initializationPending)
    {
      user := u;
      if u.Some? && u.value.photoURL.Some? && Strings.StartsWith(u.value.photoURL.value, FamilyPrefix) {
        familyId := u.value.photoURL;
      } else {
        familyId := if u.Some? then Some(u.value.uid) else None;
      }
    }

    /** `getUserFamilyId`: the tenant key, or the not-logged-in error. */
    function UserFamilyId(): (r: Result<string>)
      reads this
      ensures user.None? <==> r == Err(NotLoggedIn)
      ensures user.Some? ==> r == Ok(TenantKey(user.value))
    {
      match user
      case None => Err(NotLoggedIn)
      case Some(u) =>
        if u.photoURL.Some? && Strings.StartsWith(u.photoURL.value, FamilyPrefix) then Ok(u.photoURL.value)
        else Ok(u.uid)
    }

    /** `updateAttendance`: a full replace of the `${date}_${memberId}` record. */
    method UpdateAttendance(memberId: string, date: string, status: AttendanceStatus, now: int,
                            backendError: Option<string>) returns (err: Option<StoreError>)
      modifies db
      ensures user.None? ==> err == Some(NotLoggedIn) && db.tenants == old(db.tenants)
      ensures user.Some? && backendError.Some? ==>
                err == Some(Backend(backendError.value)) && db.tenants == old(db.tenants)
      ensures user.Some? && backendError.None? ==>
                err.None? &&
                db.At(TenantKey(user.value)) ==
                  WriteAttendance(old(db.At(TenantKey(user.value))), memberId, date, status, now)
      ensures user.Some? ==> db.tenants - {TenantKey(user.value)} == old(db.tenants) - {TenantKey(user.value)}
    {
      var r := UserFamilyId();
      if r.Err? {
        return Some(r.error);
      }
      if backendError.Some? {
        return Some(Backend(backendError.value));
      }
      var fid := r.value;
      var t := db.At(fid);
      var record := AttendanceRecord(memberId, date, status, None, now);
      db.tenants := db.tenants[fid := t.(attendance := t.attendance[AttendanceKey(date, memberId) := record])];
      err := None;
    }

    /** `deleteMember`: queries the member's attendance records and notes,
        adds each one's delete to the batch, and commits the batch. A failing
        query or commit leaves every document as it was. */
    method DeleteMember(memberId: string, backendError: Option<string>) returns (err: Option<StoreError>)
      modifies db
      ensures user.None? ==> err == Some(NotLoggedIn) && db.tenants == old(db.tenants)
      ensures user.Some? && backendError.Some? ==>
                err == Some(Backend(backendError.value)) && db.tenants == old(db.tenants)
      ensures user.Some? && backendError.None? ==>
                err.None? &&
                db.At(TenantKey(user.value)) ==
                  Commit(old(db.At(TenantKey(user.value))), DeleteMemberBatch(old(db.At(TenantKey(user.value))), memberId))
      ensures user.Some? ==> db.tenants - {TenantKey(user.value)} == old(db.tenants) - {TenantKey(user.value)}
    {
      var r := UserFamilyId();
      if r.Err? {
        return Some(r.error);
      }
      var fid := r.value;
      var t := db.At(fid);
      var batch := EmptyBatch.(members := {memberId});

      var attendanceDocs := AttendanceOfMember(t, memberId);
      while attendanceDocs != {}
        invariant batch.members == {memberId} && batch.notes == {}
        invariant batch.attendance + attendanceDocs == AttendanceOfMember(t, memberId)
        decreases attendanceDocs
      {
        var k :| k in attendanceDocs;
        batch := batch.(attendance := batch.attendance + {k});
        attendanceDocs := attendanceDocs - {k};
      }

      var notesDocs := NotesOfMember(t, memberId);
      while notesDocs != {}
        invariant batch.members == {memberId} && batch.attendance == AttendanceOfMember(t, memberId)
        invariant batch.notes + notesDocs == NotesOfMember(t, memberId)
        decreases notesDocs
      {
        var k :| k in notesDocs;
        batch := batch.(notes := batch.notes + {k});
        notesDocs := notesDocs - {k};
      }

      if backendError.Some? {
        return Some(Backend(backendError.value));
      }
      db.tenants := db.tenants[fid := Commit(t, batch)];
      err := None;
    }

    /** `addNote`: a new note under the id the backend generates; returns
        that id. */
    method AddNote(memberId: string, date: string, text: string, newId: string, now: int,
                   backendError: Option<string>) returns (r: Result<string>)
      requires user.Some? ==> newId !in db.At(TenantKey(user.value)).notes
      modifies db
      ensures user.None? ==> r == Err(NotLoggedIn) && db.tenants == old(db.tenants)
      ensures user.Some? && backendError.Some? ==>
                r == Err(Backend(backendError.value)) && db.tenants == old(db.tenants)
      ensures user.Some? && backendError.None? ==>
                r == Ok(newId) &&
                db.At(TenantKey(user.value)) ==
                  FamilyStore.AddNote(old(db.At(TenantKey(user.value))), newId, memberId, date, text, now)
      ensures user.Some? ==> db.tenants - {TenantKey(user.value)} == old(db.tenants) - {TenantKey(user.value)}
    {
      var f := UserFamilyId();
      if f.Err? {
        return Err(f.error);
      }
      if backendError.Some? {
        return Err(Backend(backendError.value));
      }
      var fid := f.value;
      var t := db.At(fid);
      db.tenants := db.tenants[fid := t.(notes := t.notes[newId := NoteDoc(memberId, date, text, now, now)])];
      r := Ok(newId);
    }

    /** `updateNote`: patches `text` and `updatedAt`; fails on a missing note. */
    method UpdateNote(noteId: string, text: string, now: int, backendError: Option<string>)
      returns (err: Option<StoreError>)
      modifies db
      ensures user.None? ==> err == Some(NotLoggedIn) && db.tenants == old(db.tenants)
      ensures user.Some? && backendError.Some? ==>
                err == Some(Backend(backendError.value)) && db.tenants == old(db.tenants)
      ensures user.Some? && backendError.None? ==>
                var spec := FamilyStore.UpdateNote(old(db.At(TenantKey(user.value))), noteId, text, now);
                (spec.Err? ==> err == Some(spec.error) && db.tenants == old(db.tenants)) &&
                (spec.Ok? ==> err.None? && db.At(TenantKey(user.value)) == spec.value)
      ensures user.Some? ==> db.tenants - {TenantKey(user.value)} == old(db.tenants) - {TenantKey(user.value)}
    {
      var f := UserFamilyId();
      if f.Err? {
        return Some(f.error);
      }
      if backendError.Some? {
        return Some(Backend(backendError.value));
      }
      var fid := f.value;
      var t := db.At(fid);
      if noteId !in t.notes {
        return Some(NotFound);
      }
      db.tenants := db.tenants[fid := t.(notes := t.notes[noteId := t.notes[noteId].(text := text, updatedAt := now)])];
      err := None;
    }

    /** `deleteNote`: removes the note; deleting a missing note succeeds. */
    method DeleteNote(noteId: string, backendError: Option<string>) returns (err: Option<StoreError>)
      modifies db
      ensures user.None? ==> err == Some(NotLoggedIn) && db.tenants == old(db.tenants)
      ensures user.Some? && backendError.Some? ==>
                err == Some(Backend(backendError.value)) && db.tenants == old(db.tenants)
      ensures user.Some? && backendError.None? ==>
                err.None? &&
                db.At(TenantKey(user.value)) == FamilyStore.DeleteNote(old(db.At(TenantKey(user.value))), noteId)
      ensures user.Some? ==> db.tenants - {TenantKey(user.value)} == old(db.tenants) - {TenantKey(user.value)}
    {
      var f := UserFamilyId();
      if f.Err? {
        return Some(f.error);
      }
      if backendError.Some? {
        return Some(Backend(backendError.value));
      }
      var fid := f.value;
      var t := db.At(fid);
      db.tenants := db.tenants[fid := t.(notes := t.notes - {noteId})];
      err := None;
    }

    // -------------------------------------------------------------------------
    // ensureFamilyExists, split at its `await`

    /** The part of `ensureFamilyExists` before it awaits: a call made while
        an initialization is pending joins it and starts nothing; otherwise
        the family id is resolved (failing when nobody is signed in) and the
        slot is taken. */
    method StartEnsureFamilyExists() returns (s: EnsureStart)
      modifies this
      ensures user == old(user) && familyId == old(familyId)
      ensures old(initializationPending) ==> s == Joined && initializationPending
      ensures !old(initializationPending) && user.None? ==> s == StartFailed(NotLoggedIn) && !initializationPending
      ensures !old(initializationPending) && user.Some? ==> s == Started(TenantKey(user.value)) && initializationPending
    {
      if initializationPending {
        return Joined;
      }
      var f := UserFamilyId();
      if f.Err? {
        return StartFailed(f.error);
      }
      initializationPending := true;
      s := Started(f.value);
    }

    /** The part after the await: the run itself, then the `finally` that
        clears the slot whatever the run's outcome. */
    method FinishEnsureFamilyExists(fid: string, env: InitEnv) returns (o: Outcome)
      requires ValidIds(env.newIds)
      modifies this, db
      ensures !initializationPending && user == old(user) && familyId == old(familyId)
      ensures db.At(fid) == PerformInitialization(old(db.At(fid)), env).0
      ensures o == PerformInitialization(old(db.At(fid)), env).1
      ensures db.tenants - {fid} == old(db.tenants) - {fid}
    {
      o := RunInitialization(fid, env);
      initializationPending := false;
    }

    /** `performInitialization(familyId)`. */
    method RunInitialization(fid: string, env: InitEnv) returns (o: Outcome)
      requires ValidIds(env.newIds)
      modifies db
      ensures db.At(fid) == PerformInitialization(old(db.At(fid)), env).0
      ensures o == PerformInitialization(old(db.At(fid)), env).1
      ensures db.tenants - {fid} == old(db.tenants) - {fid}
    {
      // 1. The family document; its errors are only logged.
      if env.familyStep == FamilyCallsSucceed && db.At(fid).familyName.None? {
        db.tenants := db.tenants[fid := db.At(fid).(familyName := Some(DefaultFamilyName))];
      }
      // 2. The members check; its errors are rethrown to the outer catch.
      var inner: Outcome := Done;
      if env.membersQueryError.Some? {
        inner := Failed(env.membersQueryError.value);
      } else if db.At(fid).members == map[] {
        if env.doubleCheckError.Some? {
          inner := Failed(env.doubleCheckError.value);
        } else {
          inner := InitializeDefaultDataSafely(fid, env);
        }
      }
      // The outer catch.
      if inner.Failed? && IsTolerated(inner.message) {
        return Done;
      }
      o := inner;
    }

    /** `initializeDefaultDataSafely(familyId)`: take the flag, check once
        more that there are no members, commit the four defaults in one
        batch and mark the flag completed; on failure delete the flag and
        rethrow. Every path that gets past the flag step is one on which the
        source's `shouldProceed` is true. */
    method InitializeDefaultDataSafely(fid: string, env: InitEnv) returns (o: Outcome)
      requires ValidIds(env.newIds)
      modifies db
      ensures db.At(fid) == SeedSafely(old(db.At(fid)), env).0
      ensures o == SeedSafely(old(db.At(fid)), env).1
      ensures db.tenants - {fid} == old(db.tenants) - {fid}
    {
      if !env.flagWriteFails {
        db.tenants := db.tenants[fid := db.At(fid).(initFlag := Some(Initializing))];
      } else if !env.flagReadFails && db.At(fid).initFlag.Some? {
        // The flag exists, whether initializing or completed: skip.
        return Done;
      }

      var failure: string;
      if env.finalCheckError.Some? {
        failure := env.finalCheckError.value;
      } else if db.At(fid).members != map[] {
        return Done;
      } else {
        var batch: map<string, MemberData> := map[];
        var i := 0;
        while i < |DefaultRoster|
          invariant 0 <= i <= |DefaultRoster|
          invariant batch == SeedUpTo(env.newIds, i)
        {
          batch := batch[env.newIds[i] := DefaultRoster[i]];
          i := i + 1;
        }
        SeedUpToAll(env.newIds);
        if env.seedCommitError.None? {
          db.tenants := db.tenants[fid := db.At(fid).(members := db.At(fid).members + batch)];
          // Marking completed: `updateDoc` fails on a missing flag; failures are only logged.
          if !env.markCompletedFails && db.At(fid).initFlag.Some? {
            db.tenants := db.tenants[fid := db.At(fid).(initFlag := Some(Completed))];
          }
          return Done;
        }
        failure := env.seedCommitError.value;
      }
      // The catch: delete the flag (a failing delete is only logged), rethrow.
      if !env.flagDeleteFails {
        db.tenants := db.tenants[fid := db.At(fid).(initFlag := None)];
      }
      o := Failed(failure);
    }

    /** `cleanup`: forgets the user, the family id and the pending
        initialization. */
    method Cleanup()
      modifies this
      ensures user.None? && familyId.None? && !initializationPending && Valid()
    {
      user := None;
      familyId := None;
      initializationPending := false;
    }
  }

  /** The family id the service stores and the one `getUserFamilyId` derives
      agree, and the scoped operations fail exactly when there is no user. */
  lemma FamilyIdAgrees(s: FirestoreService)
    requires s.Valid()
    ensures s.UserFamilyId().Ok? <==> s.familyId.Some?
    ensures s.UserFamilyId().Ok? ==> s.UserFamilyId().value == s.familyId.value
  {
  }
}
