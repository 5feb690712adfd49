/** First-session bootstrap of a family (firestoreService.ts,
    `performInitialization` and `initializeDefaultDataSafely`): make sure the
    family document exists, and seed four default members when the members
    collection is empty, guarded by the `system/initialization` flag document
    and rolled back when seeding fails.

    Every backend call of one run is an input (`InitEnv`): whether it throws,
    and with which message. Whether the flag document exists is read from the
    family's documents. The run is sequential: writes by other devices between
    its reads are not modelled. */
module Bootstrap {
  import opened FamilyTypes
  import opened FamilyStore
  import Strings

  const DefaultFamilyName: string := "我が家"

  /** The four default members, in batch order. */
  const DefaultRoster: seq<MemberData> := [
    MemberData("お父さん", "#3B82F6", 1),
    MemberData("お母さん", "#EF4444", 2),
    MemberData("太郎", "#10B981", 3),
    MemberData("花子", "#F59E0B", 4)
  ]

  /** How the family-document step (`getFamily`, then `createFamily` when it
      is missing) behaves. */
  datatype FamilyStep = FamilyCallsSucceed | FamilyReadFails | FamilyCreateFails

  /** The behaviour of each backend call of one run. An `Option<string>` is
      the message of the error the call throws, `None` when it succeeds. */
  datatype InitEnv = InitEnv(
    familyStep: FamilyStep,
    membersQueryError: Option<string>,   // first getDocs of members
    doubleCheckError: Option<string>,    // second getDocs of members
    flagWriteFails: bool,                // setDoc of the flag
    flagReadFails: bool,                 // getDoc of the flag after a failed write
    finalCheckError: Option<string>,     // third getDocs of members
    seedCommitError: Option<string>,     // commit of the four-member batch
    markCompletedFails: bool,            // updateDoc of the flag to 'completed'
    flagDeleteFails: bool,               // deleteDoc of the flag on rollback
    newIds: seq<string>)                 // ids the backend generates for the four members

  /** The backend hands out four distinct ids. */
  predicate ValidIds(ids: seq<string>)
  {
    |ids| == 4 && forall i, j | 0 <= i < j < 4 :: ids[i] != ids[j]
  }

  datatype Outcome = Done | Failed(message: string)

  /** The errors the run treats as harmless: their message mentions
      `offline`, `network` or `already-exists`. */
  predicate IsTolerated(message: string)
  {
    Strings.Contains(message, "offline") || Strings.Contains(message, "network") ||
    Strings.Contains(message, "already-exists")
  }

  /** The outer `catch` of `performInitialization`: tolerated errors end the
      run normally, every other error is rethrown unchanged. */
  function Classify(o: Outcome): (r: Outcome)
    ensures r.Failed? <==> o.Failed? && !IsTolerated(o.message)
    ensures r.Failed? ==> r == o
  {
    if o.Failed? && IsTolerated(o.message) then Done else o
  }

  /** The members the seeding batch creates. */
  function SeedMembers(ids: seq<string>): map<string, MemberData>
    requires ValidIds(ids)
  {
    map[ids[0] := DefaultRoster[0], ids[1] := DefaultRoster[1],
        ids[2] := DefaultRoster[2], ids[3] := DefaultRoster[3]]
  }

  /** The batch after its first `n` `set`s: the first `n` defaults under the
      first `n` generated ids. */
  function SeedUpTo(ids: seq<string>, n: nat): map<string, MemberData>
    requires n <= |DefaultRoster| && |ids| == |DefaultRoster|
  {
    if n == 0 then map[] else SeedUpTo(ids, n - 1)[ids[n - 1] := DefaultRoster[n - 1]]
  }

  /** The whole batch is the seeded roster. */
  lemma SeedUpToAll(ids: seq<string>)
    requires ValidIds(ids)
    ensures SeedUpTo(ids, |DefaultRoster|) == SeedMembers(ids)
  {
    assert SeedUpTo(ids, 1) == map[ids[0] := DefaultRoster[0]];
    assert SeedUpTo(ids, 2) == map[ids[0] := DefaultRoster[0], ids[1] := DefaultRoster[1]];
    assert SeedUpTo(ids, 3) == SeedUpTo(ids, 2)[ids[2] := DefaultRoster[2]];
    assert SeedUpTo(ids, 4) == SeedUpTo(ids, 3)[ids[3] := DefaultRoster[3]];
  }

  /** The seeding batch creates four members, one per generated id. */
  lemma SeedCount(ids: seq<string>)
    requires ValidIds(ids)
    ensures SeedMembers(ids).Keys == {ids[0], ids[1], ids[2], ids[3]}
    ensures |SeedMembers(ids)| == 4
  {
    var m := SeedMembers(ids);
    assert m.Keys == {ids[0]} + {ids[1]} + {ids[2]} + {ids[3]};
    assert |m| == |m.Keys|;
  }

  /** The seeded roster has orders 1 to 4 and four different colours. */
  lemma SeedRoster(ids: seq<string>)
    requires ValidIds(ids)
    ensures (set id | id in SeedMembers(ids) :: SeedMembers(ids)[id].order) == {1, 2, 3, 4}
    ensures forall a, b | a in SeedMembers(ids) && b in SeedMembers(ids) && a != b ::
              SeedMembers(ids)[a].color != SeedMembers(ids)[b].color
  {
    var m := SeedMembers(ids);
    assert m.Keys == {ids[0], ids[1], ids[2], ids[3]};
    assert m[ids[0]].order == 1 && m[ids[1]].order == 2 && m[ids[2]].order == 3 && m[ids[3]].order == 4;
  }

  // ---------------------------------------------------------------------------
  // initializeDefaultDataSafely

  /** Trying to take the flag: a successful write sets it to `initializing`
      (a full replace, whatever was there); after a failed write the run goes
      on only when the flag is absent or cannot be read. */
  function AcquireFlag(t: Tenant, env: InitEnv): (r: (bool, Tenant))
    ensures !r.0 ==> r.1 == t
  {
    if !env.flagWriteFails then (true, t.(initFlag := Some(Initializing)))
    else if env.flagReadFails then (true, t)
    else (t.initFlag.None?, t)
  }

  /** Deleting the flag after a failure, unless the delete itself fails. */
  function RollBack(t: Tenant, env: InitEnv): Tenant
  {
    if env.flagDeleteFails then t else t.(initFlag := None)
  }

  /** Marking the flag completed; `updateDoc` fails on a missing flag, and a
      failure here is only logged. */
  function MarkCompleted(t: Tenant, env: InitEnv): Tenant
  {
    if !env.markCompletedFails && t.initFlag.Some? then t.(initFlag := Some(Completed)) else t
  }

  function SeedSafely(t: Tenant, env: InitEnv): (Tenant, Outcome)
    requires ValidIds(env.newIds)
  {
    var (proceed, t1) := AcquireFlag(t, env);
    if !proceed then (t, Done)
    else if env.finalCheckError.Some? then (RollBack(t1, env), Failed(env.finalCheckError.value))
    else if t1.members != map[] then (t1, Done)
    else if env.seedCommitError.Some? then (RollBack(t1, env), Failed(env.seedCommitError.value))
    else (MarkCompleted(t1.(members := t1.members + SeedMembers(env.newIds)), env), Done)
  }

  // ---------------------------------------------------------------------------
  // performInitialization

  /** Step 1: create the family document when it is missing; errors of this
      step are only logged. */
  function EnsureFamilyDoc(t: Tenant, env: InitEnv): Tenant
  {
    if env.familyStep == FamilyCallsSucceed && t.familyName.None? then t.(familyName := Some(DefaultFamilyName)) else t
  }

  /** Step 2: the members check, with its double check, before seeding. */
  function CheckMembers(t: Tenant, env: InitEnv): (Tenant, Outcome)
    requires ValidIds(env.newIds)
  {
    if env.membersQueryError.Some? then (t, Failed(env.membersQueryError.value))
    else if t.members != map[] then (t, Done)
    else if env.doubleCheckError.Some? then (t, Failed(env.doubleCheckError.value))
    else SeedSafely(t, env)
  }

  /** One run of `performInitialization` on the family's documents: the new
      documents and how the run ends. */
  function PerformInitialization(t: Tenant, env: InitEnv): (Tenant, Outcome)
    requires ValidIds(env.newIds)
  {
    var (t2, o) := CheckMembers(EnsureFamilyDoc(t, env), env);
    (t2, Classify(o))
  }

  // ---------------------------------------------------------------------------
  // Properties

  /** The family document exists after a run whose family step succeeded,
      and an existing family document is never replaced. */
  lemma FamilyDocEnsured(t: Tenant, env: InitEnv)
    requires ValidIds(env.newIds)
    ensures env.familyStep == FamilyCallsSucceed ==> PerformInitialization(t, env).0.familyName.Some?
    ensures t.familyName.Some? ==> PerformInitialization(t, env).0.familyName == t.familyName
  {
  }

  /** A family that already has members keeps them unchanged. */
  lemma ExistingMembersKept(t: Tenant, env: InitEnv)
    requires ValidIds(env.newIds)
    requires t.members != map[]
    ensures PerformInitialization(t, env).0.members == t.members
    ensures PerformInitialization(t, env).0.initFlag == t.initFlag
  {
  }

  /** Members are only ever created into an empty collection, and then they
      are exactly the four defaults and the run ends normally. */
  lemma SeedingOnlyIntoEmpty(t: Tenant, env: InitEnv)
    requires ValidIds(env.newIds)
    ensures var (r, o) := PerformInitialization(t, env);
      r.members != t.members ==> t.members == map[] && r.members == SeedMembers(env.newIds) && o == Done
    ensures var r := PerformInitialization(t, env).0;
      r.members == t.members || |r.members| == 4
  {
    SeedSafelyMembers(EnsureFamilyDoc(t, env), env);
    SeedCount(env.newIds);
  }

  /** The seeding step either leaves the members as they were or, on an
      empty collection, adds exactly the four defaults and ends normally. */
  lemma SeedSafelyMembers(t: Tenant, env: InitEnv)
    requires ValidIds(env.newIds)
    ensures var (r, o) := SeedSafely(t, env);
      r.members == t.members || (t.members == map[] && r.members == SeedMembers(env.newIds) && o == Done)
  {
    var t1 := AcquireFlag(t, env).1;
    assert t1.members == t.members;
    if t1.members == map[] {
      assert t1.members + SeedMembers(env.newIds) == SeedMembers(env.newIds);
    }
  }

  /** A failed flag write followed by a successful read that finds the flag,
      whatever its status, skips seeding. */
  lemma FlagPresentSkipsSeeding(t: Tenant, env: InitEnv)
    requires ValidIds(env.newIds)
    requires env.flagWriteFails && !env.flagReadFails && t.initFlag.Some?
    ensures PerformInitialization(t, env).0.members == t.members
    ensures PerformInitialization(t, env).0.initFlag == t.initFlag
  {
  }

  /** When the seeding commit fails, no member is created, the flag is
      deleted (unless that delete fails too) and the error is rethrown
      unless it is a tolerated one. */
  lemma SeedFailureRollsBack(t: Tenant, env: InitEnv)
    requires ValidIds(env.newIds)
    requires t.members == map[]
    requires env.membersQueryError.None? && env.doubleCheckError.None? && env.finalCheckError.None?
    requires !env.flagWriteFails || env.flagReadFails || t.initFlag.None?
    requires env.seedCommitError.Some? && !env.flagDeleteFails
    ensures PerformInitialization(t, env).0.members == map[]
    ensures PerformInitialization(t, env).0.initFlag.None?
    ensures PerformInitialization(t, env).1 == Classify(Failed(env.seedCommitError.value))
  {
  }

  /** A successful seed ends the run normally even when marking the flag
      completed fails; when that update succeeds on a flag the run wrote, the
      flag reads `completed`. */
  lemma SeedSuccessMarksFlag(t: Tenant, env: InitEnv)
    requires ValidIds(env.newIds)
    requires t.members == map[]
    requires env.membersQueryError.None? && env.doubleCheckError.None? && env.finalCheckError.None?
    requires !env.flagWriteFails && env.seedCommitError.None?
    ensures PerformInitialization(t, env).0.members == SeedMembers(env.newIds)
    ensures PerformInitialization(t, env).1 == Done
    ensures PerformInitialization(t, env).0.initFlag ==
              if env.markCompletedFails then Some(Initializing) else Some(Completed)
  {
    assert map[] + SeedMembers(env.newIds) == SeedMembers(env.newIds);
  }

  /** A run ends in failure only with an error that is not tolerated, and
      every tolerated error ends it normally. */
  lemma FailuresAreNotTolerated(t: Tenant, env: InitEnv)
    requires ValidIds(env.newIds)
    ensures PerformInitialization(t, env).1.Failed? ==> !IsTolerated(PerformInitialization(t, env).1.message)
    ensures CheckMembers(EnsureFamilyDoc(t, env), env).1.Failed? &&
            IsTolerated(CheckMembers(EnsureFamilyDoc(t, env), env).1.message) ==>
              PerformInitialization(t, env).1 == Done
  {
  }

  /** Errors of the family-document step never change how the members step
      goes: members, flag and outcome are those of a run whose family step
      succeeded. */
  lemma FamilyErrorsDoNotAbort(t: Tenant, env: InitEnv, step: FamilyStep)
    requires ValidIds(env.newIds)
    ensures PerformInitialization(t, env).1 == PerformInitialization(t, env.(familyStep := step)).1
    ensures PerformInitialization(t, env).0.members == PerformInitialization(t, env.(familyStep := step)).0.members
    ensures PerformInitialization(t, env).0.initFlag == PerformInitialization(t, env.(familyStep := step)).0.initFlag
  {
    var e2 := env.(familyStep := step);
    var a, b := EnsureFamilyDoc(t, env), EnsureFamilyDoc(t, e2);
    assert a.members == b.members && a.initFlag == b.initFlag;
    MembersStepIgnoresFamilyDoc(a, b, env);
    assert CheckMembers(b, env) == CheckMembers(b, e2);
  }

  /** The members step does not look at the family document. */
  lemma MembersStepIgnoresFamilyDoc(a: Tenant, b: Tenant, env: InitEnv)
    requires ValidIds(env.newIds)
    requires a.members == b.members && a.initFlag == b.initFlag
    requires a.attendance == b.attendance && a.notes == b.notes
    ensures CheckMembers(a, env).1 == CheckMembers(b, env).1
    ensures CheckMembers(a, env).0.members == CheckMembers(b, env).0.members
    ensures CheckMembers(a, env).0.initFlag == CheckMembers(b, env).0.initFlag
  {
  }

  /** Two runs one after the other, with any backend behaviour, never create a
      second set of defaults: an empty family ends with no members or with
      exactly four. */
  lemma NoDoubleSeeding(t: Tenant, e1: InitEnv, e2: InitEnv)
    requires ValidIds(e1.newIds) && ValidIds(e2.newIds)
    requires t.members == map[]
    ensures var t2 := PerformInitialization(PerformInitialization(t, e1).0, e2).0;
      t2.members == map[] || |t2.members| == 4
  {
    var t1 := PerformInitialization(t, e1).0;
    SeedingOnlyIntoEmpty(t, e1);
    if t1.members != map[] {
      ExistingMembersKept(t1, e2);
    } else {
      SeedingOnlyIntoEmpty(t1, e2);
    }
  }
}
