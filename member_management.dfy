/** The member editor (src/components/MemberManagement.tsx): the add and edit
    forms, their validation, the colour suggested for the next member, and
    the guard on deleting the last member. The `onAddMember`,
    `onUpdateMember` and `onDeleteMember` callbacks are the caller's; a
    method returns the call it makes, and whether the awaited callback
    rejects is an input. */
module MemberManagement {
  import opened FamilyTypes
  import Strings
  import AppState

  /** The twelve colours offered, in order. */
  const Palette: seq<string> := [
    "#3B82F6", "#EF4444", "#10B981", "#F59E0B",
    "#8B5CF6", "#EC4899", "#14B8A6", "#F97316",
    "#6366F1", "#84CC16", "#F43F5E", "#06B6D4"
  ]

  function ColorsOf(members: seq<FamilyMember>): (r: seq<string>)
    ensures |r| == |members|
    ensures forall i | 0 <= i < |members| :: r[i] == members[i].color
  {
    seq(|members|, i requires 0 <= i < |members| => members[i].color)
  }

  /** The first palette colour from index `from` on that is not in `used`. */
  function FirstUnused(used: seq<string>, from: nat): (r: Option<nat>)
    requires from <= |Palette|
    ensures r.Some? ==> from <= r.value < |Palette| && Palette[r.value] !in used &&
                        forall j | from <= j < r.value :: Palette[j] in used
    ensures r.None? ==> forall j | from <= j < |Palette| :: Palette[j] in used
    decreases |Palette| - from
  {
    if from == |Palette| then None
    else if Palette[from] !in used then Some(from)
    else FirstUnused(used, from + 1)
  }

  /** `getAvailableColor`: the first palette colour no member uses, or the
      first palette colour when all twelve are taken. */
  function AvailableColor(members: seq<FamilyMember>): (r: string)
    ensures r in Palette
    ensures (exists c | c in Palette :: c !in ColorsOf(members)) ==>
              r !in ColorsOf(members) &&
              exists i | 0 <= i < |Palette| :: Palette[i] == r && forall j | 0 <= j < i :: Palette[j] in ColorsOf(members)
    ensures (forall c | c in Palette :: c in ColorsOf(members)) ==> r == Palette[0]
  {
    match FirstUnused(ColorsOf(members), 0)
    case Some(i) => Palette[i]
    case None => Palette[0]
  }

  /** A colour already in use is never suggested while another is free. */
  lemma AvailableColorAvoidsUsed(members: seq<FamilyMember>, m: FamilyMember)
    requires m in members
    requires exists c | c in Palette :: c !in ColorsOf(members)
    ensures AvailableColor(members) != m.color
  {
    var i :| 0 <= i < |members| && members[i] == m;
    assert ColorsOf(members)[i] == m.color;
  }

  /** `disabled={members.length <= 1}`: the delete button works only while
      more than one member remains. */
  predicate CanDelete(members: seq<FamilyMember>)
  {
    |members| > 1
  }

  /** `!name.trim()`: the name is empty after trimming. */
  predicate BlankName(name: string)
  {
    Strings.Trim(name) == []
  }

  /** A name is refused exactly when it has no non-whitespace character. */
  lemma BlankNameIffWhitespace(name: string)
    ensures BlankName(name) <==> Strings.AllWhitespace(name)
  {
    Strings.TrimEmptyIffBlank(name);
  }

  /** A press of a member's delete button: the id passed to
      `onDeleteMember`, made only while the button is enabled and only after
      the user confirms. */
  function DeleteCall(members: seq<FamilyMember>, id: string, confirmed: bool): (r: Option<string>)
    ensures r.Some? <==> CanDelete(members) && confirmed
    ensures r.Some? ==> r.value == id
  {
    if CanDelete(members) && confirmed then Some(id) else None
  }

  /** The last member can never be deleted from this form, and with unique
      ids a delete the form sends always leaves at least one member, so the
      roster never becomes empty through it. */
  lemma DeleteLeavesAMember(members: seq<FamilyMember>, id: string, confirmed: bool)
    requires forall i, j | 0 <= i < j < |members| :: members[i].id != members[j].id
    ensures |members| <= 1 ==> DeleteCall(members, id, confirmed).None?
    ensures DeleteCall(members, id, confirmed).Some? ==>
              |Filter(members, AppState.NotMember(DeleteCall(members, id, confirmed).value))| >= 1
  {
  }

  /** The two forms' state. */
  class MemberForm {
    var editingId: Option<string>
    var isAdding: bool
    var newMember: MemberData
    var editingMember: Option<FamilyMember>

    constructor()
      ensures editingId.None? && !isAdding && editingMember.None?
      ensures newMember == MemberData("", Palette[0], 1)
    {
      editingId := None;
      isAdding := false;
      newMember := MemberData("", Palette[0], 1);
      editingMember := None;
    }

    /** `handleAddMember`: refused on a blank name; otherwise the form's
        name (untrimmed) and colour with `order = members.length + 1` go to
        `onAddMember`. On success the form is reset with the colour
        suggested for the roster the handler was given, and closed; on
        failure it is left as it was. */
    method HandleAddMember(members: seq<FamilyMember>, callbackFails: bool) returns (sent: Option<MemberData>)
      modifies this
      ensures BlankName(old(newMember.name)) ==> sent.None?
      ensures !BlankName(old(newMember.name)) ==>
                sent == Some(MemberData(old(newMember.name), old(newMember.color), |members| + 1))
      ensures sent.Some? && !callbackFails ==>
                newMember == MemberData("", AvailableColor(members), 1) && !isAdding
      ensures sent.None? || callbackFails ==> newMember == old(newMember) && isAdding == old(isAdding)
      ensures editingId == old(editingId) && editingMember == old(editingMember)
    {
      if BlankName(newMember.name) {
        return None;
      }
      var memberToAdd := newMember.(order := |members| + 1);
      sent := Some(memberToAdd);
      if callbackFails {
        return;
      }
      ResetAddForm(members);
    }

    /** The add form after a successful add: empty name, the suggested
        colour, closed. */
    method ResetAddForm(members: seq<FamilyMember>)
      modifies this
      ensures newMember == MemberData("", AvailableColor(members), 1) && !isAdding
      ensures editingId == old(editingId) && editingMember == old(editingMember)
    {
      newMember := MemberData("", AvailableColor(members), 1);
      isAdding := false;
    }

    /** `handleUpdateMember`: refused when nothing is being edited or the
        edited name is blank; otherwise `onUpdateMember` gets the member's
        id and a patch of exactly name, colour and order, and on success the
        edit state is cleared. */
    method HandleUpdateMember(callbackFails: bool) returns (sent: Option<(string, AppState.MemberPatch)>)
      modifies this
      ensures old(editingMember).None? || BlankName(old(editingMember).value.name) ==> sent.None?
      ensures old(editingMember).Some? && !BlankName(old(editingMember).value.name) ==>
                var m := old(editingMember).value;
                sent == Some((m.id, AppState.MemberPatch(None, Some(m.name), Some(m.color), Some(m.order))))
      ensures sent.Some? && !callbackFails ==> editingId.None? && editingMember.None?
      ensures sent.None? || callbackFails ==> editingId == old(editingId) && editingMember == old(editingMember)
      ensures newMember == old(newMember) && isAdding == old(isAdding)
    {
      if editingMember.None? || BlankName(editingMember.value.name) {
        return None;
      }
      var m := editingMember.value;
      sent := Some((m.id, AppState.MemberPatch(None, Some(m.name), Some(m.color), Some(m.order))));
      if callbackFails {
        return;
      }
      editingId := None;
      editingMember := None;
    }

    /** `startEditing`: edits a copy of the member. */
    method StartEditing(member: FamilyMember)
      modifies this
      ensures editingId == Some(member.id) && editingMember == Some(member)
      ensures newMember == old(newMember) && isAdding == old(isAdding)
    {
      editingId := Some(member.id);
      editingMember := Some(member);
    }

    /** `cancelEditing` */
    method CancelEditing()
      modifies this
      ensures editingId.None? && editingMember.None?
      ensures newMember == old(newMember) && isAdding == old(isAdding)
    {
      editingId := None;
      editingMember := None;
    }
  }

  /** The patch an update sends, applied to the member being edited, gives
      the edited member back: the update changes exactly name, colour and
      order. */
  lemma UpdatePatchRestoresEdit(original: FamilyMember, edited: FamilyMember)
    requires edited.id == original.id
    ensures AppState.ApplyPatch(original,
              AppState.MemberPatch(None, Some(edited.name), Some(edited.color), Some(edited.order))) == edited
  {
  }
}
