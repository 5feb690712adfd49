/** The note dialog for one date (src/components/NoteModal.tsx): the new-note
    and edit inputs, the selected member, their validation, and the lookups
    that show a note's author. The `onAddNote` and `onUpdateNote` callbacks
    are the caller's; a method returns the call it makes, and whether the
    awaited callback rejects is an input. */
module NoteModal {
  import opened FamilyTypes
  import Strings

  const UnknownMemberName: string := "不明"
  const UnknownMemberColor: string := "#6B7280"

  /** `members.find(m => m.id === memberId)`: the first member with that id. */
  function FindMember(members: seq<FamilyMember>, memberId: string): (r: Option<FamilyMember>)
    ensures r.None? <==> forall m | m in members :: m.id != memberId
    ensures r.Some? ==> exists i | 0 <= i < |members| :: members[i] == r.value && r.value.id == memberId &&
                          forall j | 0 <= j < i :: members[j].id != memberId
  {
    if members == [] then None
    else if members[0].id == memberId then Some(members[0])
    else
      var r := FindMember(members[1..], memberId);
      assert r.Some? ==> exists i | 0 <= i < |members| :: members[i] == r.value && r.value.id == memberId &&
                          forall j | 0 <= j < i :: members[j].id != memberId by {
        if r.Some? {
          var i :| 0 <= i < |members[1..]| && members[1..][i] == r.value && r.value.id == memberId &&
                   forall j | 0 <= j < i :: members[1..][j].id != memberId;
          assert members[i + 1] == r.value;
          assert forall j | 0 <= j < i + 1 :: members[j].id != memberId by {
            forall j | 0 <= j < i + 1 ensures members[j].id != memberId {
              if j > 0 { assert members[j] == members[1..][j - 1]; }
            }
          }
        }
      }
      assert members == [members[0]] + members[1..];
      r
  }

  /** `getMemberName`: the member's name, or `不明` when no member has the id
      or its name is empty. */
  function MemberName(members: seq<FamilyMember>, memberId: string): (r: string)
    ensures (forall m | m in members :: m.id != memberId) ==> r == UnknownMemberName
    ensures FindMember(members, memberId).Some? && FindMember(members, memberId).value.name != "" ==>
              r == FindMember(members, memberId).value.name
    ensures FindMember(members, memberId).Some? && FindMember(members, memberId).value.name == "" ==>
              r == UnknownMemberName
  {
    var m := FindMember(members, memberId);
    if m.Some? && m.value.name != "" then m.value.name else UnknownMemberName
  }

  /** `getMemberColor`: the member's colour, or `#6B7280` when no member has
      the id or its colour is empty. */
  function MemberColor(members: seq<FamilyMember>, memberId: string): (r: string)
    ensures (forall m | m in members :: m.id != memberId) ==> r == UnknownMemberColor
    ensures FindMember(members, memberId).Some? && FindMember(members, memberId).value.color != "" ==>
              r == FindMember(members, memberId).value.color
    ensures FindMember(members, memberId).Some? && FindMember(members, memberId).value.color == "" ==>
              r == UnknownMemberColor
  {
    var m := FindMember(members, memberId);
    if m.Some? && m.value.color != "" then m.value.color else UnknownMemberColor
  }

  /** With unique ids the lookups return the named member's own fields. */
  lemma LookupFindsMember(members: seq<FamilyMember>, i: nat)
    requires i < |members|
    requires forall a, b | 0 <= a < b < |members| :: members[a].id != members[b].id
    requires members[i].name != "" && members[i].color != ""
    ensures MemberName(members, members[i].id) == members[i].name
    ensures MemberColor(members, members[i].id) == members[i].color
  {
    var r := FindMember(members, members[i].id);
    var k :| 0 <= k < |members| && members[k] == r.value && r.value.id == members[i].id &&
             forall j | 0 <= j < k :: members[j].id != members[i].id;
    assert k == i;
  }

  /** `members[0]?.id || ''` */
  function DefaultMemberId(members: seq<FamilyMember>): (r: string)
    ensures members == [] ==> r == ""
    ensures members != [] ==> r == members[0].id
  {
    if members == [] then "" else members[0].id
  }

  class NoteForm {
    var newNote: string
    var selectedMemberId: string
    var editingNoteId: Option<string>
    var editingText: string

    constructor(members: seq<FamilyMember>)
      ensures newNote == "" && selectedMemberId == DefaultMemberId(members)
      ensures editingNoteId.None? && editingText == ""
    {
      newNote := "";
      selectedMemberId := DefaultMemberId(members);
      editingNoteId := None;
      editingText := "";
    }

    /** The effect on `[members, selectedMemberId]`: once members exist and
        none is selected, the first one is selected. */
    method MembersChanged(members: seq<FamilyMember>)
      modifies this
      ensures selectedMemberId ==
                if members != [] && old(selectedMemberId) == "" then members[0].id else old(selectedMemberId)
      ensures newNote == old(newNote) && editingNoteId == old(editingNoteId) && editingText == old(editingText)
    {
      if |members| > 0 && selectedMemberId == "" {
        selectedMemberId := members[0].id;
      }
    }

    /** `handleAddNote`: refused on blank text; otherwise the selected member,
        the dialog's date and the trimmed text go to `onAddNote`, and the
        input is cleared only when that succeeds. */
    method HandleAddNote(date: string, callbackFails: bool) returns (sent: Option<NoteInput>)
      modifies this
      ensures Strings.AllWhitespace(old(newNote)) <==> sent.None?
      ensures sent.Some? ==> sent.value == NoteInput(old(selectedMemberId), date, Strings.Trim(old(newNote)))
      ensures newNote == if sent.Some? && !callbackFails then "" else old(newNote)
      ensures selectedMemberId == old(selectedMemberId)
      ensures editingNoteId == old(editingNoteId) && editingText == old(editingText)
    {
      Strings.TrimEmptyIffBlank(newNote);
      if Strings.Trim(newNote) == [] {
        return None;
      }
      sent := Some(NoteInput(selectedMemberId, date, Strings.Trim(newNote)));
      if !callbackFails {
        newNote := "";
      }
    }

    /** `handleUpdateNote(noteId)`: refused on blank text; otherwise the
        trimmed text goes to `onUpdateNote`, and on success the edit state is
        cleared. */
    method HandleUpdateNote(noteId: string, callbackFails: bool) returns (sent: Option<(string, string)>)
      modifies this
      ensures Strings.AllWhitespace(old(editingText)) <==> sent.None?
      ensures sent.Some? ==> sent.value == (noteId, Strings.Trim(old(editingText)))
      ensures sent.Some? && !callbackFails ==> editingNoteId.None? && editingText == ""
      ensures sent.None? || callbackFails ==> editingNoteId == old(editingNoteId) && editingText == old(editingText)
      ensures newNote == old(newNote) && selectedMemberId == old(selectedMemberId)
    {
      Strings.TrimEmptyIffBlank(editingText);
      if Strings.Trim(editingText) == [] {
        return None;
      }
      sent := Some((noteId, Strings.Trim(editingText)));
      if !callbackFails {
        editingNoteId := None;
        editingText := "";
      }
    }

    /** `startEditing(note)` */
    method StartEditing(note: Note)
      modifies this
      ensures editingNoteId == Some(note.id) && editingText == note.text
      ensures newNote == old(newNote) && selectedMemberId == old(selectedMemberId)
    {
      editingNoteId := Some(note.id);
      editingText := note.text;
    }

    /** `cancelEditing` clears both the edited id and its text. */
    method CancelEditing()
      modifies this
      ensures editingNoteId.None? && editingText == ""
      ensures newNote == old(newNote) && selectedMemberId == old(selectedMemberId)
    {
      editingNoteId := None;
      editingText := "";
    }
  }

  /** The text a note is saved with is already trimmed and not blank, so
      saving it again would send the same text. */
  lemma SentTextIsTrimmed(text: string)
    requires !Strings.AllWhitespace(text)
    ensures Strings.Trim(Strings.Trim(text)) == Strings.Trim(text)
    ensures !Strings.AllWhitespace(Strings.Trim(text))
  {
    Strings.TrimIdempotent(text);
    Strings.TrimEmptyIffBlank(text);
    Strings.TrimEmptyIffBlank(Strings.Trim(text));
  }
}
