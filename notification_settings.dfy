/** The notification settings and their dialog
    (src/components/NotificationSettings.tsx): a local copy of the settings
    edited by the member toggles and the on/off switch, saved through the
    caller's `onUpdateSettings`. The settings record has the four fields the
    application's defaults give it (src/App.tsx). */
module NotificationSettings {
  import opened FamilyTypes

  datatype Settings = Settings(
    enabled: bool,
    reminderTime: string,
    deadlineTime: string,
    notifyMembers: seq<string>)

  const DefaultSettings: Settings := Settings(false, "17:00", "18:00", [])

  function NotId(id: string): string -> bool
  {
    (x: string) => x != id
  }

  /** `handleMemberToggle`'s new list: every occurrence of the id removed
      when it is there, the id appended otherwise. */
  function ToggleMember(ids: seq<string>, id: string): (r: seq<string>)
    ensures id in ids ==> r == Filter(ids, NotId(id))
    ensures id !in ids ==> r == ids + [id]
  {
    if id in ids then Filter(ids, NotId(id)) else ids + [id]
  }

  /** A toggle flips the id's membership and keeps every other id's. */
  lemma ToggleFlips(ids: seq<string>, id: string, other: string)
    requires other != id
    ensures id in ToggleMember(ids, id) <==> id !in ids
    ensures other in ToggleMember(ids, id) <==> other in ids
  {
  }

  /** Toggling an absent id twice gives back the original list. */
  lemma ToggleTwiceRestores(ids: seq<string>, id: string)
    requires id !in ids
    ensures ToggleMember(ToggleMember(ids, id), id) == ids
  {
    FilterAppend(ids, [id], NotId(id));
    FilterKeepsAll(ids, NotId(id));
    assert Filter([id], NotId(id)) == [];
  }

  /** Removing an id that is present makes the list shorter. */
  lemma ToggleOffShrinks(ids: seq<string>, id: string)
    requires id in ids
    ensures |ToggleMember(ids, id)| < |ids|
  {
    FilterShrinks(ids, NotId(id), id);
  }

  lemma {:induction false} FilterShrinks(s: seq<string>, keep: string -> bool, x: string)
    requires x in s && !keep(x)
    ensures |Filter(s, keep)| < |s|
  {
    assert s == [s[0]] + s[1..];
    if s[0] != x {
      FilterShrinks(s[1..], keep, x);
    }
  }

  /** The dialog's state. */
  class SettingsDialog {
    var localSettings: Settings
    var isLoading: bool
    var open: bool

    constructor(settings: Settings)
      ensures localSettings == settings && !isLoading && open
    {
      localSettings := settings;
      isLoading := false;
      open := true;
    }

    /** `handleMemberToggle`: only `notifyMembers` changes. */
    method HandleMemberToggle(memberId: string)
      modifies this
      ensures localSettings == old(localSettings).(notifyMembers := ToggleMember(old(localSettings.notifyMembers), memberId))
      ensures isLoading == old(isLoading) && open == old(open)
    {
      var newNotifyMembers := if memberId in localSettings.notifyMembers
        then Filter(localSettings.notifyMembers, NotId(memberId))
        else localSettings.notifyMembers + [memberId];
      localSettings := localSettings.(notifyMembers := newNotifyMembers);
    }

    /** The on/off switch: only `enabled` flips. */
    method ToggleEnabled()
      modifies this
      ensures localSettings == old(localSettings).(enabled := !old(localSettings.enabled))
      ensures isLoading == old(isLoading) && open == old(open)
    {
      localSettings := localSettings.(enabled := !localSettings.enabled);
    }

    /** `handleSaveSettings`: passes the local settings to `onUpdateSettings`;
        closes the dialog only when that succeeds; `isLoading` is set for the
        duration and is false again on every path. */
    method HandleSaveSettings(callbackFails: bool) returns (sent: Settings)
      modifies this
      ensures sent == old(localSettings)
      ensures !isLoading
      ensures open == (old(open) && callbackFails)
      ensures localSettings == old(localSettings)
    {
      isLoading := true;
      sent := localSettings;
      if !callbackFails {
        open := false;
      }
      isLoading := false;
    }
  }
}
