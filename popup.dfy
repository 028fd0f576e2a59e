/**
 * The preset-list management of popup.js: the stored list with its fallback to the two
 * default presets, delete by id, replace by id on edit, append on create, the cap of five
 * presets on create, the normalised name of a saved preset, and the YouTube-tab check before a
 * preset is applied. chrome.storage.sync is the `stored` field of a PresetStore; ids that
 * crypto.randomUUID would generate are supplied by the caller.
 */
module Popup {
  import opened Wrappers
  import opened JsText
  import opened PresetRecord
  import Player

  /** The create button refuses a new preset once this many exist. */
  const MaxPresets: nat := 5

  /** DEFAULT_PRESETS, with the two ids generated when the popup loads. */
  function DefaultPresets(focusId: string, chillId: string): (r: seq<Preset>)
    ensures |r| == 2 && r[0].id == focusId && r[1].id == chillId
  {
    [ Preset(focusId, "Focus 2x + Theater (Max)", Some(2.0), "max", "theater", "off", "off"),
      Preset(chillId, "Chill 1.25× + Default (1080p)", Some(1.25), "1080", "default", "off", "off") ]
  }

  // ---------------------------------------------------------------- the list transforms

  /** getPresets: the stored list when it is present and not empty, the defaults otherwise. */
  function PresetsOrDefaults(stored: Option<seq<Preset>>, defaults: seq<Preset>): (r: seq<Preset>)
    ensures stored.Some? && stored.value != [] ==> r == stored.value
    ensures stored.None? || stored.value == [] ==> r == defaults
  {
    if stored.Some? && |stored.value| > 0 then stored.value else defaults
  }

  /** The list read back is never empty while the defaults are not. */
  lemma PresetsNeverEmpty(stored: Option<seq<Preset>>, defaults: seq<Preset>)
    requires defaults != []
    ensures PresetsOrDefaults(stored, defaults) != []
    ensures PresetsOrDefaults(stored, defaults) == defaults || Some(PresetsOrDefaults(stored, defaults)) == stored
  {
  }

  /** all.filter(x => x.id !== id) */
  function DeleteById(all: seq<Preset>, id: string): (r: seq<Preset>)
    ensures |r| <= |all|
    ensures forall p :: p in r <==> p in all && p.id != id
    decreases |all|
  {
    if all == [] then []
    else (if all[0].id == id then [] else [all[0]]) + DeleteById(all[1..], id)
  }

  /** Deleting keeps the order of what remains: the filter of a concatenation is the
      concatenation of the filters. */
  lemma {:induction false} DeleteAppend(a: seq<Preset>, b: seq<Preset>, id: string)
    ensures DeleteById(a + b, id) == DeleteById(a, id) + DeleteById(b, id)
    decreases |a|
  {
    if a != [] {
      assert (a + b)[0] == a[0];
      assert (a + b)[1..] == a[1..] + b;
      DeleteAppend(a[1..], b, id);
    } else {
      assert a + b == b;
    }
  }

  /** A list without the id is left as it is, and the list with the id has lost one entry at
      least. */
  lemma {:induction false} DeleteAbsent(all: seq<Preset>, id: string)
    ensures (forall i :: 0 <= i < |all| ==> all[i].id != id) <==> DeleteById(all, id) == all
    decreases |all|
  {
    if all != [] {
      DeleteAbsent(all[1..], id);
      if all[0].id != id {
        assert forall i :: 0 < i < |all| ==> all[i] == all[1..][i - 1];
        assert ([all[0]] + DeleteById(all[1..], id) == all) <==> (DeleteById(all[1..], id) == all[1..]) by {
          if [all[0]] + DeleteById(all[1..], id) == all {
            assert DeleteById(all[1..], id) == ([all[0]] + DeleteById(all[1..], id))[1..];
          }
        }
      } else {
        assert all[0] !in DeleteById(all, id);
      }
    }
  }

  /** Deleting twice deletes no more than once. */
  lemma DeleteIdempotent(all: seq<Preset>, id: string)
    ensures DeleteById(DeleteById(all, id), id) == DeleteById(all, id)
  {
    var r := DeleteById(all, id);
    forall i | 0 <= i < |r| ensures r[i].id != id {
      assert r[i] in r;
    }
    DeleteAbsent(r, id);
  }

  /** all.map(p => p.id === id ? updated : p) */
  function ReplaceById(all: seq<Preset>, id: string, updated: Preset): (r: seq<Preset>)
    ensures |r| == |all|
    ensures forall i :: 0 <= i < |all| && all[i].id != id ==> r[i] == all[i]
    ensures forall i :: 0 <= i < |all| && all[i].id == id ==> r[i] == updated
  {
    seq(|all|, i requires 0 <= i < |all| => if all[i].id == id then updated else all[i])
  }

  /** The ids of a list, in order. */
  function Ids(all: seq<Preset>): (r: seq<string>)
    ensures |r| == |all| && forall i :: 0 <= i < |all| ==> r[i] == all[i].id
  {
    seq(|all|, i requires 0 <= i < |all| => all[i].id)
  }

  /** Replacing by a record that keeps the id keeps every id where it was, and the record is in
      the list afterwards exactly when the id was. */
  lemma ReplaceKeepsIds(all: seq<Preset>, updated: Preset)
    ensures Ids(ReplaceById(all, updated.id, updated)) == Ids(all)
    ensures updated in ReplaceById(all, updated.id, updated) <==> updated.id in Ids(all)
  {
    var r := ReplaceById(all, updated.id, updated);
    if updated.id in Ids(all) {
      var i :| 0 <= i < |all| && Ids(all)[i] == updated.id;
      assert r[i] == updated;
    }
    if updated in r {
      var i :| 0 <= i < |r| && r[i] == updated;
      assert Ids(all)[i] == updated.id;
    }
  }

  /** Replacing an id no entry has changes nothing. */
  lemma ReplaceAbsent(all: seq<Preset>, id: string, updated: Preset)
    requires id !in Ids(all)
    ensures ReplaceById(all, id, updated) == all
  {
    forall i | 0 <= i < |all| ensures all[i].id != id {
      assert Ids(all)[i] == all[i].id;
    }
  }

  /** The name a preset is saved under: the trimmed input, or "Preset" if nothing is left. */
  function NormaliseName(input: string): (r: string)
    ensures r != []
  {
    if Trim(input) == [] then "Preset" else Trim(input)
  }

  /** The saved name is the trimmed input exactly when the input is not all whitespace; it
      starts and ends with a non-whitespace character, and normalising again changes nothing. */
  lemma NormaliseNameSpec(input: string)
    ensures AllWhitespace(input) ==> NormaliseName(input) == "Preset"
    ensures !AllWhitespace(input) ==> NormaliseName(input) == Trim(input)
    ensures !IsJsWhitespace(NormaliseName(input)[0])
    ensures !IsJsWhitespace(NormaliseName(input)[|NormaliseName(input)| - 1])
    ensures NormaliseName(NormaliseName(input)) == NormaliseName(input)
  {
    TrimSpec(input);
    TrimIdempotent(input);
    var p := "Preset";
    assert !IsJsWhitespace(p[0]) && !IsJsWhitespace(p[|p| - 1]);
    TrimUnpadded(p);
  }

  // ---------------------------------------------------------------- the dialog

  /** The speed box: the text typed into it, or the number String(existing.speed) wrote there.
      parseFloat(String(x)) is x for every JavaScript number (NaN included), so the shown
      number is kept as the number it renders. */
  datatype SpeedField = SpeedText(text: string) | SpeedShown(value: Option<real>)

  /** The six fields of #createDialog as the save handler reads them. */
  datatype Form = Form(name: string, speed: SpeedField, quality: string, viewMode: string, captions: string, sleepTimer: string)

  /** An empty field falls back to "off" (existing.captions || "off"). */
  function OrOff(s: string): (r: string)
    ensures r != [] && (s != [] ==> r == s)
  {
    if s == [] then "off" else s
  }

  /** openCreateDialog's field values: the fields of the preset being edited, or the defaults of
      a new preset. */
  function InitialForm(existing: Option<Preset>): (f: Form)
    ensures existing.None? ==> f == Form("", SpeedText("2"), "max", "theater", "off", "off")
    ensures existing.Some? ==>
              f.name == existing.value.name && f.speed == SpeedShown(existing.value.speed)
              && f.quality == existing.value.quality && f.viewMode == existing.value.viewMode
              && f.captions == OrOff(existing.value.captions) && f.sleepTimer == OrOff(existing.value.sleepTimer)
  {
    match existing
    case None => Form("", SpeedText("2"), "max", "theater", "off", "off")
    case Some(e) => Form(e.name, SpeedShown(e.speed), e.quality, e.viewMode, OrOff(e.captions), OrOff(e.sleepTimer))
  }

  /** parseFloat(speed.value) */
  function FormSpeed(field: SpeedField): Option<real> {
    match field
    case SpeedText(t) => ParseDecimal(t)
    case SpeedShown(v) => v
  }

  /** The record the save handler builds: the edited preset's id unless it is empty (falsy),
      a fresh id otherwise, the normalised name and the parsed speed. */
  function SavedPreset(existing: Option<Preset>, form: Form, freshId: string): (p: Preset)
    ensures existing.Some? && existing.value.id != [] ==> p.id == existing.value.id
    ensures existing.None? || existing.value.id == [] ==> p.id == freshId
    ensures p.name == NormaliseName(form.name) && p.speed == FormSpeed(form.speed)
    ensures p.quality == form.quality && p.viewMode == form.viewMode
    ensures p.captions == form.captions && p.sleepTimer == form.sleepTimer
  {
    var id := if existing.Some? && existing.value.id != [] then existing.value.id else freshId;
    Preset(id, NormaliseName(form.name), FormSpeed(form.speed), form.quality, form.viewMode, form.captions, form.sleepTimer)
  }

  /** The list the save handler writes back: the edited preset replaced in place, or the new
      one appended. */
  function SaveList(all: seq<Preset>, existing: Option<Preset>, saved: Preset): (r: seq<Preset>)
    ensures existing.None? ==> |r| == |all| + 1 && r[..|all|] == all && r[|all|] == saved
    ensures existing.Some? ==> r == ReplaceById(all, existing.value.id, saved)
  {
    match existing
    case None => all + [saved]
    case Some(e) => ReplaceById(all, e.id, saved)
  }

  /** A new preset saved straight from the dialog's initial values. */
  lemma NewFormSaved(freshId: string)
    ensures SavedPreset(None, InitialForm(None), freshId) == Preset(freshId, "Preset", Some(2.0), "max", "theater", "off", "off")
  {
    assert Decimal(2) == "2" by {
      assert DigitChar(2) == '2';
    }
    ParseDecimalWhole(2);
    assert Trim("") == [];
  }

  /** Opening an existing preset and saving without changes gives back the same record, as long
      as its id is set, its name is already normalised and its captions and sleep timer are set;
      an unset captions or sleep timer comes back as "off". */
  lemma EditRoundTrip(e: Preset, freshId: string)
    requires e.id != [] && NormaliseName(e.name) == e.name
    ensures SavedPreset(Some(e), InitialForm(Some(e)), freshId)
              == e.(captions := OrOff(e.captions), sleepTimer := OrOff(e.sleepTimer))
    ensures e.captions != [] && e.sleepTimer != [] ==> SavedPreset(Some(e), InitialForm(Some(e)), freshId) == e
  {
  }

  /** Editing keeps the list's length and every other entry; the saved record keeps the id. */
  lemma EditInPlace(all: seq<Preset>, e: Preset, form: Form, freshId: string)
    requires e.id != [] && e in all
    ensures var saved := SavedPreset(Some(e), form, freshId);
            var r := SaveList(all, Some(e), saved);
            && saved.id == e.id
            && |r| == |all| && saved in r
            && Ids(r) == Ids(all)
            && forall i :: 0 <= i < |all| && all[i].id != e.id ==> r[i] == all[i]
  {
    var saved := SavedPreset(Some(e), form, freshId);
    ReplaceKeepsIds(all, saved);
    var i :| 0 <= i < |all| && all[i] == e;
    assert Ids(all)[i] == e.id;
  }

  /** The create button opens the dialog only below the cap. */
  predicate MayCreate(all: seq<Preset>) {
    |all| < MaxPresets
  }

  /** Through the create button the list never grows past the cap, and what was there stays. */
  lemma CreateKeepsCap(all: seq<Preset>, form: Form, freshId: string)
    requires MayCreate(all)
    ensures var r := SaveList(all, None, SavedPreset(None, form, freshId));
            |r| <= MaxPresets && |r| == |all| + 1 && r[..|all|] == all
  {
  }

  // ---------------------------------------------------------------- the tab check

  /** The active tab as chrome.tabs.query reports it; the url may be missing. */
  datatype Tab = Tab(id: nat, url: Option<string>)

  const YouTubePrefix: string := "https://www.youtube.com/"

  /** /^https:\/\/www\.youtube\.com\//.test(tab.url || "") for the active tab, if any. */
  predicate MayApply(tab: Option<Tab>) {
    tab.Some? && tab.value.url.Some? && YouTubePrefix <= tab.value.url.value
  }

  /** The check accepts exactly the urls whose first 24 characters spell the YouTube origin
      followed by a slash: a missing tab or url, another scheme or another host is refused. */
  lemma MayApplySpec(tab: Option<Tab>)
    ensures MayApply(tab) <==>
              tab.Some? && tab.value.url.Some? && |tab.value.url.value| >= 24
              && tab.value.url.value[..24] == "https://www.youtube.com/"
  {
  }

  lemma MayApplyExamples()
    ensures MayApply(Some(Tab(1, Some("https://www.youtube.com/watch?v=abc"))))
    ensures !MayApply(Some(Tab(1, Some("https://youtube.com/watch?v=abc"))))
    ensures !MayApply(Some(Tab(1, Some("http://www.youtube.com/"))))
    ensures !MayApply(Some(Tab(1, None))) && !MayApply(None)
  {
    assert "https://www.youtube.com/watch?v=abc"[..24] == YouTubePrefix;
    assert "https://youtube.com/watch?v=abc"[12] != YouTubePrefix[12];
    assert "http://www.youtube.com/"[4] != YouTubePrefix[4];
  }

  // ---------------------------------------------------------------- the popup's state

  /** What applyPresetToActiveTab did: refused the tab (the alert), or ran the injected call,
      whose value is None when the entry point was not there. */
  datatype ApplyResult = WrongTab | Ran(result: Option<Outcome>)

  /**
   * The popup's view of chrome.storage.sync ("presets", None when the key is unset) and the
   * default presets generated when the popup loaded.
   */
  class PresetStore {
    var stored: Option<seq<Preset>>
    const defaults: seq<Preset>

    constructor(stored: Option<seq<Preset>>, focusId: string, chillId: string)
      ensures this.stored == stored && defaults == DefaultPresets(focusId, chillId)
    {
      this.stored := stored;
      this.defaults := DefaultPresets(focusId, chillId);
    }

    /** The list the popup shows and edits. */
    function Presets(): seq<Preset>
      reads this
    {
      PresetsOrDefaults(stored, defaults)
    }

    /** getPresets */
    method GetPresets() returns (r: seq<Preset>)
      ensures r == Presets()
      ensures defaults != [] ==> r != []
    {
      r := if stored.Some? && |stored.value| > 0 then stored.value else defaults;
    }

    /** The delete button: the shown list without the presets with that id is written back. */
    method Delete(id: string)
      modifies this
      ensures stored == Some(DeleteById(old(Presets()), id))
      ensures DeleteById(old(Presets()), id) != [] ==> forall p :: p in Presets() ==> p.id != id && p in old(Presets())
    {
      var all := GetPresets();
      stored := Some(DeleteById(all, id));
    }

    /** The create button: whether the dialog opens (the alert is shown otherwise). */
    method RequestCreate() returns (opens: bool)
      ensures opens <==> MayCreate(Presets())
    {
      var all := GetPresets();
      opens := |all| < MaxPresets;
    }

    /** The dialog's save button, for the preset being edited (None for a new one), with the id
        crypto.randomUUID returns. */
    method Save(existing: Option<Preset>, form: Form, freshId: string)
      modifies this
      ensures stored == Some(SaveList(old(Presets()), existing, SavedPreset(existing, form, freshId)))
    {
      var saved := SavedPreset(existing, form, freshId);
      var all := GetPresets();
      var updated := match existing case None => all + [saved] case Some(e) => ReplaceById(all, e.id, saved);
      stored := Some(updated);
    }
  }

  /** Deleting an id every entry has leaves nothing. */
  lemma {:induction false} DeleteEvery(all: seq<Preset>, id: string)
    requires forall i :: 0 <= i < |all| ==> all[i].id == id
    ensures DeleteById(all, id) == []
    decreases |all|
  {
    if all != [] {
      DeleteEvery(all[1..], id);
    }
  }

  /** Deleting every preset brings the defaults back on the next read. */
  lemma DeleteAllRestoresDefaults(stored: Option<seq<Preset>>, defaults: seq<Preset>, id: string)
    requires forall p :: p in PresetsOrDefaults(stored, defaults) ==> p.id == id
    ensures PresetsOrDefaults(Some(DeleteById(PresetsOrDefaults(stored, defaults), id)), defaults) == defaults
  {
    var all := PresetsOrDefaults(stored, defaults);
    forall i | 0 <= i < |all| ensures all[i].id == id {
      assert all[i] in all;
    }
    DeleteEvery(all, id);
  }

  /**
   * applyPresetToActiveTab: refuse a tab that is not a YouTube page; otherwise inject the
   * script (a second injection keeps the entry point already installed) and call
   * window.__ytp_applyPreset with the preset.
   */
  method ApplyToActiveTab(tab: Option<Tab>, page: Player.Page, preset: Preset) returns (r: ApplyResult)
    requires page.Valid()
    modifies page
    ensures page.Valid()
    ensures !MayApply(tab) ==> r == WrongTab && page.events == old(page.events) && page.installed == old(page.installed)
    ensures MayApply(tab) && page.env.hasVideo ==>
              r == Ran(Some(Pass)) && page.installed
              && page.events == old(page.events) + Player.PresetEvents(page.env, page.faults, old(page.State()), preset)
    ensures MayApply(tab) && !page.env.hasVideo ==>
              r == Ran(Some(Fail("No video element found"))) && page.installed && page.events == old(page.events)
  {
    if !(tab.Some? && tab.value.url.Some? && YouTubePrefix <= tab.value.url.value) {
      return WrongTab;
    }
    page.Install();
    var result := page.Invoke(preset);
    r := Ran(result);
  }
}
