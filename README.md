# youtube-presets, modelled in Dafny

youtube-presets is a browser extension that applies a named preset to the YouTube video in the active tab. A preset holds a playback speed, a quality target, a view mode, a captions mode and a sleep timer. This project models the extension's two pieces of decision logic and proves properties of them.

- **The page script** (`content/applyPreset.js`), in modules `Quality` and `Player`.
  - The page is abstract state: the playback rate, the watch layout and its theater flag, the captions and autoplay toggles, and the sleep-timer slot `window.__ytp_sleepTimerId`.
  - Every click, request or timer call is an `Event` appended to an action log.
  - Each step is a function from the state it reads to the events it emits.
  - The class `Player.Page` carries out the steps statement by statement, and its methods are proved against those functions.
  - Steps that throw are a set of steps handed to the page (`faults`). A step that throws is modelled as throwing before its first action, and `applyPreset`'s `try`/`catch` swallows it.
- **The popup** (`popup.js`), in module `Popup`.
  - The stored preset list with its fallback to the two defaults.
  - Delete, edit (replace by id) and create (append), as pure list transforms.
  - The state class `Popup.PresetStore`, which applies those transforms to the stored list.
  - The dialog's prefill and save, the five-preset cap, name normalisation, and the YouTube-tab check before a preset is applied.

Shared pieces:
- `JsText` models the JavaScript string primitives the code relies on:
  - `String.prototype.trim` with ECMAScript's whitespace set;
  - `parseInt(s, 10)`;
  - `parseFloat`, restricted to decimal notation;
  - ASCII case-insensitive substring search, as `/Auto/i` and `/Quality/i` behave.
- `PresetRecord` holds the preset record.
- `Wrappers` holds `Option` and `Outcome`.

A JavaScript `NaN` is `None` wherever it can arise: a parsed speed, parsed minutes, a parsed target number.

## Model

| member | source | states |
|---|---|---|
| Quality.ParseQualityNumber | content/applyPreset.js:51-55 | The result is null exactly when no position of the label starts a match of `(\d{3,4})p`. Otherwise it is the captured number of the leftmost match, and it is below 10000. |
| Quality.FirstMatch | content/applyPreset.js:53 | The regex search is leftmost: the position found matches, no earlier position does, and None means no position matches. |
| Quality.DigitsBound | content/applyPreset.js:53 | A captured run of three or four digits is a number below 10000. |
| Quality.ParseAfterPrefix | content/applyPreset.js:51-55 | After a prefix with no digits, a rendered number of 3 or 4 digits followed by `p` parses back to that number, whatever follows. |
| Quality.ParseQualityNumberFrameRate | content/applyPreset.js:52-54 | "1080p60" parses to 1080. |
| Quality.ParseQualityNumberAuto | content/applyPreset.js:52-54 | "Auto (1080p)" parses to 1080. |
| Quality.NoMatchInPrefix | content/applyPreset.js:53 | No match can start inside a digit-free prefix. |
| Quality.MatchAtDigits | content/applyPreset.js:53 | Three or four digits followed by `p` match at their position and capture their value. |
| Quality.Resolution | content/applyPreset.js:79-80 | An item's resolution, read from its trimmed text, is below 10000; null and 0 both count as none. |
| Quality.ResolutionOfLabel | content/applyPreset.js:79-80 | A label "Np", for N of 3 or 4 digits, has resolution N. |
| Quality.FindLabel | content/applyPreset.js:69-70 | `Array.prototype.find`: the index returned satisfies the test, no earlier index does, and None means no index does. |
| Quality.FindQualityEntry | content/applyPreset.js:67-71 | The root entry opened is the first one titled "Quality" (any case) when one exists. Otherwise it is the first entry showing a resolution. None means neither kind exists. |
| Quality.Mapped | content/applyPreset.js:76-82 | One item per submenu option, in menu order, holding the option's resolution and its Auto flag. |
| Quality.FindAuto | content/applyPreset.js:86 | The first item flagged Auto; None when no item is. |
| Quality.Numeric | content/applyPreset.js:89 | The filter `m.q` keeps exactly the items with a non-zero resolution, in menu order. |
| Quality.Insert | content/applyPreset.js:89 | Inserting keeps the multiset of candidates plus the new one. |
| Quality.SortDesc | content/applyPreset.js:89 | The sort is a permutation of its input. |
| Quality.InsertSorted | content/applyPreset.js:89 | Inserting an earlier-indexed candidate keeps the list ordered: higher resolution first, menu order among ties. |
| Quality.SortDescSorted | content/applyPreset.js:89 | The stable descending sort of a menu-ordered list is ordered: higher resolution first, menu order among ties. |
| Quality.OnlyNumericMembers | content/applyPreset.js:89-94 | `onlyNum` is sorted, holds only items with a resolution, and holds every such item. |
| Quality.InOnlyNumeric | content/applyPreset.js:89-94 | Every item with a resolution has a position in `onlyNum`. |
| Quality.FindFirst | content/applyPreset.js:95 | `onlyNum.find`: the position returned is accepted, no earlier one is, and None means none is. |
| Quality.FirstAcceptedIsBest | content/applyPreset.js:94-95 | The first accepted entry of `onlyNum` has the highest accepted resolution, and it is the first such item in menu order. |
| Quality.NoneAccepted | content/applyPreset.js:95 | `onlyNum.find` fails exactly when no item with a resolution is accepted. |
| Quality.Select | content/applyPreset.js:84-96 | The chosen index, if any, is one of the offered items. |
| Quality.ChooseQuality | content/applyPreset.js:84-98 | For a target string and submenu labels, the chosen index, if any, is one of the labels. |
| Quality.SelectAuto | content/applyPreset.js:85-86 | "auto" picks the first item whose text contains "auto" in any case. None when no item does. |
| Quality.SelectMax | content/applyPreset.js:87-90 | "max" picks an item whose resolution is at least every other item's, and the first such in menu order. It falls back to the first Auto item only when no item has a resolution. |
| Quality.SelectResolution | content/applyPreset.js:91-95 | A numeric target N picks the first item equal to N if any. Failing that, the highest item below N. Failing that, the highest item. Nothing only when no item has a resolution. A non-numeric target never matches equal or below. |
| Quality.ChooseExactExample | content/applyPreset.js:91-95 | Offered 2160, 1440, 1080, 720, the target 1440 picks 1440. |
| Quality.ChooseNextLowerExample | content/applyPreset.js:91-95 | Offered 2160, 1440, 1080, 720, the target 900 picks 720, not 1080. |
| Quality.ChooseMaxFirst | content/applyPreset.js:87-90 | When the first label has a resolution above every other, "max" picks it. |
| Quality.SelectFirstHighest | content/applyPreset.js:87-90 | The same as ChooseMaxFirst, over mapped items. |
| JsText.Trim | content/applyPreset.js:79 | `trim` never yields more than the input minus its leading whitespace. |
| JsText.TrimSpec | content/applyPreset.js:79 | `trim` is the slice between the leading and the trailing whitespace. It is empty exactly when the input is all whitespace. When non-empty it starts and ends with non-whitespace. |
| JsText.TrimIdempotent | popup.js:126 | Trimming twice is trimming once. |
| JsText.TrimUnpadded | popup.js:126 | A string without whitespace at either end trims to itself. |
| JsText.ParseInt | content/applyPreset.js:92 | `parseInt(s, 10)` is NaN exactly when no digit follows the leading whitespace and the optional sign. |
| JsText.ParseIntDecimal | content/applyPreset.js:54 | `parseInt` of a rendered number followed by a non-digit gives the number back. |
| JsText.ParseDecimal | content/applyPreset.js:133 | A number comes only from a non-blank string, and a negative one only after a leading `-`. |
| JsText.ParseDecimalWhole | popup.js:127 | `parseFloat` of a rendered whole number gives that number. |
| JsText.ParseDecimalWord | content/applyPreset.js:133 | Empty input and input starting with a lower-case letter (such as "off" or "end") parse to NaN. |
| JsText.ContainsFrom | content/applyPreset.js:69-81 | A case-insensitive search finds the word exactly when it occurs in the text, ignoring ASCII case. |
| JsText.Decimal | content/applyPreset.js:54 | Rendering a number gives digits without a leading zero. |
| JsText.DecimalRoundTrip | content/applyPreset.js:54 | Reading a rendered number back gives the number. |
| JsText.DigitRunSpec | content/applyPreset.js:54 | The digit run is all digits and stops at the first non-digit. |
| JsText.LeadingWhitespaceSpec | content/applyPreset.js:79 | The leading run is all whitespace and stops at the first non-whitespace. |
| JsText.TrailingWhitespaceSpec | content/applyPreset.js:79 | The trailing run is all whitespace and stops at the last non-whitespace. |
| JsText.TrimStartSpec | content/applyPreset.js:92 | The input is a whitespace prefix followed by the trimmed-start rest, and that rest starts with non-whitespace. |
| Player.SpeedEvents | content/applyPreset.js:13-17 | setSpeed emits only speed actions. |
| Player.QualityEvents | content/applyPreset.js:57-101 | setQuality emits only menu actions. |
| Player.PickEvents | content/applyPreset.js:98 | The chosen item's click is a menu action. |
| Player.ViewModeEvents | content/applyPreset.js:19-49 | setViewMode emits only layout, fullscreen and picture-in-picture actions. |
| Player.ViewModeSizeClick | content/applyPreset.js:23-30 | The size button is clicked exactly when it exists, a layout exists, and its theater flag differs from the mode asked for ("default" or "theater"). It is then the only action. |
| Player.ViewModeReaches | content/applyPreset.js:23-30 | "default" or "theater", with a layout and a size button, ends in that layout. |
| Player.ViewModeAlreadyThere | content/applyPreset.js:23-30 | "default" when not in theater, or "theater" when in theater, does nothing. |
| Player.CaptionsEvents | content/applyPreset.js:103-110 | setCaptions emits only captions actions. |
| Player.CaptionsClick | content/applyPreset.js:103-110 | The subtitles button is clicked exactly when it exists and "on" meets an unpressed button or "off" a pressed one. There is at most one click; any other mode clicks nothing. |
| Player.CaptionsTwice | content/applyPreset.js:103-110 | After setCaptions the button is in the requested state. Repeating it clicks nothing, so two calls click at most once. |
| Player.AutonavEvents | content/applyPreset.js:112-118 | maybeDisableAutoplay emits only timer-step actions. |
| Player.AutonavTurnsOff | content/applyPreset.js:112-118 | Afterwards the autoplay toggle, if present, is unchecked and the timer slot is untouched. Running it again does nothing. |
| Player.TimerRequestOf | content/applyPreset.js:126-133 | No timer exactly for "" and "off"; end of video exactly for "end". |
| Player.TimerRequestNumber | content/applyPreset.js:133 | Any other value is read as `parseFloat` minutes. |
| Player.RequestDelay | content/applyPreset.js:134-142 | A timer is armed only for minutes, and only with a positive delay. |
| Player.MinutesDelay | content/applyPreset.js:134-142 | A delay exists only when it is positive. |
| Player.TimerDelay | content/applyPreset.js:126-142 | A timer is armed only with a positive delay, and never for "", "off" or "end". |
| Player.TimerRequestTen | content/applyPreset.js:133-142 | "10" means ten minutes and arms 600000 ms. |
| Player.TimerDelayNone | content/applyPreset.js:134 | An empty value, one starting with a lower-case letter, or zero minutes arms nothing. |
| Player.CancelEvents | content/applyPreset.js:122-125 | The cancel part emits only timer actions. |
| Player.ScheduleEvents | content/applyPreset.js:126-143 | The schedule part emits only timer-step actions. |
| Player.ArmEvents | content/applyPreset.js:135 | Arming emits only timer actions. |
| Player.TimerEvents | content/applyPreset.js:120-144 | setupSleepTimer emits only timer-step actions. |
| Player.ScheduleSlot | content/applyPreset.js:126-143 | From an empty slot, the slot ends holding the request's delay. Exactly one timer is armed when there is a delay. There is at most one action and never a clear. |
| Player.TimerSlot | content/applyPreset.js:120-144 | The slot ends holding the request's delay. The first action is a clear exactly when a timer was armed, and no other action is a clear. At most one timer is armed afterwards, and no second timer is ever armed on top of one. |
| Player.TenThenOff | content/applyPreset.js:120-144 | "10" arms a 600000 ms timer. A following "off" clears it and leaves the slot empty. |
| Player.TimerEndStopsAutoplay | content/applyPreset.js:122-131 | "end" leaves no timer and the autoplay toggle unchecked. |
| Player.QualityInert | content/applyPreset.js:57-101 | The menu actions change nothing the other steps read. With a settings button they start by opening it and end by clicking outside. An item is clicked exactly when the quality entry exists, and it is the selected item. |
| Player.MenuClicksInert | content/applyPreset.js:63-100 | Menu clicks change no state the other steps read. |
| Player.PlanOf | content/applyPreset.js:146-158 | The steps read the preset's speed, view mode and captions unchanged. |
| Player.StepEvents | content/applyPreset.js:146-158 | Each step emits only its own kind of action. |
| Player.ReplayAppend | content/applyPreset.js:146-158 | Replaying two logs one after the other is replaying their concatenation. |
| Player.ArmedAppend | content/applyPreset.js:120-144 | The at-most-one-timer check of a concatenated log is the check of the second part after the first. |
| Player.ReplayFrame | content/applyPreset.js:146-158 | A step's actions leave unchanged everything a different step reads. |
| Player.RunStepsIsolated | content/applyPreset.js:146-158 | Running distinct steps in sequence gives the same actions as running each on the initial page. |
| Player.PresetEventsIsolated | content/applyPreset.js:146-158 | applyPreset's actions are speed, then quality, then view mode, then captions, then timer, each computed from the initial page. |
| Player.PlanEventsSequence | content/applyPreset.js:146-158 | Five steps run one after the other on the pages they leave make up applyPreset's actions. |
| Player.IsolatedRanks | content/applyPreset.js:146-158 | Every action belongs to one of the steps run. |
| Player.OrderedConcat | content/applyPreset.js:146-158 | One step's actions followed by later steps' ordered actions stay ordered. |
| Player.IsolatedOrdered | content/applyPreset.js:146-158 | Steps in order give actions in step order. |
| Player.PresetOrder | content/applyPreset.js:146-158 | No action of a later step precedes an action of an earlier step. |
| Player.Drop | content/applyPreset.js:146-158 | Dropping a step's actions keeps exactly the other actions. |
| Player.DropAppend | content/applyPreset.js:146-158 | Dropping distributes over concatenation. |
| Player.DropAll | content/applyPreset.js:146-158 | Dropping removes all of one step's actions, or none of another step's. |
| Player.IsolatedFault | content/applyPreset.js:149-158 | One more throwing step removes exactly that step's actions. |
| Player.FaultContained | content/applyPreset.js:149-158 | A throwing step costs exactly its own actions: every other step emits what it emits without the fault. |
| Player.EndToEndExample | content/applyPreset.js:146-158 | Speed 2, "max", "theater", captions "off" and timer "off", on [1080p, 720p, 480p] with captions on and the default layout, emits: set rate 2; open settings; open quality; pick 1080p; click outside; toggle size; toggle captions. The page ends at rate 2, theater, captions off. |
| Player.ExamplePlan | content/applyPreset.js:146-158 | That preset is read as speed 2, max, theater, captions off, no timer. |
| Player.ExampleQuality | content/applyPreset.js:57-101 | With the quality entry at k and the top item selected, setQuality opens the settings, opens entry k, picks item 0 and clicks outside. |
| Player.ExamplePick | content/applyPreset.js:87-90 | Offered [1080, 720, 480], "max" picks 1080. |
| Player.EndToEndPlan | content/applyPreset.js:146-158 | The example's action log. |
| Player.EndToEndReplay | content/applyPreset.js:146-158 | The example's final page. |
| Player.Page.constructor | content/applyPreset.js:146 | A fresh page with an empty log, an empty timer slot and the entry point not installed. |
| Player.Page.Perform | content/applyPreset.js:13-144 | One action is logged and applied. The invariant (state is the replayed log, at most one timer) is kept. |
| Player.Page.SetSpeed | content/applyPreset.js:13-17 | The log grows by the speed step's actions. |
| Player.Page.SetQuality | content/applyPreset.js:57-101 | The log grows by the quality step's actions for the target, or by nothing when it throws. |
| Player.Page.SetViewMode | content/applyPreset.js:19-49 | The log grows by the view-mode step's actions for the page's layout, or by nothing when it throws. |
| Player.Page.SetCaptions | content/applyPreset.js:103-110 | The log grows by the captions step's actions for the button's state, or by nothing when it throws. |
| Player.Page.MaybeDisableAutoplay | content/applyPreset.js:112-118 | The log grows by the autoplay click when the toggle is checked. |
| Player.Page.CancelSleepTimer | content/applyPreset.js:122-125 | The slot is emptied, with a clear only when it held a timer. |
| Player.Page.ScheduleSleepTimer | content/applyPreset.js:126-143 | From an empty slot, the log grows by the schedule part for the value. |
| Player.Page.ArmTimerFor | content/applyPreset.js:133-143 | From an empty slot, a timer is armed for a positive number of minutes and nothing happens otherwise. |
| Player.Page.SetupSleepTimer | content/applyPreset.js:120-144 | The log grows by the timer step's actions for the current slot and value, or by nothing when it throws. |
| Player.Page.ApplyPreset | content/applyPreset.js:146-159 | Without a video, it fails with "No video element found" and does nothing. Otherwise it passes, and the log grows by exactly the five steps' actions in order. |
| Player.Page.Install | content/applyPreset.js:2-3 | Installing marks the entry point installed and changes nothing else. A second install is a no-op. |
| Player.Page.Invoke | content/applyPreset.js:146-159 | Calling the entry point does nothing when it is not installed, and applies the preset otherwise. |
| Quality.MatchAt | content/applyPreset.js:53 | A match of `(\d{3,4})p` anchored at one position: four digits then `p` are tried before three digits then `p`, as the greedy quantifier does, and the digits' value is captured; otherwise no match. |
| Quality.TargetOf | content/applyPreset.js:85-92 | The target dispatch: "auto", then "max", and otherwise `parseInt(target, 10)`, with NaN as None. |
| Quality.OnlyNumeric | content/applyPreset.js:89-94 | `onlyNum`: the items with a non-zero resolution, sorted by descending resolution with menu order among ties (its properties are in `Quality.OnlyNumericMembers`). |
| Quality.IsAutoItem | content/applyPreset.js:79-81 | The `isAuto` flag: `/Auto/i` on the trimmed item text. |
| Quality.IsQualityTitle | content/applyPreset.js:69 | A root entry matches `/Quality/i`. |
| Quality.ShowsResolution | content/applyPreset.js:70 | A root entry matches `/\d{3,4}p/`. |
| Player.Next | content/applyPreset.js:24-117 | The effect of one action: a rate assignment sets the rate; a size click flips the theater attribute of an existing layout; a subtitles or autoplay click flips an existing toggle; `clearTimeout` empties the slot and `setTimeout` fills it. All other actions change nothing the model holds (see "## Left out"). |
| Player.SizeEvents | content/applyPreset.js:24-28 | `sizeBtn?.click()`: one click when the size button exists, none otherwise. |
| Player.FullscreenEvents | content/applyPreset.js:31-38 | `fsBtn?.click()` when the button exists, then `requestFullscreen` when no element is in fullscreen. |
| Player.RunSteps | content/applyPreset.js:146-158 | The steps run one after the other, each on the page the previous ones left; a raising step contributes nothing. |
| Player.PlanEvents | content/applyPreset.js:148-158 | The orchestrator's sequence for a parsed preset: speed, quality, view mode, captions, sleep timer. |
| Player.PresetEvents | content/applyPreset.js:146-158 | applyPreset's actions for a preset once the video check has passed. |
| Player.Page.Valid | content/applyPreset.js:120-144 | The page invariant: the state is the initial page replayed through the log, and the log never arms a timer while one is armed, with the slot holding an id exactly when one is armed. |
| Popup.MayApply | popup.js:73 | `tab && /^https:\/\/www\.youtube\.com\//.test(tab.url \|\| "")` (its meaning is stated in `Popup.MayApplySpec`). |
| Popup.MayCreate | popup.js:148 | The create dialog may open: fewer than five presets. |
| Popup.FormSpeed | popup.js:127 | `parseFloat(speed.value)`: the typed text parsed, or the shown number given back. |
| Popup.PresetStore.Presets | popup.js:10-13 | The list the popup shows: the stored list, or the defaults when it is unset or empty. |
| Popup.DefaultPresets | popup.js:5-8 | Two default presets, carrying the two generated ids. |
| Popup.PresetsOrDefaults | popup.js:10-13 | The stored list when present and non-empty, the defaults otherwise. |
| Popup.PresetsNeverEmpty | popup.js:10-13 | The list read back is never empty, and is either the stored list or the defaults. |
| Popup.DeleteById | popup.js:56-58 | A preset remains exactly when it was there and its id differs. |
| Popup.DeleteAppend | popup.js:58 | The filter of a concatenation is the concatenation of the filters, so order is kept. |
| Popup.DeleteAbsent | popup.js:58 | The list is unchanged exactly when no entry has the id. |
| Popup.DeleteIdempotent | popup.js:58 | Deleting twice is deleting once. |
| Popup.DeleteEvery | popup.js:58 | Deleting the id every entry has leaves nothing. |
| Popup.DeleteAllRestoresDefaults | popup.js:10-58 | Deleting the only remaining id brings the defaults back on the next read. |
| Popup.ReplaceById | popup.js:134 | Same length. Entries with the id are the new record; all others are unchanged. |
| Popup.Ids | popup.js:134 | The ids of the list, in order. |
| Popup.ReplaceKeepsIds | popup.js:125-134 | Replacing by a record with the same id keeps every id in place. The record is in the list exactly when its id was. |
| Popup.ReplaceAbsent | popup.js:134 | Replacing an id that no entry has changes nothing. |
| Popup.NormaliseName | popup.js:126 | The saved name is never empty. |
| Popup.NormaliseNameSpec | popup.js:126 | An all-whitespace input is saved as "Preset", any other input as its trim. The name has no whitespace at either end, and normalising it again changes nothing. |
| Popup.OrOff | popup.js:115-116 | An empty value becomes "off"; others are kept. |
| Popup.InitialForm | popup.js:110-119 | Editing prefills the preset's fields, with "off" for unset captions or sleep timer. A new preset gets "", "2", "max", "theater", "off", "off". |
| Popup.SavedPreset | popup.js:124-132 | The id is kept when the edited preset has one, and fresh otherwise. The name is normalised, the speed parsed, and the other fields copied. |
| Popup.SaveList | popup.js:133-135 | Create appends: one longer, with the old list as prefix and the new preset last. Edit replaces by the edited preset's id. |
| Popup.NewFormSaved | popup.js:118-132 | Saving the untouched new-preset dialog gives "Preset", speed 2, "max", "theater", "off", "off" under the fresh id. |
| Popup.EditRoundTrip | popup.js:110-132 | Opening and saving a preset unchanged gives it back, with only an unset captions or sleep timer becoming "off". |
| Popup.EditInPlace | popup.js:125-134 | Editing keeps the id, the length and every id in place. The saved record is in the list, and every entry with another id is unchanged. |
| Popup.CreateKeepsCap | popup.js:146-152 | Below the cap, creating appends one preset, keeps the old list as prefix, and ends at five at most. |
| Popup.MayApplySpec | popup.js:72-76 | A preset is applied exactly when there is a tab whose url starts with "https://www.youtube.com/". A missing tab or url is refused. |
| Popup.MayApplyExamples | popup.js:73 | A watch url passes. A bare youtube.com host, http, and a missing url or tab are refused. |
| Popup.PresetStore.constructor | popup.js:5-13 | The store starts from the stored value and the generated defaults. |
| Popup.PresetStore.GetPresets | popup.js:10-13 | Returns the list the popup shows, which is not empty while the defaults are not. |
| Popup.PresetStore.Delete | popup.js:56-58 | The stored list becomes the shown list without that id. |
| Popup.PresetStore.RequestCreate | popup.js:146-152 | The dialog opens exactly when fewer than five presets are shown. |
| Popup.PresetStore.Save | popup.js:122-135 | The stored list becomes the shown list with the saved preset replaced or appended. |
| Popup.ApplyToActiveTab | popup.js:71-99 | A non-YouTube tab is refused and nothing happens on the page. Otherwise the script is installed and the entry point run, so with a video the page log grows by the preset's actions, and without one the call fails with "No video element found". |

## Left out

- `content/util.js` (`waitForEl` and the timed settings-menu click helper) is not part of this model. It polls against the clock, and applyPreset does not call it.
- The real DOM. Element lookups are fields of `Player.Env` and `Player.PageState`, and clicks are events.
- The 80 ms waits in setQuality and the asynchronous gaps between steps. They are host timing and are not modelled.
- Timer firing. The timer callback that exits picture-in-picture and fullscreen and pauses the video is not modelled. A timer that has fired still leaves its id in the slot, as in the source, and the next setupSleepTimer clears it. `ArmTimer` records the requested delay; the browser clamps a `setTimeout` delay above 2^31-1 ms (about 35791 minutes) so that it fires at once, and that clamping is not modelled.
- Fullscreen and picture-in-picture. The model records only that they were requested. Promise outcomes and browser policy are not modelled.
- Player.Next: the menu clicks (`ClickSettings`, `ClickRootItem`, `ClickQualityItem`, and `ClickOutside` for `document.body.click()`) and the fullscreen and picture-in-picture requests are taken not to change the layout, the captions and autoplay toggles or the timer slot. `Player.QualityInert`, `Player.MenuClicksInert`, `Player.ReplayFrame`, `Player.RunStepsIsolated`, `Player.PresetEventsIsolated`, `Player.IsolatedFault` and `Player.FaultContained` rest on that assumption. A quality-menu interaction that changes the layout, or a fullscreen request that changes the theater attribute, is not modelled; the source runs the view-mode step after quality for that reason (content/applyPreset.js:151).
- Player.FullscreenEvents:
  - it reads `document.fullscreenElement` as it stood before the button click (a field of `Env`);
  - whether a click on the toggle changes fullscreen synchronously is not modelled;
  - neither is the fact that the click exits fullscreen when the page is already in it.
- Player.Page: a step raising an exception is modelled as raising before its first action. A DOM call that throws midway, after some clicks, is not modelled.
- Player.Page.SetSpeed: the rate is an opaque real. Out-of-range playback rates (which throw, and are swallowed) are not modelled; only a NaN speed, which sets nothing, is. A NaN speed reaches the page only through `chrome.storage` and the `args` of `executeScript`, which serialise values as JSON and plausibly turn NaN into `null`; `video.playbackRate = null` would then set rate 0 rather than throw. The model does not capture that serialisation and sets nothing for a NaN speed.
- JsText.ParseDecimal: `parseFloat` is modelled for an optional sign, digits and an optional fraction, and it stops at anything else. So an exponent is not read: "1e3" gives 1 where `parseFloat` gives 1000, and a sleep timer of "1e1" arms 60000 ms in the model where the source arms 600000 ms. "Infinity" gives NaN where `parseFloat` gives Infinity, which the source would arm as a timer.
- JsText.ParseInt: values are unbounded integers, so precision loss beyond 2^53 is not modelled.
- JsText.ContainsFrom: case folding is ASCII only, which for the words searched ("auto", "quality") is what a non-Unicode `/i` regex does.
- Quality.SortDesc: the comparator sort is modelled as a stable insertion sort, the order ECMAScript 2019 requires of `Array.prototype.sort`.
- Concurrency. Two overlapping applies (the source leaves them last-write-wins) are not modelled; each call is atomic.
- Chrome APIs:
  - `chrome.storage`, `chrome.tabs` and `chrome.scripting` are not modelled;
  - the stored list is the `stored` field of `Popup.PresetStore`;
  - the active tab is a parameter;
  - the injected script is a `Player.Page`.
- Popup.ApplyToActiveTab: the `catch` path of executeScript (an injection failure alerting the user) is not modelled; `Ran` reports the entry point's outcome.
- The alerts, `hydrate`'s rendering, the "Applied" label timeout and the dialog's open/close handlers are UI and are not modelled.
- `crypto.randomUUID`: the ids are parameters (`freshId`, and the two default ids).
- Popup.SpeedField: `String(existing.speed)` followed by `parseFloat` is modelled as giving back the number, as JavaScript's number-to-string conversion guarantees. The text itself is not computed.
- Popup.Form: the select elements are modelled as free text. A value a select does not offer (which the browser would blank) is not modelled.

Two behaviours of the code that the model follows as written:
- In fullscreen mode, the fallback `requestFullscreen` is decided by reading `document.fullscreenElement` right after the button click (content/applyPreset.js:33-37), not after the click has taken effect.
- Only the create button checks the five-preset cap (popup.js:146-151); saving an edit or the stored list itself is not capped. The cap counts the shown list, so on first use the new preset is appended to the two defaults.
