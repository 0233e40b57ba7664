# Purchase-order sidebar: change tracking and vendor protocol

This project is a Dafny model of the script behind a purchase-order sidebar
that a FileMaker layout embeds in a web viewer (`src/index.js`). The host
calls `loadPOData` with a JSON payload. The script then:

- fills the form and the approval line;
- keeps `originalValues`, the last value loaded or reported per field;
- builds a searchable vendor dropdown;
- shows the selected vendor's contact details.

Every edit is reported to the host through `FileMaker.PerformScript('Manage:
PO Lines', {mode: 'updatePO', fieldName, value})`. The host can also call
`flushPendingChanges`. That call reports every bound control whose value is
strictly unequal (`!==`) to its original, then the vendor email if it
changed, and returns how many changes it reported.

The model has two layers.

- **Pure layer.** `Transitions.Snapshot` is everything the script and the page
  hold between two events. Each entry point and listener is a function from
  one snapshot to the next: `AfterLoad`, `FieldChanged`, `EmailChanged`,
  `Flushed`, `Searched`, `Displayed`, `Selected`, `SelectedById`, `Picked`.
  Lemmas state what each function does and which invariant it keeps.
- **Imperative layer.** `Sidebar.Session` is a class with the script's globals
  and the page's controls as fields. Each of its methods is proved to move
  `State()` exactly as the matching function moves a snapshot, and the
  entry points keep `Valid()`. The loops of `populateVendorSelect`,
  `filterVendors` and the flush's `forEach` are `while` loops with
  invariants. `FlushFields` is proved equal to `ChangeTracker.Pending`, the
  reference definition of what a flush reports.

The supporting modules are:

- `Values`: field values, truthiness, `||` defaults and `String()`;
- `AsciiText`: `toLowerCase`, `trim` and `includes`;
- `Page`: the field and element-id names;
- `VendorIndex`: vendor records, dropdown entries, the search and the lookup by `_ID`;
- `HostBridge`: the calls the host receives;
- `ChangeTracker`: the field map, the pending changes and the commit of reported values;
- `FormBinder`: what a load derives from a payload.

Two kinds of event do not come from the script itself. `Session.EnterText`
and `Session.SetChecked` stand for the user (or the host) changing a control
without a `change` event. A flush is there to pick up exactly such changes.

In these places the model follows the script's actual behaviour:

- The `change` listeners of the bound controls report the control's value
  unconditionally. They do not compare it with the original first
  (`src/index.js:319-328`).
- The vendor email listener reports `Email` but does not update
  `currentVendorEmail` (`src/index.js:212-213`). A later flush therefore
  reports the same email again (`Transitions.EmailChangeIsReportedAgain`).
- A payload without `vendorOptions` is not rejected whole. The load replaces
  the originals, the vendor list, the bound controls and the approval line,
  empties the dropdown, and only then throws in `populateVendorSelect`
  (`src/index.js:21-66`, `108-111`). It ends as `LoadOutcome.Threw`.
- Truthy payload values become originals without coercion to the control's
  type. A non-empty string `Firm`, or `true` in a text field, is therefore
  reported back at the first flush
  (`FormBinder.FirmStringIsReportedAtFirstFlush`,
  `Transitions.FlushAfterLoadIff`). A falsy value is replaced by the field's
  default, which always has the control's type, so it is not reported.

One place deliberately departs from the script. The load writes the approval
line with the intended bullet separator (`FormBinder.ApprovalLine`), not the
mojibake separator the script writes at `src/index.js:53`. The script's
version is modelled as well (`FormBinder.ApprovalLineAsWritten`); see
"## Findings" and "## Left out".

## Model

| member | source | states |
|---|---|---|
| ChangeTracker.Pending | src/index.js:266-281 | defines the changes the flush's field loop reports: one per mapped control strictly unequal to its original, in field-map order; characterised by `PendingIff`, `PendingCount`, `PendingOncePerField` and `PendingSplit` |
| FormBinder.SeedOriginals | src/index.js:24-37 | defines `originalValues` after a load: `data.F || default` for the twelve tracked fields; characterised by `LoadSeeds` |
| FormBinder.ApprovalLineAsWritten | src/index.js:48-56 | defines the approval line as the script builds it, joined by the mojibake separator of line 53; `SeparatorIsMojibake` exhibits it |
| FormBinder.ApprovalLine | src/index.js:48-56 | defines the approval line with the intended bullet separator, which the modelled load uses; characterised by `ApprovalLineSpec` |
| Transitions.Reported | src/index.js:225-242 | defines the state after notifying changes in order: calls appended when the bridge exists, originals recorded once they exist; characterised by `ReportedOne`, `ReportedAppend` and `ReportedKeeps` |
| Transitions.Flushed | src/index.js:245-296 | defines the state after a flush: the field loop's changes and then the email reported, the tracked email moved; characterised by `FlushedSteps` and `FlushedSettles` |
| Transitions.Displayed | src/index.js:161-223 | defines the state after `displayVendorDetails`; characterised by `DisplayedSpec`, `DisplayedKeeps` and `DisplayedLeavesFieldsAlone` |
| Transitions.SelectedById | src/index.js:135-140 | defines the state after `selectVendorById`; characterised by `SelectedByIdSpec` and `SelectedByIdReports` |
| Transitions.Seeded | src/index.js:20-63 | defines the state after the seeding part of a load (vendor list, originals, bound controls, approval line with the intended bullet); characterised by `SeededKeeps` and `LoadSeeds` |
| Transitions.AfterLoad | src/index.js:2-75 | defines the state after `loadPOData`: unchanged when the payload does not parse, otherwise seeded, the dropdown rebuilt and the payload's vendor selected; characterised by `LoadedSpec`, `LoadedOriginals`, `LoadSelectsVendor`, `LoadWithoutVendor` and `FlushAfterLoadIff` |
| AsciiText.Lower | src/index.js:115 | lower-casing keeps the length and maps each character by itself |
| AsciiText.LowerIdempotent | src/index.js:115 | the stored search key is already lower case, so lower-casing it again changes nothing |
| AsciiText.TrimSpec | src/index.js:115-116 | `trim` keeps a contiguous piece of the name, drops only white space around it, leaves none at either end, and is idempotent |
| AsciiText.ContainsIff | src/index.js:150 | `includes` holds exactly when the term occurs at some offset of the key |
| AsciiText.LowerContainsIff | src/index.js:145-150 | searching the lower-cased key for the lower-cased term succeeds exactly when some slice of the text equals the term up to ASCII case |
| VendorIndex.OptionFor | src/index.js:112-116 | a dropdown entry carries the vendor's `_ID`, its trimmed name as text, the lower-cased text as its key (which holds no upper-case letter), and starts visible |
| VendorIndex.Find | src/index.js:136 | a found index points at a vendor with that `_ID` |
| VendorIndex.FindFirst | src/index.js:136 | `find` answers the first vendor with the id, and nothing exactly when no vendor has it |
| VendorIndex.ShowsIff | src/index.js:145-150 | an entry is shown exactly when the term occurs in the vendor's trimmed name ignoring ASCII case; the empty term shows every entry |
| VendorIndex.DetailControls | src/index.js:177-183 | the panel fill writes exactly the seven detail inputs, all as text |
| VendorIndex.DetailsReplace | src/index.js:177-183 | showing a second vendor overwrites every detail input of the first: nothing of the first vendor remains |
| HostBridge.Sent | src/index.js:225-236 | with the host bridge, one `PerformScript('Manage: PO Lines', {mode: 'updatePO', fieldName, value})` per change, in order; without it, none |
| HostBridge.SentAppend | src/index.js:234-235 | reporting two batches in turn sends what reporting them together sends |
| HostBridge.SentWired | src/index.js:234-235 | every call the host receives invokes the update script in update mode |
| ChangeTracker.PendingBound | src/index.js:266-281 | the field loop of a flush reports at most one change per mapped field |
| ChangeTracker.PendingOncePerField | src/index.js:266-281 | no two of a flush's reports share a field, so edits before a flush yield a single report per field |
| ChangeTracker.PendingCount | src/index.js:266-281 | the field loop reports exactly as many changes as there are mapped controls strictly unequal to their originals (plus the email, `Transitions.FlushedSteps`, this is the flush's count) |
| ChangeTracker.PendingIff | src/index.js:270-279 | a field is reported exactly when its control is strictly unequal to its original, and the report carries the control's current value |
| ChangeTracker.PendingSplit | src/index.js:266 | reports come in field-map order |
| ChangeTracker.PendingEmptyIff | src/index.js:266-281 | the field loop reports nothing exactly when no mapped control has drifted from its original |
| ChangeTracker.PendingIgnoresOtherFields | src/index.js:239-241 | recording an unmapped field (`Email`, `Vendor_ID`) leaves what the field loop reports unchanged |
| ChangeTracker.PendingIgnoresOtherControls | src/index.js:266-281 | what the field loop reports depends only on the mapped controls |
| ChangeTracker.CommitPending | src/index.js:239-241 | after the reports are recorded, every mapped original equals its control, the other originals are unchanged, and no field is added |
| ChangeTracker.SettledAfterCommit | src/index.js:266-281 | once the reports are recorded, nothing is pending |
| ChangeTracker.FlushStep | src/index.js:270-279 | one iteration decides against the original the earlier iterations left, and recording its report extends the committed originals |
| ChangeTracker.FlushSettles | src/index.js:245-292 | a whole flush reports at most one change per mapped field plus the email, and leaves no mapped field pending |
| ChangeTracker.CommitAppend | src/index.js:239-241 | each report records its value on top of the earlier ones |
| ChangeTracker.CommitGrows | src/index.js:239-241 | recording reports never drops a field from the originals |
| ChangeTracker.FieldMapShape | src/index.js:249-261 | the field map has eleven bindings with `Firm`'s checkbox last, and binds neither `Email` nor `Vendor_ID` |
| ChangeTracker.FieldMapDistinctFields | src/index.js:249-261 | no field is bound twice |
| FormBinder.InitialVendorSeeded | src/index.js:69-70 | the vendor a load selects has the `Vendor_ID` the load already seeded as its original, and that id is not empty |
| FormBinder.LoadSeeds | src/index.js:24-45 | after a load every tracked original is the payload's field when present and truthy and its default otherwise; each bound control exists with its kind, and holds its original exactly when the original is of the control's type |
| FormBinder.SeedAgrees | src/index.js:24-45 | for one binding, the seeded control holds the seeded original exactly when that original is of the control's type |
| FormBinder.SeedControlsKeys | src/index.js:40-63 | a load writes the bound controls and no others |
| FormBinder.SeedControlsAt | src/index.js:40-63 | each bound control holds what the load writes for its field |
| FormBinder.FieldMapSeedable | src/index.js:249-261 | every mapped field is tracked, only `Firm` is a checkbox, and `Vendor_ID` is tracked but bound to no control |
| FormBinder.SettledAfterLoadIff | src/index.js:24-45 | a flush right after a load reports no mapped field exactly when every mapped original is of its control's type |
| FormBinder.TextFieldsSettled | src/index.js:24-44 | a payload without text fields leaves every bound text input equal to its original |
| FormBinder.FirmStringIsReportedAtFirstFlush | src/index.js:30-45 | a payload with `Firm: "1"` checks the box, keeps the string as original, and the first flush reports exactly `Firm = true` |
| FormBinder.ApprovalTextCases | src/index.js:48-56 | the approval line is `By: <account>` and the timestamp joined by the separator, each only when truthy, and empty exactly when both are absent or falsy |
| FormBinder.ApprovalLineSpec | src/index.js:48-56 | with the intended bullet, two present parts read `By: <account> • <timestamp>` |
| FormBinder.SeparatorIsMojibake | src/index.js:53 | as written, the line for account `ann` and timestamp `t` holds three mojibake characters and no bullet |
| Transitions.FieldMapWiring | src/index.js:249-261 | the page's field map can be seeded, binds distinct fields, neither `Email` nor `Vendor_ID`, and neither a panel input nor the search box |
| Transitions.FitsAfterLoad | src/index.js:40-63 | a load writes the bound controls with their kinds, and binds every mapped field to an original |
| Transitions.SeedLeavesPanel | src/index.js:40-63 | a load writes no panel input and not the search box |
| Transitions.InitialInv | src/index.js:270-285 | before any load the invariant holds, and a flush reports nothing because neither originals nor a tracked email exist |
| Transitions.ReportedOne | src/index.js:225-242 | one notification sends one call when the bridge exists, none otherwise, and, once originals exist, records the value as original whether or not the call was made |
| Transitions.ReportedAppend | src/index.js:225-242 | reporting a batch and then one more change is reporting them together |
| Transitions.ReportedNothing | src/index.js:225-242 | reporting nothing changes nothing |
| Transitions.ReportedKeeps | src/index.js:234-241 | reporting keeps the invariant |
| Transitions.FieldChangedSettles | src/index.js:319-328 | a control's `change` listener sends its value even when it equals the original, leaves the form alone, and the field is no longer pending |
| Transitions.EmailChangeIsReportedAgain | src/index.js:212-213 | the email listener sends the email but leaves `currentVendorEmail`, so the next flush reports the same email again |
| Transitions.FlushedSteps | src/index.js:263-295 | a flush reports the drifted fields, then, if the email input no longer holds the tracked email, reports it and tracks the new one; the count is the number reported |
| Transitions.FlushedKeeps | src/index.js:245-296 | a flush keeps the invariant |
| Transitions.FlushedSettles | src/index.js:245-296 | a flush reports at most one change per field plus the email, leaves the form alone, and a second flush reports nothing and changes nothing |
| Transitions.FlushPlanEmptyIff | src/index.js:266-292 | a flush reports nothing exactly when no mapped control drifted (or no originals exist) and the email input holds the tracked email (or none is tracked) |
| Transitions.FilterShowsIff | src/index.js:142-159 | filtering shows an entry exactly when the term occurs in its vendor's trimmed name ignoring ASCII case, and changes nothing else about it |
| Transitions.FilterLastWins | src/index.js:148-156 | only the last filter counts, and the empty term shows every entry |
| Transitions.DisplayedKeeps | src/index.js:161-223 | showing a vendor keeps the invariant |
| Transitions.DisplayedSpec | src/index.js:161-203 | a falsy or unknown id only hides the panel; a known id shows the first vendor with it, fills exactly the detail inputs, tracks its email, shows the panel, attaches the email listener and sends `Vendor_ID` |
| Transitions.DisplayedLeavesFieldsAlone | src/index.js:177-203 | showing a vendor leaves what a flush reports for the mapped fields alone |
| Transitions.DisplayedEmailSettled | src/index.js:179-186 | the tracked email is the one the panel shows, so a flush does not report it |
| Transitions.DisplayedLeaves | src/index.js:161-223 | showing a vendor leaves the vendor list, the originals' existence, the approval line and the dropdown entries alone |
| Transitions.NamedKeeps | src/index.js:130-131 | writing the search box and closing the dropdown keep the invariant and the pending fields |
| Transitions.SelectedKeeps | src/index.js:126-133 | selecting keeps the invariant and the pending fields |
| Transitions.SelectedSpec | src/index.js:126-133 | selecting leaves the name in the search box and the dropdown closed, and shows the panel exactly when the id resolves to a vendor |
| Transitions.SelectedByIdKeeps | src/index.js:135-140 | selecting by id keeps the invariant and the pending fields |
| Transitions.SelectedByIdSpec | src/index.js:135-140 | an id no vendor has (compared with `===`) changes nothing; a vendor's id puts its trimmed name in the search box, closes the dropdown, and shows and tracks the vendor unless the id is empty |
| Transitions.SelectedByIdReports | src/index.js:135-140 | selecting by id sends `Vendor_ID` when the bridge exists, and records it once originals exist, exactly when some vendor has that non-empty id |
| Transitions.SelectedByIdLeaves | src/index.js:135-140 | selecting by id leaves the vendor list, the originals' existence, the approval line and the dropdown entries alone |
| Transitions.SeededKeeps | src/index.js:20-63 | seeding and rebuilding the dropdown keep the invariant |
| Transitions.LoadKeeps | src/index.js:2-75 | a load, parsed or not, keeps the invariant |
| Transitions.LoadedSpec | src/index.js:20-66 | after a load the vendor list, the approval line (with the intended bullet, see "## Findings") and the dropdown come from the payload |
| Transitions.LoadedOriginals | src/index.js:24-37 | after a load the originals are exactly the seeded ones, even once its vendor is selected |
| Transitions.SelectionRecordsSeededId | src/index.js:69-70 | the selection at the end of a load records as `Vendor_ID` the value the seeding already put there |
| Transitions.LoadedFieldPlan | src/index.js:24-45 | after a load the flush reports the bound controls the load left unequal to their seeded originals |
| Transitions.LoadSelectsVendor | src/index.js:69-71 | when the list names the payload's vendor, the load shows it with its trimmed name, tracks its email and sends its id |
| Transitions.LoadWithoutVendor | src/index.js:65-71 | without the list, or when no vendor has the payload's id, the load writes only the bound controls, and leaves the panel, the tracked email and the host's calls alone |
| Transitions.FlushAfterLoadIff | src/index.js:24-45 | right after a load a flush reports no mapped field exactly when each was absent, falsy, or of its control's type |
| Transitions.EnteredIsPending | src/index.js:270-279 | typing into a bound text input makes the next flush report the text exactly when it differs from the original |
| Transitions.TextEnteredKeeps | src/index.js:271 | a change to a text input keeps the invariant |
| Transitions.TickedKeeps | src/index.js:271 | ticking a bound checkbox keeps the invariant |
| Sidebar.Session.constructor | src/index.js:270-285 | the session starts with blank controls, with neither originals nor a tracked email, so a flush before any load reports nothing |
| Sidebar.Session.Notify | src/index.js:225-242 | the session moves as `Reported` with one change |
| Sidebar.Session.OnFieldChange | src/index.js:319-328 | the session moves as `FieldChanged` and stays valid |
| Sidebar.Session.OnEmailChange | src/index.js:212-213 | the session moves as `EmailChanged` and stays valid |
| Sidebar.Session.FlushFields | src/index.js:263-281 | the loop reports exactly the pending fields, in order, and counts them |
| Sidebar.Session.Flush | src/index.js:245-296 | the session moves as `Flushed`, returns the number of reports and stays valid |
| Sidebar.Session.PopulateVendorSelect | src/index.js:104-124 | the dropdown holds one entry per vendor in order; a missing list throws with the dropdown emptied |
| Sidebar.Session.FilterVendors | src/index.js:142-159 | every entry is shown exactly when its key contains the lower-cased term, and the result says whether any is shown |
| Sidebar.Session.OnSearchInput | src/index.js:339-348 | the dropdown opens and is filtered by the search box's text |
| Sidebar.Session.DisplayVendorDetails | src/index.js:161-223 | the session moves as `Displayed` |
| Sidebar.Session.SelectVendor | src/index.js:126-133 | the session moves as `Selected` and stays valid |
| Sidebar.Session.SelectVendorById | src/index.js:135-140 | the session moves as `SelectedById` and stays valid |
| Sidebar.Session.PickOption | src/index.js:118-120 | clicking an entry selects its vendor under the entry's text |
| Sidebar.Session.Seed | src/index.js:20-63 | the session moves as `Seeded`, approval line with the intended bullet included |
| Sidebar.Session.Load | src/index.js:2-75 | the session moves as `AfterLoad`, the outcome says whether the payload parsed and whether the load threw, and the session stays valid; the approval line carries the intended bullet |
| Sidebar.Session.EnterText | src/index.js:271 | a text input changes without a `change` event: the session moves as `TextEntered` and stays valid |
| Sidebar.Session.SetChecked | src/index.js:271 | a bound checkbox changes without a `change` event: the session moves as `Ticked` and stays valid |

## Left out

- Text auto-fitting (`autoResizeText`, `autoResizeAllInputs`) and its timers. They change only font sizes.
- The loading overlay, `console` output, the `DOMContentLoaded` wiring and the click-outside handler that closes the dropdown.
- JSON parsing and serialising. A payload that does not parse is the `None` input of `Load`. A message is a `HostBridge.Message` value, not its JSON text.
- Payload values other than strings and booleans. Numbers, `null` and nested objects are not modelled; an absent or `null` field is a key missing from the payload's map.
- Payload keys outside the fields the script reads. They have no effect on the model.
- A vendor record without `VendorName`, which makes the script throw in `trim`. The model requires the name.
- Missing page elements. Every element the script looks up is assumed present. `Transitions.Inv` states this for the controls.
- Unicode case mapping. `toLowerCase` is modelled on ASCII letters only.
- The field and element-id names are closed enumerations (`Page.Field`, `Page.ElementId`), because the script only ever uses those names.
- Listener identity. Replacing the email input with a clone to drop old listeners is modelled as one boolean: whether the email listener is attached.
- Transitions.Seeded: writes the approval line with the intended bullet (`FormBinder.ApprovalLine`), not the script's mojibake separator of `src/index.js:53`; the as-written line is `FormBinder.ApprovalLineAsWritten`.
- Transitions.AfterLoad: the approval line it leaves is the corrected one, as for `Transitions.Seeded`.
- Transitions.LoadedSpec: states the approval line with the intended bullet, not the script's mojibake separator.
- Sidebar.Session.Seed: writes the approval line with the intended bullet, not the script's mojibake separator.
- Sidebar.Session.Load: the state it reaches carries the approval line with the intended bullet, not the script's mojibake separator.
- FormBinder.LoadSeeds: a text control is assumed to hold exactly the string written to it. The browser's sanitising of `.value` is not modelled: a text input strips carriage returns and line feeds, a textarea turns a carriage return into a line feed, and an email input trims white space. A payload value containing such characters reads back altered and is reported at the first flush, which the model does not show.
- FormBinder.SettledAfterLoadIff: holds for controls that store their value verbatim. A payload value the browser would sanitise is not settled after load in the script.
- Transitions.FlushAfterLoadIff: assumes verbatim control values. With a payload value such as `"PO\r1"` for `Number`, the script's first flush reports `Number = "PO1"`, while the model reports nothing.
- Transitions.DisplayedEmailSettled: assumes the email input stores the vendor's email verbatim. An email containing a line break or surrounding white space would be sanitised by the browser and reported on the next change.
- Sidebar.Session: bridge presence is fixed for the session (`hostBridge`, a constant). The script re-tests `window.FileMaker && window.FileMaker.PerformScript` on every notification (`src/index.js:234`), so a bridge that appears or disappears mid-session is not modelled.
- Sidebar.Session.DisplayVendorDetails, Sidebar.Session.Seed and Sidebar.Session.Notify: they do not promise `Valid()` themselves. The callers that are entry points do.

## Findings

| source | as written | input that shows it | evidently intended | confidence | as-written member | corrected member |
|---|---|---|---|---|---|---|
| src/index.js:53 | the approval parts are joined by `' â€¢ '`: the UTF-8 bytes of a bullet read back as three Latin-1/Windows-1252 characters | `ApprovalAccount: "ann"`, `ApprovalTS: "t"` gives `By: ann â€¢ t` | `By: ann • t`, joined by a bullet | medium, not executed | FormBinder.ApprovalLineAsWritten, FormBinder.SeparatorIsMojibake | FormBinder.ApprovalLine, FormBinder.ApprovalLineSpec |
