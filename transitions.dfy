/** The sidebar's state between two events as one value, and each entry
    point and listener of the script as a function from that state to the
    next. The session object in `Sidebar` is proved to follow them; the
    lemmas here say what they do. */
module Transitions {
  import opened Values
  import opened Page
  import opened AsciiText
  import opened VendorIndex
  import opened HostBridge
  import opened ChangeTracker
  import opened FormBinder

  /** How a call of `loadPOData` ends: the payload did not parse (nothing
      changed), the payload had no `vendorOptions` (a TypeError part-way
      through), or it completed. */
  datatype LoadOutcome = ParseFailed | Threw | Loaded

  /** The vendor search box. */
  const SearchId: ElementId := VendorSearchInput

  /** A field map the sidebar can be wired with: a load can seed it, its
      fields are distinct and include neither `Email` nor `Vendor_ID`, and
      its controls are neither panel inputs nor the search box. */
  predicate Wiring(fm: seq<Binding>) {
    && Seedable(fm) && DistinctFields(fm) && Unmapped(fm, Email) && Unmapped(fm, Vendor_ID)
    && forall i :: 0 <= i < |fm| ==> fm[i].elementId !in DetailIds && fm[i].elementId != SearchId
  }

  /** The page's field map is such a map. */
  lemma FieldMapWiring()
    ensures Wiring(FieldMap)
  {
    FieldMapSeedable();
    FieldMapDistinctFields();
    FieldMapShape();
    FieldMapOutsidePanel();
  }

  /** The page's field map binds neither a panel input nor the search box. */
  lemma FieldMapOutsidePanel()
    ensures forall i :: 0 <= i < |FieldMap| ==> FieldMap[i].elementId !in DetailIds && FieldMap[i].elementId != SearchId
  {
  }

  /** The form before any load, assumed blank: every input empty, the
      checkbox clear. */
  function BlankControls(): map<ElementId, Control> {
    (map id | id in DetailIds + {SearchId} :: TextInput("")) + LoadedControls(Payload(map[], None))
  }

  /** Every control the map binds exists with its binding's kind, and the
      panel inputs and the search box exist as text inputs. */
  predicate Fits(fm: seq<Binding>, controls: map<ElementId, Control>) {
    && (forall i :: 0 <= i < |fm| ==> fm[i].elementId in controls && controls[fm[i].elementId].Checkbox? == fm[i].checkbox)
    && PanelFits(controls)
  }

  /** The panel inputs and the search box exist as text inputs. */
  predicate PanelFits(controls: map<ElementId, Control>) {
    && (forall id :: id in DetailIds ==> id in controls && controls[id].TextInput?)
    && SearchId in controls && controls[SearchId].TextInput?
  }

  /** A load writes the bound controls with their kinds, leaves the panel
      inputs and the search box alone, and binds every mapped field. */
  lemma FitsAfterLoad(fm: seq<Binding>, controls: map<ElementId, Control>, p: Payload)
    requires Wiring(fm) && PanelFits(controls)
    ensures Fits(fm, controls + SeedControls(p, fm))
    ensures Bound(fm, controls + SeedControls(p, fm), SeedOriginals(p))
  {
    LoadSeeds(p, fm, controls);
    SeedLeavesPanel(fm, controls, p);
  }

  /** A load writes no panel input and not the search box. */
  lemma SeedLeavesPanel(fm: seq<Binding>, controls: map<ElementId, Control>, p: Payload)
    requires Wiring(fm) && PanelFits(controls)
    ensures PanelFits(controls + SeedControls(p, fm))
  {
    SeedControlsKeys(p, fm);
  }

  /** The blank form fits the page's field map. */
  lemma FitsBlank()
    ensures Fits(FieldMap, BlankControls())
  {
    var panel := map id | id in DetailIds + {SearchId} :: TextInput("");
    assert PanelFits(panel);
    FieldMapWiring();
    FitsAfterLoad(FieldMap, panel, Payload(map[], None));
  }

  /** Everything the script and the page hold between two events: whether
      the host bridge exists, the field map, the calls the host received,
      the script's globals (`originalValues`, defined once `loaded`;
      `currentVendorEmail`; `vendorOptions`), and the page (the inputs by
      element id, the approval line, the dropdown entries, and the `active`
      classes of the dropdown and the vendor panel). */
  datatype Snapshot = Snapshot(
    hostBridge: bool,
    fieldMap: seq<Binding>,
    log: seq<HostCall>,
    loaded: bool,
    originals: map<Field, Value>,
    currentVendorEmail: Option<string>,
    emailListener: bool,
    vendorOptions: seq<Vendor>,
    controls: map<ElementId, Control>,
    approvalText: string,
    options: seq<VendorOption>,
    dropdownActive: bool,
    panelActive: bool)

  /** Every bound control, panel input and the search box exists with its
      kind; once originals exist every mapped field has one; every call the
      host received invokes the update script in `updatePO` mode. */
  predicate Inv(s: Snapshot) {
    && Wiring(s.fieldMap)
    && Fits(s.fieldMap, s.controls)
    && (s.loaded ==> Bound(s.fieldMap, s.controls, s.originals))
    && Wired(s.log)
  }

  /** The page before any load: blank controls, no originals, no vendor. */
  function Initial(hostBridge: bool): Snapshot {
    Snapshot(hostBridge, FieldMap, [], false, map[], None, false, [], BlankControls(), "", [], false, false)
  }

  /** The page before any load satisfies the invariant and has nothing to flush. */
  lemma InitialInv(hostBridge: bool)
    ensures Inv(Initial(hostBridge)) && FlushPlan(Initial(hostBridge)) == []
  {
    FieldMapWiring();
    FitsBlank();
  }

  /** The vendor email input's text. */
  function EmailText(s: Snapshot): string
    requires Inv(s)
  {
    s.controls[VendorEmailInput].text
  }

  /** The search box's text. */
  function SearchText(s: Snapshot): string
    requires Inv(s)
  {
    s.controls[SearchId].text
  }

  // ---------------------------------------------------------------------
  // notifyFileMakerOfChange

  /** Reporting the changes `cs` in order: each goes to the host when the
      bridge exists, and each value becomes the field's original once
      originals exist. */
  function Reported(s: Snapshot, cs: seq<Change>): Snapshot {
    s.(log := s.log + Sent(s.hostBridge, cs),
       originals := if s.loaded then Commit(s.originals, cs) else s.originals)
  }

  /** One notification sends exactly one `PerformScript` call when the
      bridge exists and none otherwise, and records the value as the
      field's original whether or not the call was made. */
  lemma ReportedOne(s: Snapshot, c: Change)
    ensures Reported(s, [c]).log == if s.hostBridge then s.log + [CallFor(c)] else s.log
    ensures Reported(s, [c]).originals == if s.loaded then s.originals[c.field := c.value] else s.originals
    ensures Reported(s, [c]) == s.(log := Reported(s, [c]).log, originals := Reported(s, [c]).originals)
  {
    assert [c][..0] == [] && [c][1..] == [];
    assert Commit(s.originals, [c][..0]) == s.originals;
    assert Sent(s.hostBridge, [c]) == if s.hostBridge then [CallFor(c)] else [];
    assert s.log + [] == s.log;
  }

  /** Reporting a batch and then one more change is reporting them together. */
  lemma ReportedAppend(s: Snapshot, cs: seq<Change>, c: Change)
    ensures Reported(Reported(s, cs), [c]) == Reported(s, cs + [c])
  {
    SentExtend(s.log, s.hostBridge, cs, c);
    CommitAppend(s.originals, cs, c);
    ReportedOne(Reported(s, cs), c);
    if s.hostBridge {
      assert Sent(s.hostBridge, [c]) == [CallFor(c)] by {
        assert [c][1..] == [];
      }
    }
  }

  /** Reporting nothing changes nothing. */
  lemma ReportedNothing(s: Snapshot)
    ensures Reported(s, []) == s
  {
    assert s.log + [] == s.log;
  }

  /** Reporting keeps the invariant: originals only gain fields and every
      call goes to the update script. */
  lemma ReportedKeeps(s: Snapshot, cs: seq<Change>)
    requires Inv(s)
    ensures Inv(Reported(s, cs))
  {
    CommitGrows(s.originals, cs);
    SentWired(s.log, s.hostBridge, cs);
    if s.loaded {
      BoundGrows(s.fieldMap, s.controls, s.originals, s.controls, Commit(s.originals, cs));
    }
  }

  // ---------------------------------------------------------------------
  // The change listeners

  /** The `change` listener of bound control `i`: reports the control's
      value under its field, without comparing it to the original. */
  function FieldChanged(s: Snapshot, i: nat): Snapshot
    requires Inv(s) && i < |s.fieldMap|
  {
    Reported(s, [Change(s.fieldMap[i].field, Current(s.fieldMap[i], s.controls))])
  }

  /** After the listener of control `i` runs, the host has received the
      control's value (whether or not it differed from the original), the
      form is unchanged, and the field is no longer pending. */
  lemma FieldChangedSettles(s: Snapshot, i: nat)
    requires Inv(s) && i < |s.fieldMap|
    ensures var t, b := FieldChanged(s, i), s.fieldMap[i];
      && Inv(t) && t.controls == s.controls
      && t.log == (if s.hostBridge then s.log + [CallFor(Change(b.field, Current(b, s.controls)))] else s.log)
      && (s.loaded ==> !Drifted(b, t.controls, t.originals))
  {
    var b := s.fieldMap[i];
    ReportedOne(s, Change(b.field, Current(b, s.controls)));
    ReportedKeeps(s, [Change(b.field, Current(b, s.controls))]);
  }

  /** The `change` listener of the vendor email input, attached once a
      vendor has been shown: reports `Email` and leaves
      `currentVendorEmail` as it was. */
  function EmailChanged(s: Snapshot): Snapshot
    requires Inv(s)
  {
    if s.emailListener then Reported(s, [Change(Email, Str(EmailText(s)))]) else s
  }

  /** The email listener reports the new email but does not update the
      tracked vendor email, so a flush afterwards reports the same email
      again, and it leaves what a flush reports for the mapped fields alone. */
  lemma EmailChangeIsReportedAgain(s: Snapshot)
    requires Inv(s)
    ensures var t := EmailChanged(s);
      && Inv(t) && t.controls == s.controls && t.currentVendorEmail == s.currentVendorEmail
      && t.log == (if s.emailListener && s.hostBridge then s.log + [CallFor(Change(Email, Str(EmailText(s))))] else s.log)
      && FlushPlan(t) == FlushPlan(s)
  {
    if s.emailListener {
      var c := Change(Email, Str(EmailText(s)));
      ReportedOne(s, c);
      ReportedKeeps(s, [c]);
      if s.loaded {
        PendingIgnoresOtherFields(s.fieldMap, s.controls, s.originals, Email, c.value);
      }
    }
  }

  // ---------------------------------------------------------------------
  // flushPendingChanges

  /** The mapped fields a flush reports: those whose control is strictly
      unequal to its original, in field-map order, and none while no
      originals exist. */
  function FieldPlan(s: Snapshot): seq<Change>
    requires Inv(s)
  {
    if s.loaded then Pending(s.fieldMap, s.controls, s.originals) else []
  }

  /** Everything a flush reports: the mapped fields, then the vendor email. */
  function FlushPlan(s: Snapshot): seq<Change>
    requires Inv(s)
  {
    FieldPlan(s) + EmailChange(s.currentVendorEmail, EmailText(s))
  }

  /** The state after `flushPendingChanges`: the plan reported, and the
      tracked vendor email moved to the input's text if it was reported. */
  function Flushed(s: Snapshot): Snapshot
    requires Inv(s)
  {
    Reported(s, FlushPlan(s)).(currentVendorEmail :=
      if EmailChange(s.currentVendorEmail, EmailText(s)) != [] then Some(EmailText(s)) else s.currentVendorEmail)
  }

  /** A flush is the report of the drifted mapped fields followed, when the
      vendor email input no longer holds the tracked email, by the report of
      the email and the move of the tracked email to the input's text. */
  lemma FlushedSteps(s: Snapshot)
    requires Inv(s)
    ensures var moved := s.currentVendorEmail.Some? && EmailText(s) != s.currentVendorEmail.value;
      && |FlushPlan(s)| == |FieldPlan(s)| + (if moved then 1 else 0)
      && Flushed(s) == if moved
        then Reported(Reported(s, FieldPlan(s)), [Change(Email, Str(EmailText(s)))]).(currentVendorEmail := Some(EmailText(s)))
        else Reported(s, FieldPlan(s))
  {
    if s.currentVendorEmail.Some? && EmailText(s) != s.currentVendorEmail.value {
      ReportedAppend(s, FieldPlan(s), Change(Email, Str(EmailText(s))));
    } else {
      assert FlushPlan(s) == FieldPlan(s);
    }
  }

  /** A flush keeps the invariant. */
  lemma FlushedKeeps(s: Snapshot)
    requires Inv(s)
    ensures Inv(Flushed(s))
  {
    ReportedKeeps(s, FlushPlan(s));
  }

  /** A flush reports at most one change per mapped field plus the email,
      leaves the form alone and settles everything: a second flush reports
      nothing and changes nothing. */
  lemma FlushedSettles(s: Snapshot)
    requires Inv(s)
    ensures |FlushPlan(s)| <= |s.fieldMap| + 1
    ensures Inv(Flushed(s)) && Flushed(s).controls == s.controls
    ensures FlushPlan(Flushed(s)) == [] && Flushed(Flushed(s)) == Flushed(s)
  {
    var plan := FlushPlan(s);
    var t := Flushed(s);
    ReportedKeeps(s, plan);
    assert Inv(t);
    if s.loaded {
      FlushSettles(s.fieldMap, s.controls, s.originals, s.currentVendorEmail, EmailText(s));
    }
    assert FieldPlan(t) == [];
    assert EmailChange(t.currentVendorEmail, EmailText(t)) == [];
    ReportedNothing(t);
  }

  /** A flush reports nothing exactly when no mapped control has drifted
      from its original (or no originals exist) and the vendor email input
      still holds the tracked email (or none is tracked). */
  lemma FlushPlanEmptyIff(s: Snapshot)
    requires Inv(s)
    ensures FlushPlan(s) == [] <==>
      && (s.loaded ==> forall i :: 0 <= i < |s.fieldMap| ==> !Drifted(s.fieldMap[i], s.controls, s.originals))
      && (s.currentVendorEmail.Some? ==> EmailText(s) == s.currentVendorEmail.value)
  {
    if s.loaded {
      PendingEmptyIff(s.fieldMap, s.controls, s.originals);
    }
  }

  // ---------------------------------------------------------------------
  // The vendor dropdown

  /** The entries `populateVendorSelect` builds, one per vendor, in order. */
  function Options(vendors: seq<Vendor>): (os: seq<VendorOption>)
    ensures |os| == |vendors|
  {
    seq(|vendors|, k requires 0 <= k < |vendors| => OptionFor(vendors[k]))
  }

  /** `populateVendorSelect(vendors)`: the dropdown holds the entries of the
      list, or, when the list is missing, nothing (the script throws after
      emptying it). */
  function Populated(s: Snapshot, vendors: Option<seq<Vendor>>): Snapshot {
    s.(options := if vendors.Some? then Options(vendors.value) else [])
  }

  /** `filterVendors(term)`: every entry shown exactly when its key contains
      the lower-cased term. */
  function Filter(os: seq<VendorOption>, term: string): (r: seq<VendorOption>)
    ensures |r| == |os|
  {
    seq(|os|, k requires 0 <= k < |os| => os[k].(visible := Shows(os[k].key, term)))
  }

  /** Whether some entry is shown. */
  predicate AnyVisible(os: seq<VendorOption>) {
    exists k :: 0 <= k < |os| && os[k].visible
  }

  /** The `focus` and `input` listeners of the search box: open the dropdown
      and filter it by the box's text. */
  function Searched(s: Snapshot): Snapshot
    requires Inv(s)
  {
    s.(dropdownActive := true, options := Filter(s.options, SearchText(s)))
  }

  /** Filtering the dropdown built from `vendors` shows entry `k` exactly
      when the term occurs in the vendor's trimmed name, ignoring ASCII case,
      and only the last filter counts; the entries themselves do not change. */
  lemma FilterShowsIff(vendors: seq<Vendor>, os: seq<VendorOption>, term: string, k: nat)
    requires k < |vendors| && |os| == |vendors|
    requires forall j :: 0 <= j < |os| ==> os[j].(visible := true) == OptionFor(vendors[j])
    ensures Filter(os, term)[k].visible <==> exists j :: OccursAtIgnoringCase(Trim(vendors[k].name), term, j)
    ensures Filter(os, term)[k].(visible := true) == OptionFor(vendors[k])
  {
    assert os[k].key == OptionFor(vendors[k]).key;
    ShowsIff(vendors[k], term);
  }

  /** A later filter replaces an earlier one, and the empty term shows
      every entry. */
  lemma FilterLastWins(os: seq<VendorOption>, a: string, b: string)
    ensures Filter(Filter(os, a), b) == Filter(os, b)
    ensures forall k :: 0 <= k < |os| ==> Filter(os, "")[k].visible
  {
    forall k | 0 <= k < |os|
      ensures Filter(os, "")[k].visible
    {
      assert OccursAt(os[k].key, Lower(""), 0);
    }
  }

  // ---------------------------------------------------------------------
  // displayVendorDetails, selectVendor, selectVendorById

  /** `displayVendorDetails(id)`: a falsy or unknown id hides the panel; a
      known id fills the detail inputs from the first vendor with that
      `_ID`, tracks its email, shows the panel, reports `Vendor_ID` and
      attaches the email listener. */
  function Displayed(s: Snapshot, id: string): Snapshot {
    match Resolve(s.vendorOptions, id)
    case None => s.(panelActive := false)
    case Some(k) =>
      var v := s.vendorOptions[k];
      Reported(s.(controls := s.controls + DetailControls(v),
                  currentVendorEmail := Some(OrEmpty(v.email)),
                  panelActive := true),
               [Change(Vendor_ID, Str(id))]).(emailListener := true)
  }

  /** Showing a vendor keeps the invariant. */
  lemma DisplayedKeeps(s: Snapshot, id: string)
    requires Inv(s)
    ensures Inv(Displayed(s, id))
  {
    if Resolve(s.vendorOptions, id).Some? {
      var v := s.vendorOptions[Resolve(s.vendorOptions, id).value];
      var s' := s.(controls := s.controls + DetailControls(v), currentVendorEmail := Some(OrEmpty(v.email)), panelActive := true);
      if s.loaded {
        BoundGrows(s.fieldMap, s.controls, s.originals, s'.controls, s.originals);
      }
      assert Inv(s');
      ReportedKeeps(s', [Change(Vendor_ID, Str(id))]);
    }
  }

  /** A falsy or unknown id only hides the panel. A known id shows the first
      vendor with that id: the detail inputs hold its fields and nothing
      else on the form changes, the tracked email is the input's, so it is
      not pending, and the host receives `Vendor_ID`. */
  lemma DisplayedSpec(s: Snapshot, id: string)
    requires Inv(s)
    ensures Resolve(s.vendorOptions, id).None? ==> Displayed(s, id) == s.(panelActive := false)
    ensures Resolve(s.vendorOptions, id).Some? ==>
      var t, k := Displayed(s, id), Resolve(s.vendorOptions, id).value;
      var v := s.vendorOptions[k];
      && id != "" && v.id == id && (forall j :: 0 <= j < k ==> s.vendorOptions[j].id != id)
      && t.panelActive && t.emailListener && t.vendorOptions == s.vendorOptions
      && (forall d :: d in DetailIds ==> d in t.controls && t.controls[d] == DetailControls(v)[d])
      && (forall e :: e in s.controls && e !in DetailIds ==> e in t.controls && t.controls[e] == s.controls[e])
      && t.currentVendorEmail == Some(OrEmpty(v.email))
      && t.log == (if s.hostBridge then s.log + [CallFor(Change(Vendor_ID, Str(id)))] else s.log)
  {
    if Resolve(s.vendorOptions, id).Some? {
      FindFirst(s.vendorOptions, id);
      var v := s.vendorOptions[Resolve(s.vendorOptions, id).value];
      ReportedOne(s.(controls := s.controls + DetailControls(v), currentVendorEmail := Some(OrEmpty(v.email)), panelActive := true), Change(Vendor_ID, Str(id)));
    }
  }

  /** Showing a vendor leaves what a flush reports for the mapped fields
      alone. */
  lemma DisplayedLeavesFieldsAlone(s: Snapshot, id: string)
    requires Inv(s)
    ensures Inv(Displayed(s, id)) && FieldPlan(Displayed(s, id)) == FieldPlan(s)
  {
    DisplayedKeeps(s, id);
    if Resolve(s.vendorOptions, id).Some? && s.loaded {
      var v := s.vendorOptions[Resolve(s.vendorOptions, id).value];
      var c := s.controls + DetailControls(v);
      assert forall i :: 0 <= i < |s.fieldMap| ==> s.fieldMap[i].elementId !in DetailIds;
      PendingIgnoresOtherControls(s.fieldMap, s.controls, c, s.originals);
      PendingIgnoresOtherFields(s.fieldMap, c, s.originals, Vendor_ID, Str(id));
      ReportedOne(s.(controls := c, currentVendorEmail := Some(OrEmpty(v.email)), panelActive := true), Change(Vendor_ID, Str(id)));
    }
  }

  /** The email a shown vendor's panel tracks is the one its email input
      shows, so a flush does not report it. */
  lemma DisplayedEmailSettled(s: Snapshot, id: string)
    requires Inv(s) && Resolve(s.vendorOptions, id).Some?
    ensures Inv(Displayed(s, id))
    ensures EmailText(Displayed(s, id)) == OrEmpty(s.vendorOptions[Resolve(s.vendorOptions, id).value].email)
    ensures EmailChange(Displayed(s, id).currentVendorEmail, EmailText(Displayed(s, id))) == []
  {
    DisplayedKeeps(s, id);
    DisplayedSpec(s, id);
    var v := s.vendorOptions[Resolve(s.vendorOptions, id).value];
    assert DetailControls(v)[VendorEmailInput] == TextInput(OrEmpty(v.email));
  }

  /** The first two writes of `selectVendor`: the name into the search box
      and the dropdown closed. */
  function Named(s: Snapshot, name: string): Snapshot {
    s.(controls := s.controls[SearchId := TextInput(name)], dropdownActive := false)
  }

  /** `selectVendor(id, name)`: puts the name in the search box, closes the
      dropdown and shows the vendor's details. */
  function Selected(s: Snapshot, id: string, name: string): Snapshot {
    Displayed(Named(s, name), id)
  }

  /** Writing the search box keeps the invariant and leaves the mapped
      fields' reports alone. */
  lemma NamedKeeps(s: Snapshot, name: string)
    requires Inv(s)
    ensures Inv(Named(s, name)) && FieldPlan(Named(s, name)) == FieldPlan(s)
  {
    var s' := Named(s, name);
    if s.loaded {
      BoundGrows(s.fieldMap, s.controls, s.originals, s'.controls, s.originals);
      PendingIgnoresOtherControls(s.fieldMap, s.controls, s'.controls, s.originals);
    }
  }

  /** Selecting keeps the invariant and leaves the mapped fields' reports
      alone. */
  lemma SelectedKeeps(s: Snapshot, id: string, name: string)
    requires Inv(s)
    ensures Inv(Selected(s, id, name)) && FieldPlan(Selected(s, id, name)) == FieldPlan(s)
  {
    NamedKeeps(s, name);
    DisplayedLeavesFieldsAlone(Named(s, name), id);
  }

  /** Selecting leaves the name in the search box and the dropdown closed,
      and shows the panel exactly when the id resolves to a vendor. */
  lemma SelectedSpec(s: Snapshot, id: string, name: string)
    requires Inv(s)
    ensures Inv(Selected(s, id, name))
    ensures SearchText(Selected(s, id, name)) == name && !Selected(s, id, name).dropdownActive
    ensures Selected(s, id, name).panelActive <==> Resolve(s.vendorOptions, id).Some?
  {
    NamedKeeps(s, name);
    DisplayedKeeps(Named(s, name), id);
    DisplayedSpec(Named(s, name), id);
  }

  /** `selectVendorById(id)`: selects the first vendor whose `_ID` is `id`
      (compared with `===`) under its trimmed name; any other id changes
      nothing. */
  function SelectedById(s: Snapshot, id: Value): Snapshot {
    match FindValue(s.vendorOptions, id)
    case None => s
    case Some(k) => Selected(s, id.s, Trim(s.vendorOptions[k].name))
  }

  /** Selecting by id keeps the invariant and leaves the mapped fields'
      reports alone. */
  lemma SelectedByIdKeeps(s: Snapshot, id: Value)
    requires Inv(s)
    ensures Inv(SelectedById(s, id)) && FieldPlan(SelectedById(s, id)) == FieldPlan(s)
  {
    if FindValue(s.vendorOptions, id).Some? {
      SelectedKeeps(s, id.s, Trim(s.vendorOptions[FindValue(s.vendorOptions, id).value].name));
    }
  }

  /** An id no vendor has changes nothing. A vendor's id selects the first
      vendor with it: its trimmed name goes into the search box, the
      dropdown closes, and unless the id is empty (falsy) the panel shows
      the vendor and tracks its email; an empty id hides the panel. */
  lemma SelectedByIdSpec(s: Snapshot, id: Value)
    requires Inv(s)
    ensures Inv(SelectedById(s, id))
    ensures FindValue(s.vendorOptions, id).None? ==> SelectedById(s, id) == s
    ensures FindValue(s.vendorOptions, id).Some? ==>
      var t, v := SelectedById(s, id), s.vendorOptions[FindValue(s.vendorOptions, id).value];
      && id == Str(v.id) && SearchText(t) == Trim(v.name) && !t.dropdownActive
      && (t.panelActive <==> v.id != "")
      && (v.id != "" ==> t.currentVendorEmail == Some(OrEmpty(v.email)) && t.emailListener)
  {
    SelectedByIdKeeps(s, id);
    if FindValue(s.vendorOptions, id).Some? {
      var v := s.vendorOptions[FindValue(s.vendorOptions, id).value];
      SelectedSpec(s, id.s, Trim(v.name));
      DisplayedSpec(Named(s, Trim(v.name)), id.s);
    }
  }

  /** Selecting by id reports `Vendor_ID` exactly when some vendor has that
      id and it is not empty: the host receives it when the bridge exists
      and it becomes the original once originals exist. */
  lemma SelectedByIdReports(s: Snapshot, id: Value)
    ensures var t, hit := SelectedById(s, id), FindValue(s.vendorOptions, id).Some? && id != Str("");
      && t.log == (if hit && s.hostBridge then s.log + [CallFor(Change(Vendor_ID, id))] else s.log)
      && t.originals == (if hit && s.loaded then s.originals[Vendor_ID := id] else s.originals)
  {
    if FindValue(s.vendorOptions, id).Some? && id != Str("") {
      var v := s.vendorOptions[FindValue(s.vendorOptions, id).value];
      var s' := Named(s, Trim(v.name));
      var s'' := s'.(controls := s'.controls + DetailControls(v), currentVendorEmail := Some(OrEmpty(v.email)), panelActive := true);
      ReportedOne(s'', Change(Vendor_ID, id));
    }
  }

  /** Selecting by id leaves the vendor list, whether originals exist, the
      approval line and the dropdown's entries as they were. */
  lemma SelectedByIdLeaves(s: Snapshot, id: Value)
    ensures var t := SelectedById(s, id);
      && t.fieldMap == s.fieldMap && t.loaded == s.loaded && t.vendorOptions == s.vendorOptions
      && t.approvalText == s.approvalText && t.options == s.options
  {
    if FindValue(s.vendorOptions, id).Some? {
      DisplayedLeaves(Named(s, Trim(s.vendorOptions[FindValue(s.vendorOptions, id).value].name)), id.s);
    }
  }

  /** Showing a vendor leaves the vendor list, whether originals exist, the
      approval line and the dropdown's entries as they were. */
  lemma DisplayedLeaves(s: Snapshot, id: string)
    ensures var t := Displayed(s, id);
      && t.fieldMap == s.fieldMap && t.loaded == s.loaded && t.vendorOptions == s.vendorOptions
      && t.approvalText == s.approvalText && t.options == s.options
  {
  }

  /** The `click` listener of dropdown entry `i`: selects that entry's
      vendor under its text. */
  function Picked(s: Snapshot, i: nat): Snapshot
    requires i < |s.options|
  {
    Selected(s, s.options[i].id, s.options[i].text)
  }

  // ---------------------------------------------------------------------
  // loadPOData

  /** The part of `loadPOData` before the dropdown is rebuilt: stores the
      vendor list, rebuilds the originals, writes the bound controls and
      sets the approval line. */
  function Seeded(s: Snapshot, p: Payload): Snapshot {
    s.(vendorOptions := VendorList(p),
       loaded := true,
       originals := SeedOriginals(p),
       controls := s.controls + SeedControls(p, s.fieldMap),
       approvalText := ApprovalLine(Get(p.fields, ApprovalAccount), Get(p.fields, ApprovalTS)))
  }

  /** `loadPOData(input)`: nothing on a parse failure; otherwise seed, rebuild
      the dropdown, and, when `vendorOptions` was present and `Vendor_ID` is
      truthy, select that vendor. */
  function AfterLoad(s: Snapshot, input: Option<Payload>): Snapshot {
    match input
    case None => s
    case Some(p) =>
      var t := Populated(Seeded(s, p), p.vendorOptions);
      var id := Get(p.fields, Vendor_ID);
      if p.vendorOptions.Some? && Present(id) then SelectedById(t, id.value) else t
  }

  /** How `loadPOData(input)` ends. */
  function LoadResult(input: Option<Payload>): LoadOutcome {
    if input.None? then ParseFailed else if input.value.vendorOptions.None? then Threw else Loaded
  }

  /** Seeding, and rebuilding the dropdown after it, keep the invariant. */
  lemma SeededKeeps(s: Snapshot, p: Payload)
    requires Inv(s)
    ensures Inv(Seeded(s, p)) && Inv(Populated(Seeded(s, p), p.vendorOptions))
  {
    FitsAfterLoad(s.fieldMap, s.controls, p);
  }

  /** A load keeps the invariant. */
  lemma LoadKeeps(s: Snapshot, input: Option<Payload>)
    requires Inv(s)
    ensures Inv(AfterLoad(s, input))
  {
    if input.Some? {
      var p := input.value;
      SeededKeeps(s, p);
      var id := Get(p.fields, Vendor_ID);
      if p.vendorOptions.Some? && Present(id) {
        SelectedByIdKeeps(Populated(Seeded(s, p), p.vendorOptions), id.value);
      }
    }
  }

  /** After a load the vendor list, the approval line and the dropdown come
      from the payload. */
  lemma LoadedSpec(s: Snapshot, p: Payload)
    ensures var t := AfterLoad(s, Some(p));
      && t.loaded && t.vendorOptions == VendorList(p)
      && t.approvalText == ApprovalLine(Get(p.fields, ApprovalAccount), Get(p.fields, ApprovalTS))
      && t.options == (if p.vendorOptions.Some? then Options(VendorList(p)) else [])
  {
    var id := Get(p.fields, Vendor_ID);
    if p.vendorOptions.Some? && Present(id) {
      SelectedByIdLeaves(Populated(Seeded(s, p), p.vendorOptions), id.value);
    }
  }

  /** After a load the originals are exactly the seeded ones, even once the
      payload's vendor is selected: its notification records the id the
      load already seeded. */
  lemma LoadedOriginals(s: Snapshot, p: Payload)
    ensures AfterLoad(s, Some(p)).originals == SeedOriginals(p)
  {
    if p.vendorOptions.Some? && Present(Get(p.fields, Vendor_ID)) {
      SelectionRecordsSeededId(s, p);
    }
  }

  /** Selecting the payload's vendor at the end of a load records, as
      `Vendor_ID`'s original, the value the seeding already put there. */
  lemma SelectionRecordsSeededId(s: Snapshot, p: Payload)
    requires p.vendorOptions.Some? && Present(Get(p.fields, Vendor_ID))
    ensures AfterLoad(s, Some(p)).originals == SeedOriginals(p)
  {
    var t, x := Populated(Seeded(s, p), p.vendorOptions), Get(p.fields, Vendor_ID).value;
    SelectedByIdReports(t, x);
    if InitialVendor(p).Some? {
      InitialVendorSeeded(p);
    }
  }

  /** After a load the mapped fields a flush reports are those whose
      control the load left unequal to the seeded original. */
  lemma LoadedFieldPlan(s: Snapshot, p: Payload)
    requires Inv(s)
    ensures Inv(AfterLoad(s, Some(p)))
    ensures FieldPlan(AfterLoad(s, Some(p))) == Pending(s.fieldMap, s.controls + SeedControls(p, s.fieldMap), SeedOriginals(p))
  {
    SeededKeeps(s, p);
    LoadKeeps(s, Some(p));
    var id := Get(p.fields, Vendor_ID);
    if p.vendorOptions.Some? && Present(id) {
      SelectedByIdKeeps(Populated(Seeded(s, p), p.vendorOptions), id.value);
    }
  }

  /** When the list is present and names the payload's vendor, the load
      shows that vendor with its trimmed name in the search box, tracks its
      email and reports its id to the host. */
  lemma LoadSelectsVendor(s: Snapshot, p: Payload)
    requires Inv(s) && p.vendorOptions.Some? && InitialVendor(p).Some?
    ensures InitialVendor(p).value < |VendorList(p)|
    ensures var t, v := AfterLoad(s, Some(p)), VendorList(p)[InitialVendor(p).value];
      && Inv(t) && t.panelActive && SearchText(t) == Trim(v.name) && t.currentVendorEmail == Some(OrEmpty(v.email))
      && t.log == (if s.hostBridge then s.log + [CallFor(Change(Vendor_ID, Str(v.id)))] else s.log)
  {
    InitialVendorSeeded(p);
    SeededKeeps(s, p);
    var t := Populated(Seeded(s, p), p.vendorOptions);
    var id := Get(p.fields, Vendor_ID);
    SelectedByIdSpec(t, id.value);
    SelectedByIdReports(t, id.value);
  }

  /** Without the list, or when no vendor has the payload's id, the load
      writes only the bound controls: the panel, the tracked email and the
      host's calls stay as they were. */
  lemma LoadWithoutVendor(s: Snapshot, p: Payload)
    requires p.vendorOptions.None? || InitialVendor(p).None?
    ensures var t := AfterLoad(s, Some(p));
      && t.controls == s.controls + SeedControls(p, s.fieldMap) && t.log == s.log
      && t.panelActive == s.panelActive && t.currentVendorEmail == s.currentVendorEmail
  {
    var id := Get(p.fields, Vendor_ID);
    if p.vendorOptions.Some? && Present(id) {
      assert AfterLoad(s, Some(p)) == Populated(Seeded(s, p), p.vendorOptions);
    }
  }

  /** Right after a load, a flush reports none of the mapped fields exactly
      when every one of them was absent, falsy, or of its control's type. */
  lemma FlushAfterLoadIff(s: Snapshot, p: Payload)
    requires Inv(s)
    ensures Inv(AfterLoad(s, Some(p)))
    ensures FieldPlan(AfterLoad(s, Some(p))) == [] <==>
      forall i :: 0 <= i < |s.fieldMap| ==> Conforms(SeedOriginals(p)[s.fieldMap[i].field], s.fieldMap[i].checkbox)
  {
    LoadedFieldPlan(s, p);
    SettledAfterLoadIff(p, s.fieldMap, s.controls);
  }

  // ---------------------------------------------------------------------
  // Typing and ticking without a `change` event

  /** The user (or the host) changes a text input. */
  function TextEntered(s: Snapshot, id: ElementId, text: string): Snapshot {
    s.(controls := s.controls[id := TextInput(text)])
  }

  /** The user (or the host) ticks or clears bound checkbox `i`. */
  function Ticked(s: Snapshot, i: nat, checked: bool): Snapshot
    requires i < |s.fieldMap|
  {
    s.(controls := s.controls[s.fieldMap[i].elementId := Checkbox(checked)])
  }

  /** Typing into an existing text input keeps the invariant. */
  lemma TextEnteredKeeps(s: Snapshot, id: ElementId, text: string)
    requires Inv(s) && id in s.controls && s.controls[id].TextInput?
    ensures Inv(TextEntered(s, id, text))
  {
    if s.loaded {
      BoundGrows(s.fieldMap, s.controls, s.originals, TextEntered(s, id, text).controls, s.originals);
    }
  }

  /** Ticking or clearing a bound checkbox keeps the invariant. */
  lemma TickedKeeps(s: Snapshot, i: nat, checked: bool)
    requires Inv(s) && i < |s.fieldMap| && s.fieldMap[i].checkbox
    ensures Inv(Ticked(s, i, checked))
  {
    if s.loaded {
      BoundGrows(s.fieldMap, s.controls, s.originals, Ticked(s, i, checked).controls, s.originals);
    }
  }

  /** Once originals exist, typing `text` into bound text input `i` makes
      the next flush report `text` for its field exactly when `text` differs
      from the field's original. */
  lemma EnteredIsPending(s: Snapshot, i: nat, text: string)
    requires Inv(s) && s.loaded && i < |s.fieldMap| && !s.fieldMap[i].checkbox
    ensures Inv(TextEntered(s, s.fieldMap[i].elementId, text))
    ensures Change(s.fieldMap[i].field, Str(text)) in FieldPlan(TextEntered(s, s.fieldMap[i].elementId, text))
      <==> Str(text) != s.originals[s.fieldMap[i].field]
  {
    var fm, b := s.fieldMap, s.fieldMap[i];
    TextEnteredKeeps(s, b.elementId, text);
    var t := TextEntered(s, b.elementId, text);
    PendingIff(fm, t.controls, t.originals);
    if Change(b.field, Str(text)) in FieldPlan(t) {
      var j :| 0 <= j < |fm| && Drifted(fm[j], t.controls, t.originals) && Change(b.field, Str(text)) == Change(fm[j].field, Current(fm[j], t.controls));
      assert j == i;
    }
  }
}
