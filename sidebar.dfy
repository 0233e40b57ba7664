/** The purchase-order sidebar as one session object: the script's globals
    (`originalValues`, `currentVendorEmail`, `vendorOptions`), the form's
    controls, the vendor dropdown and panel, and the calls that reached the
    host. Each method is one entry point or listener of the script and is
    proved to move the session as the matching function of `Transitions`
    moves a snapshot. */
module Sidebar {
  import opened Values
  import opened Page
  import opened AsciiText
  import opened VendorIndex
  import opened HostBridge
  import opened ChangeTracker
  import opened FormBinder
  import opened Transitions

  class Session {
    /** Whether `window.FileMaker.PerformScript` exists. */
    const hostBridge: bool
    /** The element-id-to-field mapping the flush and the edit listeners
        share; the page wires it as `FieldMap`. */
    const fieldMap: seq<Binding>
    /** The `PerformScript` calls the host received, oldest first. */
    var log: seq<HostCall>
    /** Whether `window.originalValues` is defined (a payload was parsed). */
    var loaded: bool
    /** `window.originalValues`: the last value sent or loaded per field. */
    var originals: map<Field, Value>
    /** `window.currentVendorEmail`: `None` while it is undefined. */
    var currentVendorEmail: Option<string>
    /** Whether the vendor email input carries its `change` listener. */
    var emailListener: bool
    /** `window.vendorOptions` */
    var vendorOptions: seq<Vendor>
    /** The form's inputs by element id. */
    var controls: map<ElementId, Control>
    /** The text of `approvalDetails`. */
    var approvalText: string
    /** The entries of `vendorDropdown`, in order. */
    var options: seq<VendorOption>
    /** Whether the dropdown has its `active` class. */
    var dropdownActive: bool
    /** Whether the vendor detail panel has its `active` class. */
    var panelActive: bool

    /** The session's state as a value. */
    function State(): Snapshot
      reads this
    {
      Snapshot(hostBridge, fieldMap, log, loaded, originals, currentVendorEmail, emailListener,
        vendorOptions, controls, approvalText, options, dropdownActive, panelActive)
    }

    ghost predicate Valid()
      reads this
    {
      Inv(State())
    }

    /** The page before any load: blank controls, no originals, no vendor. */
    constructor (hostBridge: bool)
      ensures State() == Initial(hostBridge)
      ensures Valid()
    {
      this.hostBridge := hostBridge;
      fieldMap := FieldMap;
      log := [];
      loaded := false;
      originals := map[];
      currentVendorEmail := None;
      emailListener := false;
      vendorOptions := [];
      controls := BlankControls();
      approvalText := "";
      options := [];
      dropdownActive := false;
      panelActive := false;
      new;
      InitialInv(hostBridge);
    }

    /** `notifyFileMakerOfChange`: sends the change when the host bridge
        exists and records the value as original whether or not it does. */
    method Notify(field: Field, value: Value)
      modifies this`log, this`originals
      ensures State() == Reported(old(State()), [Change(field, value)])
    {
      ReportedOne(State(), Change(field, value));
      if hostBridge {
        log := log + [CallFor(Change(field, value))];
      }
      if loaded {
        originals := originals[field := value];
      }
    }

    /** The `change` listener of bound control `i`. */
    method OnFieldChange(i: nat)
      requires Valid() && i < |fieldMap|
      modifies this`log, this`originals
      ensures State() == FieldChanged(old(State()), i)
      ensures Valid()
    {
      FieldChangedSettles(State(), i);
      var b := fieldMap[i];
      Notify(b.field, CurrentValue(controls[b.elementId]));
    }

    /** The `change` listener of the vendor email input. */
    method OnEmailChange()
      requires Valid()
      modifies this`log, this`originals
      ensures State() == EmailChanged(old(State()))
      ensures Valid()
    {
      EmailChangeIsReportedAgain(State());
      if emailListener {
        Notify(Email, Str(controls[VendorEmailInput].text));
      }
    }

    /** The `forEach` over the field map in `flushPendingChanges`: reports
        each drifted mapped field and returns how many it reported. */
    method FlushFields() returns (count: nat)
      requires Valid()
      modifies this`log, this`originals
      ensures State() == Reported(old(State()), FieldPlan(old(State())))
      ensures count == |FieldPlan(old(State()))|
    {
      count := 0;
      ghost var done: seq<Change> := [];
      ReportedNothing(State());
      var i := 0;
      while i < |fieldMap|
        invariant 0 <= i <= |fieldMap|
        invariant loaded ==> Bound(fieldMap, controls, old(originals))
        invariant done == if loaded then Pending(fieldMap[..i], controls, old(originals)) else []
        invariant count == |done|
        invariant State() == Reported(old(State()), done)
      {
        if loaded {
          FlushStep(fieldMap, i, controls, old(originals), done, originals);
          var b := fieldMap[i];
          var current := CurrentValue(controls[b.elementId]);
          if current != originals[b.field] {
            ReportedAppend(old(State()), done, Change(b.field, current));
            Notify(b.field, current);
            count := count + 1;
            done := done + [Change(b.field, current)];
          } else {
            assert done + [] == done;
          }
        }
        i := i + 1;
      }
      assert fieldMap[..i] == fieldMap;
    }

    /** Records the vendor email a flush reported as the tracked one. */
    method TrackEmail(email: string)
      modifies this`currentVendorEmail
      ensures State() == old(State()).(currentVendorEmail := Some(email))
    {
      currentVendorEmail := Some(email);
    }

    /** `flushPendingChanges`: reports every mapped field whose control is
        strictly unequal to its original, then the vendor email if it
        changed, and returns how many it reported. */
    method Flush() returns (count: nat)
      requires Valid()
      modifies this`log, this`originals, this`currentVendorEmail
      ensures State() == Flushed(old(State()))
      ensures count == |FlushPlan(old(State()))|
      ensures Valid()
    {
      FlushedKeeps(State());
      FlushedSteps(State());
      count := FlushFields();
      var text := controls[VendorEmailInput].text;
      if currentVendorEmail.Some? && text != currentVendorEmail.value {
        Notify(Email, Str(text));
        TrackEmail(text);
        count := count + 1;
      }
    }

    /** `populateVendorSelect`: empties the dropdown, then adds one entry per
        vendor in order; a missing vendor list throws after the dropdown has
        been emptied. */
    method PopulateVendorSelect(vendors: Option<seq<Vendor>>) returns (threw: bool)
      modifies this`options
      ensures State() == Populated(old(State()), vendors)
      ensures threw <==> vendors.None?
    {
      options := [];
      if vendors.None? {
        return true;
      }
      var list := vendors.value;
      var i := 0;
      while i < |list|
        invariant 0 <= i <= |list|
        invariant |options| == i
        invariant forall k :: 0 <= k < i ==> options[k] == OptionFor(list[k])
      {
        options := options + [OptionFor(list[i])];
        i := i + 1;
      }
      assert options == Options(list);
      return false;
    }

    /** `filterVendors`: shows exactly the entries whose key contains the
        lower-cased term and answers whether any entry is shown. */
    method FilterVendors(term: string) returns (hasVisible: bool)
      modifies this`options
      ensures options == Filter(old(options), term)
      ensures hasVisible <==> AnyVisible(options)
    {
      var lowered := Lower(term);
      hasVisible := false;
      var i := 0;
      while i < |options|
        invariant 0 <= i <= |options| == |old(options)|
        invariant forall k :: 0 <= k < i ==> options[k] == old(options[k]).(visible := Shows(old(options[k]).key, term))
        invariant forall k :: i <= k < |options| ==> options[k] == old(options[k])
        invariant hasVisible <==> exists k :: 0 <= k < i && options[k].visible
      {
        var entry := options[i];
        if Contains(entry.key, lowered) {
          options := options[i := entry.(visible := true)];
          hasVisible := true;
        } else {
          options := options[i := entry.(visible := false)];
        }
        i := i + 1;
      }
    }

    /** The `focus` and `input` listeners of the search box. */
    method OnSearchInput()
      requires Valid()
      modifies this`dropdownActive, this`options
      ensures State() == Searched(old(State()))
      ensures Valid()
    {
      dropdownActive := true;
      var _ := FilterVendors(controls[SearchId].text);
    }

    /** `displayVendorDetails` */
    method DisplayVendorDetails(id: string)
      modifies this`controls, this`panelActive, this`currentVendorEmail, this`emailListener, this`log, this`originals
      ensures State() == Displayed(old(State()), id)
    {
      if id == "" {
        panelActive := false;
        return;
      }
      var found := Find(vendorOptions, id);
      if found.None? {
        panelActive := false;
        return;
      }
      var v := vendorOptions[found.value];
      FillPanel(controls + DetailControls(v), OrEmpty(v.email));
      Notify(Vendor_ID, Str(id));
      emailListener := true;
    }

    /** The writes of `displayVendorDetails` before it notifies the host:
        the detail inputs, the tracked vendor email and the panel's class. */
    method FillPanel(form: map<ElementId, Control>, email: string)
      modifies this`controls, this`panelActive, this`currentVendorEmail
      ensures State() == old(State()).(controls := form, currentVendorEmail := Some(email), panelActive := true)
    {
      controls := form;
      currentVendorEmail := Some(email);
      panelActive := true;
    }

    /** `selectVendor` */
    method SelectVendor(id: string, name: string)
      requires Valid()
      modifies this`controls, this`dropdownActive, this`panelActive, this`currentVendorEmail, this`emailListener, this`log, this`originals
      ensures State() == Selected(old(State()), id, name)
      ensures Valid()
    {
      SelectedKeeps(State(), id, name);
      controls := controls[SearchId := TextInput(name)];
      dropdownActive := false;
      DisplayVendorDetails(id);
    }

    /** `selectVendorById` */
    method SelectVendorById(id: Value)
      requires Valid()
      modifies this`controls, this`dropdownActive, this`panelActive, this`currentVendorEmail, this`emailListener, this`log, this`originals
      ensures State() == SelectedById(old(State()), id)
      ensures Valid()
    {
      if id.Str? {
        var found := Find(vendorOptions, id.s);
        if found.Some? {
          SelectVendor(id.s, Trim(vendorOptions[found.value].name));
        }
      }
    }

    /** The `click` listener of dropdown entry `i`. */
    method PickOption(i: nat)
      requires Valid() && i < |options|
      modifies this`controls, this`dropdownActive, this`panelActive, this`currentVendorEmail, this`emailListener, this`log, this`originals
      ensures State() == Picked(old(State()), i)
      ensures Valid()
    {
      SelectVendor(options[i].id, options[i].text);
    }

    /** The writes of `loadPOData` to the script's globals: the vendor list
        and the rebuilt originals. */
    method StoreGlobals(vendors: seq<Vendor>, seeded: map<Field, Value>)
      modifies this`vendorOptions, this`loaded, this`originals
      ensures State() == old(State()).(vendorOptions := vendors, loaded := true, originals := seeded)
    {
      vendorOptions := vendors;
      loaded := true;
      originals := seeded;
    }

    /** The writes of `loadPOData` to the page: the bound controls and the
        approval line. */
    method WriteForm(form: map<ElementId, Control>, approval: string)
      modifies this`controls, this`approvalText
      ensures State() == old(State()).(controls := form, approvalText := approval)
    {
      controls := form;
      approvalText := approval;
    }

    /** The part of `loadPOData` before the dropdown is rebuilt. */
    method Seed(p: Payload)
      modifies this`vendorOptions, this`loaded, this`originals, this`controls, this`approvalText
      ensures State() == Seeded(old(State()), p)
    {
      StoreGlobals(VendorList(p), SeedOriginals(p));
      WriteForm(controls + SeedControls(p, fieldMap), ApprovalLine(Get(p.fields, ApprovalAccount), Get(p.fields, ApprovalTS)));
    }

    /** `loadPOData` */
    method Load(input: Option<Payload>) returns (outcome: LoadOutcome)
      requires Valid()
      modifies this`vendorOptions, this`loaded, this`originals, this`controls, this`approvalText, this`options,
        this`dropdownActive, this`panelActive, this`currentVendorEmail, this`emailListener, this`log
      ensures State() == AfterLoad(old(State()), input)
      ensures outcome == LoadResult(input)
      ensures Valid()
    {
      LoadKeeps(State(), input);
      if input.None? {
        return ParseFailed;
      }
      var p := input.value;
      SeededKeeps(State(), p);
      Seed(p);
      var threw := PopulateVendorSelect(p.vendorOptions);
      if threw {
        return Threw;
      }
      var id := Get(p.fields, Vendor_ID);
      if Present(id) {
        SelectVendorById(id.value);
      }
      return Loaded;
    }

    /** The user (or the host) changes a text input without a `change` event. */
    method EnterText(id: ElementId, text: string)
      requires Valid() && id in controls && controls[id].TextInput?
      modifies this`controls
      ensures State() == TextEntered(old(State()), id, text)
      ensures Valid()
    {
      TextEnteredKeeps(State(), id, text);
      controls := controls[id := TextInput(text)];
    }

    /** The user (or the host) ticks or clears bound checkbox `i` without a
        `change` event. */
    method SetChecked(i: nat, checked: bool)
      requires Valid() && i < |fieldMap| && fieldMap[i].checkbox
      modifies this`controls
      ensures State() == Ticked(old(State()), i, checked)
      ensures Valid()
    {
      TickedKeeps(State(), i, checked);
      controls := controls[fieldMap[i].elementId := Checkbox(checked)];
    }
  }
}
