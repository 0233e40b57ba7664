/** What `loadPOData` derives from a parsed payload: the seeded originals,
    the values written into the bound controls and the approval line. */
module FormBinder {
  import opened Values
  import opened Page
  import opened VendorIndex
  import opened HostBridge
  import opened ChangeTracker

  /** A parsed payload: its scalar fields by name (an absent or null field is
      not in the map) and its `vendorOptions`, which may be absent. */
  datatype Payload = Payload(fields: map<Field, Value>, vendorOptions: Option<seq<Vendor>>)

  /** The fields `originalValues` is seeded with on load. */
  const TrackedFields: set<Field> := {
    Number, OrderNumber, Date, DateApproved, DeliveryRequired, Firm,
    PlacedBy, PlacedWith, ShipVia, Terms, FOB, Vendor_ID
  }

  /** `data.vendorOptions || []` */
  function VendorList(p: Payload): seq<Vendor> {
    if p.vendorOptions.Some? then p.vendorOptions.value else []
  }

  /** The vendor a load selects: the first one whose `_ID` is the payload's
      `Vendor_ID`, when that is present and truthy. */
  function InitialVendor(p: Payload): Option<nat> {
    var id := Get(p.fields, Vendor_ID);
    if Present(id) then FindValue(VendorList(p), id.value) else None
  }

  /** The selected vendor's id is the `Vendor_ID` the load already seeded as
      original, so the selection's notification records the same value. */
  lemma InitialVendorSeeded(p: Payload)
    requires InitialVendor(p).Some?
    ensures InitialVendor(p).value < |VendorList(p)|
    ensures SeedOriginals(p)[Vendor_ID] == Str(VendorList(p)[InitialVendor(p).value].id)
    ensures VendorList(p)[InitialVendor(p).value].id != ""
    ensures SeedOriginals(p)[Vendor_ID := Str(VendorList(p)[InitialVendor(p).value].id)] == SeedOriginals(p)
  {
  }

  /** The default of a tracked field: `false` for `Firm`, `''` for the rest. */
  function Default(f: Field): Value {
    if f == Firm then Bool(false) else Str("")
  }

  /** `window.originalValues` as rebuilt by a load: `data.F || default` for
      every tracked field. */
  function SeedOriginals(p: Payload): map<Field, Value> {
    map f | f in TrackedFields :: Or(Get(p.fields, f), Default(f))
  }

  /** The text a load writes into a text input: `String(data.F || '')`. */
  function SeedText(p: Payload, f: Field): Control {
    TextInput(ToText(Or(Get(p.fields, f), Str(""))))
  }

  /** A value of the type its control holds: a boolean for a checkbox, a
      string for a text input. */
  predicate Conforms(v: Value, checkbox: bool) {
    if checkbox then v.Bool? else v.Str?
  }

  /** The control a load writes for binding `b`: the checkbox is checked
      when `data.Firm || false` is truthy; a text input gets `String(data.F || '')`. */
  function SeedControl(p: Payload, b: Binding): Control {
    if b.checkbox then Checkbox(Truthy(Or(Get(p.fields, b.field), Bool(false)))) else SeedText(p, b.field)
  }

  /** The controls a load writes for the bindings `fm`, by element id. */
  function SeedControls(p: Payload, fm: seq<Binding>): map<ElementId, Control>
    decreases |fm|
  {
    if fm == [] then map[]
    else
      var b := fm[|fm| - 1];
      SeedControls(p, fm[..|fm| - 1])[b.elementId := SeedControl(p, b)]
  }

  /** The controls a load writes: one per binding of the field map. */
  function LoadedControls(p: Payload): map<ElementId, Control> {
    SeedControls(p, FieldMap)
  }

  /** A load writes the controls of the bindings and no others. */
  lemma {:induction false} SeedControlsKeys(p: Payload, fm: seq<Binding>)
    ensures forall id :: id in SeedControls(p, fm) <==> exists i :: 0 <= i < |fm| && fm[i].elementId == id
    decreases |fm|
  {
    if fm != [] {
      var n := |fm| - 1;
      SeedControlsKeys(p, fm[..n]);
      forall id | id in SeedControls(p, fm)
        ensures exists i :: 0 <= i < |fm| && fm[i].elementId == id
      {
        if id != fm[n].elementId {
          assert id in SeedControls(p, fm[..n]);
          var i :| 0 <= i < |fm[..n]| && fm[..n][i].elementId == id;
          assert fm[i].elementId == id;
        }
      }
      forall id, i | 0 <= i < |fm| && fm[i].elementId == id
        ensures id in SeedControls(p, fm)
      {
        if i < n {
          assert fm[..n][i].elementId == id;
        }
      }
    }
  }

  predicate DistinctIds(fm: seq<Binding>) {
    forall i, j :: 0 <= i < j < |fm| ==> fm[i].elementId != fm[j].elementId
  }

  /** With distinct element ids, each binding's control holds what the load
      writes for that binding. */
  lemma {:induction false} SeedControlsAt(p: Payload, fm: seq<Binding>)
    requires DistinctIds(fm)
    ensures forall i :: 0 <= i < |fm| ==>
      fm[i].elementId in SeedControls(p, fm) && SeedControls(p, fm)[fm[i].elementId] == SeedControl(p, fm[i])
    decreases |fm|
  {
    if fm != [] {
      var n := |fm| - 1;
      SeedControlsAt(p, fm[..n]);
      forall i | 0 <= i < n
        ensures fm[i].elementId in SeedControls(p, fm) && SeedControls(p, fm)[fm[i].elementId] == SeedControl(p, fm[i])
      {
        assert fm[..n][i] == fm[i];
      }
    }
  }

  /** A field map a load can seed: distinct element ids, every field
      tracked, and only `Firm` bound to a checkbox. */
  predicate Seedable(fm: seq<Binding>) {
    && DistinctIds(fm)
    && forall i :: 0 <= i < |fm| ==> fm[i].field in TrackedFields && (fm[i].checkbox <==> fm[i].field == Firm)
  }

  /** The page's field map can be seeded, and `Vendor_ID` is tracked but
      bound to no control. */
  lemma FieldMapSeedable()
    ensures Seedable(FieldMap)
    ensures Vendor_ID in TrackedFields && Unmapped(FieldMap, Vendor_ID)
  {
    FieldMapDistinctIds();
    FieldMapTracked();
    FieldMapShape();
  }

  /** No control is bound twice by the page's field map. */
  lemma FieldMapDistinctIds()
    ensures DistinctIds(FieldMap)
  {
  }

  /** Every field the page's field map binds is tracked, and only `Firm` is
      bound to a checkbox. */
  lemma FieldMapTracked()
    ensures forall i :: 0 <= i < |FieldMap| ==> FieldMap[i].field in TrackedFields && (FieldMap[i].checkbox <==> FieldMap[i].field == Firm)
  {
  }

  /** After a load every tracked original is the payload's field when that is
      present and truthy, and its default otherwise; every mapped control
      exists, is of its binding's kind, and holds its original exactly when
      the original is of the control's type. */
  lemma LoadSeeds(p: Payload, fm: seq<Binding>, controls: map<ElementId, Control>)
    requires Seedable(fm)
    ensures SeedOriginals(p).Keys == TrackedFields
    ensures forall f :: f in TrackedFields ==>
      SeedOriginals(p)[f] == (if f in p.fields && Truthy(p.fields[f]) then p.fields[f] else Default(f))
    ensures Bound(fm, controls + SeedControls(p, fm), SeedOriginals(p))
    ensures forall i :: 0 <= i < |fm| ==>
      (controls + SeedControls(p, fm))[fm[i].elementId].Checkbox? == fm[i].checkbox
    ensures forall i :: 0 <= i < |fm| ==>
      (Current(fm[i], controls + SeedControls(p, fm)) == SeedOriginals(p)[fm[i].field] <==> Conforms(SeedOriginals(p)[fm[i].field], fm[i].checkbox))
  {
    var c, o := controls + SeedControls(p, fm), SeedOriginals(p);
    SeedControlsAt(p, fm);
    forall i | 0 <= i < |fm|
      ensures fm[i].elementId in c && fm[i].field in o
      ensures c[fm[i].elementId].Checkbox? == fm[i].checkbox
      ensures Current(fm[i], c) == o[fm[i].field] <==> Conforms(o[fm[i].field], fm[i].checkbox)
    {
      SeedAgrees(p, fm[i]);
    }
  }

  /** For one tracked binding: the control a load writes holds the seeded
      original exactly when that original is of the control's type. */
  lemma SeedAgrees(p: Payload, b: Binding)
    requires b.field in TrackedFields && (b.checkbox <==> b.field == Firm)
    ensures SeedControl(p, b).Checkbox? == b.checkbox
    ensures CurrentValue(SeedControl(p, b)) == SeedOriginals(p)[b.field] <==> Conforms(SeedOriginals(p)[b.field], b.checkbox)
  {
    var v := SeedOriginals(p)[b.field];
    assert v == Or(Get(p.fields, b.field), Default(b.field));
  }

  /** A flush right after a load reports nothing exactly when every mapped
      field of the payload is absent, falsy, or of its control's type; a
      non-empty string `Firm` or `true` in a text field is reported back at
      the first flush. */
  lemma SettledAfterLoadIff(p: Payload, fm: seq<Binding>, controls: map<ElementId, Control>)
    requires Seedable(fm)
    ensures Bound(fm, controls + SeedControls(p, fm), SeedOriginals(p))
    ensures Pending(fm, controls + SeedControls(p, fm), SeedOriginals(p)) == [] <==>
      forall i :: 0 <= i < |fm| ==> Conforms(SeedOriginals(p)[fm[i].field], fm[i].checkbox)
  {
    LoadSeeds(p, fm, controls);
    PendingEmptyIff(fm, controls + SeedControls(p, fm), SeedOriginals(p));
  }

  /** A payload whose `Firm` is the string "1" checks the box, keeps the string
      as original, and so reports `Firm` as `true` at the first flush. */
  lemma FirmStringIsReportedAtFirstFlush(controls: map<ElementId, Control>)
    ensures var p := Payload(map[Firm := Str("1")], Some([]));
      Bound(FieldMap, controls + LoadedControls(p), SeedOriginals(p))
      && Pending(FieldMap, controls + LoadedControls(p), SeedOriginals(p)) == [Change(Firm, Bool(true))]
  {
    var p := Payload(map[Firm := Str("1")], Some([]));
    var c, o := controls + LoadedControls(p), SeedOriginals(p);
    FieldMapSeedable();
    TextFieldsSettled(p, FieldMap, controls);
    TextBindings();
    var head := FieldMap[..10];
    assert Bound(head, c, o);
    forall i | 0 <= i < |head|
      ensures !Drifted(head[i], c, o)
    {
      assert head[i] == FieldMap[i];
    }
    PendingEmptyIff(head, c, o);
    LoadSeeds(p, FieldMap, controls);
    PendingSplit(FieldMap, 10, c, o);
    var firm := Binding(FirmCheckbox, Firm, true);
    assert o[Firm] == Str("1");
    assert Current(firm, c) == Bool(true);
    assert [firm][..0] == [];
  }

  /** The first ten bindings are the text fields; the last is `Firm`. */
  lemma TextBindings()
    ensures forall i :: 0 <= i < 10 ==> FieldMap[..10][i] == FieldMap[i] && FieldMap[i].field != Firm && !FieldMap[i].checkbox
    ensures FieldMap[10..] == [Binding(FirmCheckbox, Firm, true)]
  {
    FieldMapShape();
  }

  /** A payload without text fields leaves every bound text input equal to
      its original after a load. */
  lemma TextFieldsSettled(p: Payload, fm: seq<Binding>, controls: map<ElementId, Control>)
    requires Seedable(fm) && forall f :: f in p.fields ==> f == Firm
    ensures Bound(fm, controls + SeedControls(p, fm), SeedOriginals(p))
    ensures forall i :: 0 <= i < |fm| && !fm[i].checkbox ==>
      !Drifted(fm[i], controls + SeedControls(p, fm), SeedOriginals(p))
  {
    var c, o := controls + SeedControls(p, fm), SeedOriginals(p);
    LoadSeeds(p, fm, controls);
    forall i | 0 <= i < |fm| && !fm[i].checkbox
      ensures !Drifted(fm[i], c, o)
    {
      assert o[fm[i].field] == Str("");
    }
  }


  /** `parts.join(sep)` */
  function Join(parts: seq<string>, sep: string): string {
    if parts == [] then ""
    else if |parts| == 1 then parts[0]
    else parts[0] + sep + Join(parts[1..], sep)
  }

  /** The separator the approval line is meant to use, a bullet. */
  const Separator: string := " \U{2022} "

  /** The separator as the script's text spells it: the UTF-8 bytes of the
      bullet read back as three Latin-1/Windows-1252 characters. */
  const SeparatorAsWritten: string := " \U{00E2}\U{20AC}\U{00A2} "

  /** The parts of the approval line: `By: <account>` and the timestamp, each
      only when present. */
  function ApprovalParts(account: Option<Value>, timestamp: Option<Value>): seq<string> {
    (if Present(account) then ["By: " + ToText(account.value)] else [])
    + (if Present(timestamp) then [ToText(timestamp.value)] else [])
  }

  /** The approval line, built as the script builds it, for a given separator. */
  function ApprovalText(account: Option<Value>, timestamp: Option<Value>, sep: string): string {
    if Present(account) || Present(timestamp) then Join(ApprovalParts(account, timestamp), sep) else ""
  }

  /** The approval line with the separator as written in the script. */
  function ApprovalLineAsWritten(account: Option<Value>, timestamp: Option<Value>): string {
    ApprovalText(account, timestamp, SeparatorAsWritten)
  }

  /** The approval line with the intended bullet separator, used by the load. */
  function ApprovalLine(account: Option<Value>, timestamp: Option<Value>): string {
    ApprovalText(account, timestamp, Separator)
  }

  /** The approval line is `By: <account>` and the timestamp, joined by the
      separator, each only when present; it is empty exactly when both are
      absent or falsy. */
  lemma ApprovalTextCases(account: Option<Value>, timestamp: Option<Value>, sep: string)
    ensures ApprovalText(account, timestamp, sep) == "" <==> !Present(account) && !Present(timestamp)
    ensures Present(account) && Present(timestamp) ==>
      ApprovalText(account, timestamp, sep) == "By: " + ToText(account.value) + sep + ToText(timestamp.value)
    ensures Present(account) && !Present(timestamp) ==>
      ApprovalText(account, timestamp, sep) == "By: " + ToText(account.value)
    ensures !Present(account) && Present(timestamp) ==>
      ApprovalText(account, timestamp, sep) == ToText(timestamp.value)
  {
    if Present(account) && Present(timestamp) {
      var parts := ApprovalParts(account, timestamp);
      assert parts == ["By: " + ToText(account.value), ToText(timestamp.value)];
      assert parts[1..] == [ToText(timestamp.value)];
      assert Join(parts[1..], sep) == ToText(timestamp.value);
    } else if Present(account) {
      assert ApprovalParts(account, timestamp) == ["By: " + ToText(account.value)];
      assert ("By: " + ToText(account.value))[0] == 'B';
    } else if Present(timestamp) {
      assert ApprovalParts(account, timestamp) == [ToText(timestamp.value)];
    }
  }

  /** The approval line with both parts present puts a bullet, and nothing
      else, between `By: <account>` and the timestamp. */
  lemma ApprovalLineSpec(account: Option<Value>, timestamp: Option<Value>)
    ensures ApprovalLine(account, timestamp) == "" <==> !Present(account) && !Present(timestamp)
    ensures Present(account) && Present(timestamp) ==>
      ApprovalLine(account, timestamp) == "By: " + ToText(account.value) + " \U{2022} " + ToText(timestamp.value)
    ensures Present(account) != Present(timestamp) ==>
      ApprovalLine(account, timestamp) == (if Present(account) then "By: " + ToText(account.value) else ToText(timestamp.value))
  {
    ApprovalTextCases(account, timestamp, Separator);
  }

  /** As written, two present parts are joined by three mojibake characters
      and no bullet: for account "ann" and timestamp "t" the line is
      "By: ann â€¢ t" rather than "By: ann • t". */
  lemma SeparatorIsMojibake()
    ensures ApprovalLineAsWritten(Some(Str("ann")), Some(Str("t"))) == "By: ann \U{00E2}\U{20AC}\U{00A2} t"
    ensures ApprovalLineAsWritten(Some(Str("ann")), Some(Str("t"))) != ApprovalLine(Some(Str("ann")), Some(Str("t")))
    ensures '\U{2022}' !in ApprovalLineAsWritten(Some(Str("ann")), Some(Str("t")))
  {
    ApprovalTextCases(Some(Str("ann")), Some(Str("t")), SeparatorAsWritten);
    ApprovalTextCases(Some(Str("ann")), Some(Str("t")), Separator);
    var w := "By: ann \U{00E2}\U{20AC}\U{00A2} t";
    var r := "By: ann \U{2022} t";
    assert w[8] != r[8];
  }
}
