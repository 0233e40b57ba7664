/** Change detection for the flush: the field map, the changes a flush must
    report, and the table of original values after they are reported. */
module ChangeTracker {
  import opened Values
  import opened Page
  import opened HostBridge

  /** One entry of the field map: the control's element id, the logical
      field name used in notifications, and whether the control is a checkbox. */
  datatype Binding = Binding(elementId: ElementId, field: Field, checkbox: bool)

  /** The field map of the flush and of the edit listeners, in insertion order. */
  const FieldMap: seq<Binding> := [
    Binding(PoNumberInput, Number, false),
    Binding(OrderNumberInput, OrderNumber, false),
    Binding(DateInput, Date, false),
    Binding(DateApprovedInput, DateApproved, false),
    Binding(DeliveryRequiredInput, DeliveryRequired, false),
    Binding(PlacedByInput, PlacedBy, false),
    Binding(PlacedWithInput, PlacedWith, false),
    Binding(ShipViaInput, ShipVia, false),
    Binding(TermsInput, Terms, false),
    Binding(FobInput, FOB, false),
    Binding(FirmCheckbox, Firm, true)
  ]

  /** No binding of `fm` is for field `f`. */
  predicate Unmapped(fm: seq<Binding>, f: Field) {
    forall i :: 0 <= i < |fm| ==> fm[i].field != f
  }

  predicate DistinctFields(fm: seq<Binding>) {
    forall i, j :: 0 <= i < j < |fm| ==> fm[i].field != fm[j].field
  }

  /** Every control of the map exists and every mapped field has an original. */
  predicate Bound(fm: seq<Binding>, controls: map<ElementId, Control>, originals: map<Field, Value>) {
    forall i :: 0 <= i < |fm| ==> fm[i].elementId in controls && fm[i].field in originals
  }

  /** The value the control of binding `b` currently holds. */
  function Current(b: Binding, controls: map<ElementId, Control>): Value
    requires b.elementId in controls
  {
    CurrentValue(controls[b.elementId])
  }

  /** `currentValue !== originalValue` for binding `b`. */
  predicate Drifted(b: Binding, controls: map<ElementId, Control>, originals: map<Field, Value>)
    requires b.elementId in controls && b.field in originals
  {
    Current(b, controls) != originals[b.field]
  }

  /** The changes a flush reports for the mapped fields, in field-map order. */
  function Pending(fm: seq<Binding>, controls: map<ElementId, Control>, originals: map<Field, Value>): seq<Change>
    requires Bound(fm, controls, originals)
    decreases |fm|
  {
    if fm == [] then []
    else
      var b := fm[|fm| - 1];
      Pending(fm[..|fm| - 1], controls, originals)
      + (if Drifted(b, controls, originals) then [Change(b.field, Current(b, controls))] else [])
  }

  /** The changes a flush reports for the vendor email: one when an email is
      being tracked and the email input no longer holds it. */
  function EmailChange(tracked: Option<string>, text: string): seq<Change> {
    if tracked.Some? && text != tracked.value then [Change(Email, Str(text))] else []
  }

  /** The table of originals after reporting `cs` in order: each report
      records its value under its field. */
  function Commit(originals: map<Field, Value>, cs: seq<Change>): map<Field, Value>
    decreases |cs|
  {
    if cs == [] then originals
    else
      var c := cs[|cs| - 1];
      Commit(originals, cs[..|cs| - 1])[c.field := c.value]
  }

  /** A flush reports at most one change per mapped field. */
  lemma {:induction false} PendingBound(fm: seq<Binding>, controls: map<ElementId, Control>, originals: map<Field, Value>)
    requires Bound(fm, controls, originals)
    ensures |Pending(fm, controls, originals)| <= |fm|
    decreases |fm|
  {
    if fm != [] {
      PendingBound(fm[..|fm| - 1], controls, originals);
    }
  }

  /** A field is reported exactly when its control is strictly unequal to its
      original, and the report carries the control's value. */
  lemma {:induction false} PendingIff(fm: seq<Binding>, controls: map<ElementId, Control>, originals: map<Field, Value>)
    requires Bound(fm, controls, originals)
    ensures forall i :: 0 <= i < |fm| && Drifted(fm[i], controls, originals) ==>
      Change(fm[i].field, Current(fm[i], controls)) in Pending(fm, controls, originals)
    ensures forall c :: c in Pending(fm, controls, originals) ==>
      exists i :: 0 <= i < |fm| && Drifted(fm[i], controls, originals) && c == Change(fm[i].field, Current(fm[i], controls))
    decreases |fm|
  {
    if fm != [] {
      var init := fm[..|fm| - 1];
      PendingIff(init, controls, originals);
      forall i | 0 <= i < |init| ensures init[i] == fm[i] { }
    }
  }

  /** A flush reports each mapped field at most once, however often its
      control was edited before: no two of its reports share a field. */
  lemma {:induction false} PendingOncePerField(fm: seq<Binding>, controls: map<ElementId, Control>, originals: map<Field, Value>)
    requires Bound(fm, controls, originals) && DistinctFields(fm)
    ensures forall j, k :: 0 <= j < k < |Pending(fm, controls, originals)| ==>
      Pending(fm, controls, originals)[j].field != Pending(fm, controls, originals)[k].field
    decreases |fm|
  {
    if fm != [] {
      var n := |fm| - 1;
      PrefixFacts(fm, controls, originals);
      var init := Pending(fm[..n], controls, originals);
      PendingOncePerField(fm[..n], controls, originals);
      PendingIff(fm[..n], controls, originals);
      forall j | 0 <= j < |init|
        ensures init[j].field != fm[n].field
      {
        assert init[j] in init;
        var i :| 0 <= i < n && init[j] == Change(fm[..n][i].field, Current(fm[..n][i], controls));
        assert fm[..n][i] == fm[i];
      }
    }
  }

  /** The positions of the bindings whose control has drifted from its original. */
  function DriftedAt(fm: seq<Binding>, controls: map<ElementId, Control>, originals: map<Field, Value>): set<int>
    requires Bound(fm, controls, originals)
  {
    set i | 0 <= i < |fm| && Drifted(fm[i], controls, originals)
  }

  /** The field loop of a flush reports exactly as many changes as there are
      mapped controls strictly unequal to their originals. */
  lemma {:induction false} PendingCount(fm: seq<Binding>, controls: map<ElementId, Control>, originals: map<Field, Value>)
    requires Bound(fm, controls, originals)
    ensures |Pending(fm, controls, originals)| == |DriftedAt(fm, controls, originals)|
    decreases |fm|
  {
    if fm == [] {
      assert DriftedAt(fm, controls, originals) == {};
    } else {
      var n := |fm| - 1;
      assert Bound(fm[..n], controls, originals);
      PendingCount(fm[..n], controls, originals);
      var before, all := DriftedAt(fm[..n], controls, originals), DriftedAt(fm, controls, originals);
      forall i | 0 <= i < n
        ensures fm[..n][i] == fm[i]
      {
      }
      assert n !in before;
      if Drifted(fm[n], controls, originals) {
        assert all == before + {n};
      } else {
        assert all == before;
      }
    }
  }

  /** Reports come in field-map order: the changes for an earlier part of the
      map all precede those for a later part. */
  lemma {:induction false} PendingSplit(fm: seq<Binding>, i: nat, controls: map<ElementId, Control>, originals: map<Field, Value>)
    requires Bound(fm, controls, originals) && i <= |fm|
    ensures Pending(fm, controls, originals) == Pending(fm[..i], controls, originals) + Pending(fm[i..], controls, originals)
    decreases |fm|
  {
    if i < |fm| {
      var n := |fm| - 1;
      assert fm[..n][..i] == fm[..i];
      assert fm[..n][i..] == fm[i..][..|fm[i..]| - 1];
      PendingSplit(fm[..n], i, controls, originals);
    } else {
      assert fm[..i] == fm;
      assert fm[i..] == [];
    }
  }

  /** Recording a value under a field outside the map does not change what a
      flush reports for the map. */
  lemma {:induction false} PendingIgnoresOtherFields(fm: seq<Binding>, controls: map<ElementId, Control>, originals: map<Field, Value>, f: Field, v: Value)
    requires Bound(fm, controls, originals) && Unmapped(fm, f)
    ensures Bound(fm, controls, originals[f := v])
    ensures Pending(fm, controls, originals[f := v]) == Pending(fm, controls, originals)
    decreases |fm|
  {
    if fm != [] {
      PendingIgnoresOtherFields(fm[..|fm| - 1], controls, originals, f, v);
    }
  }

  /** After the mapped changes are recorded, the originals have the same
      fields, every mapped original equals its control's value and every
      other original is as it was. */
  lemma CommitPending(fm: seq<Binding>, controls: map<ElementId, Control>, originals: map<Field, Value>)
    requires Bound(fm, controls, originals) && DistinctFields(fm)
    ensures Commit(originals, Pending(fm, controls, originals)).Keys == originals.Keys
    ensures forall i :: 0 <= i < |fm| ==> Commit(originals, Pending(fm, controls, originals))[fm[i].field] == Current(fm[i], controls)
    ensures forall f :: f in originals && Unmapped(fm, f) ==> Commit(originals, Pending(fm, controls, originals))[f] == originals[f]
  {
    CommitPendingKeys(fm, controls, originals);
    forall i | 0 <= i < |fm|
      ensures Commit(originals, Pending(fm, controls, originals))[fm[i].field] == Current(fm[i], controls)
    {
      CommitPendingAt(fm, controls, originals, i);
    }
    forall f | f in originals && Unmapped(fm, f)
      ensures Commit(originals, Pending(fm, controls, originals))[f] == originals[f]
    {
      CommitPendingElsewhere(fm, controls, originals, f);
    }
  }

  /** Recording the mapped changes adds no field to the originals. */
  lemma {:induction false} CommitPendingKeys(fm: seq<Binding>, controls: map<ElementId, Control>, originals: map<Field, Value>)
    requires Bound(fm, controls, originals)
    ensures Commit(originals, Pending(fm, controls, originals)).Keys == originals.Keys
    decreases |fm|
  {
    if fm != [] {
      CommitLast(fm, controls, originals);
      CommitPendingKeys(fm[..|fm| - 1], controls, originals);
    }
  }

  /** Recording the mapped changes leaves the original of an unmapped field alone. */
  lemma {:induction false} CommitPendingElsewhere(fm: seq<Binding>, controls: map<ElementId, Control>, originals: map<Field, Value>, f: Field)
    requires Bound(fm, controls, originals) && f in originals && Unmapped(fm, f)
    ensures f in Commit(originals, Pending(fm, controls, originals))
      && Commit(originals, Pending(fm, controls, originals))[f] == originals[f]
    decreases |fm|
  {
    if fm != [] {
      var n := |fm| - 1;
      CommitLast(fm, controls, originals);
      assert Unmapped(fm[..n], f) by {
        assert forall i :: 0 <= i < n ==> fm[..n][i] == fm[i];
      }
      CommitPendingElsewhere(fm[..n], controls, originals, f);
    }
  }

  /** Recording the mapped changes leaves binding `i`'s original equal to
      its control's value: either binding `i` was reported, or its control
      already held the original, which no other binding touches. */
  lemma {:induction false} CommitPendingAt(fm: seq<Binding>, controls: map<ElementId, Control>, originals: map<Field, Value>, i: nat)
    requires Bound(fm, controls, originals) && DistinctFields(fm) && i < |fm|
    ensures fm[i].field in Commit(originals, Pending(fm, controls, originals))
      && Commit(originals, Pending(fm, controls, originals))[fm[i].field] == Current(fm[i], controls)
    decreases |fm|
  {
    var n := |fm| - 1;
    PrefixFacts(fm, controls, originals);
    CommitLast(fm, controls, originals);
    if i == n {
      if !Drifted(fm[n], controls, originals) {
        CommitPendingElsewhere(fm[..n], controls, originals, fm[n].field);
      }
    } else {
      assert fm[..n][i] == fm[i];
      CommitPendingAt(fm[..n], controls, originals, i);
    }
  }

  /** What the map without its last binding inherits: boundness, distinct
      fields, and no binding for the last binding's field or for any field
      the whole map leaves unbound. */
  lemma PrefixFacts(fm: seq<Binding>, controls: map<ElementId, Control>, originals: map<Field, Value>)
    requires Bound(fm, controls, originals) && DistinctFields(fm) && fm != []
    ensures Bound(fm[..|fm| - 1], controls, originals) && DistinctFields(fm[..|fm| - 1])
    ensures Unmapped(fm[..|fm| - 1], fm[|fm| - 1].field)
    ensures forall f :: Unmapped(fm, f) ==> Unmapped(fm[..|fm| - 1], f)
  {
    var n := |fm| - 1;
    assert forall i :: 0 <= i < n ==> fm[..n][i] == fm[i];
  }

  /** Recording the flush of a map: the last binding's report, if any, goes
      on top of what the reports for the bindings before it recorded. */
  lemma CommitLast(fm: seq<Binding>, controls: map<ElementId, Control>, originals: map<Field, Value>)
    requires Bound(fm, controls, originals) && fm != []
    ensures var n := |fm| - 1;
      Bound(fm[..n], controls, originals) &&
      Commit(originals, Pending(fm, controls, originals)) ==
        if Drifted(fm[n], controls, originals)
        then Commit(originals, Pending(fm[..n], controls, originals))[fm[n].field := Current(fm[n], controls)]
        else Commit(originals, Pending(fm[..n], controls, originals))
  {
    var n := |fm| - 1;
    var p := Pending(fm[..n], controls, originals);
    if Drifted(fm[n], controls, originals) {
      CommitAppend(originals, p, Change(fm[n].field, Current(fm[n], controls)));
    } else {
      assert Pending(fm, controls, originals) == p + [] == p;
    }
  }

  /** Once every mapped original equals its control, a flush has nothing to report. */
  lemma {:induction false} PendingEmptyWhenSynced(fm: seq<Binding>, controls: map<ElementId, Control>, originals: map<Field, Value>)
    requires Bound(fm, controls, originals)
    requires forall i :: 0 <= i < |fm| ==> originals[fm[i].field] == Current(fm[i], controls)
    ensures Pending(fm, controls, originals) == []
    decreases |fm|
  {
    if fm != [] {
      PendingEmptyWhenSynced(fm[..|fm| - 1], controls, originals);
    }
  }

  /** A flush of the map reports nothing exactly when no mapped control has
      drifted from its original. */
  lemma PendingEmptyIff(fm: seq<Binding>, controls: map<ElementId, Control>, originals: map<Field, Value>)
    requires Bound(fm, controls, originals)
    ensures Pending(fm, controls, originals) == [] <==> forall i :: 0 <= i < |fm| ==> !Drifted(fm[i], controls, originals)
  {
    PendingIff(fm, controls, originals);
    if forall i :: 0 <= i < |fm| ==> !Drifted(fm[i], controls, originals) {
      PendingEmptyWhenSynced(fm, controls, originals);
    } else {
      var i :| 0 <= i < |fm| && Drifted(fm[i], controls, originals);
      assert Change(fm[i].field, Current(fm[i], controls)) in Pending(fm, controls, originals);
    }
  }

  /** Reporting the pending changes settles them: reported again, nothing is pending. */
  lemma SettledAfterCommit(fm: seq<Binding>, controls: map<ElementId, Control>, originals: map<Field, Value>)
    requires Bound(fm, controls, originals) && DistinctFields(fm)
    ensures Bound(fm, controls, Commit(originals, Pending(fm, controls, originals)))
    ensures Pending(fm, controls, Commit(originals, Pending(fm, controls, originals))) == []
  {
    CommitPending(fm, controls, originals);
    PendingEmptyWhenSynced(fm, controls, Commit(originals, Pending(fm, controls, originals)));
  }

  /** One step of the flush loop: the report for binding `i` follows those
      for the bindings before it, and is decided against the original that
      those earlier reports left untouched. */
  lemma PendingStep(fm: seq<Binding>, i: nat, controls: map<ElementId, Control>, originals: map<Field, Value>)
    requires Bound(fm, controls, originals) && DistinctFields(fm) && i < |fm|
    ensures Bound(fm[..i], controls, originals)
    ensures Pending(fm[..i + 1], controls, originals) == Pending(fm[..i], controls, originals)
      + (if Drifted(fm[i], controls, originals) then [Change(fm[i].field, Current(fm[i], controls))] else [])
    ensures fm[i].field in Commit(originals, Pending(fm[..i], controls, originals))
    ensures Commit(originals, Pending(fm[..i], controls, originals))[fm[i].field] == originals[fm[i].field]
  {
    var init := fm[..i];
    assert fm[..i + 1][..i] == init;
    assert fm[..i + 1][i] == fm[i];
    assert DistinctFields(init);
    assert Unmapped(init, fm[i].field);
    CommitPending(init, controls, originals);
  }

  /** Reporting one more change records its value on top of the earlier ones. */
  lemma CommitAppend(originals: map<Field, Value>, cs: seq<Change>, c: Change)
    ensures Commit(originals, cs + [c]) == Commit(originals, cs)[c.field := c.value]
  {
    assert (cs + [c])[..|cs|] == cs;
  }

  /** One iteration of the flush: given the reports for the bindings before
      `i` and the originals they left, binding `i` is reported exactly when
      its control is strictly unequal to the original it finds, and
      recording that report gives the originals for the longer prefix. */
  lemma FlushStep(fm: seq<Binding>, i: nat, controls: map<ElementId, Control>, originals: map<Field, Value>, done: seq<Change>, seen: map<Field, Value>)
    requires Bound(fm, controls, originals) && DistinctFields(fm) && i < |fm|
    requires done == Pending(fm[..i], controls, originals) && seen == Commit(originals, done)
    ensures fm[i].elementId in controls && fm[i].field in seen
    ensures var c := Change(fm[i].field, Current(fm[i], controls));
      && Pending(fm[..i + 1], controls, originals) == done + (if c.value != seen[c.field] then [c] else [])
      && seen.Keys == originals.Keys
      && Commit(originals, Pending(fm[..i + 1], controls, originals)) == (if c.value != seen[c.field] then seen[c.field := c.value] else seen)
  {
    PendingStep(fm, i, controls, originals);
    CommitPending(fm[..i], controls, originals);
    var c := Change(fm[i].field, Current(fm[i], controls));
    CommitAppend(originals, done, c);
    assert done + [] == done;
  }

  /** A whole flush, the mapped fields and then the vendor email, reports
      at most one change per mapped field plus one, and leaves nothing
      pending for the mapped fields. */
  lemma FlushSettles(fm: seq<Binding>, controls: map<ElementId, Control>, originals: map<Field, Value>, tracked: Option<string>, text: string)
    requires Bound(fm, controls, originals) && DistinctFields(fm) && Unmapped(fm, Email)
    ensures var plan := Pending(fm, controls, originals) + EmailChange(tracked, text);
      && |plan| <= |fm| + 1
      && Bound(fm, controls, Commit(originals, plan))
      && Pending(fm, controls, Commit(originals, plan)) == []
  {
    var fields := Pending(fm, controls, originals);
    PendingBound(fm, controls, originals);
    SettledAfterCommit(fm, controls, originals);
    if EmailChange(tracked, text) == [] {
      assert fields + [] == fields;
    } else {
      var c := Change(Email, Str(text));
      CommitAppend(originals, fields, c);
      PendingIgnoresOtherFields(fm, controls, Commit(originals, fields), Email, Str(text));
    }
  }

  /** Recording changes never drops a field from the originals. */
  lemma {:induction false} CommitGrows(originals: map<Field, Value>, cs: seq<Change>)
    ensures originals.Keys <= Commit(originals, cs).Keys
    decreases |cs|
  {
    if cs != [] {
      CommitGrows(originals, cs[..|cs| - 1]);
    }
  }

  /** What a flush reports for the map depends only on the map's own controls. */
  lemma {:induction false} PendingIgnoresOtherControls(fm: seq<Binding>, controls: map<ElementId, Control>, controls': map<ElementId, Control>, originals: map<Field, Value>)
    requires Bound(fm, controls, originals)
    requires forall i :: 0 <= i < |fm| ==> fm[i].elementId in controls' && controls'[fm[i].elementId] == controls[fm[i].elementId]
    ensures Bound(fm, controls', originals)
    ensures Pending(fm, controls', originals) == Pending(fm, controls, originals)
    decreases |fm|
  {
    if fm != [] {
      var n := |fm| - 1;
      assert forall i :: 0 <= i < n ==> fm[..n][i] == fm[i];
      PendingIgnoresOtherControls(fm[..n], controls, controls', originals);
    }
  }

  /** Growing the controls or the originals keeps every binding bound. */
  lemma BoundGrows(fm: seq<Binding>, controls: map<ElementId, Control>, originals: map<Field, Value>, controls': map<ElementId, Control>, originals': map<Field, Value>)
    requires Bound(fm, controls, originals)
    requires controls.Keys <= controls'.Keys && originals.Keys <= originals'.Keys
    ensures Bound(fm, controls', originals')
  {
  }

  /** The page's field map has eleven bindings, `Firm`'s checkbox last, and
      binds neither `Email` nor `Vendor_ID`. */
  lemma FieldMapShape()
    ensures |FieldMap| == 11
    ensures Unmapped(FieldMap, Email) && Unmapped(FieldMap, Vendor_ID)
    ensures FieldMap[10] == Binding(FirmCheckbox, Firm, true)
  {
  }

  /** No field is bound twice by the page's field map. */
  lemma FieldMapDistinctFields()
    ensures DistinctFields(FieldMap)
  {
  }
}
