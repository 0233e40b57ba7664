/** The vendor list of the payload, the dropdown entries built from it, the
    search over their keys and the lookup by `_ID`. */
module VendorIndex {
  import opened Values
  import opened AsciiText
  import opened Page

  /** A vendor record of `vendorOptions`. `VendorName` is required (the
      script calls `trim` on it); the detail fields may be absent. A missing
      `_ID` behaves like `""`: no truthy id ever matches it. */
  datatype Vendor = Vendor(
    id: string,
    name: string,
    address: Option<string>,
    phone: Option<string>,
    email: Option<string>,
    fax: Option<string>,
    preferredPayment: Option<string>,
    accountingName: Option<string>,
    accountingPhone: Option<string>)

  /** `vendor.X || ''` for a string field. */
  function OrEmpty(o: Option<string>): string {
    if o.Some? then o.value else ""
  }

  /** One `.vendor-option` entry of the dropdown: `data-id`, `data-name` (the
      search key), its text and whether its `display` is `block`. */
  datatype VendorOption = VendorOption(id: string, key: string, text: string, visible: bool)

  /** The search key is computed once, when the dropdown is built. */
  function SearchKey(name: string): string {
    Lower(Trim(name))
  }

  /** The dropdown entry for a vendor, before any filtering. */
  function OptionFor(v: Vendor): (o: VendorOption)
    ensures o.id == v.id && o.text == Trim(v.name) && o.visible
    ensures o.key == Lower(o.text)
    ensures |o.key| == |o.text| && forall i :: 0 <= i < |o.text| ==> !IsUpper(o.key[i])
  {
    LowerIdempotent(Trim(v.name));
    VendorOption(v.id, SearchKey(v.name), Trim(v.name), true)
  }

  /** `vendorOptions.find(v => v._ID === id)`, as the index of the match. */
  function Find(vendors: seq<Vendor>, id: string): (r: Option<nat>)
    ensures r.Some? ==> r.value < |vendors| && vendors[r.value].id == id
  {
    if vendors == [] then None
    else if vendors[0].id == id then Some(0)
    else match Find(vendors[1..], id)
      case None => None
      case Some(k) => Some(k + 1)
  }

  /** `find` answers the first vendor with the id, and nothing exactly when
      no vendor has it. */
  lemma {:induction false} FindFirst(vendors: seq<Vendor>, id: string)
    ensures Find(vendors, id).Some? ==> forall j :: 0 <= j < Find(vendors, id).value ==> vendors[j].id != id
    ensures Find(vendors, id).None? <==> forall j :: 0 <= j < |vendors| ==> vendors[j].id != id
  {
    if vendors != [] && vendors[0].id != id {
      FindFirst(vendors[1..], id);
      assert forall j :: 1 <= j < |vendors| ==> vendors[j] == vendors[1..][j - 1];
    }
  }

  /** The id guard and lookup of `displayVendorDetails`: a falsy id resolves
      to nothing before the list is consulted. */
  function Resolve(vendors: seq<Vendor>, id: string): Option<nat> {
    if id == "" then None else Find(vendors, id)
  }

  /** `selectVendorById` compares with `===`, so only a string id can match. */
  function FindValue(vendors: seq<Vendor>, id: Value): Option<nat> {
    if id.Str? then Find(vendors, id.s) else None
  }

  /** Whether `filterVendors(term)` shows the entry with this key. */
  predicate Shows(key: string, term: string) {
    Contains(key, Lower(term))
  }

  /** An entry built from a vendor is shown exactly when the term occurs in
      the vendor's trimmed name, ignoring ASCII case; the empty term shows
      every entry. */
  lemma ShowsIff(v: Vendor, term: string)
    ensures Shows(OptionFor(v).key, term) <==> exists k :: OccursAtIgnoringCase(Trim(v.name), term, k)
    ensures term == "" ==> Shows(OptionFor(v).key, term)
  {
    LowerContainsIff(Trim(v.name), term);
    if term == "" {
      assert OccursAtIgnoringCase(Trim(v.name), term, 0);
    }
  }

  /** The element ids of the vendor detail panel. */
  const DetailIds: set<ElementId> := {
    VendorAddressInput, VendorPhoneInput, VendorEmailInput, VendorFaxInput,
    VendorPaymentInput, VendorAccountingInput, VendorAccountingPhoneInput
  }

  /** What `displayVendorDetails` writes into the seven detail inputs. */
  function DetailControls(v: Vendor): (m: map<ElementId, Control>)
    ensures m.Keys == DetailIds
    ensures forall id :: id in m ==> m[id].TextInput?
  {
    map[
      VendorAddressInput := TextInput(OrEmpty(v.address)),
      VendorPhoneInput := TextInput(OrEmpty(v.phone)),
      VendorEmailInput := TextInput(OrEmpty(v.email)),
      VendorFaxInput := TextInput(OrEmpty(v.fax)),
      VendorPaymentInput := TextInput(OrEmpty(v.preferredPayment)),
      VendorAccountingInput := TextInput(OrEmpty(v.accountingName)),
      VendorAccountingPhoneInput := TextInput(OrEmpty(v.accountingPhone))]
  }

  /** Showing a second vendor overwrites every detail input written for the
      first: nothing of the first vendor remains. */
  lemma DetailsReplace(controls: map<ElementId, Control>, first: Vendor, second: Vendor)
    ensures (controls + DetailControls(first)) + DetailControls(second) == controls + DetailControls(second)
  {
    var a := (controls + DetailControls(first)) + DetailControls(second);
    var b := controls + DetailControls(second);
    assert a.Keys == b.Keys;
    forall id | id in a.Keys
      ensures a[id] == b[id]
    {
    }
  }
}
