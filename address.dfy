/**
 * The shipping-address normaliser `getShippingAddressOrNone` (app.js:94-101):
 * the five address fields, with the region defaulted to "CA", keep only the
 * truthy ones and are joined with a single space.
 */
module AddressNormalizer {
  import opened Options

  /** Region used when `administrativeDistrictLevel1` is absent or empty. */
  const DefaultRegion: string := "CA"

  /** The separator handed to `join`. */
  const Separator: char := ' '

  /** The address object of a payment; every field may be absent. */
  datatype ShippingAddress = ShippingAddress(
    addressLine1: Option<string>,
    addressLine2: Option<string>,
    locality: Option<string>,
    administrativeDistrictLevel1: Option<string>,
    postalCode: Option<string>)

  /** JavaScript truthiness of an optional string: present and not "". */
  predicate Truthy(v: Option<string>)
  {
    v.Some? && v.value != ""
  }

  /** `administrativeDistrictLevel1 || "CA"` */
  function Region(a: ShippingAddress): (r: string)
    ensures r != ""
    ensures Truthy(a.administrativeDistrictLevel1) ==> r == a.administrativeDistrictLevel1.value
  {
    if Truthy(a.administrativeDistrictLevel1) then a.administrativeDistrictLevel1.value else DefaultRegion
  }

  /** `filter(Boolean)` on an array of optional strings. */
  function KeepTruthy(vs: seq<Option<string>>): (r: seq<string>)
    ensures |r| <= |vs|
    ensures forall i :: 0 <= i < |r| ==> r[i] != ""
  {
    if vs == [] then []
    else (if Truthy(vs[0]) then [vs[0].value] else []) + KeepTruthy(vs[1..])
  }

  /** `filter(Boolean)` keeps, in order, exactly the truthy values: applied to
      a concatenation it is the concatenation of the two filtered parts. */
  lemma {:induction false} KeepTruthyAppend(a: seq<Option<string>>, b: seq<Option<string>>)
    ensures KeepTruthy(a + b) == KeepTruthy(a) + KeepTruthy(b)
  {
    if a == [] {
      assert a + b == b;
    } else {
      assert (a + b)[1..] == a[1..] + b;
      KeepTruthyAppend(a[1..], b);
    }
  }

  /** A single value is kept exactly when it is truthy. */
  lemma KeepTruthySingle(v: Option<string>)
    ensures KeepTruthy([v]) == if Truthy(v) then [v.value] else []
  {
    assert [v][1..] == [];
  }

  /** `Array.prototype.join(sep)`: the empty array joins to "". */
  function Join(parts: seq<string>, sep: string): (r: string)
    ensures |parts| >= 1 ==> |r| == TotalLength(parts) + (|parts| - 1) * |sep|
    ensures |parts| >= 1 ==> r[..|parts[0]|] == parts[0]
  {
    if |parts| == 0 then ""
    else if |parts| == 1 then parts[0]
    else parts[0] + sep + Join(parts[1..], sep)
  }

  /** The summed length of some strings. */
  function TotalLength(parts: seq<string>): nat
  {
    if parts == [] then 0 else |parts[0]| + TotalLength(parts[1..])
  }

  /** `String.prototype.split(c)` for a one-character separator. */
  function Split(s: string, c: char): (r: seq<string>)
    ensures |r| >= 1
  {
    if |s| == 0 then [""]
    else
      var rest := Split(s[1..], c);
      if s[0] == c then [""] + rest else [[s[0]] + rest[0]] + rest[1..]
  }

  /** getShippingAddressOrNone, app.js:94-101. The region default always
      survives the filter, so the result is never empty. */
  function Normalize(a: ShippingAddress): (r: string)
    ensures r != ""
  {
    var state := Some(Region(a));
    FilteredFields(a.addressLine1, a.addressLine2, a.locality, state, a.postalCode);
    Join(KeepTruthy([a.addressLine1, a.addressLine2, a.locality, state, a.postalCode]), [Separator])
  }

  /** The fields of an address that survive the filter, in fixed order. */
  function Present(v: Option<string>): seq<string>
  {
    if Truthy(v) then [v.value] else []
  }

  function Fields(a: ShippingAddress): seq<string>
  {
    Present(a.addressLine1) + Present(a.addressLine2) + Present(a.locality)
    + [Region(a)] + Present(a.postalCode)
  }

  /** No field value holds the separator itself. */
  predicate SeparatorFree(a: ShippingAddress)
  {
    (a.addressLine1.Some? ==> Separator !in a.addressLine1.value) &&
    (a.addressLine2.Some? ==> Separator !in a.addressLine2.value) &&
    (a.locality.Some? ==> Separator !in a.locality.value) &&
    (a.administrativeDistrictLevel1.Some? ==> Separator !in a.administrativeDistrictLevel1.value) &&
    (a.postalCode.Some? ==> Separator !in a.postalCode.value)
  }

  /** The normalised address is the present fields, in the order line1, line2,
      city, region, zip, each non-empty, joined by the separator. */
  lemma NormalizeJoinsFields(a: ShippingAddress)
    ensures Normalize(a) == Join(Fields(a), [Separator])
    ensures |Fields(a)| >= 1
    ensures forall i :: 0 <= i < |Fields(a)| ==> Fields(a)[i] != ""
  {
    var state := Some(Region(a));
    FilteredFields(a.addressLine1, a.addressLine2, a.locality, state, a.postalCode);
    assert KeepTruthy([a.addressLine1, a.addressLine2, a.locality, state, a.postalCode]) == Fields(a);
  }

  /** `filter(Boolean)` on the five-element array of the normaliser. */
  lemma FilteredFields(l1: Option<string>, l2: Option<string>, city: Option<string>, state: Option<string>, zip: Option<string>)
    ensures KeepTruthy([l1, l2, city, state, zip]) == Present(l1) + Present(l2) + Present(city) + Present(state) + Present(zip)
  {
    assert [l1, l2, city, state, zip] == [l1] + [l2] + [city] + [state] + [zip];
    KeepTruthyAppend([l1] + [l2] + [city] + [state], [zip]);
    KeepTruthyAppend([l1] + [l2] + [city], [state]);
    KeepTruthyAppend([l1] + [l2], [city]);
    KeepTruthyAppend([l1], [l2]);
    KeepTruthySingle(l1);
    KeepTruthySingle(l2);
    KeepTruthySingle(city);
    KeepTruthySingle(state);
    KeepTruthySingle(zip);
  }

  lemma {:induction false} SplitWithout(p: string, c: char)
    requires c !in p
    ensures Split(p, c) == [p]
  {
    if |p| > 0 {
      SplitWithout(p[1..], c);
      assert [p[0]] + p[1..] == p;
    }
  }

  lemma {:induction false} SplitAfterPart(p: string, c: char, s: string)
    requires c !in p
    ensures Split(p + [c] + s, c) == [p] + Split(s, c)
  {
    if |p| == 0 {
      assert (p + [c] + s)[1..] == s;
    } else {
      assert (p + [c] + s)[1..] == p[1..] + [c] + s;
      SplitAfterPart(p[1..], c, s);
      assert [p[0]] + p[1..] == p;
    }
  }

  /** Splitting a join on its separator gives back the parts when no part
      contains the separator. */
  lemma {:induction false} SplitJoin(parts: seq<string>, c: char)
    requires |parts| >= 1
    requires forall i :: 0 <= i < |parts| ==> c !in parts[i]
    ensures Split(Join(parts, [c]), c) == parts
  {
    if |parts| == 1 {
      SplitWithout(parts[0], c);
    } else {
      SplitJoin(parts[1..], c);
      SplitAfterPart(parts[0], c, Join(parts[1..], [c]));
    }
  }

  /** Splitting the normalised address on a space gives back exactly the
      present fields in fixed order: one separator between neighbours and no
      empty piece where a field was absent or empty. */
  lemma NormalizeSplitsIntoFields(a: ShippingAddress)
    requires SeparatorFree(a)
    ensures Split(Normalize(a), Separator) == Fields(a)
  {
    FieldsSeparatorFree(a);
    SplitJoin(Fields(a), Separator);
    NormalizeJoinsFields(a);
  }

  lemma FieldsSeparatorFree(a: ShippingAddress)
    requires SeparatorFree(a)
    ensures forall i :: 0 <= i < |Fields(a)| ==> Separator !in Fields(a)[i]
  {
    var f := Fields(a);
    forall i | 0 <= i < |f| ensures Separator !in f[i] {
      assert f[i] in f;
    }
  }


  /** An absent or empty region shows up as "CA" right after the city. */
  lemma RegionFallsBack(a: ShippingAddress)
    requires !Truthy(a.administrativeDistrictLevel1)
    ensures var k := |Present(a.addressLine1) + Present(a.addressLine2) + Present(a.locality)|;
      k < |Fields(a)| && Fields(a)[k] == DefaultRegion
  {
  }
}
