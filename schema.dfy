/**
 * The client-side check that a decoded response has the fixed receipt shape
 * (`ReceiptExtractorClient.validate_schema`). The check runs in four
 * sections, the first three of them loops that stop at the first failure:
 *   1. the seven top-level keys, in the order of REQUIRED_FIELDS;
 *   2. `items` is a list, then each item in index order: a dict, holding
 *      `name`, `price`, `count` (in that order), then `name` a string,
 *      `price` a number, `count` an integer;
 *   3. the four money fields, in the order of NUMERIC_FIELDS, are numbers;
 *   4. `merchant_name`, then `datetime`, are strings.
 * The Python raises `ValueError` naming the first failure; here that is an
 * `Invalid` verdict carrying the error kind.
 */
module Schema {
  import opened Wrappers
  import opened JsonValues

  const REQUIRED_FIELDS: seq<string> :=
    ["merchant_name", "datetime", "items", "sub_total", "vat", "service_charge", "total"]
  const ITEM_FIELDS: seq<string> := ["name", "price", "count"]
  const NUMERIC_FIELDS: seq<string> := ["sub_total", "vat", "service_charge", "total"]

  datatype SchemaError =
    | MissingField(field: string)
    | ItemsNotList
    | ItemNotDict(index: nat)
    | ItemMissingField(index: nat, field: string)
    | ItemWrongType(index: nat, field: string)
    | FieldNotNumber(field: string)
    | FieldNotString(field: string)
  {
    predicate IsItemError() {
      ItemNotDict? || ItemMissingField? || ItemWrongType?
    }
  }

  /** `True` from the Python, or the `ValueError` it raises. */
  datatype Verdict = Valid | Invalid(error: SchemaError)

  // ---------------------------------------------------------------------
  // What a valid receipt is, stated without any order of checks.
  // ---------------------------------------------------------------------

  predicate WellFormedItem(item: Json) {
    && item.JObject?
    && "name" in item.fields && "price" in item.fields && "count" in item.fields
    && IsStr(item.fields["name"])
    && IsNumber(item.fields["price"])
    && IsInt(item.fields["count"])
  }

  predicate IsValidReceipt(data: map<string, Json>) {
    && (forall f :: f in REQUIRED_FIELDS ==> f in data)
    && data["items"].JArray?
    && (forall i :: 0 <= i < |data["items"].elems| ==> WellFormedItem(data["items"].elems[i]))
    && (forall f :: f in NUMERIC_FIELDS ==> IsNumber(data[f]))
    && IsStr(data["merchant_name"])
    && IsStr(data["datetime"])
  }

  // ---------------------------------------------------------------------
  // The first failure of each section.
  // ---------------------------------------------------------------------

  /** Index of the first key of `keys` that `m` lacks. */
  function FirstMissing<V>(keys: seq<string>, m: map<string, V>): (r: Option<nat>)
    ensures r.None? <==> forall j :: 0 <= j < |keys| ==> keys[j] in m
    ensures r.None? ==> forall f :: f in keys ==> f in m
    ensures r.Some? ==> r.value < |keys| && keys[r.value] !in m
    ensures r.Some? ==> forall j :: 0 <= j < r.value ==> keys[j] in m
  {
    if keys == [] then None
    else if keys[0] !in m then Some(0)
    else match FirstMissing(keys[1..], m)
      case None => None
      case Some(k) => Some(k + 1)
  }

  /** Index of the first item that is not a well-formed line item. */
  function FirstMalformedItem(items: seq<Json>): (r: Option<nat>)
    ensures r.None? <==> forall j :: 0 <= j < |items| ==> WellFormedItem(items[j])
    ensures r.Some? ==> r.value < |items| && !WellFormedItem(items[r.value])
    ensures r.Some? ==> forall j :: 0 <= j < r.value ==> WellFormedItem(items[j])
  {
    if items == [] then None
    else if !WellFormedItem(items[0]) then Some(0)
    else match FirstMalformedItem(items[1..])
      case None => None
      case Some(k) => Some(k + 1)
  }

  /** Index of the first of `keys` whose value in `data` is not a number. */
  function FirstNonNumber(keys: seq<string>, data: map<string, Json>): (r: Option<nat>)
    requires forall j :: 0 <= j < |keys| ==> keys[j] in data
    ensures r.None? <==> forall j :: 0 <= j < |keys| ==> IsNumber(data[keys[j]])
    ensures r.Some? ==> r.value < |keys| && !IsNumber(data[keys[r.value]])
    ensures r.Some? ==> forall j :: 0 <= j < r.value ==> IsNumber(data[keys[j]])
  {
    if keys == [] then None
    else if !IsNumber(data[keys[0]]) then Some(0)
    else match FirstNonNumber(keys[1..], data)
      case None => None
      case Some(k) => Some(k + 1)
  }

  /** The checks of one item, at index `i`, in the order the Python makes them. */
  function ItemVerdict(i: nat, item: Json): (r: Verdict)
    ensures r == Valid <==> WellFormedItem(item)
    ensures r.Invalid? ==> r.error.IsItemError() && r.error.index == i
    ensures !item.JObject? ==> r == Invalid(ItemNotDict(i))
    ensures item.JObject? && "name" in item.fields && "price" in item.fields && "count" in item.fields ==>
      && (r == Invalid(ItemWrongType(i, "name")) <==> !IsStr(item.fields["name"]))
      && (r == Invalid(ItemWrongType(i, "price")) <==> IsStr(item.fields["name"]) && !IsNumber(item.fields["price"]))
      && (r == Invalid(ItemWrongType(i, "count")) <==>
            IsStr(item.fields["name"]) && IsNumber(item.fields["price"]) && !IsInt(item.fields["count"]))
  {
    if !item.JObject? then Invalid(ItemNotDict(i))
    else match FirstMissing(ITEM_FIELDS, item.fields)
      case Some(k) => Invalid(ItemMissingField(i, ITEM_FIELDS[k]))
      case None =>
        if !IsStr(item.fields["name"]) then Invalid(ItemWrongType(i, "name"))
        else if !IsNumber(item.fields["price"]) then Invalid(ItemWrongType(i, "price"))
        else if !IsInt(item.fields["count"]) then Invalid(ItemWrongType(i, "count"))
        else Valid
  }

  /** The verdict of the whole validation: the first failure of the first failing section. */
  function SchemaVerdict(data: map<string, Json>): (r: Verdict)
    ensures r.Invalid? && r.error.MissingField? ==> r.error.field in REQUIRED_FIELDS && r.error.field !in data
    ensures r.Invalid? && r.error.IsItemError() ==>
      "items" in data && data["items"].JArray? && r.error.index < |data["items"].elems|
    ensures r.Invalid? && r.error.FieldNotNumber? ==> r.error.field in NUMERIC_FIELDS
  {
    match FirstMissing(REQUIRED_FIELDS, data)
    case Some(k) => Invalid(MissingField(REQUIRED_FIELDS[k]))
    case None =>
      if !data["items"].JArray? then Invalid(ItemsNotList)
      else match FirstMalformedItem(data["items"].elems)
        case Some(i) => ItemVerdict(i, data["items"].elems[i])
        case None =>
          match FirstNonNumber(NUMERIC_FIELDS, data)
          case Some(k) => Invalid(FieldNotNumber(NUMERIC_FIELDS[k]))
          case None =>
            if !IsStr(data["merchant_name"]) then Invalid(FieldNotString("merchant_name"))
            else if !IsStr(data["datetime"]) then Invalid(FieldNotString("datetime"))
            else Valid
  }

  // ---------------------------------------------------------------------
  // The validator as the Python runs it: three loops with early exit,
  // then the two string checks. It takes the decoded value and changes nothing.
  // ---------------------------------------------------------------------

  method ValidateSchema(data: map<string, Json>) returns (v: Verdict)
    ensures v == SchemaVerdict(data)
  {
    for k := 0 to |REQUIRED_FIELDS|
      invariant forall j :: 0 <= j < k ==> REQUIRED_FIELDS[j] in data
    {
      if REQUIRED_FIELDS[k] !in data {
        return Invalid(MissingField(REQUIRED_FIELDS[k]));
      }
    }

    assert forall f :: f in REQUIRED_FIELDS ==> f in data;
    var items := data["items"];
    if !items.JArray? {
      return Invalid(ItemsNotList);
    }

    for i := 0 to |items.elems|
      invariant forall j :: 0 <= j < i ==> WellFormedItem(items.elems[j])
    {
      var item := items.elems[i];
      if !item.JObject? {
        return Invalid(ItemNotDict(i));
      }
      if "name" !in item.fields {
        return Invalid(ItemMissingField(i, "name"));
      }
      if "price" !in item.fields {
        assert ITEM_FIELDS[0] == "name" && ITEM_FIELDS[1] == "price";
        return Invalid(ItemMissingField(i, "price"));
      }
      if "count" !in item.fields {
        return Invalid(ItemMissingField(i, "count"));
      }
      if !IsStr(item.fields["name"]) {
        return Invalid(ItemWrongType(i, "name"));
      }
      if !IsNumber(item.fields["price"]) {
        return Invalid(ItemWrongType(i, "price"));
      }
      if !IsInt(item.fields["count"]) {
        return Invalid(ItemWrongType(i, "count"));
      }
    }

    for k := 0 to |NUMERIC_FIELDS|
      invariant forall j :: 0 <= j < k ==> IsNumber(data[NUMERIC_FIELDS[j]])
    {
      if !IsNumber(data[NUMERIC_FIELDS[k]]) {
        return Invalid(FieldNotNumber(NUMERIC_FIELDS[k]));
      }
    }

    if !IsStr(data["merchant_name"]) {
      return Invalid(FieldNotString("merchant_name"));
    }
    if !IsStr(data["datetime"]) {
      return Invalid(FieldNotString("datetime"));
    }
    return Valid;
  }

  // ---------------------------------------------------------------------
  // Properties of the verdict.
  // ---------------------------------------------------------------------

  /** Validation succeeds exactly on the receipts of the fixed shape. */
  lemma ValidIffWellShaped(data: map<string, Json>)
    ensures SchemaVerdict(data) == Valid <==> IsValidReceipt(data)
  {
  }

  /**
   * A missing top-level key is reported before anything else, and the key
   * named is the first missing one in the order of REQUIRED_FIELDS.
   */
  lemma MissingFieldReportedFirst(data: map<string, Json>, k: nat)
    requires k < |REQUIRED_FIELDS|
    ensures SchemaVerdict(data) == Invalid(MissingField(REQUIRED_FIELDS[k]))
        <==> REQUIRED_FIELDS[k] !in data && forall j :: 0 <= j < k ==> REQUIRED_FIELDS[j] in data
  {
  }

  /** Every error names a key the receipt schema knows; a missing key is a required one. */
  lemma MissingFieldIsRequired(data: map<string, Json>)
    requires SchemaVerdict(data).Invalid? && SchemaVerdict(data).error.MissingField?
    ensures SchemaVerdict(data).error.field in REQUIRED_FIELDS
    ensures SchemaVerdict(data).error.field !in data
  {
  }

  /**
   * Once all keys are present and `items` is a list, an item error names the
   * lowest failing index, whatever the money and string fields hold.
   */
  lemma ItemErrorAtLowestIndex(data: map<string, Json>, i: nat)
    requires forall f :: f in REQUIRED_FIELDS ==> f in data
    requires data["items"].JArray? && i < |data["items"].elems|
    requires !WellFormedItem(data["items"].elems[i])
    requires forall j :: 0 <= j < i ==> WellFormedItem(data["items"].elems[j])
    ensures SchemaVerdict(data) == ItemVerdict(i, data["items"].elems[i])
    ensures SchemaVerdict(data).Invalid? && SchemaVerdict(data).error.IsItemError()
    ensures SchemaVerdict(data).error.index == i
  {
  }

  /**
   * Within one dict item a missing key is reported before any type error, and
   * it is the first missing one of `name`, `price`, `count`.
   */
  lemma ItemMissingBeforeWrongType(i: nat, item: Json, k: nat)
    requires item.JObject? && k < |ITEM_FIELDS|
    requires ITEM_FIELDS[k] !in item.fields
    requires forall j :: 0 <= j < k ==> ITEM_FIELDS[j] in item.fields
    ensures ItemVerdict(i, item) == Invalid(ItemMissingField(i, ITEM_FIELDS[k]))
  {
  }

  /**
   * Once the keys and the items are fine, the first money field that is not
   * a number is reported, before any check on `merchant_name` or `datetime`.
   */
  lemma MoneyFieldBeforeStringFields(data: map<string, Json>, k: nat)
    requires forall f :: f in REQUIRED_FIELDS ==> f in data
    requires data["items"].JArray?
    requires forall j :: 0 <= j < |data["items"].elems| ==> WellFormedItem(data["items"].elems[j])
    requires k < |NUMERIC_FIELDS| && !IsNumber(data[NUMERIC_FIELDS[k]])
    requires forall j :: 0 <= j < k ==> IsNumber(data[NUMERIC_FIELDS[j]])
    ensures SchemaVerdict(data) == Invalid(FieldNotNumber(NUMERIC_FIELDS[k]))
  {
  }

  /** Once all keys are present, an `items` that is not a list is reported before anything else. */
  lemma ItemsNotListReported(data: map<string, Json>)
    requires forall f :: f in REQUIRED_FIELDS ==> f in data
    requires !data["items"].JArray?
    ensures SchemaVerdict(data) == Invalid(ItemsNotList)
  {
  }

  /**
   * Once keys, items and money fields are fine, `merchant_name` is checked
   * before `datetime`, and these two checks decide the verdict.
   */
  lemma StringFieldsInOrder(data: map<string, Json>)
    requires forall f :: f in REQUIRED_FIELDS ==> f in data
    requires data["items"].JArray?
    requires forall j :: 0 <= j < |data["items"].elems| ==> WellFormedItem(data["items"].elems[j])
    requires forall f :: f in NUMERIC_FIELDS ==> IsNumber(data[f])
    ensures !IsStr(data["merchant_name"]) ==> SchemaVerdict(data) == Invalid(FieldNotString("merchant_name"))
    ensures IsStr(data["merchant_name"]) && !IsStr(data["datetime"]) ==>
      SchemaVerdict(data) == Invalid(FieldNotString("datetime"))
    ensures IsStr(data["merchant_name"]) && IsStr(data["datetime"]) ==> SchemaVerdict(data) == Valid
  {
  }

  /** A record with a bad `vat` and a bad `merchant_name` is reported for `vat`. */
  lemma BadVatReportedBeforeBadMerchant()
    ensures SchemaVerdict(map[
      "merchant_name" := JInt(7), "datetime" := JString("2025-01-01"),
      "items" := JArray([]), "sub_total" := JInt(10), "vat" := JString("0.8"),
      "service_charge" := JInt(0), "total" := JFloat(10.8)])
      == Invalid(FieldNotNumber("vat"))
  {
    var data := map[
      "merchant_name" := JInt(7), "datetime" := JString("2025-01-01"),
      "items" := JArray([]), "sub_total" := JInt(10), "vat" := JString("0.8"),
      "service_charge" := JInt(0), "total" := JFloat(10.8)];
    assert forall f :: f in REQUIRED_FIELDS ==> f in data;
    assert NUMERIC_FIELDS[1] == "vat" && NUMERIC_FIELDS[0] == "sub_total";
    MoneyFieldBeforeStringFields(data, 1);
  }

  /**
   * Python's `bool` is a subclass of `int`: an item whose `price` and
   * `count` are booleans passes.
   */
  lemma BooleansPassNumericChecks(i: nat, name: string, price: bool, count: bool)
    ensures ItemVerdict(i, JObject(map["name" := JString(name), "price" := JBool(price), "count" := JBool(count)])) == Valid
  {
    var item := JObject(map["name" := JString(name), "price" := JBool(price), "count" := JBool(count)]);
    assert WellFormedItem(item);
  }

  /** Likewise a boolean money field passes: a valid record stays valid when one becomes `true` or `false`. */
  lemma BooleanMoneyFieldPasses(data: map<string, Json>, k: nat, b: bool)
    requires SchemaVerdict(data) == Valid && k < |NUMERIC_FIELDS|
    ensures SchemaVerdict(data[NUMERIC_FIELDS[k] := JBool(b)]) == Valid
  {
    var changed := data[NUMERIC_FIELDS[k] := JBool(b)];
    ValidIffWellShaped(data);
    assert NUMERIC_FIELDS[k] in REQUIRED_FIELDS;
    assert NUMERIC_FIELDS[k] != "items" && NUMERIC_FIELDS[k] != "merchant_name" && NUMERIC_FIELDS[k] != "datetime";
    assert changed["items"] == data["items"];
    assert IsValidReceipt(changed);
    ValidIffWellShaped(changed);
  }

  // ---------------------------------------------------------------------
  // Keys the schema does not mention never matter.
  // ---------------------------------------------------------------------

  /** An item reduced to the keys `name`, `price` and `count`. */
  function StripItem(item: Json): (r: Json)
    ensures r.JObject? <==> item.JObject?
    ensures r.JObject? ==> forall f :: f in r.fields ==> f in ITEM_FIELDS
  {
    match item
    case JObject(m) => JObject(map f | f in m && f in ITEM_FIELDS :: m[f])
    case _ => item
  }

  /** Every item reduced by StripItem; anything other than a list is left alone. */
  function StripItems(items: Json): (r: Json)
    ensures r.JArray? <==> items.JArray?
    ensures r.JArray? ==> |r.elems| == |items.elems|
    ensures r.JArray? ==> forall j :: 0 <= j < |r.elems| ==> r.elems[j] == StripItem(items.elems[j])
  {
    match items
    case JArray(elems) => JArray(seq(|elems|, j requires 0 <= j < |elems| => StripItem(elems[j])))
    case _ => items
  }

  /** A record reduced to the seven schema keys, its items reduced by StripItem. */
  function Relevant(data: map<string, Json>): (r: map<string, Json>)
    ensures forall f :: f in r ==> f in REQUIRED_FIELDS
    ensures forall f :: f in REQUIRED_FIELDS ==> (f in r <==> f in data)
  {
    map f | f in data && f in REQUIRED_FIELDS :: if f == "items" then StripItems(data[f]) else data[f]
  }

  lemma StripItemKeepsVerdict(i: nat, item: Json)
    ensures ItemVerdict(i, StripItem(item)) == ItemVerdict(i, item)
  {
  }

  /** FirstMissing depends only on which of `keys` each map holds. */
  lemma FirstMissingAgree<V>(keys: seq<string>, m1: map<string, V>, m2: map<string, V>)
    requires forall j :: 0 <= j < |keys| ==> (keys[j] in m1 <==> keys[j] in m2)
    ensures FirstMissing(keys, m1) == FirstMissing(keys, m2)
  {
  }

  /** FirstMalformedItem depends only on which items are well formed. */
  lemma FirstMalformedAgree(s1: seq<Json>, s2: seq<Json>)
    requires |s1| == |s2|
    requires forall j :: 0 <= j < |s1| ==> (WellFormedItem(s1[j]) <==> WellFormedItem(s2[j]))
    ensures FirstMalformedItem(s1) == FirstMalformedItem(s2)
  {
  }

  /** Two records whose schema keys hold the same values get the same verdict,
      provided their item lists agree item by item on the verdict. */
  lemma SameVerdictWhenItemsAgree(d1: map<string, Json>, d2: map<string, Json>)
    requires forall f :: f in REQUIRED_FIELDS ==> (f in d1 <==> f in d2)
    requires forall f :: f in REQUIRED_FIELDS && f != "items" && f in d1 ==> d1[f] == d2[f]
    requires "items" in d1 ==> "items" in d2 && (d1["items"].JArray? <==> d2["items"].JArray?)
    requires "items" in d1 && d1["items"].JArray? ==>
      && |d1["items"].elems| == |d2["items"].elems|
      && forall j :: 0 <= j < |d1["items"].elems| ==>
           ItemVerdict(j, d1["items"].elems[j]) == ItemVerdict(j, d2["items"].elems[j])
    ensures SchemaVerdict(d1) == SchemaVerdict(d2)
  {
    FirstMissingAgree(REQUIRED_FIELDS, d1, d2);
    if FirstMissing(REQUIRED_FIELDS, d1).None? && d1["items"].JArray? {
      var e1, e2 := d1["items"].elems, d2["items"].elems;
      FirstMalformedAgree(e1, e2);
      var bad := FirstMalformedItem(e1);
      if bad.None? {
        NumericAgree(d1, d2);
        assert d1["merchant_name"] == d2["merchant_name"];
        assert d1["datetime"] == d2["datetime"];
      }
    }
  }

  lemma NumericAgree(d1: map<string, Json>, d2: map<string, Json>)
    requires forall f :: f in REQUIRED_FIELDS ==> f in d1 && f in d2
    requires forall f :: f in REQUIRED_FIELDS && f != "items" ==> d1[f] == d2[f]
    ensures FirstNonNumber(NUMERIC_FIELDS, d1) == FirstNonNumber(NUMERIC_FIELDS, d2)
  {
    assert forall j :: 0 <= j < |NUMERIC_FIELDS| ==> d1[NUMERIC_FIELDS[j]] == d2[NUMERIC_FIELDS[j]];
  }

  /** Extra keys, at top level or inside items, never change the verdict. */
  lemma ExtraKeysIgnored(data: map<string, Json>)
    ensures SchemaVerdict(Relevant(data)) == SchemaVerdict(data)
  {
    var r := Relevant(data);
    forall j | "items" in data && data["items"].JArray? && 0 <= j < |data["items"].elems|
      ensures ItemVerdict(j, r["items"].elems[j]) == ItemVerdict(j, data["items"].elems[j])
    {
      StripItemKeepsVerdict(j, data["items"].elems[j]);
    }
    SameVerdictWhenItemsAgree(r, data);
  }
}
