/**
 * The order record and the pure transforms over it: the normaliser that turns any parsed
 * payload into a well-formed order, `formatInternalNote`, the mapped-fields object built by
 * "Populate Fields", and the text the order panel shows.
 */
module Orders {
  import opened Wrappers
  import opened Text
  import opened JsValues

  /** The normalised record: every field present, every value a string. */
  datatype Order = Order(orderId: string, customer: string, items: seq<string>)

  /** `{custom_order_id, custom_item_codes}` */
  datatype MappedFields = MappedFields(customOrderId: string, customItemCodes: string)

  // ---------------------------------------------------------------------------
  // Normalising a fetched payload
  // ---------------------------------------------------------------------------

  /** `String(v ?? '')` */
  function TextOrEmpty(v: JValue): string
  {
    if IsNullish(v) then "" else ToStr(v)
  }

  /**
   * The `safe` record built from a parsed body, or `None` when building it throws: reading
   * `json.orderId` throws when the body is JSON `null`, and `String` throws on a field (or an
   * item) that does not convert. Every other body gives a record.
   */
  function Normalize(json: JValue): (r: Option<Order>)
    ensures r.None? <==>
      IsNullish(json) ||
      !Converts(Member(json, "orderId")) || !Converts(Member(json, "customer")) ||
      (Member(json, "items").JArr? && !Converts(Member(json, "items")))
    ensures r.Some? && IsNullish(Member(json, "orderId")) ==> r.value.orderId == ""
    ensures r.Some? && !IsNullish(Member(json, "orderId")) ==> r.value.orderId == ToStr(Member(json, "orderId"))
    ensures r.Some? && IsNullish(Member(json, "customer")) ==> r.value.customer == ""
    ensures r.Some? && !IsNullish(Member(json, "customer")) ==> r.value.customer == ToStr(Member(json, "customer"))
    ensures r.Some? && !Member(json, "items").JArr? ==> r.value.items == []
    ensures r.Some? && Member(json, "items").JArr? ==>
      var xs := Member(json, "items").elems;
      |r.value.items| == |xs| && forall k :: 0 <= k < |xs| ==> r.value.items[k] == ToStr(xs[k])
  {
    if IsNullish(json) then None
    else
      var id := Member(json, "orderId");
      var customer := Member(json, "customer");
      var items := Member(json, "items");
      if !Converts(id) || !Converts(customer) || (items.JArr? && !Converts(items)) then None
      else
        Some(Order(
          TextOrEmpty(id),
          TextOrEmpty(customer),
          if items.JArr? then seq(|items.elems|, k requires 0 <= k < |items.elems| => ToStr(items.elems[k]))
          else []))
  }

  /** The stored record seen as the JavaScript object `{orderId, customer, items}`. */
  function OrderToJs(o: Order): (r: JValue)
    ensures r.JObj? && Member(r, "orderId") == JStr(o.orderId) && Member(r, "items") == StrArray(o.items)
  {
    JObj(map["orderId" := JStr(o.orderId), "customer" := JStr(o.customer), "items" := StrArray(o.items)])
  }

  /** A record that is already normal comes through the normaliser unchanged. */
  lemma NormalizeRoundTrip(o: Order)
    ensures Normalize(OrderToJs(o)) == Some(o)
  {
    var xs := StrArray(o.items).elems;
    assert Converts(StrArray(o.items)) by {
      forall k | 0 <= k < |xs| ensures Converts(xs[k]) {
        assert xs[k] == JStr(o.items[k]);
      }
    }
    var texts := seq(|xs|, k requires 0 <= k < |xs| => ToStr(xs[k]));
    assert texts == o.items;
  }

  /** Normalising twice gives what normalising once gives. */
  lemma NormalizeIdempotent(json: JValue)
    requires Normalize(json).Some?
    ensures Normalize(OrderToJs(Normalize(json).value)) == Normalize(json)
  {
    NormalizeRoundTrip(Normalize(json).value);
  }

  /** The payload `{orderId: 43, customer: "Alex Smith", items: [4, 9, 17]}`. */
  function SamplePayload(): JValue
  {
    JObj(map["orderId" := JInt(43), "customer" := JStr("Alex Smith"), "items" := JArr([JInt(4), JInt(9), JInt(17)])])
  }

  /** Numbers in the sample payload become their decimal text. */
  lemma NormalizeSamplePayload()
    ensures Normalize(SamplePayload()) == Some(Order("43", "Alex Smith", ["4", "9", "17"]))
  {
    assert IntToDecimal(43) == "43";
    assert IntToDecimal(17) == "17";
    var r := Normalize(SamplePayload()).value;
    assert r.items == ["4", "9", "17"];
  }

  // ---------------------------------------------------------------------------
  // formatInternalNote
  // ---------------------------------------------------------------------------

  const NotePrefix: string := "Customer requested help with order "

  /**
   * The id text of the note, `${order?.orderId ?? 'N/A'}`: the placeholder exactly when the id
   * is null or undefined, `String(id)` for anything else, `0` and `""` included; `None` when
   * the conversion throws.
   */
  function NoteIdText(order: JValue): (t: Option<string>)
    ensures t.None? <==> !Converts(OptMember(order, "orderId"))
    ensures t.Some? && IsNullish(OptMember(order, "orderId")) ==> t.value == "N/A"
    ensures t.Some? && !IsNullish(OptMember(order, "orderId")) ==> t.value == ToStr(OptMember(order, "orderId"))
  {
    var id := OptMember(order, "orderId");
    if !Converts(id) then None
    else if IsNullish(id) then Some("N/A")
    else Some(ToStr(id))
  }

  /**
   * The items text of the note: `order.items.join(',')` when `order?.items` is an array,
   * `none` for anything else; `None` when the join throws.
   */
  function NoteItemsText(order: JValue): (t: Option<string>)
    ensures t.None? <==> OptMember(order, "items").JArr? && !Converts(OptMember(order, "items"))
    ensures t.Some? && !OptMember(order, "items").JArr? ==> t.value == "none"
    ensures t.Some? && OptMember(order, "items").JArr? ==> t.value == ArrayJoin(OptMember(order, "items").elems, ",")
  {
    var items := OptMember(order, "items");
    if !items.JArr? then Some("none")
    else if !Converts(items) then None
    else Some(ArrayJoin(items.elems, ","))
  }

  /**
   * `formatInternalNote(order)`, or `None` when it throws: the fixed template filled with the
   * id text and the items text. It throws only when one of the two does not convert.
   */
  function FormatInternalNote(order: JValue): (r: Option<string>)
    ensures r.None? <==> NoteIdText(order).None? || NoteItemsText(order).None?
    ensures r.Some? ==>
      r.value == NotePrefix + NoteIdText(order).value + ", items " + NoteItemsText(order).value + "."
  {
    var id := NoteIdText(order);
    var items := NoteItemsText(order);
    if id.None? || items.None? then None
    else Some(NotePrefix + id.value + ", items " + items.value + ".")
  }

  /** The note, once its id text and items text are known. */
  lemma NoteFromParts(order: JValue, id: string, items: string)
    requires NoteIdText(order) == Some(id) && NoteItemsText(order) == Some(items)
    ensures FormatInternalNote(order) == Some(NotePrefix + id + ", items " + items + ".")
  {
  }

  /** With no order at all, both placeholders appear. */
  lemma NoteForMissingOrder(order: JValue)
    requires IsNullish(order)
    ensures FormatInternalNote(order) == Some("Customer requested help with order N/A, items none.")
  {
    assert Converts(JUndefined);
    NoteFromParts(order, "N/A", "none");
    assert NotePrefix + "N/A" + ", items " + "none" + "." == "Customer requested help with order N/A, items none.";
  }

  /** `??` defaults only on null and undefined: the id `0` is kept. */
  lemma NoteKeepsZeroId()
    ensures FormatInternalNote(JObj(map["orderId" := JInt(0)])) == Some(NotePrefix + "0, items none.")
  {
    var zero := JObj(map["orderId" := JInt(0)]);
    assert ToStr(JInt(0)) == "0" by { assert IntToDecimal(0) == "0"; }
    NoteFromParts(zero, "0", "none");
    assert NotePrefix + "0" + ", items " + "none" + "." == NotePrefix + "0, items none.";
  }

  /** The empty id is kept, and an empty list gives empty items text rather than `none`. */
  lemma NoteKeepsEmptyValues()
    ensures FormatInternalNote(JObj(map["orderId" := JStr(""), "items" := JArr([])])) == Some(NotePrefix + ", items .")
  {
    var empty := JObj(map["orderId" := JStr(""), "items" := JArr([])]);
    assert OptMember(empty, "items") == JArr([]);
    NoteFromParts(empty, "", "");
    assert NotePrefix + "" + ", items " + "" + "." == NotePrefix + ", items .";
  }

  /** A null id gives the placeholder, and a string is not an array, so it gives `none`. */
  lemma NoteNullIdStringItems()
    ensures FormatInternalNote(JObj(map["orderId" := JNull, "items" := JStr("4,9")])) == Some(NotePrefix + "N/A, items none.")
  {
    var nulls := JObj(map["orderId" := JNull, "items" := JStr("4,9")]);
    assert OptMember(nulls, "orderId") == JNull;
    assert OptMember(nulls, "items") == JStr("4,9");
    NoteFromParts(nulls, "N/A", "none");
    assert NotePrefix + "N/A" + ", items " + "none" + "." == NotePrefix + "N/A, items none.";
  }

  /** The unit-test input `{orderId: 43, items: [4, 9, 17]}` gives `order 43` and `items 4,9,17`. */
  lemma NoteForSampleInput()
    ensures FormatInternalNote(SampleNoteInput()) == Some("Customer requested help with order 43, items 4,9,17.")
  {
    SampleNoteParts();
    NoteFromParts(SampleNoteInput(), "43", "4,9,17");
    assert NotePrefix + "43" + ", items " + "4,9,17" + "." == "Customer requested help with order 43, items 4,9,17.";
  }

  /** The object `{orderId: 43, items: [4, 9, 17]}` of the unit test. */
  function SampleNoteInput(): JValue
  {
    JObj(map["orderId" := JInt(43), "items" := JArr([JInt(4), JInt(9), JInt(17)])])
  }

  lemma SampleNoteParts()
    ensures NoteIdText(SampleNoteInput()) == Some("43") && NoteItemsText(SampleNoteInput()) == Some("4,9,17")
  {
    var order := SampleNoteInput();
    assert OptMember(order, "orderId") == JInt(43);
    assert OptMember(order, "items") == JArr([JInt(4), JInt(9), JInt(17)]);
    assert ToStr(JInt(43)) == "43" by { assert IntToDecimal(43) == "43"; }
    SampleItemsJoin();
  }

  /** The items `[4, 9, 17]` convert and join as `4,9,17`. */
  lemma SampleItemsJoin()
    ensures Converts(JArr([JInt(4), JInt(9), JInt(17)])) && ArrayJoin([JInt(4), JInt(9), JInt(17)], ",") == "4,9,17"
  {
    var xs := [JInt(4), JInt(9), JInt(17)];
    assert IntToDecimal(17) == "17";
    var texts := seq(|xs|, k requires 0 <= k < |xs| => ElementText(xs[k]));
    assert texts == ["4", "9", "17"];
    assert Join(texts[1..], ",") == "9,17";
  }

  /**
   * A parsed object with its own `toString` key cannot be turned into text: as an order id
   * it makes both the normaliser and the note throw, and so does such an object among the items.
   */
  lemma OwnToStringThrows()
    ensures Normalize(JObj(map["orderId" := JObj(map["toString" := JInt(0)])])) == None
    ensures Normalize(JObj(map["items" := JArr([JInt(4), JObj(map["toString" := JInt(0)])])])) == None
    ensures FormatInternalNote(JObj(map["orderId" := JObj(map["toString" := JInt(0)])])) == None
    ensures FormatInternalNote(JObj(map["items" := JArr([JObj(map["toString" := JInt(0)])])])) == None
  {
    var bad := JObj(map["toString" := JInt(0)]);
    assert !Converts(bad);
    assert !Converts(JArr([JInt(4), bad])) by { assert JArr([JInt(4), bad]).elems[1] == bad; }
    assert !Converts(JArr([bad])) by { assert JArr([bad]).elems[0] == bad; }
  }

  // ---------------------------------------------------------------------------
  // Populate Fields
  // ---------------------------------------------------------------------------

  /** `{custom_order_id: data.orderId, custom_item_codes: data.items.join(',')}` */
  function MapFields(o: Order): (r: MappedFields)
    ensures r.customOrderId == o.orderId
    ensures r.customItemCodes == Join(o.items, ",")
  {
    MappedFields(o.orderId, Join(o.items, ","))
  }

  /**
   * The mapped fields keep the order id, and the item codes split back into the items
   * whenever there is at least one item and no item contains a comma. (With no item the
   * codes are "", which splits into one empty piece.)
   */
  lemma MappedFieldsRecoverOrder(o: Order)
    requires |o.items| >= 1
    requires forall k :: 0 <= k < |o.items| ==> ',' !in o.items[k]
    ensures MapFields(o).customOrderId == o.orderId
    ensures SplitOn(MapFields(o).customItemCodes, ',') == o.items
  {
    SplitJoin(o.items, ',');
  }

  /** The note for a stored record carries exactly the two mapped fields. */
  lemma NoteOfStoredOrder(o: Order)
    ensures FormatInternalNote(OrderToJs(o))
            == Some(NotePrefix + MapFields(o).customOrderId + ", items " + MapFields(o).customItemCodes + ".")
  {
    var order := OrderToJs(o);
    ArrayJoinOfStrings(o.items, ",");
    assert Converts(StrArray(o.items)) by {
      var xs := StrArray(o.items).elems;
      forall k | 0 <= k < |xs| ensures Converts(xs[k]) {
        assert xs[k] == JStr(o.items[k]);
      }
    }
    NoteFromParts(order, o.orderId, Join(o.items, ","));
  }

  // ---------------------------------------------------------------------------
  // The order panel
  // ---------------------------------------------------------------------------

  /** `s || '—'`: a field is never shown empty. */
  function FieldText(s: string): (r: string)
    ensures r != "" && (s != "" ==> r == s)
    ensures s == "" ==> r == "\U{2014}"
  {
    if s != "" then s else "\U{2014}"
  }

  /**
   * `items.length ? items.join(', ') : 'none'`. The text is `none` only for the empty list and
   * for the one-item list `["none"]`; every longer list shows a comma.
   */
  function ItemsText(items: seq<string>): (r: string)
    ensures |items| > 0 ==> r == Join(items, ", ")
    ensures r == "none" <==> items == [] || items == ["none"]
  {
    var r := if |items| > 0 then Join(items, ", ") else "none";
    if |items| >= 2 then
      JoinHoldsSeparator(items, ", ");
      assert r[|items[0]|] == ',';
      r
    else r
  }

  /** The panel shows the sample items as `4, 9, 17`. */
  lemma ItemsTextForSample()
    ensures ItemsText(["4", "9", "17"]) == "4, 9, 17"
  {
    assert Join(["9", "17"], ", ") == "9, 17";
  }
}
