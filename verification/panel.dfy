/**
 * The panel component: its five state slots and the three handlers that update them.
 * The network call is not performed here; what it ended with is passed in as an `Outcome`.
 * `fetchData` awaits twice, for the response and for its parsed body. No slot is written
 * between the two, so they are merged: `BeginFetch` is everything before the first `await`,
 * and `SettleFetch` everything after it, applied to whatever state the panel is in by then.
 */
module Panel {
  import opened Wrappers
  import opened Text
  import opened JsValues
  import opened Orders

  datatype Status = Idle | Loading | Ok | Error

  /** How the request ended: no response at all, or a status code and the body parsed as JSON (`None` when it is not JSON). */
  datatype Outcome =
    | TransportFailure
    | Received(status: int, body: Option<JValue>)

  const NoEndpointMessage: string := "No Beeceptor URL set. Add VITE_BEECEPTOR_URL to your .env."
  const LoadFailedMessage: string := "Couldn\U{2019}t load data. Please retry."

  /** `res.ok`: the status is in the range 200 to 299. */
  predicate IsOkStatus(status: int) { 200 <= status <= 299 }

  /**
   * The record a request yields, or `None` when the `try` block throws: a transport failure,
   * a status that is not ok, a body that is not JSON, or a body the normaliser throws on
   * (JSON `null`, or a field that `String` cannot convert).
   */
  function Resolve(outcome: Outcome): (r: Option<Order>)
    ensures r.Some? <==>
      outcome.Received? && IsOkStatus(outcome.status) && outcome.body.Some? && Normalize(outcome.body.value).Some?
    ensures outcome.Received? && IsOkStatus(outcome.status) && outcome.body.Some? ==> r == Normalize(outcome.body.value)
    ensures r.Some? ==> !IsNullish(outcome.body.value)
  {
    match outcome
    case TransportFailure => None
    case Received(status, body) =>
      if !IsOkStatus(status) then None
      else if body.None? then None
      else Normalize(body.value)
  }

  class App {
    /** The configured endpoint; empty when none is configured. */
    const endpoint: string

    var data: Option<Order>
    var state: Status
    var mappedFields: Option<MappedFields>
    var note: string
    var errorMsg: string

    /** Every record a fetch has stored in `data`, oldest first. */
    ghost var loaded: seq<Order>

    /**
     * The panel's invariant: `data` is the last record stored; the mapped fields and the note,
     * once present, were built from a record that was stored at the time; an error always
     * carries one of the two messages; and nothing has happened while the panel is idle.
     */
    ghost predicate Valid()
      reads this
    {
      (data.None? <==> loaded == []) &&
      (data.Some? ==> data.value == loaded[|loaded| - 1]) &&
      (mappedFields.Some? ==> exists o :: o in loaded && mappedFields.value == MapFields(o)) &&
      (note != "" ==> exists o :: o in loaded && Some(note) == FormatInternalNote(OrderToJs(o))) &&
      (state == Idle ==> data.None? && mappedFields.None? && note == "" && errorMsg == "") &&
      (state == Loading ==> errorMsg == "") &&
      (state == Ok ==> data.Some?) &&
      (state == Error ==> errorMsg == NoEndpointMessage || errorMsg == LoadFailedMessage)
    }

    /** The component's initial state. */
    constructor (endpoint: string)
      ensures Valid() && this.endpoint == endpoint
      ensures data == None && state == Idle && mappedFields == None && note == "" && errorMsg == ""
    {
      this.endpoint := endpoint;
      data := None;
      state := Idle;
      mappedFields := None;
      note := "";
      errorMsg := "";
      loaded := [];
    }

    /**
     * `fetchData` up to the request. Without an endpoint it fails at once and issues no
     * request; otherwise it enters `loading` and clears the message. The record, the mapped
     * fields and the note are left alone either way.
     */
    method BeginFetch() returns (issued: bool)
      requires Valid()
      modifies this
      ensures Valid()
      ensures issued <==> endpoint != ""
      ensures !issued ==> state == Error && errorMsg == NoEndpointMessage
      ensures issued ==> state == Loading && errorMsg == ""
      ensures data == old(data) && mappedFields == old(mappedFields) && note == old(note) && loaded == old(loaded)
    {
      if endpoint == "" {
        state := Error;
        errorMsg := NoEndpointMessage;
        return false;
      }
      state := Loading;
      errorMsg := "";
      issued := true;
    }

    /**
     * `fetchData` from the response on. Success replaces the record and enters `ok`; any
     * failure enters `error` with the retry message and keeps the previous record.
     */
    method SettleFetch(outcome: Outcome)
      requires Valid()
      modifies this
      ensures Valid()
      ensures Resolve(outcome).Some? ==>
        data == Resolve(outcome) && state == Ok && errorMsg == old(errorMsg) && loaded == old(loaded) + [data.value]
      ensures Resolve(outcome).None? ==>
        data == old(data) && state == Error && errorMsg == LoadFailedMessage && loaded == old(loaded)
      ensures mappedFields == old(mappedFields) && note == old(note)
    {
      var failed := outcome.TransportFailure? || !IsOkStatus(outcome.status) || outcome.body.None?;
      if !failed {
        var safe := Normalize(outcome.body.value);
        if safe.None? {
          failed := true;
        } else {
          data := safe;
          loaded := loaded + [safe.value];
          state := Ok;
        }
      }
      if failed {
        state := Error;
        errorMsg := LoadFailedMessage;
      }
    }

    /**
     * The whole of `fetchData` when nothing else runs while it waits. It reports how many
     * requests it issued.
     */
    method FetchData(outcome: Outcome) returns (requests: nat)
      requires Valid()
      modifies this
      ensures Valid()
      ensures requests == if endpoint == "" then 0 else 1
      ensures endpoint == "" ==>
        state == Error && errorMsg == NoEndpointMessage && data == old(data) && loaded == old(loaded)
      ensures endpoint != "" && Resolve(outcome).Some? ==>
        data == Resolve(outcome) && state == Ok && errorMsg == "" && loaded == old(loaded) + [data.value]
      ensures endpoint != "" && Resolve(outcome).None? ==>
        data == old(data) && state == Error && errorMsg == LoadFailedMessage && loaded == old(loaded)
      ensures mappedFields == old(mappedFields) && note == old(note)
    {
      var issued := BeginFetch();
      if !issued {
        return 0;
      }
      SettleFetch(outcome);
      requests := 1;
    }

    /** "Populate Fields": with a record, build the mapped fields from it; without one, do nothing. */
    method PopulateTicketFields()
      requires Valid()
      modifies this
      ensures Valid()
      ensures old(data).None? ==> mappedFields == old(mappedFields)
      ensures old(data).Some? ==> mappedFields == Some(MapFields(old(data).value))
      ensures data == old(data) && state == old(state) && note == old(note) && errorMsg == old(errorMsg)
      ensures loaded == old(loaded)
    {
      if data.None? {
        return;
      }
      mappedFields := Some(MapFields(data.value));
    }

    /** "Add Internal Note": with a record, store its note; without one, do nothing. */
    method AddInternalNote()
      requires Valid()
      modifies this
      ensures Valid()
      ensures old(data).None? ==> note == old(note)
      ensures old(data).Some? ==> Some(note) == FormatInternalNote(OrderToJs(old(data).value))
      ensures data == old(data) && state == old(state) && mappedFields == old(mappedFields) && errorMsg == old(errorMsg)
      ensures loaded == old(loaded)
    {
      if data.None? {
        return;
      }
      NoteOfStoredOrder(data.value);
      note := FormatInternalNote(OrderToJs(data.value)).value;
    }
  }

  /**
   * The two scenarios of the component's tests, on one panel: a configured panel whose request
   * answers 200 with the sample payload shows `ok`, the sample order and the items
   * `4, 9, 17`; the demo actions then fill the mapped fields and the note; a later fetch
   * answering 500 shows the retry message and keeps the order, the mapped fields and the note.
   */
  method SampleSession() returns (requests: nat, okState: Status, shownItems: string,
                                  fields: Option<MappedFields>, noteText: string,
                                  failedState: Status, alert: string, kept: Option<Order>)
    ensures requests == 2 && okState == Ok && shownItems == "4, 9, 17"
    ensures fields == Some(MappedFields("43", "4,9,17"))
    ensures noteText == "Customer requested help with order 43, items 4,9,17."
    ensures failedState == Error && alert == LoadFailedMessage
    ensures kept == Some(Order("43", "Alex Smith", ["4", "9", "17"]))
  {
    var app := new App("https://demo-app.free.beeceptor.com/ticket/43");
    var n := app.FetchData(Received(200, Some(SamplePayload())));
    NormalizeSamplePayload();
    okState := app.state;
    ItemsTextForSample();
    shownItems := ItemsText(app.data.value.items);

    app.PopulateTicketFields();
    app.AddInternalNote();
    SampleNote();

    var m := app.FetchData(Received(500, Some(JObj(map[]))));
    requests := n + m;
    failedState, alert, kept, fields, noteText := app.state, app.errorMsg, app.data, app.mappedFields, app.note;
  }

  /** For the sample record the mapped fields are `("43", "4,9,17")` and the note names order 43 and items 4,9,17. */
  lemma SampleNote()
    ensures MapFields(Order("43", "Alex Smith", ["4", "9", "17"])) == MappedFields("43", "4,9,17")
    ensures FormatInternalNote(OrderToJs(Order("43", "Alex Smith", ["4", "9", "17"])))
            == Some("Customer requested help with order 43, items 4,9,17.")
  {
    var o := Order("43", "Alex Smith", ["4", "9", "17"]);
    SampleCodes();
    NoteOfStoredOrder(o);
    assert NotePrefix + "43" + ", items " + "4,9,17" + "." == "Customer requested help with order 43, items 4,9,17.";
  }

  lemma SampleCodes()
    ensures Join(["4", "9", "17"], ",") == "4,9,17"
  {
    assert Join(["9", "17"], ",") == "9,17";
  }

  /**
   * Without an endpoint, fetching fails with the configuration message and issues no request,
   * whatever the network would have answered; the demo actions then do nothing.
   */
  method UnconfiguredSession(outcome: Outcome) returns (requests: nat, state: Status, alert: string,
                                                          data: Option<Order>, noteText: string,
                                                          fields: Option<MappedFields>)
    ensures requests == 0 && state == Error && alert == NoEndpointMessage
    ensures data == None && noteText == "" && fields == None
  {
    var app := new App("");
    requests := app.FetchData(outcome);
    app.AddInternalNote();
    app.PopulateTicketFields();
    state, alert, data, noteText, fields := app.state, app.errorMsg, app.data, app.note, app.mappedFields;
  }
}
