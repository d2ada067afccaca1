/**
 * One row of the transaction table: a view/edit toggle and a draft of the
 * five editable fields, seeded from the transaction the row shows.
 */
module TableRow {
  import opened Wrappers
  import opened Strings
  import opened Http

  /** The keys of the draft, in the order the guard tests them. */
  const EditFields: seq<string> := ["methodID", "type", "repeat_interval", "category", "amount"]

  /** A transaction as the list endpoints deliver it (only what the row's state uses). */
  datatype TransactionJson = TransactionJson(
    id: nat,
    methodID: JsValue,
    kind: JsValue,
    repeatInterval: JsValue,
    category: JsValue,
    amount: JsValue)

  /** The draft built from the transaction's own five fields. */
  function Seed(t: TransactionJson): map<string, JsValue>
  {
    map["methodID" := t.methodID, "type" := t.kind, "repeat_interval" := t.repeatInterval,
        "category" := t.category, "amount" := t.amount]
  }

  /** Reading a key of a JavaScript object: `undefined` when it is absent. */
  function Field(d: map<string, JsValue>, k: string): JsValue
  {
    if k in d then d[k] else JsUndefined
  }

  /** The edit guard: some field is strictly equal (`===`) to the empty string. */
  predicate EditBlocked(d: map<string, JsValue>)
  {
    Field(d, "methodID") == JsString("") || Field(d, "type") == JsString("")
    || Field(d, "repeat_interval") == JsString("") || Field(d, "category") == JsString("")
    || Field(d, "amount") == JsString("")
  }

  /** The guard blocks exactly when one of the five edit fields is the empty string. */
  lemma EditBlockedIff(d: map<string, JsValue>)
    ensures EditBlocked(d) <==> exists i :: 0 <= i < |EditFields| && Field(d, EditFields[i]) == JsString("")
  {
    if EditBlocked(d) {
      if Field(d, "methodID") == JsString("") { assert EditFields[0] == "methodID"; }
      else if Field(d, "type") == JsString("") { assert EditFields[1] == "type"; }
      else if Field(d, "repeat_interval") == JsString("") { assert EditFields[2] == "repeat_interval"; }
      else if Field(d, "category") == JsString("") { assert EditFields[3] == "category"; }
      else { assert EditFields[4] == "amount"; }
    }
  }

  /** Strict equality: a number, null or a missing field never blocks, however falsy. */
  lemma NonStringsNeverBlock(t: TransactionJson)
    requires !t.methodID.JsString? && !t.kind.JsString? && !t.repeatInterval.JsString?
    requires !t.category.JsString? && !t.amount.JsString?
    ensures !EditBlocked(Seed(t))
  {
  }

  /** The seeded draft can be submitted exactly when none of the transaction's five fields is `""`. */
  lemma SeedNotBlocked(t: TransactionJson)
    ensures !EditBlocked(Seed(t)) <==>
      t.methodID != JsString("") && t.kind != JsString("") && t.repeatInterval != JsString("")
      && t.category != JsString("") && t.amount != JsString("")
  {
  }

  /** Submitting an untouched draft of a fully defined transaction sends the transaction's own fields. */
  lemma UntouchedDraftBody(t: TransactionJson)
    requires t.methodID != JsUndefined && t.kind != JsUndefined && t.repeatInterval != JsUndefined
    requires t.category != JsUndefined && t.amount != JsUndefined
    ensures Stringify(Seed(t)) == Seed(t)
    ensures forall i :: 0 <= i < |EditFields| ==> Field(Stringify(Seed(t)), EditFields[i]) == Field(Seed(t), EditFields[i])
  {
    StringifyDefined(Seed(t));
  }

  /** The URL of the edit request for a transaction. */
  function EditUrl(id: nat): (url: string)
    ensures "/edit_transaction/" <= url
    ensures url[|"/edit_transaction/"|..] == NatToString(id)
  {
    "/edit_transaction/" + NatToString(id)
  }

  /** Distinct transactions are edited at distinct URLs. */
  lemma EditUrlInjective(a: nat, b: nat)
    requires EditUrl(a) == EditUrl(b)
    ensures a == b
  {
    assert NatToString(a) == EditUrl(a)[|"/edit_transaction/"|..];
    assert NatToString(b) == EditUrl(b)[|"/edit_transaction/"|..];
    NatToStringInjective(a, b);
  }

  /** `capitalizeFirstLetter`: `s.charAt(0).toUpperCase() + s.slice(1)`. */
  function CapitalizeFirstLetter(s: string): (r: string)
    ensures |r| == |s|
    ensures |s| > 0 ==> r[1..] == s[1..]
    ensures |s| > 0 ==> !('a' <= r[0] <= 'z')
    ensures |s| > 0 && !('a' <= s[0] <= 'z') ==> r == s
    ensures |s| > 0 && 'a' <= s[0] <= 'z' ==> r[0] as int == s[0] as int - 32
  {
    if s == "" then "" else [ToUpperAscii(s[0])] + s[1..]
  }

  /** Capitalizing twice is capitalizing once. */
  lemma CapitalizeIdempotent(s: string)
    ensures CapitalizeFirstLetter(CapitalizeFirstLetter(s)) == CapitalizeFirstLetter(s)
  {
  }

  /**
   * The state of one row. The transaction and the anti-forgery token are
   * fixed for the row's lifetime; `requests` records the fetches issued and
   * `editedCallbacks` counts the calls of `onTransactionEdited`.
   */
  class TransactionTableRow {
    const transaction: TransactionJson
    const csrfToken: Option<string>
    var editMode: bool
    var formState: map<string, JsValue>
    var requests: seq<Request>
    var editedCallbacks: nat

    /** A row starts in view mode with its draft equal to the transaction's fields. */
    constructor (transaction: TransactionJson, csrfToken: Option<string>)
      ensures this.transaction == transaction && this.csrfToken == csrfToken
      ensures !editMode && formState == Seed(transaction)
      ensures requests == [] && editedCallbacks == 0
    {
      this.transaction := transaction;
      this.csrfToken := csrfToken;
      editMode := false;
      formState := Seed(transaction);
      requests := [];
      editedCallbacks := 0;
    }

    /** The Edit button and the cancel button: flip the mode, leave the draft alone. */
    method ToggleEditMode()
      modifies this
      ensures editMode == !old(editMode)
      ensures formState == old(formState)
      ensures requests == old(requests) && editedCallbacks == old(editedCallbacks)
    {
      editMode := !editMode;
    }

    /** An input's change event: set the named key to the input's string value. */
    method HandleChange(name: string, value: string)
      modifies this
      ensures formState == old(formState)[name := JsString(value)]
      ensures formState.Keys == old(formState).Keys + {name}
      ensures forall k :: k in old(formState) && k != name ==> formState[k] == old(formState)[k]
      ensures editMode == old(editMode) && requests == old(requests) && editedCallbacks == old(editedCallbacks)
    {
      formState := formState[name := JsString(value)];
    }

    /**
     * The confirm button (shown only in edit mode). A blocked draft issues
     * nothing. Otherwise one POST carries the draft; when the response is ok
     * the draft goes back to the transaction's values, the row to view mode,
     * and the parent is notified; when it is not, nothing else changes.
     */
    method HandleEdit(responseOk: bool)
      requires editMode
      modifies this
      ensures EditBlocked(old(formState)) ==>
        editMode && formState == old(formState) && requests == old(requests) && editedCallbacks == old(editedCallbacks)
      ensures !EditBlocked(old(formState)) ==>
        requests == old(requests) + [Post(EditUrl(transaction.id), csrfToken, Stringify(old(formState)))]
      ensures !EditBlocked(old(formState)) && responseOk ==>
        !editMode && formState == Seed(transaction) && editedCallbacks == old(editedCallbacks) + 1
      ensures !EditBlocked(old(formState)) && !responseOk ==>
        editMode && formState == old(formState) && editedCallbacks == old(editedCallbacks)
    {
      if Field(formState, "methodID") == JsString("") || Field(formState, "type") == JsString("")
         || Field(formState, "repeat_interval") == JsString("") || Field(formState, "category") == JsString("")
         || Field(formState, "amount") == JsString("")
      {
        return;
      }
      requests := requests + [Post(EditUrl(transaction.id), csrfToken, Stringify(formState))];
      if responseOk {
        formState := Seed(transaction);
        editMode := !editMode;
        editedCallbacks := editedCallbacks + 1;
      }
    }
  }

  /** Cancelling an edit and editing again shows the draft as it was left. */
  method CancelKeepsDraft(t: TransactionJson, name: string, value: string)
  {
    var row := new TransactionTableRow(t, None);
    row.ToggleEditMode();
    row.HandleChange(name, value);
    var draft := row.formState;
    row.ToggleEditMode();
    row.ToggleEditMode();
    assert row.editMode && row.formState == draft && draft[name] == JsString(value);
    assert row.requests == [];
  }

  /** Editing the amount of transaction 9 to "15" posts once to /edit_transaction/9, then returns to view mode. */
  method EditAmountScenario()
  {
    var t := TransactionJson(9, JsNumber(1), JsString("expense"), JsString("none"), JsString("food"), JsNumber(12));
    var row := new TransactionTableRow(t, Some("token"));
    row.ToggleEditMode();
    row.HandleChange("amount", "15");
    assert !EditBlocked(row.formState);
    row.HandleEdit(true);
    assert |row.requests| == 1;
    assert NatToString(9) == "9";
    assert row.requests[0].url == "/edit_transaction/9";
    assert row.requests[0].body["amount"] == JsString("15");
    assert row.requests[0].body["type"] == JsString("expense");
    assert !row.editMode && row.formState == Seed(t) && row.editedCallbacks == 1;
  }

  /** A draft with an empty field issues no request and stays in edit mode. */
  method EmptyFieldScenario(t: TransactionJson, responseOk: bool)
  {
    var row := new TransactionTableRow(t, None);
    row.ToggleEditMode();
    row.HandleChange("category", "");
    assert EditBlocked(row.formState);
    row.HandleEdit(responseOk);
    assert row.requests == [] && row.editMode;
  }
}
