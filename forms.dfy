/**
 * The two creation forms. Each keeps a record of string fields that every
 * input's change event updates one key at a time, checks that no field is
 * empty before it posts, and resets to its defaults when the post succeeds.
 */
module Forms {
  import opened Wrappers
  import opened Http

  /** The fields of the add-transaction form. */
  const TransactionFields: set<string> := {"type", "category", "paymentMethod", "amount", "repetition"}

  /** The add-transaction form's initial and post-success state. */
  const TransactionDefaults: map<string, string> :=
    map["type" := "", "category" := "", "paymentMethod" := "", "amount" := "", "repetition" := "none"]

  /** createTransaction's guard, field by field. */
  predicate ReadyToRegister(state: map<string, string>)
    requires TransactionFields <= state.Keys
  {
    state["type"] != "" && state["category"] != "" && state["paymentMethod"] != ""
    && state["amount"] != "" && state["repetition"] != ""
  }

  /** The guard holds exactly when none of the five fields is empty. */
  lemma ReadyToRegisterIff(state: map<string, string>)
    requires TransactionFields <= state.Keys
    ensures ReadyToRegister(state) <==> forall f :: f in TransactionFields ==> state[f] != ""
  {
  }

  /** After a reset the form cannot be posted again until type, category, method and amount are chosen. */
  lemma DefaultsNotReady()
    ensures TransactionFields <= TransactionDefaults.Keys
    ensures !ReadyToRegister(TransactionDefaults)
    ensures TransactionDefaults["repetition"] == "none"
  {
  }

  /** The add-transaction form: its field record, the repeating switch, and the recorded posts. */
  class TransactionForm {
    const csrfToken: Option<string>
    var state: map<string, string>
    var checked: bool
    var requests: seq<Request>
    var addedCallbacks: nat

    ghost predicate Valid()
      reads this
    {
      TransactionFields <= state.Keys
    }

    constructor (csrfToken: Option<string>)
      ensures Valid()
      ensures this.csrfToken == csrfToken && state == TransactionDefaults && !checked
      ensures requests == [] && addedCallbacks == 0
    {
      this.csrfToken := csrfToken;
      state := TransactionDefaults;
      checked := false;
      requests := [];
      addedCallbacks := 0;
    }

    /** An input's change event: exactly the named field takes the new value. */
    method HandleChange(name: string, value: string)
      requires Valid()
      modifies this
      ensures Valid()
      ensures state == old(state)[name := value]
      ensures forall k :: k in old(state) && k != name ==> state[k] == old(state)[k]
      ensures checked == old(checked) && requests == old(requests) && addedCallbacks == old(addedCallbacks)
    {
      state := state[name := value];
    }

    /** The repeating switch: flips `checked` only; `repetition` keeps its value. */
    method HandleCheck()
      modifies this
      ensures checked == !old(checked)
      ensures state == old(state) && requests == old(requests) && addedCallbacks == old(addedCallbacks)
    {
      checked := !checked;
    }

    /**
     * The submit button: posts the whole record if no field is empty; when
     * the response is ok, resets the record and the switch and notifies the parent.
     */
    method CreateTransaction(responseOk: bool)
      requires Valid()
      modifies this
      ensures Valid()
      ensures !ReadyToRegister(old(state)) ==>
        state == old(state) && checked == old(checked) && requests == old(requests)
        && addedCallbacks == old(addedCallbacks)
      ensures ReadyToRegister(old(state)) ==>
        requests == old(requests) + [Post("/register_transaction", csrfToken, FromStrings(old(state)))]
      ensures ReadyToRegister(old(state)) && responseOk ==>
        state == TransactionDefaults && !checked && addedCallbacks == old(addedCallbacks) + 1
      ensures ReadyToRegister(old(state)) && !responseOk ==>
        state == old(state) && checked == old(checked) && addedCallbacks == old(addedCallbacks)
    {
      if state["type"] != "" && state["category"] != "" && state["paymentMethod"] != ""
         && state["amount"] != "" && state["repetition"] != ""
      {
        requests := requests + [Post("/register_transaction", csrfToken, FromStrings(state))];
        if responseOk {
          state := TransactionDefaults;
          checked := false;
          addedCallbacks := addedCallbacks + 1;
        }
      }
    }
  }

  /** The fields of the add-method form. */
  const MethodFields: set<string> := {"methodName", "methodType", "methodProcessor"}

  /** The add-method form's initial and post-success state. */
  const MethodDefaults: map<string, string> := map["methodName" := "", "methodType" := "", "methodProcessor" := ""]

  /** createMethod's guard, field by field. */
  predicate ReadyToCreateMethod(state: map<string, string>)
    requires MethodFields <= state.Keys
  {
    state["methodName"] != "" && state["methodType"] != "" && state["methodProcessor"] != ""
  }

  /** The guard holds exactly when none of the three fields is empty. */
  lemma ReadyToCreateMethodIff(state: map<string, string>)
    requires MethodFields <= state.Keys
    ensures ReadyToCreateMethod(state) <==> forall f :: f in MethodFields ==> state[f] != ""
  {
  }

  /** The add-method form: its field record and the recorded posts. */
  class MethodForm {
    const csrfToken: Option<string>
    var state: map<string, string>
    var requests: seq<Request>
    var addedCallbacks: nat

    ghost predicate Valid()
      reads this
    {
      MethodFields <= state.Keys
    }

    constructor (csrfToken: Option<string>)
      ensures Valid()
      ensures this.csrfToken == csrfToken && state == MethodDefaults
      ensures requests == [] && addedCallbacks == 0
    {
      this.csrfToken := csrfToken;
      state := MethodDefaults;
      requests := [];
      addedCallbacks := 0;
    }

    /** An input's change event: exactly the named field takes the new value. */
    method HandleChange(name: string, value: string)
      requires Valid()
      modifies this
      ensures Valid()
      ensures state == old(state)[name := value]
      ensures forall k :: k in old(state) && k != name ==> state[k] == old(state)[k]
      ensures requests == old(requests) && addedCallbacks == old(addedCallbacks)
    {
      state := state[name := value];
    }

    /** The submit button: posts the record if no field is empty; when the response is ok, clears it. */
    method CreateMethod(responseOk: bool)
      requires Valid()
      modifies this
      ensures Valid()
      ensures !ReadyToCreateMethod(old(state)) ==>
        state == old(state) && requests == old(requests) && addedCallbacks == old(addedCallbacks)
      ensures ReadyToCreateMethod(old(state)) ==>
        requests == old(requests) + [Post("/method", csrfToken, FromStrings(old(state)))]
      ensures ReadyToCreateMethod(old(state)) && responseOk ==>
        state == MethodDefaults && addedCallbacks == old(addedCallbacks) + 1
      ensures ReadyToCreateMethod(old(state)) && !responseOk ==>
        state == old(state) && addedCallbacks == old(addedCallbacks)
    {
      if state["methodName"] != "" && state["methodType"] != "" && state["methodProcessor"] != "" {
        requests := requests + [Post("/method", csrfToken, FromStrings(state))];
        if responseOk {
          state := MethodDefaults;
          addedCallbacks := addedCallbacks + 1;
        }
      }
    }
  }

  /** Switching repetition on, choosing weekly and switching it off again still posts "weekly". */
  method RepetitionSurvivesSwitchScenario()
  {
    var form := new TransactionForm(None);
    form.HandleCheck();
    form.HandleChange("repetition", "weekly");
    form.HandleCheck();
    form.HandleChange("type", "expense");
    form.HandleChange("category", "food");
    form.HandleChange("paymentMethod", "7");
    form.HandleChange("amount", "20");
    assert !form.checked;
    assert ReadyToRegister(form.state);
    form.CreateTransaction(false);
    assert form.requests[0].body["repetition"] == JsString("weekly");
    assert form.state["amount"] == "20";
  }
}
