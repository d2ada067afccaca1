/**
 * The values the client keeps in component state and the requests it
 * issues. A request is recorded, not performed: its outcome is a parameter
 * of the operation that issues it.
 */
module Http {
  import opened Wrappers

  /** A JSON-ish JavaScript value as it arrives from the server or an input. */
  datatype JsValue = JsString(s: string) | JsNumber(n: int) | JsNull | JsUndefined

  /** A recorded `fetch`: a GET, or a POST with its anti-forgery header and JSON body. */
  datatype Request =
    | Get(url: string)
    | Post(url: string, csrfToken: Option<string>, body: map<string, JsValue>)

  /** The keys `JSON.stringify` writes: those whose value is not `undefined`. */
  function Stringify(m: map<string, JsValue>): (body: map<string, JsValue>)
    ensures forall k :: k in body <==> k in m && m[k] != JsUndefined
    ensures forall k :: k in body ==> body[k] == m[k]
  {
    map k | k in m && m[k] != JsUndefined :: m[k]
  }

  /** A state object whose values are all strings, seen as JSON. */
  function FromStrings(m: map<string, string>): (body: map<string, JsValue>)
    ensures body.Keys == m.Keys
    ensures forall k :: k in m ==> body[k] == JsString(m[k])
  {
    map k | k in m :: JsString(m[k])
  }

  /** A body with no `undefined` value is written out unchanged. */
  lemma StringifyDefined(m: map<string, JsValue>)
    requires forall k :: k in m ==> m[k] != JsUndefined
    ensures Stringify(m) == m
  {
    assert Stringify(m).Keys == m.Keys;
  }

  /** A form record of strings is sent as it stands, key for key. */
  lemma StringifyFromStrings(m: map<string, string>)
    ensures Stringify(FromStrings(m)) == FromStrings(m)
    ensures forall k :: k in Stringify(FromStrings(m)) <==> k in m
  {
    StringifyDefined(FromStrings(m));
  }

  /** Distinct form records give distinct bodies, so the body determines the record. */
  lemma FromStringsInjective(a: map<string, string>, b: map<string, string>)
    requires FromStrings(a) == FromStrings(b)
    ensures a == b
  {
    assert a.Keys == b.Keys;
    forall k | k in a ensures a[k] == b[k] {
      assert FromStrings(a)[k] == JsString(a[k]);
      assert FromStrings(b)[k] == JsString(b[k]);
    }
  }
}
