/**
 * `getCookie(name)`: the value of the first `;`-separated cookie entry
 * that, once trimmed, begins with `name=`. The cookie string is a
 * parameter (it is `document.cookie` in the page) and so is the decoder
 * applied to the value (`decodeURIComponent`).
 */
module Cookie {
  import opened Wrappers
  import opened Strings

  /** `cookie.substring(0, name.length + 1) === (name + '=')`. */
  predicate Matches(entry: string, name: string)
  {
    Substring(entry, 0, |name| + 1) == name + "="
  }

  /** The test is a prefix test on `name=`. */
  lemma MatchesIsPrefix(entry: string, name: string)
    ensures Matches(entry, name) <==> name + "=" <= entry
  {
    SubstringPrefix(entry, name + "=");
  }

  /** `decodeURIComponent(cookie.substring(name.length + 1))`. */
  function EntryValue(entry: string, name: string, decode: string -> string): string
  {
    decode(Substring(entry, |name| + 1, |entry|))
  }

  /** The value of the first matching trimmed entry, if any. */
  function FirstMatch(entries: seq<string>, name: string, decode: string -> string): Option<string>
    decreases |entries|
  {
    if entries == [] then None
    else if Matches(Trim(entries[0]), name) then Some(EntryValue(Trim(entries[0]), name, decode))
    else FirstMatch(entries[1..], name, decode)
  }

  /** What `getCookie` returns for a given cookie string. */
  function Lookup(cookie: string, name: string, decode: string -> string): Option<string>
  {
    if cookie == "" then None else FirstMatch(Split(cookie, ';'), name, decode)
  }

  /** The loop of getCookie: scan the entries, stop at the first match. */
  method GetCookie(cookie: string, name: string, decode: string -> string) returns (cookieValue: Option<string>)
    ensures cookieValue == Lookup(cookie, name, decode)
  {
    cookieValue := None;
    if cookie != "" {
      var cookies := Split(cookie, ';');
      var i := 0;
      while i < |cookies|
        invariant 0 <= i <= |cookies|
        invariant FirstMatch(cookies, name, decode) == FirstMatch(cookies[i..], name, decode)
      {
        var entry := Trim(cookies[i]);
        if Substring(entry, 0, |name| + 1) == name + "=" {
          cookieValue := Some(decode(Substring(entry, |name| + 1, |entry|)));
          break;
        }
        assert cookies[i..][1..] == cookies[i + 1..];
        i := i + 1;
      }
      assert i == |cookies| ==> cookies[i..] == [];
    }
  }

  /** Entry i matches and no entry before it does. */
  predicate IsFirstMatchAt(entries: seq<string>, name: string, i: int)
  {
    0 <= i < |entries| && Matches(Trim(entries[i]), name)
    && forall j :: 0 <= j < i ==> !Matches(Trim(entries[j]), name)
  }

  /** When entry i is the first match, FirstMatch returns its value. */
  lemma {:induction false} FirstMatchAt(entries: seq<string>, name: string, decode: string -> string, i: int)
    requires IsFirstMatchAt(entries, name, i)
    ensures FirstMatch(entries, name, decode) == Some(EntryValue(Trim(entries[i]), name, decode))
    decreases i
  {
    if i > 0 {
      assert !Matches(Trim(entries[0]), name);
      var rest := entries[1..];
      assert rest[i - 1] == entries[i];
      forall j | 0 <= j < i - 1 ensures !Matches(Trim(rest[j]), name) {
        assert rest[j] == entries[j + 1];
      }
      FirstMatchAt(rest, name, decode, i - 1);
    }
  }

  /** A value found by FirstMatch comes from the first matching entry. */
  lemma {:induction false} FirstMatchFound(entries: seq<string>, name: string, decode: string -> string)
    requires FirstMatch(entries, name, decode).Some?
    ensures exists i :: IsFirstMatchAt(entries, name, i)
              && FirstMatch(entries, name, decode).value == EntryValue(Trim(entries[i]), name, decode)
    decreases |entries|
  {
    if Matches(Trim(entries[0]), name) {
      assert IsFirstMatchAt(entries, name, 0);
    } else {
      var rest := entries[1..];
      FirstMatchFound(rest, name, decode);
      var i :| IsFirstMatchAt(rest, name, i)
               && FirstMatch(rest, name, decode).value == EntryValue(Trim(rest[i]), name, decode);
      assert rest[i] == entries[i + 1];
      forall j | 0 <= j < i + 1 ensures !Matches(Trim(entries[j]), name) {
        if j > 0 { assert entries[j] == rest[j - 1]; }
      }
      assert IsFirstMatchAt(entries, name, i + 1);
    }
  }

  /** No trimmed entry begins with `name=`. */
  predicate NoneMatch(entries: seq<string>, name: string)
  {
    forall i :: 0 <= i < |entries| ==> !Matches(Trim(entries[i]), name)
  }

  /** The first trimmed entry that begins with `name=` decodes to v. */
  predicate FirstValueIs(entries: seq<string>, name: string, decode: string -> string, v: string)
  {
    exists i :: 0 <= i < |entries| && IsFirstMatchAt(entries, name, i) && v == EntryValue(Trim(entries[i]), name, decode)
  }

  /** FirstMatch finds nothing exactly when no entry matches. */
  lemma {:induction false} FirstMatchNone(entries: seq<string>, name: string, decode: string -> string)
    ensures FirstMatch(entries, name, decode) == None <==> NoneMatch(entries, name)
    decreases |entries|
  {
    if entries != [] {
      var rest := entries[1..];
      FirstMatchNone(rest, name, decode);
      if !Matches(Trim(entries[0]), name) {
        if NoneMatch(rest, name) {
          forall i | 0 < i < |entries| ensures !Matches(Trim(entries[i]), name) {
            assert entries[i] == rest[i - 1];
          }
        }
        if NoneMatch(entries, name) {
          forall i | 0 <= i < |rest| ensures !Matches(Trim(rest[i]), name) {
            assert rest[i] == entries[i + 1];
          }
        }
      } else {
        assert !NoneMatch(entries, name);
      }
    }
  }

  /** getCookie returns v exactly when the cookie is non-empty and v is the decoded value of the first matching entry. */
  lemma LookupSome(cookie: string, name: string, decode: string -> string, v: string)
    ensures Lookup(cookie, name, decode) == Some(v) <==>
      cookie != "" && FirstValueIs(Split(cookie, ';'), name, decode, v)
  {
    if cookie != "" {
      var entries := Split(cookie, ';');
      if Lookup(cookie, name, decode).Some? {
        FirstMatchFound(entries, name, decode);
      }
      if FirstValueIs(entries, name, decode, v) {
        var i :| IsFirstMatchAt(entries, name, i) && v == EntryValue(Trim(entries[i]), name, decode);
        FirstMatchAt(entries, name, decode, i);
      }
    }
  }

  /** getCookie returns null exactly when the cookie string is empty or no entry matches. */
  lemma LookupNone(cookie: string, name: string, decode: string -> string)
    ensures Lookup(cookie, name, decode) == None <==> cookie == "" || NoneMatch(Split(cookie, ';'), name)
  {
    if cookie != "" {
      FirstMatchNone(Split(cookie, ';'), name, decode);
    }
  }

  /** The empty-string guard changes nothing: the one empty entry of "" never matches. */
  lemma EmptyCookieHasNoMatch(name: string, decode: string -> string)
    ensures FirstMatch(Split("", ';'), name, decode) == None
  {
    assert Split("", ';') == [""];
    assert Trim("") == "";
    assert Substring("", 0, |name| + 1) == "";
  }

  /** Only the first matching entry counts: a later entry for the same name is ignored. */
  lemma FirstEntryWins(before: seq<string>, first: string, after: seq<string>, name: string, decode: string -> string)
    requires forall j :: 0 <= j < |before| ==> !Matches(Trim(before[j]), name)
    requires Matches(Trim(first), name)
    ensures FirstMatch(before + [first] + after, name, decode) == Some(EntryValue(Trim(first), name, decode))
  {
    var entries := before + [first] + after;
    var v := EntryValue(Trim(first), name, decode);
    assert entries[|before|] == first;
    forall j | 0 <= j < |before| ensures !Matches(Trim(entries[j]), name) {
      assert entries[j] == before[j];
    }
    FirstMatchAt(entries, name, decode, |before|);
  }
}
