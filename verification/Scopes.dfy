/** Scope strings and the stored list columns of a client. */
module Scopes {
  import opened Tables
  import opened Text

  const DEFAULT_SCOPES := ["openid", "profile", "email"]

  function NormalizeScopes(scope: string): (ws: seq<string>)
    ensures forall w :: w in ws ==> IsWord(w)
  {
    if scope == "" then DEFAULT_SCOPES else Words(scope)
  }

  /** Joining what a scope string parses to, and parsing again, gives the same list exactly when that list is
      not empty: a scope of nothing but spaces parses to no scopes, and their join to the defaults. */
  lemma ScopeRoundTrip(scope: string)
    ensures NormalizeScopes(Join(NormalizeScopes(scope))) == NormalizeScopes(scope) <==> NormalizeScopes(scope) != []
  {
    var ws := NormalizeScopes(scope);
    if ws != [] {
      WordsOfJoin(ws);
      assert ws[0] in ws;
      assert ws[0] <= Join(ws);
    }
  }

  /** Which scope strings those are: the empty one and those with some non-space character. */
  lemma {:induction false} ScopesParse(scope: string)
    ensures NormalizeScopes(scope) != [] <==> scope == "" || exists i :: 0 <= i < |scope| && !IsSpace(scope[i])
  {
    if scope == "" {
    } else {
      WordsExist(scope);
    }
  }

  lemma {:induction false} WordsExist(s: string)
    ensures Words(s) != [] <==> exists i :: 0 <= i < |s| && !IsSpace(s[i])
  {
    if s != "" && IsSpace(s[0]) {
      WordsExist(s[1..]);
      if i :| 0 <= i < |s| && !IsSpace(s[i]) {
        assert s[1..][i - 1] == s[i];
      }
      if j :| 0 <= j < |s[1..]| && !IsSpace(s[1..][j]) {
        assert s[j + 1] == s[1..][j];
      }
    }
  }

  /** `_load_list` of the bootstrap and `_parse_redirect_uris`: entries stripped, blanks dropped. */
  function LoadList(raw: StoredList): (xs: seq<string>)
    ensures forall x :: x in xs ==> x != "" && Trimmed(x)
  {
    match raw
    case JsonList(items) => NonBlank(items)
    case PlainText(text) => ListItems(text)
  }

  /** `_load_list` of the client administration: blanks dropped, JSON entries not stripped. */
  function LoadListVerbatim(raw: StoredList): seq<string> {
    match raw
    case JsonList(items) => KeepNonBlank(items)
    case PlainText(text) => ListItems(text)
  }

  function KeepNonBlank(xs: seq<string>): seq<string> {
    if xs == [] then [] else (if Strip(xs[0]) == "" then [] else [xs[0]]) + KeepNonBlank(xs[1..])
  }
}
