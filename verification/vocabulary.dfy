/**
 A closed vocabulary is a finite list of values, each with one canonical
 string. This module gives the reference reading of such a vocabulary: a
 fixed table searched front to back for a string. The per-enum parsers are
 proved to agree with it.
 */
module Vocabulary {
  import opened Results

  /** strum's `ParseError::VariantNotFound`: the failure of a derived
      `from_str`. It carries no copy of the rejected string. */
  datatype ParseError = VariantNotFound

  /** A canonical spelling: non-empty, lower-case ASCII letters and underscores. */
  predicate SnakeCase(s: string)
  {
    && |s| > 0
    && forall i :: 0 <= i < |s| ==> ('a' <= s[i] <= 'z' || s[i] == '_')
  }

  /** The canonical strings of `values` are pairwise distinct. */
  predicate Distinct<T>(values: seq<T>, show: T -> string)
  {
    forall i, j :: 0 <= i < j < |values| ==> show(values[i]) != show(values[j])
  }

  /** `s` is the canonical string of some value in the table. */
  predicate Listed<T>(values: seq<T>, show: T -> string, s: string)
  {
    exists i :: 0 <= i < |values| && show(values[i]) == s
  }

  /** The first value of the table whose canonical string is `s`, if any. */
  function Lookup<T>(values: seq<T>, show: T -> string, s: string): (r: Option<T>)
    ensures r.Some? ==> r.value in values && show(r.value) == s
    ensures r.None? <==> !Listed(values, show, s)
  {
    if values == [] then None
    else if show(values[0]) == s then Some(values[0])
    else
      var rest := Lookup(values[1..], show, s);
      assert Listed(values, show, s) ==> Listed(values[1..], show, s) by {
        if Listed(values, show, s) {
          var i :| 0 <= i < |values| && show(values[i]) == s;
          assert i > 0 && show(values[1..][i - 1]) == s;
        }
      }
      assert Listed(values[1..], show, s) ==> Listed(values, show, s) by {
        if Listed(values[1..], show, s) {
          var i :| 0 <= i < |values[1..]| && show(values[1..][i]) == s;
          assert show(values[i + 1]) == s;
        }
      }
      rest
  }

  /** With distinct canonical strings, looking up a value's string finds that value. */
  lemma LookupShow<T>(values: seq<T>, show: T -> string, t: T)
    requires Distinct(values, show)
    requires t in values
    ensures Lookup(values, show, show(t)) == Some(t)
  {
  }

  /** The table-driven parser: a string maps to the value it names, or to
      `VariantNotFound` when no entry carries it. */
  function ParseByTable<T>(values: seq<T>, show: T -> string, s: string): (r: Result<T, ParseError>)
    ensures r.Success? ==> r.value in values && show(r.value) == s
    ensures r.Failure? <==> !Listed(values, show, s)
  {
    match Lookup(values, show, s)
    case Some(t) => Success(t)
    case None => Failure(VariantNotFound)
  }

  /** On a table with distinct strings, the table parser inverts `show`
      exactly: it succeeds with `t` iff `s` is the string of `t`. */
  lemma TableParseInvertsShow<T>(values: seq<T>, show: T -> string, s: string, t: T)
    requires Distinct(values, show)
    requires t in values
    ensures ParseByTable(values, show, s) == Success(t) <==> show(t) == s
  {
  }
}
