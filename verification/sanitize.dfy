/**
  The JSON clean-up of the request body (`process_json_value` and `process_json`).

  A JSON document is a tree: objects keep their members in order, arrays their
  elements. Python's `None` is `Null`.
 */
module Sanitize {
  import opened Text

  datatype Json =
    | Null
    | Bool(b: bool)
    | Number(n: int)
    | Str(s: string)
    | Object(members: seq<(string, Json)>)
    | Array(items: seq<Json>)

  /** A string value with every `nan`, then every `None`, then every `null` removed, then stripped. */
  function CleanText(s: string): string {
    Strip(RemoveAll(RemoveAll(RemoveAll(s, "nan"), "None"), "null"))
  }

  /** `process_json_value`: `None` becomes the empty string, strings are cleaned, anything else is kept. */
  function ProcessValue(v: Json): (r: Json)
    ensures v.Null? ==> r == Str("")
    ensures v.Str? ==> r == Str(CleanText(v.s))
    ensures !v.Null? && !v.Str? ==> r == v
  {
    match v
    case Null => Str("")
    case Str(s) => Str(CleanText(s))
    case _ => v
  }

  /** The value `process_json` leaves in a member or element that held `v`. */
  function SanitizedChild(v: Json): Json
    decreases v, 3
  {
    match v
    case Object(_) => Sanitized(v)
    case Array(_) => Sanitized(v)
    case _ => ProcessValue(v)
  }

  /**
    What `process_json` makes of a document: every member of an object and every
    element of an array is processed and then cleaned in its turn; anything else is
    left alone.
   */
  function Sanitized(j: Json): Json
    decreases j, 2
  {
    match j
    case Object(members) => Object(SanitizedMembers(j, |members|))
    case Array(items) => Array(SanitizedItems(j, |items|))
    case _ => j
  }

  /** The first `n` members of object `j`, each sanitized. */
  function SanitizedMembers(j: Json, n: nat): (r: seq<(string, Json)>)
    requires j.Object? && n <= |j.members|
    decreases j, 1, n
    ensures |r| == n
  {
    if n == 0 then []
    else SanitizedMembers(j, n - 1) + [(j.members[n - 1].0, SanitizedChild(j.members[n - 1].1))]
  }

  /** The first `n` elements of array `j`, each sanitized. */
  function SanitizedItems(j: Json, n: nat): (r: seq<Json>)
    requires j.Array? && n <= |j.items|
    decreases j, 1, n
    ensures |r| == n
  {
    if n == 0 then []
    else SanitizedItems(j, n - 1) + [SanitizedChild(j.items[n - 1])]
  }

  lemma {:induction false} SanitizedMembersAt(j: Json, n: nat, i: nat)
    requires j.Object? && n <= |j.members| && i < n
    ensures SanitizedMembers(j, n)[i] == (j.members[i].0, SanitizedChild(j.members[i].1))
  {
    if i < n - 1 {
      SanitizedMembersAt(j, n - 1, i);
    }
  }

  lemma {:induction false} SanitizedItemsAt(j: Json, n: nat, i: nat)
    requires j.Array? && n <= |j.items| && i < n
    ensures SanitizedItems(j, n)[i] == SanitizedChild(j.items[i])
  {
    if i < n - 1 {
      SanitizedItemsAt(j, n - 1, i);
    }
  }

  /** `process_json(process_json_value(v))`, as the loops of `process_json` apply them to each child. */
  lemma ChildIsProcessedThenSanitized(v: Json)
    ensures SanitizedChild(v) == Sanitized(ProcessValue(v))
  {
    match v
    case Null =>
      assert Sanitized(Str("")) == Str("");
    case Str(s) =>
      assert Sanitized(Str(CleanText(s))) == Str(CleanText(s));
    case _ =>
  }

  /** The same shape: objects keep their keys in order, arrays their lengths; scalars stay scalars. */
  predicate SameShape(a: Json, b: Json)
    decreases a
  {
    match a
    case Object(ms) =>
      b.Object? && |b.members| == |ms| &&
      forall i :: 0 <= i < |ms| ==> b.members[i].0 == ms[i].0 && SameShape(ms[i].1, b.members[i].1)
    case Array(xs) =>
      b.Array? && |b.items| == |xs| &&
      forall i :: 0 <= i < |xs| ==> SameShape(xs[i], b.items[i])
    case _ => !b.Object? && !b.Array?
  }

  /** `process_json` keeps the key set and order of every object and the length of every array. */
  lemma {:induction false} SanitizedKeepsShape(j: Json)
    decreases j, 2
    ensures SameShape(j, Sanitized(j))
  {
    match j
    case Object(ms) =>
      forall i | 0 <= i < |ms|
        ensures Sanitized(j).members[i].0 == ms[i].0 && SameShape(ms[i].1, Sanitized(j).members[i].1)
      {
        SanitizedMembersAt(j, |ms|, i);
        ChildKeepsShape(ms[i].1);
      }
    case Array(xs) =>
      forall i | 0 <= i < |xs|
        ensures SameShape(xs[i], Sanitized(j).items[i])
      {
        SanitizedItemsAt(j, |xs|, i);
        ChildKeepsShape(xs[i]);
      }
    case _ =>
  }

  lemma {:induction false} ChildKeepsShape(v: Json)
    decreases v, 3
    ensures SameShape(v, SanitizedChild(v))
  {
    match v
    case Object(_) => SanitizedKeepsShape(v);
    case Array(_) => SanitizedKeepsShape(v);
    case _ =>
  }

  /** No member or element below the top is `null`, and every string there is stripped. */
  predicate Clean(j: Json)
    decreases j, 0
  {
    match j
    case Object(ms) => forall i :: 0 <= i < |ms| ==> CleanChild(ms[i].1)
    case Array(xs) => forall i :: 0 <= i < |xs| ==> CleanChild(xs[i])
    case _ => true
  }

  predicate CleanChild(v: Json)
    decreases v, 1
  {
    match v
    case Null => false
    case Str(s) => s == [] || (!IsSpace(s[0]) && !IsSpace(s[|s| - 1]))
    case _ => Clean(v)
  }

  /** After `process_json` no nested value is `null` and no nested string has surrounding whitespace. */
  lemma {:induction false} SanitizedIsClean(j: Json)
    decreases j, 2
    ensures Clean(Sanitized(j))
  {
    match j
    case Object(ms) =>
      forall i | 0 <= i < |ms|
        ensures CleanChild(Sanitized(j).members[i].1)
      {
        SanitizedMembersAt(j, |ms|, i);
        ChildIsClean(ms[i].1);
      }
    case Array(xs) =>
      forall i | 0 <= i < |xs|
        ensures CleanChild(Sanitized(j).items[i])
      {
        SanitizedItemsAt(j, |xs|, i);
        ChildIsClean(xs[i]);
      }
    case _ =>
  }

  lemma {:induction false} ChildIsClean(v: Json)
    decreases v, 3
    ensures CleanChild(SanitizedChild(v))
  {
    match v
    case Object(_) => SanitizedIsClean(v);
    case Array(_) => SanitizedIsClean(v);
    case _ =>
  }

  /**
    `process_json`: rewrites each member of an object and each element of an array
    with `process_json_value`, in order, and cleans the rewritten value in its turn.
   */
  method ProcessJson(j: Json) returns (r: Json)
    decreases j
    ensures r == Sanitized(j)
  {
    match j
    case Object(members) =>
      var out: seq<(string, Json)> := [];
      for i := 0 to |members|
        invariant out == SanitizedMembers(j, i)
      {
        var value := ProcessValue(members[i].1);
        if value.Object? || value.Array? {
          value := ProcessJson(members[i].1);
        }
        out := out + [(members[i].0, value)];
      }
      return Object(out);
    case Array(items) =>
      var out: seq<Json> := [];
      for i := 0 to |items|
        invariant out == SanitizedItems(j, i)
      {
        var value := ProcessValue(items[i]);
        if value.Object? || value.Array? {
          value := ProcessJson(items[i]);
        }
        out := out + [value];
      }
      return Array(out);
    case _ =>
      return j;
  }

  /**
    Removal runs left to right in one pass, so it can join the letters around a
    removed `nan` into a new one: the first replace of the clean-up is not
    idempotent.
   */
  lemma NanRemovalNotIdempotent()
    ensures RemoveAll("nnanan", "nan") == "nan"
    ensures RemoveAll(RemoveAll("nnanan", "nan"), "nan") == ""
  {
    assert RemoveAll("nanan", "nan") == "an" by {
      assert "nanan"[..3] == "nan";
      assert "nanan"[3..] == "an";
    }
    assert "nnanan"[..3] != "nan" by {
      assert "nnanan"[..3][1] != "nan"[1];
    }
    assert "nnanan"[1..] == "nanan";
    assert "nan"[..3] == "nan";
    assert "nan"[3..] == "";
  }

  /** `nan` is removed wherever it occurs, inside other words too. */
  lemma NanRemovedInsideWords()
    ensures RemoveAll("Finance", "nan") == "Fice"
  {
    assert RemoveAll("nance", "nan") == "ce" by {
      assert "nance"[..3] == "nan";
      assert "nance"[3..] == "ce";
    }
    assert RemoveAll("inance", "nan") == "ice" by {
      assert "inance"[..3] != "nan" by {
        assert "inance"[..3][0] != "nan"[0];
      }
      assert "inance"[1..] == "nance";
    }
    assert "Finance"[..3] != "nan" by {
      assert "Finance"[..3][0] != "nan"[0];
    }
    assert "Finance"[1..] == "inance";
  }
}
