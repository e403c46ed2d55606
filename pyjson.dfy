/**
 * The values `json.loads` produces, with the few Python operations the
 * client applies to them: truthiness, `.get`, comparison with an int and `str()`.
 */
module PyJson {
  import opened Base
  import opened Text

  datatype Json =
    | JNull
    | JBool(b: bool)
    | JInt(i: int)
    | JStr(s: string)
    | JList(items: seq<Json>)
    | JObj(fields: seq<(string, Json)>)

  /** Python truthiness: None, False, 0, "" and empty containers are false. */
  predicate Truthy(j: Json) {
    match j
    case JNull => false
    case JBool(b) => b
    case JInt(i) => i != 0
    case JStr(s) => s != ""
    case JList(items) => items != []
    case JObj(fields) => fields != []
  }

  predicate HasKey(j: Json, k: string) {
    j.JObj? && exists i :: 0 <= i < |j.fields| && j.fields[i].0 == k
  }

  function FieldGet(fields: seq<(string, Json)>, k: string): (r: Option<Json>)
    ensures r.Some? <==> exists i :: 0 <= i < |fields| && fields[i].0 == k
  {
    if fields == [] then None
    else if fields[0].0 == k then Some(fields[0].1)
    else
      var r := FieldGet(fields[1..], k);
      assert forall i :: 1 <= i < |fields| ==> fields[1..][i - 1] == fields[i];
      r
  }

  /** Fields before the first with key `k` do not matter to the lookup. */
  lemma {:induction false} FieldGetSkip(pre: seq<(string, Json)>, rest: seq<(string, Json)>, k: string)
    requires forall i :: 0 <= i < |pre| ==> pre[i].0 != k
    ensures FieldGet(pre + rest, k) == FieldGet(rest, k)
  {
    if pre == [] {
      assert pre + rest == rest;
    } else {
      FieldGetSkip(pre[1..], rest, k);
      assert (pre + rest)[0] == pre[0];
      assert (pre + rest)[1..] == pre[1..] + rest;
    }
  }

  /** The lookup finds the first field with key `k`. */
  lemma {:induction false} FieldGetAt(fields: seq<(string, Json)>, i: nat, k: string)
    requires i < |fields| && fields[i].0 == k
    requires forall j :: 0 <= j < i ==> fields[j].0 != k
    ensures FieldGet(fields, k) == Some(fields[i].1)
  {
    if i > 0 {
      FieldGetAt(fields[1..], i - 1, k);
    }
  }

  /**
   * `j.get(k)` on a dict, where an absent key reads as None; anything that is not a
   * dict is treated as having no keys (the callers guard with `isinstance` or catch).
   */
  function Get(j: Json, k: string): (r: Json)
    ensures !HasKey(j, k) ==> r == JNull
  {
    if j.JObj? then (match FieldGet(j.fields, k) case Some(v) => v case None => JNull)
    else JNull
  }

  /** `j.get(k) or default`. */
  function GetOr(j: Json, k: string, default: Json): (r: Json)
    ensures Truthy(Get(j, k)) ==> r == Get(j, k)
    ensures !Truthy(Get(j, k)) ==> r == default
  {
    var v := Get(j, k);
    if Truthy(v) then v else default
  }

  /** `j.get(k, default)`: the default only when the key is absent. */
  function GetDefault(j: Json, k: string, default: Json): Json {
    if HasKey(j, k) then Get(j, k) else default
  }

  /** Python `j == n` for an int `n`: `True == 1` and `False == 0` hold in Python. */
  predicate EqInt(j: Json, n: int) {
    match j
    case JInt(i) => i == n
    case JBool(b) => (if b then 1 else 0) == n
    case _ => false
  }

  /** `str(j)`: strings as they are, scalars as Python prints them, containers as their repr. */
  function Str(j: Json): string {
    match j
    case JStr(s) => s
    case _ => Repr(j)
  }

  function Repr(j: Json): string
    decreases j, 1
  {
    match j
    case JNull => "None"
    case JBool(b) => if b then "True" else "False"
    case JInt(i) => IntToString(i)
    case JStr(s) => "'" + s + "'"
    case JList(items) => "[" + ReprItems(j, items) + "]"
    case JObj(fields) => "{" + ReprFields(j, fields) + "}"
  }

  function ReprItems(ghost parent: Json, items: seq<Json>): string
    requires forall x | x in items :: x < parent
    decreases parent, 0, |items|
  {
    if items == [] then ""
    else
      assert items[0] in items;
      assert forall x | x in items[1..] :: x in items;
      Repr(items[0]) + (if |items| > 1 then ", " else "") + ReprItems(parent, items[1..])
  }

  function ReprFields(ghost parent: Json, fields: seq<(string, Json)>): string
    requires forall f | f in fields :: f.1 < parent
    decreases parent, 0, |fields|
  {
    if fields == [] then ""
    else
      assert fields[0] in fields;
      assert forall f | f in fields[1..] :: f in fields;
      "'" + fields[0].0 + "': " + Repr(fields[0].1) + (if |fields| > 1 then ", " else "")
        + ReprFields(parent, fields[1..])
  }
}
