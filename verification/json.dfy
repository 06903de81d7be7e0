/**
  The JSON comparison of the stand-alone program (json.go): the expected document
  and the parser's output are walked together, and the first difference becomes the
  result's failure, with the dotted key path where it was found. Go ranges over maps
  in no fixed order; the model visits keys in increasing byte order, one of the
  orders Go may pick, so which of several differences is reported is fixed here.
*/
module JsonCmp {
  import opened Common
  import opened Sorting
  import opened Results

  /** A decoded JSON value: strings, other scalars (numbers, booleans, null) by their
      literal text, objects and arrays. */
  datatype Json =
    | JStr(s: string)
    | JLit(lit: string)
    | JMap(fields: map<string, Json>)
    | JArr(items: seq<Json>)

  /** `isValue`: exactly the two keys `type` and `value`. */
  predicate IsValue(m: map<string, Json>) {
    |m| == 2 && "type" in m && "value" in m
  }

  lemma IsValueKeys(m: map<string, Json>)
    ensures IsValue(m) <==> m.Keys == {"type", "value"}
  {
    var both: set<string> := {"type", "value"};
    assert "type" != "value";
    assert |both| == 2;
    assert |m| == |m.Keys|;
    if IsValue(m) {
      var rest := m.Keys - both;
      assert m.Keys == both + rest;
      assert both * rest == {};
      assert |rest| == 0;
    }
  }

  /** The first of `ks` that is not a key of `m`. */
  function FirstMissing(ks: seq<string>, m: map<string, Json>): (r: Option<string>)
    ensures r.None? <==> forall i :: 0 <= i < |ks| ==> ks[i] in m
    ensures r.Some? ==> r.value in ks && r.value !in m
  {
    if |ks| == 0 then None
    else if ks[0] !in m then Some(ks[0])
    else FirstMissing(ks[1..], m)
  }

  function Quoted(s: string): string {
    "'" + s + "'"
  }

  // ---------------------------------------------------------------- the comparison

  // The failure messages, as the program words them.
  const NotHashMap: string := " is not an hash map"
  const ValueAsHash: string := " is supposed to be a value, but the parser reports it as a hash."
  const HashAsValue: string := " is supposed to be a hash, but the parser reports it as a value."
  const MissingInOutput: string := " in parser output."
  const MissingInExpected: string := " in expected output."
  const TypeBug: string := "BUG in test case. 'type' should be a string."
  const TypeMalformed: string := "Malformed parser output. 'type' should be a string."
  const ValuesDiffer: string := "Values for key "
  const LengthsDiffer: string := "Array lengths differ for key "
  const CouldNotFind: string := "Could not find key "
  const ArrayBug: string := "BUG in test case. 'value' should be a JSON array when 'type' indicates 'array'."
  const ArrayMalformed: string := "Malformed parser output. 'value' should be a JSON array when 'type' indicates 'array'."

  /** `cmpJson`: only an expected object is compared; anything else passes. */
  function CmpJson(r: TestResult, e: Json, t: Json): TestResult
    decreases e, 2
  {
    match e
    case JMap(m) => CmpMaps(r, m, t)
    case _ => r
  }

  /** `cmpMaps`: both sides objects, both or neither `{type, value}` pairs, the same keys,
      and then every member compared under its key. */
  function CmpMaps(r: TestResult, e: map<string, Json>, t: Json): TestResult
    decreases JMap(e), 1
  {
    if !t.JMap? then
      Failedf(r, "Key " + Quoted(r.key) + NotHashMap)
    else if IsValue(e) && !IsValue(t.fields) then
      Failedf(r, "Key " + Quoted(r.key) + ValueAsHash)
    else if !IsValue(e) && IsValue(t.fields) then
      Failedf(r, "Key " + Quoted(r.key) + HashAsValue)
    else if IsValue(e) && IsValue(t.fields) then
      CmpValues(r, e, t.fields)
    else
      CmpObjects(r, e, t.fields)
  }

  /** The object case of `cmpMaps`: keys missing on either side, then the members. */
  function CmpObjects(r: TestResult, e: map<string, Json>, t: map<string, Json>): TestResult
    decreases JMap(e), 0, |e| + 1
  {
    var ek := SortSet(Bytes, e.Keys);
    var tk := SortSet(Bytes, t.Keys);
    match FirstMissing(ek, t)
    case Some(k) =>
      var bunk := Kjoin(r, k);
      Failedf(bunk, CouldNotFind + Quoted(bunk.key) + MissingInOutput)
    case None =>
      match FirstMissing(tk, e)
      case Some(k) =>
        var bunk := Kjoin(r, k);
        Failedf(bunk, CouldNotFind + Quoted(bunk.key) + MissingInExpected)
      case None =>
        CmpEach(r, e, ek, t)
  }

  /** The member loop of `cmpMaps`: the first member that differs decides. */
  function CmpEach(r: TestResult, e: map<string, Json>, ks: seq<string>, t: map<string, Json>): TestResult
    requires forall i :: 0 <= i < |ks| ==> ks[i] in e && ks[i] in t
    decreases JMap(e), 0, |ks|
  {
    if |ks| == 0 then r
    else
      var sub := CmpJson(Kjoin(r, ks[0]), e[ks[0]], t[ks[0]]);
      if Failed(sub) then sub else CmpEach(r, e, ks[1..], t)
  }

  /** `cmpValues`: both `type`s strings and equal; arrays element-wise, anything else
      by equality of `value`. */
  function CmpValues(r: TestResult, e: map<string, Json>, t: map<string, Json>): TestResult
    requires IsValue(e) && IsValue(t)
    decreases JMap(e), 0
  {
    if !e["type"].JStr? then
      Failedf(r, TypeBug)
    else if !t["type"].JStr? then
      Failedf(r, TypeMalformed)
    else if e["type"].s != t["type"].s then
      Failedf(r, "Key " + Quoted(r.key) + " is not an " + e["type"].s + " but " + t["type"].s)
    else if e["type"].s == "array" then
      CmpArray(r, e["value"], t["value"])
    else if e["value"] != t["value"] then
      Failedf(r, ValuesDiffer + Quoted(r.key) + " don't match.")
    else r
  }

  /** `cmpArray`: both arrays of the same length, compared element by element. */
  function CmpArray(r: TestResult, e: Json, t: Json): TestResult
    decreases e, 1
  {
    if !e.JArr? then
      Failedf(r, ArrayBug)
    else if !t.JArr? then
      Failedf(r, ArrayMalformed)
    else if |e.items| != |t.items| then
      Failedf(r, LengthsDiffer + Quoted(r.key) + ".")
    else
      CmpItems(r, e.items, t.items, 0)
  }

  function CmpItems(r: TestResult, e: seq<Json>, t: seq<Json>, i: nat): TestResult
    requires |e| == |t| && i <= |e|
    decreases JArr(e), 0, |e| - i
  {
    if i == |e| then r
    else
      var sub := CmpJson(r, e[i], t[i]);
      if Failed(sub) then sub else CmpItems(r, e, t, i + 1)
  }

  // ---------------------------------------------------------------- what it decides

  /** When the parser's output `t` is accepted for the expected `e`, stated without
      any visiting order. */
  predicate Agree(e: Json, t: Json)
    decreases e, 2
  {
    match e
    case JMap(m) => MapsAgree(m, t)
    case _ => true
  }

  predicate MapsAgree(e: map<string, Json>, t: Json)
    decreases JMap(e), 1
  {
    t.JMap? && IsValue(e) == IsValue(t.fields)
    && if IsValue(e) then ValuesAgree(e, t.fields)
       else e.Keys == t.fields.Keys && forall k :: k in e ==> Agree(e[k], t.fields[k])
  }

  predicate ValuesAgree(e: map<string, Json>, t: map<string, Json>)
    requires IsValue(e) && IsValue(t)
    decreases JMap(e), 0
  {
    e["type"].JStr? && t["type"].JStr? && e["type"].s == t["type"].s
    && if e["type"].s == "array" then ArraysAgree(e["value"], t["value"])
       else e["value"] == t["value"]
  }

  predicate ArraysAgree(e: Json, t: Json)
    decreases e, 1
  {
    e.JArr? && t.JArr? && |e.items| == |t.items|
    && forall i :: 0 <= i < |e.items| ==> Agree(e.items[i], t.items[i])
  }

  /**
    The comparison accepts exactly what `Agree` describes; an accepted output leaves
    the result untouched, and a rejected one only sets the failure (and the key path).
  */
  lemma {:induction false} CmpJsonAgree(r: TestResult, e: Json, t: Json)
    requires !Failed(r)
    ensures var s := CmpJson(r, e, t);
      (!Failed(s) <==> Agree(e, t)) && (!Failed(s) ==> s == r) && SameTest(r, s)
    decreases e, 2
  {
    if e.JMap? {
      CmpMapsAgree(r, e.fields, t);
    }
  }

  lemma {:induction false} CmpMapsAgree(r: TestResult, e: map<string, Json>, t: Json)
    requires !Failed(r)
    ensures var s := CmpMaps(r, e, t);
      (!Failed(s) <==> MapsAgree(e, t)) && (!Failed(s) ==> s == r) && SameTest(r, s)
    decreases JMap(e), 1
  {
    if !t.JMap? {
      assert CmpMaps(r, e, t) == Failedf(r, "Key " + Quoted(r.key) + NotHashMap);
    } else if IsValue(e) && !IsValue(t.fields) {
    } else if !IsValue(e) && IsValue(t.fields) {
    } else if IsValue(e) {
      CmpValuesAgree(r, e, t.fields);
    } else {
      CmpObjectsAgree(r, e, t.fields);
    }
  }

  /** The object case of `cmpMaps`: key sets first, then the members. */
  lemma {:induction false} CmpObjectsAgree(r: TestResult, e: map<string, Json>, t: map<string, Json>)
    requires !Failed(r)
    ensures var s := CmpObjects(r, e, t);
      && (!Failed(s) <==> e.Keys == t.Keys && forall k :: k in e ==> Agree(e[k], t[k]))
      && (!Failed(s) ==> s == r) && SameTest(r, s)
    decreases JMap(e), 0
  {
    var ek := SortSet(Bytes, e.Keys);
    var tk := SortSet(Bytes, t.Keys);
    match FirstMissing(ek, t)
    case Some(k) =>
      assert k in e && k !in t;
    case None =>
      assert e.Keys <= t.Keys;
      match FirstMissing(tk, e)
      case Some(k) =>
        assert k in t && k !in e;
      case None =>
        assert t.Keys <= e.Keys;
        assert CmpObjects(r, e, t) == CmpEach(r, e, ek, t);
        CmpEachAgree(r, e, ek, t);
        EachKey(e, ek, t);
  }

  lemma EachKey(e: map<string, Json>, ek: seq<string>, t: map<string, Json>)
    requires forall k :: k in ek <==> k in e
    requires e.Keys == t.Keys
    ensures (forall i :: 0 <= i < |ek| ==> Agree(e[ek[i]], t[ek[i]]))
        <==> (forall k :: k in e ==> Agree(e[k], t[k]))
  {
    if forall i :: 0 <= i < |ek| ==> Agree(e[ek[i]], t[ek[i]]) {
      forall k | k in e
        ensures Agree(e[k], t[k])
      {
        var i :| 0 <= i < |ek| && ek[i] == k;
      }
    }
  }

  lemma {:induction false} CmpEachAgree(r: TestResult, e: map<string, Json>, ks: seq<string>, t: map<string, Json>)
    requires !Failed(r)
    requires forall i :: 0 <= i < |ks| ==> ks[i] in e && ks[i] in t
    ensures var s := CmpEach(r, e, ks, t);
      && (!Failed(s) <==> forall i :: 0 <= i < |ks| ==> Agree(e[ks[i]], t[ks[i]]))
      && (!Failed(s) ==> s == r) && SameTest(r, s)
    decreases JMap(e), 0, |ks|
  {
    if |ks| > 0 {
      CmpJsonAgree(Kjoin(r, ks[0]), e[ks[0]], t[ks[0]]);
      CmpEachAgree(r, e, ks[1..], t);
      assert forall i :: 1 <= i < |ks| ==> ks[i] == ks[1..][i - 1];
    }
  }

  lemma {:induction false} CmpValuesAgree(r: TestResult, e: map<string, Json>, t: map<string, Json>)
    requires !Failed(r)
    requires IsValue(e) && IsValue(t)
    ensures var s := CmpValues(r, e, t);
      (!Failed(s) <==> ValuesAgree(e, t)) && (!Failed(s) ==> s == r) && SameTest(r, s)
    decreases JMap(e), 0
  {
    if e["type"].JStr? && t["type"].JStr? && e["type"].s == t["type"].s && e["type"].s == "array" {
      CmpArrayAgree(r, e["value"], t["value"]);
    }
  }

  lemma {:induction false} CmpArrayAgree(r: TestResult, e: Json, t: Json)
    requires !Failed(r)
    ensures var s := CmpArray(r, e, t);
      (!Failed(s) <==> ArraysAgree(e, t)) && (!Failed(s) ==> s == r) && SameTest(r, s)
    decreases e, 1
  {
    if !e.JArr? || !t.JArr? || |e.items| != |t.items| {
      assert !ArraysAgree(e, t);
    } else {
      CmpItemsAgree(r, e.items, t.items, 0);
    }
  }

  lemma {:induction false} CmpItemsAgree(r: TestResult, e: seq<Json>, t: seq<Json>, i: nat)
    requires !Failed(r)
    requires |e| == |t| && i <= |e|
    ensures var s := CmpItems(r, e, t, i);
      && (!Failed(s) <==> forall j :: i <= j < |e| ==> Agree(e[j], t[j]))
      && (!Failed(s) ==> s == r) && SameTest(r, s)
    decreases JArr(e), 0, |e| - i
  {
    if i < |e| {
      CmpJsonAgree(r, e[i], t[i]);
      CmpItemsAgree(r, e, t, i + 1);
    }
  }

  // ---------------------------------------------------------------- well-formed documents

  /** An expected document as the test suite writes them: every `{type, value}` pair
      has a string `type`; an `array` pair holds an array, and any other pair a string
      or literal (a value `!=` can compare). */
  predicate Tagged(e: Json)
    decreases e, 2
  {
    match e
    case JMap(m) => TaggedMap(m)
    case _ => true
  }

  predicate TaggedMap(m: map<string, Json>)
    decreases JMap(m), 1
  {
    if IsValue(m) then
      m["type"].JStr?
      && if m["type"].s == "array" then
           m["value"].JArr? && forall i :: 0 <= i < |m["value"].items| ==> Tagged(m["value"].items[i])
         else m["value"].JStr? || m["value"].JLit?
    else forall k :: k in m ==> Tagged(m[k])
  }

  /**
    Where `cmpValues` reaches `e["value"] != t["value"]` with two objects or two arrays:
    Go cannot compare them and panics. The comparator functions above compare them
    structurally instead.
  */
  predicate ValuesPanic(e: map<string, Json>, t: map<string, Json>)
    requires IsValue(e) && IsValue(t)
  {
    && e["type"].JStr? && t["type"].JStr? && e["type"].s == t["type"].s
    && e["type"].s != "array"
    && ((e["value"].JMap? && t["value"].JMap?) || (e["value"].JArr? && t["value"].JArr?))
  }

  /** A well-tagged pair never reaches that comparison with an object or an array. */
  lemma TaggedNoPanic(m: map<string, Json>, t: map<string, Json>)
    requires IsValue(m) && IsValue(t) && TaggedMap(m)
    ensures !ValuesPanic(m, t)
  {
  }

  /** A parser that reproduces a well-formed expected document is accepted. */
  lemma {:induction false} AgreeSelf(e: Json)
    requires Tagged(e)
    ensures Agree(e, e)
    decreases e, 2
  {
    if e.JMap? {
      AgreeSelfMap(e.fields);
    }
  }

  lemma {:induction false} AgreeSelfMap(m: map<string, Json>)
    requires TaggedMap(m)
    ensures MapsAgree(m, JMap(m))
    decreases JMap(m), 1
  {
    if IsValue(m) {
      if m["type"].s == "array" {
        var a := m["value"].items;
        forall i | 0 <= i < |a|
          ensures Agree(a[i], a[i])
        {
          AgreeSelf(a[i]);
        }
      }
    } else {
      forall k | k in m
        ensures Agree(m[k], m[k])
      {
        AgreeSelf(m[k]);
      }
    }
  }
}
