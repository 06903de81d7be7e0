/**
  The TOML comparison of the stand-alone program (toml.go), used when testing an
  encoder: the expected document and what the encoder wrote, both decoded, are walked
  together. Equality of primitive values (`deepEqual`, which also treats two NaNs as
  equal) is a parameter. As in the JSON comparison, map keys are visited in increasing
  byte order.
*/
module TomlCmp {
  import opened Common
  import opened Sorting
  import opened Results

  /** A decoded TOML value. `TTables` is an array of tables as the decoder may return it
      (`[]map[string]interface{}`); every other non-container is a primitive. */
  datatype TValue =
    | TPrim(lit: string)
    | TMap(fields: map<string, TValue>)
    | TArr(items: seq<TValue>)
    | TTables(tables: seq<map<string, TValue>>)

  /** `deepEqual` on two values. */
  type Eqv = (TValue, TValue) -> bool

  /** `isTomlValue`: everything but a table and a plain array is a primitive, including
      an array of tables. */
  predicate IsTomlValue(v: TValue) {
    !v.TMap? && !v.TArr?
  }

  /** The first of `ks` that is not a key of `m`. */
  function FirstMissing(ks: seq<string>, m: map<string, TValue>): (r: Option<string>)
    ensures r.None? <==> forall i :: 0 <= i < |ks| ==> ks[i] in m
    ensures r.Some? ==> r.value in ks && r.value !in m
  {
    if |ks| == 0 then None
    else if ks[0] !in m then Some(ks[0])
    else FirstMissing(ks[1..], m)
  }

  /** `have` as an array: a plain array, or an array of tables copied element by element. */
  function AsSlice(have: TValue): (r: Option<seq<TValue>>)
    ensures have.TArr? ==> r == Some(have.items)
    ensures have.TTables? ==> r.Some? && |r.value| == |have.tables|
                              && forall i :: 0 <= i < |have.tables| ==> r.value[i] == TMap(have.tables[i])
    ensures r.Some? <==> have.TArr? || have.TTables?
  {
    match have
    case TArr(items) => Some(items)
    case TTables(ts) => Some(seq(|ts|, i requires 0 <= i < |ts| => TMap(ts[i])))
    case _ => None
  }

  function Quoted(s: string): string {
    "'" + s + "'"
  }

  // ---------------------------------------------------------------- the comparison

  // The failure messages, as the program words them.
  const TypeDiffers: string := "Type for key "
  const DiffersTail: string := " differs"
  const ValuesDiffer: string := "Values for key "
  const DifferTail: string := " differ"
  const NotTable: string := " is not an table"
  const NotArray: string := " is not an array"
  const CouldNotFind: string := "Could not find key "
  const MissingInOutput: string := " in encoder output"
  const MissingInExpected: string := " in expected output"
  const LengthsDiffer: string := "Array lengths differ for key "

  /** `cmpTOML`: primitives by `eqv`, tables and arrays structurally. A value that is
      neither a primitive, a table nor an array does not exist here, so the
      "Unrecognized TOML structure" case has no counterpart. */
  function CmpToml(r: TestResult, want: TValue, have: TValue, eqv: Eqv): TestResult
    decreases want, 2
  {
    if IsTomlValue(want) then
      if !IsTomlValue(have) then Failedf(r, TypeDiffers + Quoted(r.key) + DiffersTail)
      else if !eqv(want, have) then Failedf(r, ValuesDiffer + Quoted(r.key) + DifferTail)
      else r
    else if want.TMap? then CmpTomlMap(r, want.fields, have, eqv)
    else CmpTomlArrays(r, want.items, have, eqv)
  }

  /** `cmpTOMLMap`: `have` a table with the same keys; then each member under its key. */
  function CmpTomlMap(r: TestResult, want: map<string, TValue>, have: TValue, eqv: Eqv): TestResult
    decreases TMap(want), 1
  {
    if !have.TMap? then
      Failedf(r, "Key " + Quoted(r.key) + NotTable)
    else
      var wk := SortSet(Bytes, want.Keys);
      var hk := SortSet(Bytes, have.fields.Keys);
      match FirstMissing(wk, have.fields)
      case Some(k) =>
        var bunk := Kjoin(r, k);
        Failedf(bunk, CouldNotFind + Quoted(bunk.key) + MissingInOutput)
      case None =>
        match FirstMissing(hk, want)
        case Some(k) =>
          var bunk := Kjoin(r, k);
          Failedf(bunk, CouldNotFind + Quoted(bunk.key) + MissingInExpected)
        case None =>
          CmpTomlEach(r, want, wk, have.fields, eqv)
  }

  function CmpTomlEach(r: TestResult, want: map<string, TValue>, ks: seq<string>,
                       have: map<string, TValue>, eqv: Eqv): TestResult
    requires forall i :: 0 <= i < |ks| ==> ks[i] in want && ks[i] in have
    decreases TMap(want), 0, |ks|
  {
    if |ks| == 0 then r
    else
      var sub := CmpToml(Kjoin(r, ks[0]), want[ks[0]], have[ks[0]], eqv);
      if Failed(sub) then sub else CmpTomlEach(r, want, ks[1..], have, eqv)
  }

  /** `cmpTOMLArrays`: `have` an array (or an array of tables) of the same length,
      compared element by element. */
  function CmpTomlArrays(r: TestResult, want: seq<TValue>, have: TValue, eqv: Eqv): TestResult
    decreases TArr(want), 1
  {
    match AsSlice(have)
    case None => Failedf(r, "Key " + Quoted(r.key) + NotArray)
    case Some(hs) =>
      if |want| != |hs| then Failedf(r, LengthsDiffer + Quoted(r.key))
      else CmpTomlItems(r, want, hs, 0, eqv)
  }

  function CmpTomlItems(r: TestResult, want: seq<TValue>, have: seq<TValue>, i: nat, eqv: Eqv): TestResult
    requires |want| == |have| && i <= |want|
    decreases TArr(want), 0, |want| - i
  {
    if i == |want| then r
    else
      var sub := CmpToml(r, want[i], have[i], eqv);
      if Failed(sub) then sub else CmpTomlItems(r, want, have, i + 1, eqv)
  }

  // ---------------------------------------------------------------- what it decides

  /** When the encoder's output `have` is accepted for `want`, without a visiting order. */
  predicate Agree(want: TValue, have: TValue, eqv: Eqv)
    decreases want
  {
    if IsTomlValue(want) then IsTomlValue(have) && eqv(want, have)
    else if want.TMap? then
      have.TMap? && want.fields.Keys == have.fields.Keys
      && forall k :: k in want.fields ==> Agree(want.fields[k], have.fields[k], eqv)
    else
      AsSlice(have).Some? && |want.items| == |AsSlice(have).value|
      && forall i :: 0 <= i < |want.items| ==> Agree(want.items[i], AsSlice(have).value[i], eqv)
  }

  /**
    The comparison accepts exactly what `Agree` describes; an accepted output leaves
    the result untouched, and a rejected one only sets the failure (and the key path).
  */
  lemma CmpTomlAgree(r: TestResult, want: TValue, have: TValue, eqv: Eqv)
    requires !Failed(r)
    ensures var s := CmpToml(r, want, have, eqv);
      (!Failed(s) <==> Agree(want, have, eqv)) && (!Failed(s) ==> s == r) && SameTest(r, s)
    decreases want, 2
  {
    if IsTomlValue(want) {
    } else if want.TMap? {
      CmpTomlMapAgree(r, want.fields, have, eqv);
      assert want == TMap(want.fields);
    } else {
      CmpTomlArraysAgree(r, want.items, have, eqv);
      assert want == TArr(want.items);
    }
  }

  lemma CmpTomlMapAgree(r: TestResult, want: map<string, TValue>, have: TValue, eqv: Eqv)
    requires !Failed(r)
    ensures var s := CmpTomlMap(r, want, have, eqv);
      && (!Failed(s) <==> have.TMap? && want.Keys == have.fields.Keys
                          && forall k :: k in want ==> Agree(want[k], have.fields[k], eqv))
      && (!Failed(s) ==> s == r) && SameTest(r, s)
    decreases TMap(want), 1
  {
    if !have.TMap? {
      assert CmpTomlMap(r, want, have, eqv) == Failedf(r, "Key " + Quoted(r.key) + NotTable);
    } else {
      assert have == TMap(have.fields);
      CmpTablesAgree(r, want, have.fields, eqv);
    }
  }

  /** The table case of `cmpTOMLMap`: key sets first, then the members. */
  lemma CmpTablesAgree(r: TestResult, want: map<string, TValue>, have: map<string, TValue>, eqv: Eqv)
    requires !Failed(r)
    ensures var s := CmpTomlMap(r, want, TMap(have), eqv);
      && (!Failed(s) <==> want.Keys == have.Keys
                          && forall k :: k in want ==> Agree(want[k], have[k], eqv))
      && (!Failed(s) ==> s == r) && SameTest(r, s)
    decreases TMap(want), 0
  {
    var wk := SortSet(Bytes, want.Keys);
    var hk := SortSet(Bytes, have.Keys);
    match FirstMissing(wk, have)
    case Some(k) =>
      assert k in want && k !in have;
    case None =>
      assert want.Keys <= have.Keys;
      match FirstMissing(hk, want)
      case Some(k) =>
        assert k in have && k !in want;
      case None =>
        assert have.Keys <= want.Keys;
        CmpTomlEachAgree(r, want, wk, have, eqv);
        EachKey(want, wk, have, eqv);
  }

  lemma EachKey(want: map<string, TValue>, wk: seq<string>, have: map<string, TValue>, eqv: Eqv)
    requires forall k :: k in wk <==> k in want
    requires want.Keys == have.Keys
    ensures (forall i :: 0 <= i < |wk| ==> Agree(want[wk[i]], have[wk[i]], eqv))
        <==> (forall k :: k in want ==> Agree(want[k], have[k], eqv))
  {
    if forall i :: 0 <= i < |wk| ==> Agree(want[wk[i]], have[wk[i]], eqv) {
      forall k | k in want
        ensures Agree(want[k], have[k], eqv)
      {
        var i :| 0 <= i < |wk| && wk[i] == k;
      }
    }
  }

  lemma CmpTomlEachAgree(r: TestResult, want: map<string, TValue>, ks: seq<string>,
                         have: map<string, TValue>, eqv: Eqv)
    requires !Failed(r)
    requires forall i :: 0 <= i < |ks| ==> ks[i] in want && ks[i] in have
    ensures var s := CmpTomlEach(r, want, ks, have, eqv);
      && (!Failed(s) <==> forall i :: 0 <= i < |ks| ==> Agree(want[ks[i]], have[ks[i]], eqv))
      && (!Failed(s) ==> s == r) && SameTest(r, s)
    decreases TMap(want), 0, |ks|
  {
    if |ks| > 0 {
      CmpTomlAgree(Kjoin(r, ks[0]), want[ks[0]], have[ks[0]], eqv);
      CmpTomlEachAgree(r, want, ks[1..], have, eqv);
      assert forall i :: 1 <= i < |ks| ==> ks[i] == ks[1..][i - 1];
    }
  }

  lemma CmpTomlArraysAgree(r: TestResult, want: seq<TValue>, have: TValue, eqv: Eqv)
    requires !Failed(r)
    ensures var s := CmpTomlArrays(r, want, have, eqv);
      && (!Failed(s) <==> AsSlice(have).Some? && |want| == |AsSlice(have).value|
                          && forall i :: 0 <= i < |want| ==> Agree(want[i], AsSlice(have).value[i], eqv))
      && (!Failed(s) ==> s == r) && SameTest(r, s)
    decreases TArr(want), 1
  {
    if AsSlice(have).Some? && |want| == |AsSlice(have).value| {
      CmpTomlItemsAgree(r, want, AsSlice(have).value, 0, eqv);
    }
  }

  lemma CmpTomlItemsAgree(r: TestResult, want: seq<TValue>, have: seq<TValue>, i: nat, eqv: Eqv)
    requires !Failed(r)
    requires |want| == |have| && i <= |want|
    ensures var s := CmpTomlItems(r, want, have, i, eqv);
      && (!Failed(s) <==> forall j :: i <= j < |want| ==> Agree(want[j], have[j], eqv))
      && (!Failed(s) ==> s == r) && SameTest(r, s)
    decreases TArr(want), 0, |want| - i
  {
    if i < |want| {
      CmpTomlAgree(r, want[i], have[i], eqv);
      CmpTomlItemsAgree(r, want, have, i + 1, eqv);
    }
  }

  // ---------------------------------------------------------------- consequences

  /** An encoder that writes back the expected document is accepted, when `eqv` holds
      between equal primitives. */
  lemma AgreeSelf(v: TValue, eqv: Eqv)
    requires forall p :: IsTomlValue(p) ==> eqv(p, p)
    ensures Agree(v, v, eqv)
    decreases v
  {
    if v.TMap? {
      forall k | k in v.fields
        ensures Agree(v.fields[k], v.fields[k], eqv)
      {
        AgreeSelf(v.fields[k], eqv);
      }
    } else if v.TArr? {
      forall i | 0 <= i < |v.items|
        ensures Agree(v.items[i], v.items[i], eqv)
      {
        AgreeSelf(v.items[i], eqv);
      }
    }
  }

  /** An expected array of tables is matched the same whether the decoder returned the
      encoder's output as a plain array or as an array of tables. */
  lemma TablesAsArray(r: TestResult, want: TValue, ts: seq<map<string, TValue>>, eqv: Eqv)
    requires want.TArr?
    ensures CmpToml(r, want, TTables(ts), eqv)
         == CmpToml(r, want, TArr(seq(|ts|, i requires 0 <= i < |ts| => TMap(ts[i]))), eqv)
  {
    var copy := seq(|ts|, i requires 0 <= i < |ts| => TMap(ts[i]));
    assert AsSlice(TTables(ts)) == Some(copy);
  }
}
