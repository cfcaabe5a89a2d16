/** Parsed JSON documents, Python subscripting into them, and the element access of pandas'
    `Series.str[...]` accessor over a column that holds such values. */
module Json {
  import opened Wrappers

  /** A value as `json.load` returns it. An object lists its entries in the dict's insertion
      order, which is the order `dict.values()` yields them in. */
  datatype Json =
    | JNull
    | JBool(b: bool)
    | JNum(n: real)
    | JStr(s: string)
    | JArr(items: seq<Json>)
    | JObj(fields: seq<(string, Json)>)

  /** One cell of a DataFrame column of Python objects: missing data (NaN) or an object.
      `Val(JNull)` is Python's `None`. Cells are modelled one at a time: pandas' conversion of
      a whole result column (None next to numbers becoming NaN) is not modelled. */
  datatype Cell = NaN | Val(v: Json)

  /** The argument of `.str[...]`: a position or a dict key. */
  datatype Key = Idx(i: int) | Name(name: string)

  /** `d.get(k)` on a dict that `json.load` built from the entries `fields`: an object that
      repeats a key keeps the value of its last occurrence. */
  function Lookup(fields: seq<(string, Json)>, k: string): Option<Json>
    decreases |fields|
  {
    if fields == [] then None
    else if fields[|fields| - 1].0 == k then Some(fields[|fields| - 1].1)
    else Lookup(fields[..|fields| - 1], k)
  }

  /** A key is found exactly when some entry carries it, and the value found is the one of the
      last entry that does. */
  lemma {:induction false} LookupSpec(fields: seq<(string, Json)>, k: string)
    ensures Lookup(fields, k).Some? <==> exists i :: 0 <= i < |fields| && fields[i].0 == k
    ensures Lookup(fields, k).Some? ==>
              exists i :: 0 <= i < |fields| && fields[i] == (k, Lookup(fields, k).value) &&
                          forall j :: i < j < |fields| ==> fields[j].0 != k
    decreases |fields|
  {
    if fields != [] {
      var last := |fields| - 1;
      if fields[last].0 == k {
        assert fields[last] == (k, Lookup(fields, k).value);
      } else {
        var init := fields[..last];
        LookupSpec(init, k);
        if Lookup(init, k).Some? {
          var i :| 0 <= i < |init| && init[i] == (k, Lookup(init, k).value) &&
                   forall j :: i < j < |init| ==> init[j].0 != k;
          assert fields[i] == init[i];
          assert forall j :: i < j < |fields| ==> fields[j].0 != k by {
            forall j | i < j < |fields| ensures fields[j].0 != k {
              if j < last { assert fields[j] == init[j]; }
            }
          }
        } else {
          forall i | 0 <= i < |fields| ensures fields[i].0 != k {
            if i < last { assert fields[i] == init[i]; }
          }
        }
      }
    }
  }

  /** Entry i is the first entry carrying its key, which is where the key sits in the dict. */
  predicate FirstOccurrence(fields: seq<(string, Json)>, i: nat)
    requires i < |fields|
  {
    forall j :: 0 <= j < i ==> fields[j].0 != fields[i].0
  }

  /** The keys of the dict built from `fields`, from entry i on, in the dict's order: a key
      takes the position of its first entry. */
  function DictKeys(fields: seq<(string, Json)>, i: nat): seq<string>
    requires i <= |fields|
    decreases |fields| - i
  {
    if i == |fields| then []
    else (if FirstOccurrence(fields, i) then [fields[i].0] else []) + DictKeys(fields, i + 1)
  }

  /** `d.values()`: for each key of the dict, in the dict's order, the value it holds. */
  function DictValues(fields: seq<(string, Json)>): seq<Json>
  {
    var keys := DictKeys(fields, 0);
    seq(|keys|, j requires 0 <= j < |keys| =>
      match Lookup(fields, keys[j]) case Some(v) => v case None => JNull)
  }

  /** The keys from entry i on are the keys of the first entries from i on. */
  lemma {:induction false} DictKeysFrom(fields: seq<(string, Json)>, i: nat)
    requires i <= |fields|
    ensures forall k :: k in DictKeys(fields, i) <==>
              exists m :: i <= m < |fields| && FirstOccurrence(fields, m) && fields[m].0 == k
    decreases |fields| - i
  {
    if i < |fields| {
      DictKeysFrom(fields, i + 1);
    }
  }

  /** A key's first entry exists. */
  lemma {:induction false} FirstEntry(fields: seq<(string, Json)>, m: nat)
    requires m < |fields|
    ensures exists f :: 0 <= f <= m && FirstOccurrence(fields, f) && fields[f].0 == fields[m].0
    decreases m
  {
    if !FirstOccurrence(fields, m) {
      var j :| 0 <= j < m && fields[j].0 == fields[m].0;
      FirstEntry(fields, j);
    }
  }

  /** No key of the dict is listed twice. */
  lemma {:induction false} DictKeysDistinct(fields: seq<(string, Json)>, i: nat)
    requires i <= |fields|
    ensures forall a, b :: 0 <= a < b < |DictKeys(fields, i)| ==> DictKeys(fields, i)[a] != DictKeys(fields, i)[b]
    decreases |fields| - i
  {
    if i < |fields| {
      DictKeysDistinct(fields, i + 1);
      DictKeysFrom(fields, i + 1);
      var rest := DictKeys(fields, i + 1);
      if FirstOccurrence(fields, i) {
        assert DictKeys(fields, i) == [fields[i].0] + rest;
        forall b | 0 <= b < |rest|
          ensures rest[b] != fields[i].0
        {
          assert rest[b] in rest;
          var m :| i + 1 <= m < |fields| && FirstOccurrence(fields, m) && fields[m].0 == rest[b];
        }
      }
    }
  }

  /** The dict built from `fields`: its keys are exactly the keys the entries carry, each once,
      and the value listed for each is the one `d.get` finds. */
  lemma DictValuesSpec(fields: seq<(string, Json)>)
    ensures forall k :: k in DictKeys(fields, 0) <==> exists m :: 0 <= m < |fields| && fields[m].0 == k
    ensures forall a, b :: 0 <= a < b < |DictKeys(fields, 0)| ==> DictKeys(fields, 0)[a] != DictKeys(fields, 0)[b]
    ensures |DictValues(fields)| == |DictKeys(fields, 0)|
    ensures forall j :: 0 <= j < |DictKeys(fields, 0)| ==>
              Lookup(fields, DictKeys(fields, 0)[j]) == Some(DictValues(fields)[j])
  {
    var keys := DictKeys(fields, 0);
    DictKeysFrom(fields, 0);
    DictKeysDistinct(fields, 0);
    forall m | 0 <= m < |fields|
      ensures fields[m].0 in keys
    {
      FirstEntry(fields, m);
    }
    forall j | 0 <= j < |keys|
      ensures Lookup(fields, keys[j]) == Some(DictValues(fields)[j])
    {
      assert keys[j] in keys;
      LookupSpec(fields, keys[j]);
    }
  }

  /** The keys of a record whose entries carry distinct keys are its entries' keys, in order. */
  lemma {:induction false} DistinctKeysFrom(fields: seq<(string, Json)>, i: nat)
    requires i <= |fields|
    requires forall a, b :: 0 <= a < b < |fields| ==> fields[a].0 != fields[b].0
    ensures DictKeys(fields, i) == seq(|fields| - i, j requires 0 <= j < |fields| - i => fields[i + j].0)
    decreases |fields| - i
  {
    if i < |fields| {
      DistinctKeysFrom(fields, i + 1);
      assert FirstOccurrence(fields, i);
      var rest := seq(|fields| - (i + 1), j requires 0 <= j < |fields| - (i + 1) => fields[i + 1 + j].0);
      assert seq(|fields| - i, j requires 0 <= j < |fields| - i => fields[i + j].0) == [fields[i].0] + rest;
    }
  }

  /** When no key repeats, `d.values()` lists the entries' values in order. */
  lemma DistinctKeysValues(fields: seq<(string, Json)>)
    requires forall a, b :: 0 <= a < b < |fields| ==> fields[a].0 != fields[b].0
    ensures DictValues(fields) == seq(|fields|, j requires 0 <= j < |fields| => fields[j].1)
  {
    DistinctKeysFrom(fields, 0);
    forall j | 0 <= j < |fields|
      ensures Lookup(fields, fields[j].0) == Some(fields[j].1)
    {
      LookupSpec(fields, fields[j].0);
    }
  }

  /** `v[k]` in Python for a string key: KeyError on a dict without k, TypeError on anything
      that is not a dict (a list, a string, a number, None). */
  function Subscript(v: Json, k: string): (r: Result<Json>)
    ensures r.Ok? <==> v.JObj? && Lookup(v.fields, k).Some?
    ensures r.Ok? ==> r.value == Lookup(v.fields, k).value
  {
    match v
    case JObj(fields) =>
      (match Lookup(fields, k)
       case Some(x) => Ok(x)
       case None => Err(KeyError))
    case _ => Err(TypeError)
  }

  /** One element of `series.str[key]`. Missing data is passed through as it is (NaN stays
      NaN, None stays None: pandas maps only the non-missing elements); a dict answers
      `dict.get(key)`, so a missing key gives None; a list or string answers its element (a
      one-character string) when the position is in range, counting from the end for a negative
      position as Python does, and NaN otherwise; every other
      combination raises inside pandas and is turned into NaN. */
  function StrGet(c: Cell, key: Key): (r: Cell)
    ensures c == NaN ==> r == NaN
    ensures c == Val(JNull) ==> r == Val(JNull)
    ensures c.Val? && c.v.JObj? && key.Name? ==>
              r == (if Lookup(c.v.fields, key.name).Some? then Val(Lookup(c.v.fields, key.name).value) else Val(JNull))
    ensures c.Val? && c.v.JArr? && key.Idx? ==>
              r == (if 0 <= key.i < |c.v.items| then Val(c.v.items[key.i])
                    else if -|c.v.items| <= key.i < 0 then Val(c.v.items[key.i + |c.v.items|])
                    else NaN)
  {
    match c
    case NaN => NaN
    case Val(v) =>
      match v
      case JNull => Val(JNull)
      case JObj(fields) =>
        (match key
         case Name(k) => (match Lookup(fields, k) case Some(x) => Val(x) case None => Val(JNull))
         case Idx(_) => Val(JNull))
      case JArr(items) =>
        (match key
         case Idx(i) => if -|items| <= i < |items| then Val(items[if i < 0 then i + |items| else i]) else NaN
         case Name(_) => NaN)
      case JStr(s) =>
        (match key
         case Idx(i) => if -|s| <= i < |s| then Val(JStr([s[if i < 0 then i + |s| else i]])) else NaN
         case Name(_) => NaN)
      case _ => NaN
  }
}
