/** The DataFrame side of the unpackers: `pd.json_normalize` of the `edges` records, column
    selection with `.loc`, and the per-row extraction that `parse_visits`, `parse_dwell` and
    `getValues` perform (written twice in the repository, once inline in each unpacker). A
    DataFrame is a list of rows; a row maps column names to cells, and a column a row lacks
    reads as NaN, as it does after pandas aligns records with different keys. */
module Frames {
  import opened Wrappers
  import opened Json
  import Seqs

  type Row = map<string, Cell>
  type Frame = seq<Row>

  const WeeklyPatterns := "node.weekly_patterns"
  const RawVisitorCounts := "raw_visitor_counts"
  const RawVisitCounts := "raw_visit_counts"
  const MedianDwell := "median_dwell"
  /** The names `f'day_{i}_visits'` for i in range(7). */
  const DayColumns: seq<string> :=
    ["day_0_visits", "day_1_visits", "day_2_visits", "day_3_visits", "day_4_visits", "day_5_visits", "day_6_visits"]
  /** The seven dwell-time buckets, in the order the scripts assign them. */
  const BucketColumns: seq<string> := ["<5", "5-10", "11-20", "21-60", "61-120", "121-240", ">240"]

  /** What reading one JSON file gives: text `json.load` rejects, or a document. */
  datatype Content = Unparsable | Parsed(doc: Json)
  datatype FileEntry = FileEntry(name: string, content: Content)

  /** `row[k]`, NaN where the row has no such column. */
  function Get(row: Row, k: string): Cell
  {
    if k in row then row[k] else NaN
  }

  predicate HasColumn(frame: Frame, k: string)
  {
    exists i :: 0 <= i < |frame| && k in frame[i]
  }

  /** Names that are pairwise different. */
  predicate Distinct(cols: seq<string>)
  {
    forall i, j :: 0 <= i < j < |cols| ==> cols[i] != cols[j]
  }

  lemma DayColumnsDistinct()
    ensures Distinct(DayColumns)
    ensures WeeklyPatterns !in DayColumns && RawVisitorCounts !in DayColumns
    ensures RawVisitCounts !in DayColumns && MedianDwell !in DayColumns
  {
    forall i, j | 0 <= i < j < 7
      ensures DayColumns[i] != DayColumns[j]
    {
      assert DayColumns[i][4] != DayColumns[j][4];
    }
    forall i | 0 <= i < 7
      ensures DayColumns[i] != MedianDwell
    {
      assert DayColumns[i][0] != MedianDwell[0];
    }
  }

  lemma BucketColumnsDistinct()
    ensures Distinct(BucketColumns)
    ensures WeeklyPatterns !in BucketColumns && RawVisitorCounts !in BucketColumns
    ensures RawVisitCounts !in BucketColumns && MedianDwell !in BucketColumns
    ensures forall k :: k in BucketColumns ==> k !in DayColumns
  {
    // the only names of equal length are told apart by their first character
    assert BucketColumns[1][0] != BucketColumns[6][0];
    assert BucketColumns[2][0] != BucketColumns[3][0];
  }

  // ---------------------------------------------------------------- column assignment

  /** `row` after the assignments `row[cols[j]] = vals[j]` for j = 0 .. n-1, in that order. */
  function Assign(row: Row, cols: seq<string>, vals: seq<Cell>, n: nat): Row
    requires n <= |cols| && n <= |vals|
  {
    if n == 0 then row else Assign(row, cols, vals, n - 1)[cols[n - 1] := vals[n - 1]]
  }

  /** The assignments add exactly the assigned names. */
  lemma {:induction false} AssignKeys(row: Row, cols: seq<string>, vals: seq<Cell>, n: nat, k: string)
    requires n <= |cols| && n <= |vals|
    ensures k in Assign(row, cols, vals, n) <==> k in row || k in cols[..n]
  {
    if n > 0 {
      AssignKeys(row, cols, vals, n - 1, k);
      assert cols[..n] == cols[..n - 1] + [cols[n - 1]];
    }
  }

  /** With pairwise different names, each assigned name ends up holding its own value. */
  lemma {:induction false} AssignAt(row: Row, cols: seq<string>, vals: seq<Cell>, n: nat, j: nat)
    requires n <= |cols| && n <= |vals| && Distinct(cols) && j < n
    ensures cols[j] in Assign(row, cols, vals, n) && Assign(row, cols, vals, n)[cols[j]] == vals[j]
  {
    if j < n - 1 {
      AssignAt(row, cols, vals, n - 1, j);
    }
  }

  /** A name that is not among the assigned ones keeps its presence and its value. */
  lemma {:induction false} AssignOther(row: Row, cols: seq<string>, vals: seq<Cell>, n: nat, k: string)
    requires n <= |cols| && n <= |vals| && k !in cols
    ensures k in Assign(row, cols, vals, n) <==> k in row
    ensures k in row ==> Assign(row, cols, vals, n)[k] == row[k]
  {
    if n > 0 {
      AssignOther(row, cols, vals, n - 1, k);
    }
  }

  // ---------------------------------------------------------------- loading

  /** `pd.json_normalize` of one record `obj`, from its i-th entry on: nested objects are
      flattened into dotted column names (`node.safegraph_core.naics_code`); every other value,
      lists included, becomes one cell. An entry whose key a later entry repeats adds nothing,
      since the dict `json.load` builds keeps only the last value of a key. Where two
      different keys flatten to the same column name, the later entry's column wins. */
  function FlattenRecord(obj: Json, i: nat, prefix: string): Row
    requires obj.JObj? && i <= |obj.fields|
    decreases obj, |obj.fields| - i
  {
    if i == |obj.fields| then map[]
    else
      var (k, v) := obj.fields[i];
      var rest := FlattenRecord(obj, i + 1, prefix);
      if !LastOccurrence(obj, i) then rest
      else (if v.JObj? then FlattenRecord(v, 0, prefix + k + ".") else map[prefix + k := Val(v)]) + rest
  }

  /** No later entry of the record repeats the key of entry j. */
  predicate LastOccurrence(obj: Json, j: nat)
    requires obj.JObj? && j < |obj.fields|
  {
    forall m :: j < m < |obj.fields| ==> obj.fields[m].0 != obj.fields[j].0
  }

  /** A record none of whose values is itself an object. */
  predicate Flat(obj: Json)
    requires obj.JObj?
  {
    forall j :: 0 <= j < |obj.fields| ==> !obj.fields[j].1.JObj?
  }

  lemma PrefixInjective(p: string, x: string, y: string)
    requires p + x == p + y
    ensures x == y
  {
    assert x == (p + x)[|p|..];
    assert y == (p + y)[|p|..];
  }

  /** Flattening a record without nested objects gives one column per key, named by the key
      after the prefix. */
  lemma {:induction false} FlatRecordKeys(obj: Json, i: nat, p: string)
    requires obj.JObj? && i <= |obj.fields| && Flat(obj)
    ensures forall k :: k in FlattenRecord(obj, i, p) <==>
              exists j :: i <= j < |obj.fields| && k == p + obj.fields[j].0
    decreases |obj.fields| - i
  {
    if i < |obj.fields| {
      FlatRecordKeys(obj, i + 1, p);
      if !LastOccurrence(obj, i) {
        var m :| i < m < |obj.fields| && obj.fields[m].0 == obj.fields[i].0;
        assert p + obj.fields[i].0 == p + obj.fields[m].0;
      }
    }
  }

  /** The column of a key holds the value of the key's last occurrence. */
  lemma {:induction false} FlatRecordValue(obj: Json, i: nat, p: string, j: nat)
    requires obj.JObj? && i <= j < |obj.fields| && Flat(obj) && LastOccurrence(obj, j)
    ensures p + obj.fields[j].0 in FlattenRecord(obj, i, p)
    ensures FlattenRecord(obj, i, p)[p + obj.fields[j].0] == Val(obj.fields[j].1)
    decreases j - i
  {
    if i < j {
      FlatRecordValue(obj, i + 1, p, j);
    } else {
      FlatRecordKeys(obj, i + 1, p);
      var k := obj.fields[i].0;
      if p + k in FlattenRecord(obj, i + 1, p) {
        var m :| i + 1 <= m < |obj.fields| && p + k == p + obj.fields[m].0;
        PrefixInjective(p, k, obj.fields[m].0);
        assert false;
      }
    }
  }

  /** On a record without nested objects, the flattened row answers as the dict does: a
      column `p + k` exists exactly when `d.get(k)` finds a value, and holds that value. */
  lemma FlattenAgreesWithLookup(obj: Json, p: string, k: string)
    requires obj.JObj? && Flat(obj)
    ensures p + k in FlattenRecord(obj, 0, p) <==> Lookup(obj.fields, k).Some?
    ensures Lookup(obj.fields, k).Some? ==> FlattenRecord(obj, 0, p)[p + k] == Val(Lookup(obj.fields, k).value)
  {
    FlatRecordKeys(obj, 0, p);
    LookupSpec(obj.fields, k);
    if p + k in FlattenRecord(obj, 0, p) {
      var j :| 0 <= j < |obj.fields| && p + k == p + obj.fields[j].0;
      PrefixInjective(p, k, obj.fields[j].0);
    }
    if Lookup(obj.fields, k).Some? {
      var i :| 0 <= i < |obj.fields| && obj.fields[i] == (k, Lookup(obj.fields, k).value) &&
               forall j :: i < j < |obj.fields| ==> obj.fields[j].0 != k;
      FlatRecordValue(obj, 0, p, i);
    }
  }

  // ---------------------------------------------------------------- nested records

  /** A key without a dot, so that the dotted column names stay apart. */
  predicate DotFree(k: string)
  {
    '.' !in k
  }

  /** Every key of the record, and of every record nested in it, is dot-free. */
  predicate KeysDotFree(v: Json)
    decreases v
  {
    match v
    case JObj(fields) => forall j :: 0 <= j < |fields| ==> DotFree(fields[j].0) && KeysDotFree(fields[j].1)
    case _ => true
  }

  /** Every column of a flattened record starts with the prefix. */
  lemma {:induction false} FlattenKeysPrefixed(obj: Json, i: nat, p: string, key: string)
    requires obj.JObj? && i <= |obj.fields| && key in FlattenRecord(obj, i, p)
    ensures p <= key
    decreases obj, |obj.fields| - i
  {
    var (k, v) := obj.fields[i];
    if key in FlattenRecord(obj, i + 1, p) {
      FlattenKeysPrefixed(obj, i + 1, p, key);
    } else if v.JObj? {
      FlattenKeysPrefixed(v, 0, p + k + ".", key);
      assert key[..|p|] == (p + k + ".")[..|p|];
    }
  }

  /** `d.get(k)` over `[e] + rest`: rest's value if rest has the key, else e's if e has it. */
  lemma {:induction false} LookupCons(fields: seq<(string, Json)>, i: nat, k: string)
    requires i < |fields|
    ensures Lookup(fields[i..], k) ==
              if Lookup(fields[i + 1..], k).Some? then Lookup(fields[i + 1..], k)
              else if fields[i].0 == k then Some(fields[i].1) else None
    decreases |fields|
  {
    if i + 1 < |fields| {
      var last := |fields| - 1;
      assert fields[i..][..|fields[i..]| - 1] == fields[..last][i..];
      assert fields[i + 1..][..|fields[i + 1..]| - 1] == fields[..last][i + 1..];
      if fields[last].0 != k {
        LookupCons(fields[..last], i, k);
      }
    } else {
      assert fields[i..][..0] == [];
    }
  }

  /** Whether a later entry repeats key k, told by looking it up in the later entries. */
  lemma LaterLookup(obj: Json, i: nat)
    requires obj.JObj? && i < |obj.fields|
    ensures LastOccurrence(obj, i) <==> Lookup(obj.fields[i + 1..], obj.fields[i].0).None?
  {
    var later := obj.fields[i + 1..];
    LookupSpec(later, obj.fields[i].0);
    if !LastOccurrence(obj, i) {
      var m :| i < m < |obj.fields| && obj.fields[m].0 == obj.fields[i].0;
      assert later[m - i - 1] == obj.fields[m];
    }
    if Lookup(later, obj.fields[i].0).Some? {
      var m :| 0 <= m < |later| && later[m].0 == obj.fields[i].0;
      assert obj.fields[i + 1 + m] == later[m];
    }
  }

  /** A column `p + b + "." + ...` cannot start with `p + a + "."` for another dot-free a. */
  lemma SameSegment(p: string, a: string, b: string, x: string)
    requires DotFree(a) && DotFree(b) && p + b + "." <= p + a + "." + x
    ensures a == b
  {
    var long := p + a + "." + x;
    var pre := p + b + ".";
    var n := if |a| < |b| then |a| else |b|;
    SegmentChar(p, a, x, n);
    SegmentChar(p, b, "", n);
    assert pre + "" == pre;
    assert pre[|p| + n] == long[|p| + n];
    assert |a| == |b|;
    forall t | 0 <= t < |a| ensures a[t] == b[t] {
      assert long[|p| + t] == a[t] && pre[|p| + t] == b[t];
    }
  }

  /** The character of `p + a + "." + x` at offset n into the segment a: a's own, or the dot. */
  lemma SegmentChar(p: string, a: string, x: string, n: nat)
    requires n <= |a|
    ensures |p| + n < |p + a + "." + x|
    ensures (p + a + "." + x)[|p| + n] == if n < |a| then a[n] else '.'
  {
  }

  /** The column `p + k`, for a dot-free key: a dotted column never equals it. */
  lemma NoDotInKey(p: string, k: string, a: string, x: string)
    requires DotFree(k)
    ensures p + k != p + a + "." + x
    ensures !(p + a + "." <= p + k)
  {
    if |a| < |k| {
      assert (p + k)[|p| + |a|] == k[|a|];
      assert (p + a + ".")[|p| + |a|] == '.';
      assert (p + a + "." + x)[|p| + |a|] == '.';
    }
  }

  /** With dot-free keys, the column `p + k` of the record from entry i on exists exactly
      when `d.get(k)` over those entries finds a value that is not an object, and holds it. */
  lemma {:induction false} ColumnOfKey(obj: Json, i: nat, p: string, k: string)
    requires obj.JObj? && i <= |obj.fields| && KeysDotFree(obj) && DotFree(k)
    ensures var found := Lookup(obj.fields[i..], k);
            (p + k in FlattenRecord(obj, i, p) <==> found.Some? && !found.value.JObj?) &&
            (p + k in FlattenRecord(obj, i, p) ==> FlattenRecord(obj, i, p)[p + k] == Val(found.value))
    decreases |obj.fields| - i
  {
    if i == |obj.fields| {
      assert obj.fields[i..] == [];
    } else {
      var (k', v) := obj.fields[i];
      ColumnOfKey(obj, i + 1, p, k);
      LookupCons(obj.fields, i, k);
      LaterLookup(obj, i);
      if LastOccurrence(obj, i) {
        if v.JObj? {
          if p + k in FlattenRecord(v, 0, p + k' + ".") {
            FlattenKeysPrefixed(v, 0, p + k' + ".", p + k);
            NoDotInKey(p, k, k', "");
          }
        } else if p + k == p + k' {
          PrefixInjective(p, k, k');
        }
      }
    }
  }

  /** With dot-free keys, a column `p + k + "." + s` of the record from entry i on exists
      exactly when `d.get(k)` over those entries finds an object whose own flattening under
      `p + k + "."` has that column, and it holds the same value there. */
  lemma {:induction false} ColumnUnderKey(obj: Json, i: nat, p: string, k: string, s: string)
    requires obj.JObj? && i <= |obj.fields| && KeysDotFree(obj) && DotFree(k)
    ensures var found := Lookup(obj.fields[i..], k);
            var key := p + k + "." + s;
            (key in FlattenRecord(obj, i, p) <==>
               found.Some? && found.value.JObj? && key in FlattenRecord(found.value, 0, p + k + ".")) &&
            (found.Some? && found.value.JObj? && key in FlattenRecord(found.value, 0, p + k + ".") ==>
               FlattenRecord(obj, i, p)[key] == FlattenRecord(found.value, 0, p + k + ".")[key])
    decreases |obj.fields| - i
  {
    var key := p + k + "." + s;
    if i == |obj.fields| {
      assert obj.fields[i..] == [];
    } else {
      var (k', v) := obj.fields[i];
      ColumnUnderKey(obj, i + 1, p, k, s);
      LookupCons(obj.fields, i, k);
      LaterLookup(obj, i);
      if LastOccurrence(obj, i) {
        if v.JObj? {
          if key in FlattenRecord(v, 0, p + k' + ".") {
            FlattenKeysPrefixed(v, 0, p + k' + ".", key);
            SameSegment(p, k, k', s);
          }
        } else if key == p + k' {
          NoDotInKey(p, k', k, s);
        }
      }
    }
  }

  /** The two-level form used by the unpackers' columns: with dot-free keys, the column
      `p + k1 + "." + k2` exists exactly when `d.get(k1)` is a dict whose `get(k2)` finds a
      value that is not itself a dict, and it holds that value. */
  lemma NestedColumn(obj: Json, p: string, k1: string, k2: string)
    requires obj.JObj? && KeysDotFree(obj) && DotFree(k1) && DotFree(k2)
    ensures var key := p + k1 + "." + k2;
            var outer := Lookup(obj.fields, k1);
            (key in FlattenRecord(obj, 0, p) <==>
               outer.Some? && outer.value.JObj? &&
               Lookup(outer.value.fields, k2).Some? && !Lookup(outer.value.fields, k2).value.JObj?) &&
            (key in FlattenRecord(obj, 0, p) ==> FlattenRecord(obj, 0, p)[key] == Val(Lookup(outer.value.fields, k2).value))
  {
    assert obj.fields[0..] == obj.fields;
    ColumnUnderKey(obj, 0, p, k1, k2);
    var outer := Lookup(obj.fields, k1);
    if outer.Some? && outer.value.JObj? {
      LookupSpec(obj.fields, k1);
      var j :| 0 <= j < |obj.fields| && obj.fields[j] == (k1, outer.value) &&
               forall m :: j < m < |obj.fields| ==> obj.fields[m].0 != k1;
      assert KeysDotFree(outer.value);
      assert outer.value.fields[0..] == outer.value.fields;
      ColumnOfKey(outer.value, 0, p + k1 + ".", k2);
    }
  }

  /** The top level of `json_normalize` on one record, as pandas 1.3 and later do it: the
      columns of the dict's entries that are not records, and over them the dotted columns of
      its entries that are records. A nested column therefore wins over a top-level key
      spelled with a dot, whichever comes first; below the top level, `FlattenRecord` applies. */
  function NormalizeRecord(obj: Json): Row
    requires obj.JObj?
  {
    TopScalars(obj, 0) + TopNested(obj, 0)
  }

  /** The columns of the dict's entries from i on whose values are not records. */
  function TopScalars(obj: Json, i: nat): Row
    requires obj.JObj? && i <= |obj.fields|
    decreases |obj.fields| - i
  {
    if i == |obj.fields| then map[]
    else
      var (k, v) := obj.fields[i];
      (if LastOccurrence(obj, i) && !v.JObj? then map[k := Val(v)] else map[]) + TopScalars(obj, i + 1)
  }

  /** The dotted columns of the dict's entries from i on whose values are records. */
  function TopNested(obj: Json, i: nat): Row
    requires obj.JObj? && i <= |obj.fields|
    decreases |obj.fields| - i
  {
    if i == |obj.fields| then map[]
    else
      var (k, v) := obj.fields[i];
      (if LastOccurrence(obj, i) && v.JObj? then FlattenRecord(v, 0, "" + k + ".") else map[]) + TopNested(obj, i + 1)
  }

  /** Every column of the top-level scalars is the key of some entry. */
  lemma {:induction false} TopScalarsKeys(obj: Json, i: nat)
    requires obj.JObj? && i <= |obj.fields|
    ensures forall x :: x in TopScalars(obj, i) ==> exists m :: i <= m < |obj.fields| && x == obj.fields[m].0
    decreases |obj.fields| - i
  {
    if i < |obj.fields| {
      TopScalarsKeys(obj, i + 1);
    }
  }

  /** With dot-free keys no nested column can meet a top-level key, so the top-level merge
      order does not matter: the record normalizes as `FlattenRecord` flattens it. */
  lemma {:induction false} TopLevelSplit(obj: Json, i: nat)
    requires obj.JObj? && i <= |obj.fields| && KeysDotFree(obj)
    ensures FlattenRecord(obj, i, "") == TopScalars(obj, i) + TopNested(obj, i)
    decreases |obj.fields| - i
  {
    if i < |obj.fields| {
      TopLevelSplit(obj, i + 1);
      var k, v := obj.fields[i].0, obj.fields[i].1;
      var scalars, nested := TopScalars(obj, i + 1), TopNested(obj, i + 1);
      var rest := FlattenRecord(obj, i + 1, "");
      if !LastOccurrence(obj, i) {
        assert FlattenRecord(obj, i, "") == rest;
        assert TopScalars(obj, i) == map[] + scalars;
        assert TopNested(obj, i) == map[] + nested;
        EmptyMerge(scalars);
        EmptyMerge(nested);
      } else if v.JObj? {
        var e := FlattenRecord(v, 0, "" + k + ".");
        assert FlattenRecord(obj, i, "") == e + rest;
        assert TopScalars(obj, i) == map[] + scalars;
        assert TopNested(obj, i) == e + nested;
        EmptyMerge(scalars);
        NestedApart(obj, i);
        MergeSwap(e, scalars, nested);
      } else {
        assert FlattenRecord(obj, i, "") == map["" + k := Val(v)] + rest;
        assert TopScalars(obj, i) == map[k := Val(v)] + scalars;
        assert TopNested(obj, i) == map[] + nested;
        assert "" + k == k;
        EmptyMerge(nested);
        MergeAssoc(map[k := Val(v)], scalars, nested);
      }
    }
  }

  /** The nested columns of entry i share no name with the top-level keys after it. */
  lemma NestedApart(obj: Json, i: nat)
    requires obj.JObj? && i < |obj.fields| && KeysDotFree(obj) && obj.fields[i].1.JObj?
    ensures forall x :: x in FlattenRecord(obj.fields[i].1, 0, "" + obj.fields[i].0 + ".") ==>
              x !in TopScalars(obj, i + 1)
  {
    var (k, v) := obj.fields[i];
    TopScalarsKeys(obj, i + 1);
    forall x | x in FlattenRecord(v, 0, "" + k + ".")
      ensures x !in TopScalars(obj, i + 1)
    {
      FlattenKeysPrefixed(v, 0, "" + k + ".", x);
      if x in TopScalars(obj, i + 1) {
        var m :| i + 1 <= m < |obj.fields| && x == obj.fields[m].0;
        assert DotFree(x) && "" + x == x;
        NoDotInKey("", x, k, "");
      }
    }
  }

  /** A record holding both `{"node": {"placekey": a}}` and a literal key `"node.placekey": b`
      gets the nested `a` in that column, although the literal key comes later and would win
      below the top level. */
  lemma DottedKeyCollision(a: Json, b: Json)
    requires !a.JObj? && !b.JObj?
    ensures var obj := JObj([("node", JObj([("placekey", a)])), ("node.placekey", b)]);
            "node.placekey" in NormalizeRecord(obj) && NormalizeRecord(obj)["node.placekey"] == Val(a) &&
            "node.placekey" in FlattenRecord(obj, 0, "") && FlattenRecord(obj, 0, "")["node.placekey"] == Val(b)
  {
    var inner := JObj([("placekey", a)]);
    var obj := JObj([("node", inner), ("node.placekey", b)]);
    var col := "node.placekey";
    assert "" + "node" + "." == "node.";
    assert "node." + "placekey" == col;
    assert "node" != col;
    assert LastOccurrence(obj, 0) && LastOccurrence(obj, 1) && LastOccurrence(inner, 0);
    // the nested record's one column
    assert FlattenRecord(inner, 1, "node.") == map[];
    assert FlattenRecord(inner, 0, "node.") == map[col := Val(a)] + map[];
    // the top-level merge: the scalar first, the nested columns over it
    assert TopNested(obj, 2) == map[];
    assert TopNested(obj, 1) == map[] + map[];
    assert TopNested(obj, 0) == FlattenRecord(inner, 0, "" + "node" + ".") + TopNested(obj, 1);
    assert TopNested(obj, 0) == map[col := Val(a)];
    assert NormalizeRecord(obj) == TopScalars(obj, 0) + map[col := Val(a)];
    // entry by entry, the later literal key overwrites the nested column
    assert FlattenRecord(obj, 2, "") == map[];
    assert "" + col == col;
    assert FlattenRecord(obj, 1, "") == map["" + col := Val(b)] + map[];
    assert FlattenRecord(obj, 1, "") == map[col := Val(b)];
    assert FlattenRecord(obj, 0, "") == FlattenRecord(inner, 0, "" + "node" + ".") + FlattenRecord(obj, 1, "");
  }

  lemma MergeSwap(e: Row, s: Row, n: Row)
    requires forall x :: x in e ==> x !in s
    ensures e + (s + n) == s + (e + n)
  {
  }

  lemma EmptyMerge(a: Row)
    ensures map[] + a == a
  {
  }

  lemma MergeAssoc(a: Row, b: Row, c: Row)
    ensures a + (b + c) == (a + b) + c
  {
  }

  lemma NormalizeDotFree(obj: Json)
    requires obj.JObj? && KeysDotFree(obj)
    ensures NormalizeRecord(obj) == FlattenRecord(obj, 0, "")
  {
    TopLevelSplit(obj, 0);
  }

  /** `pd.json_normalize(edges)` with no other argument, as pandas 1.3 and later run it: a
      single record gives one row; a list gives one row per item, a record flattened into
      dotted columns and any scalar item (None, a number, a string, a boolean) an empty row.
      A list item that is itself a list is taken to raise. A scalar or a string in place of
      the list raises NotImplementedError. */
  function Normalize(edges: Json): Result<Frame>
  {
    match edges
    case JArr(items) =>
      if forall i :: 0 <= i < |items| ==> !items[i].JArr? then
        Ok(seq(|items|, i requires 0 <= i < |items| => NormalizeItem(items[i])))
      else Err(AttributeError)
    case JObj(_) => Ok([NormalizeRecord(edges)])
    case _ => Err(NotImplementedError)
  }

  /** One item of the edges list: a record is flattened, anything else is an empty row. */
  function NormalizeItem(item: Json): Row
  {
    if item.JObj? then NormalizeRecord(item) else map[]
  }

  /** `a['data']['search']['places']['results']['edges']`: where the place records sit in a
      downloaded file. */
  function Edges(doc: Json): Result<Json>
  {
    match Subscript(doc, "data")
    case Err(e) => Err(e)
    case Ok(data) =>
      match Subscript(data, "search")
      case Err(e) => Err(e)
      case Ok(search) =>
        match Subscript(search, "places")
        case Err(e) => Err(e)
        case Ok(places) =>
          match Subscript(places, "results")
          case Err(e) => Err(e)
          case Ok(results) => Subscript(results, "edges")
  }

  /** The guarded block of both unpackers: `json.load` the file, take its edges and normalize
      them. Any failure is an error; the callers catch every one of them. */
  function ExtractFromJson(content: Content): Result<Frame>
  {
    match content
    case Unparsable => Err(ValueError)
    case Parsed(doc) =>
      match Edges(doc)
      case Err(e) => Err(e)
      case Ok(edges) => Normalize(edges)
  }

  /** `df.loc[:, cols]`: KeyError unless every wanted column occurs in the frame; otherwise
      each row keeps exactly the wanted columns, NaN where that row had no value. */
  function SelectColumns(frame: Frame, cols: seq<string>): (r: Result<Frame>)
    ensures r.Ok? <==> forall c :: c in cols ==> HasColumn(frame, c)
    ensures r.Err? ==> r.error == KeyError
    ensures r.Ok? ==>
              |r.value| == |frame| &&
              forall i :: 0 <= i < |frame| ==>
                (forall c :: c in r.value[i] <==> c in cols) &&
                (forall c :: c in cols ==> r.value[i][c] == Get(frame[i], c))
  {
    if forall c :: c in cols ==> HasColumn(frame, c) then
      Ok(seq(|frame|, i requires 0 <= i < |frame| => map c | c in cols :: Get(frame[i], c)))
    else Err(KeyError)
  }

  // ---------------------------------------------------------------- visits (parse_visits)

  /** `.str[0]` of the weekly-patterns cell: the first weekly-pattern entry. */
  function FirstPattern(row: Row): Cell
  {
    StrGet(Get(row, WeeklyPatterns), Idx(0))
  }

  /** `.str[0].str[name]`: a field of the first weekly-pattern entry. */
  function PatternField(row: Row, name: string): Cell
  {
    StrGet(FirstPattern(row), Name(name))
  }

  /** `.str[0].str['visits_by_day'].str[i].str['visits']`. */
  function DayVisits(row: Row, i: int): Cell
  {
    StrGet(StrGet(PatternField(row, "visits_by_day"), Idx(i)), Name("visits"))
  }

  /** A day's visits are `weekly_patterns[0].visits_by_day[i].visits` when every level is
      there, and missing data when the pattern list or the day list is absent or too short. */
  lemma DayVisitsReads(row: Row, i: nat, pattern: seq<(string, Json)>, days: seq<Json>, entry: seq<(string, Json)>, v: Json)
    requires Get(row, WeeklyPatterns).Val? && Get(row, WeeklyPatterns).v.JArr?
    requires |Get(row, WeeklyPatterns).v.items| > 0 && Get(row, WeeklyPatterns).v.items[0] == JObj(pattern)
    requires Lookup(pattern, "visits_by_day") == Some(JArr(days))
    requires i < |days| && days[i] == JObj(entry) && Lookup(entry, "visits") == Some(v)
    ensures DayVisits(row, i) == Val(v)
  {
  }

  lemma DayVisitsMissing(row: Row, i: nat)
    requires Get(row, WeeklyPatterns) == NaN || Get(row, WeeklyPatterns) == Val(JArr([]))
    ensures DayVisits(row, i) == NaN && PatternField(row, "median_dwell") == NaN
    ensures PatternField(row, "raw_visitor_counts") == NaN && PatternField(row, "raw_visit_counts") == NaN
  {
  }

  /** A place whose `weekly_patterns` is None: `.str[...]` passes the None through, so every
      value read from the patterns is None, and `getValues(None)` gives seven NaN. */
  lemma NullPatterns(row: Row, i: int, name: string)
    requires Get(row, WeeklyPatterns) == Val(JNull)
    ensures DayVisits(row, i) == Val(JNull) && PatternField(row, name) == Val(JNull)
    ensures GetValues(BucketCell(row)) == Ok(seq(7, _ => NaN))
  {
  }

  /** The seven day values of a row, as the passes of `parse_visits` read them. */
  function DayValues(row: Row): seq<Cell>
  {
    seq(7, j requires 0 <= j < 7 => DayVisits(row, j))
  }

  /** The row after the first n passes of the `for i in range(7)` loop of `parse_visits`. */
  function WithDays(row: Row, n: nat): Row
    requires n <= 7
  {
    Assign(row, DayColumns, DayValues(row), n)
  }

  /** What `parse_visits` does to one row. */
  function VisitsRow(row: Row): Row
  {
    WithDays(row, 7)[RawVisitorCounts := PatternField(row, "raw_visitor_counts")]
                    [RawVisitCounts := PatternField(row, "raw_visit_counts")]
  }

  function VisitsFrame(frame: Frame): Frame
  {
    seq(|frame|, i requires 0 <= i < |frame| => VisitsRow(frame[i]))
  }

  /** The columns `parse_visits` adds. */
  predicate IsVisitsColumn(k: string)
  {
    k in DayColumns || k == RawVisitorCounts || k == RawVisitCounts
  }

  /** `parse_visits` adds exactly the seven day columns and the two raw counts, each read from
      the row's first weekly-pattern entry, and leaves every other column as it was. */
  lemma VisitsRowSpec(row: Row)
    ensures forall k :: k in VisitsRow(row) <==> k in row || IsVisitsColumn(k)
    ensures forall j :: 0 <= j < 7 ==> DayColumns[j] in VisitsRow(row) && VisitsRow(row)[DayColumns[j]] == DayVisits(row, j)
    ensures VisitsRow(row)[RawVisitorCounts] == PatternField(row, "raw_visitor_counts")
    ensures VisitsRow(row)[RawVisitCounts] == PatternField(row, "raw_visit_counts")
    ensures forall k :: k in row && !IsVisitsColumn(k) ==> VisitsRow(row)[k] == row[k]
  {
    var vals := DayValues(row);
    DayColumnsDistinct();
    assert DayColumns[..7] == DayColumns;
    forall k
      ensures k in VisitsRow(row) <==> k in row || IsVisitsColumn(k)
    {
      AssignKeys(row, DayColumns, vals, 7, k);
    }
    forall j | 0 <= j < 7
      ensures DayColumns[j] in VisitsRow(row) && VisitsRow(row)[DayColumns[j]] == DayVisits(row, j)
    {
      AssignAt(row, DayColumns, vals, 7, j);
    }
    forall k | k in row && !IsVisitsColumn(k)
      ensures VisitsRow(row)[k] == row[k]
    {
      AssignOther(row, DayColumns, vals, 7, k);
    }
  }

  lemma WithDaysKeepsPatterns(row: Row, n: nat)
    requires n <= 7
    ensures Get(WithDays(row, n), WeeklyPatterns) == Get(row, WeeklyPatterns)
  {
    DayColumnsDistinct();
    AssignOther(row, DayColumns, DayValues(row), n, WeeklyPatterns);
  }

  /** `parse_visits(sub_df)`: seven passes, each writing one day column for every row, then
      the two raw counts. */
  method ParseVisits(frame: Frame) returns (out: Frame)
    ensures out == VisitsFrame(frame)
    ensures |out| == |frame|
    ensures forall r :: 0 <= r < |out| ==>
              (forall k :: k in out[r] <==> k in frame[r] || IsVisitsColumn(k)) &&
              (forall j :: 0 <= j < 7 ==> out[r][DayColumns[j]] == DayVisits(frame[r], j)) &&
              (forall k :: k in frame[r] && !IsVisitsColumn(k) ==> out[r][k] == frame[r][k])
  {
    out := frame;
    for i := 0 to 7
      invariant |out| == |frame|
      invariant forall r :: 0 <= r < |out| ==> out[r] == WithDays(frame[r], i)
    {
      forall r | 0 <= r < |out|
        ensures DayVisits(out[r], i) == DayVisits(frame[r], i)
      {
        WithDaysKeepsPatterns(frame[r], i);
      }
      var visits := seq(|out|, r requires 0 <= r < |out| => DayVisits(out[r], i));
      out := seq(|out|, r requires 0 <= r < |out| => out[r][DayColumns[i] := visits[r]]);
    }
    forall r | 0 <= r < |out|
      ensures PatternField(out[r], "raw_visitor_counts") == PatternField(frame[r], "raw_visitor_counts")
      ensures PatternField(out[r], "raw_visit_counts") == PatternField(frame[r], "raw_visit_counts")
    {
      WithDaysKeepsPatterns(frame[r], 7);
    }
    var rawVisitorCounts := seq(|out|, r requires 0 <= r < |out| => PatternField(out[r], "raw_visitor_counts"));
    var rawVisitCounts := seq(|out|, r requires 0 <= r < |out| => PatternField(out[r], "raw_visit_counts"));
    out := seq(|out|, r requires 0 <= r < |out| => out[r][RawVisitorCounts := rawVisitorCounts[r]]);
    out := seq(|out|, r requires 0 <= r < |out| => out[r][RawVisitCounts := rawVisitCounts[r]]);
    forall r | 0 <= r < |out|
      ensures forall k :: k in out[r] <==> k in frame[r] || IsVisitsColumn(k)
      ensures forall j :: 0 <= j < 7 ==> out[r][DayColumns[j]] == DayVisits(frame[r], j)
      ensures forall k :: k in frame[r] && !IsVisitsColumn(k) ==> out[r][k] == frame[r][k]
    {
      VisitsRowSpec(frame[r]);
    }
  }

  // ---------------------------------------------------------------- dwell (parse_dwell)

  /** `getValues(arr)`: None gives seven NaNs; a dict gives `list(arr.values())`, one value per
      distinct key in the dict's order (whatever its keys are); anything else, NaN included,
      has no `.values()` and raises. */
  function GetValues(c: Cell): (r: Result<seq<Cell>>)
    ensures c == Val(JNull) ==> r.Ok? && |r.value| == 7 && forall j :: 0 <= j < 7 ==> r.value[j] == NaN
    ensures c.Val? && c.v.JObj? ==>
              r.Ok? && |r.value| == |DictKeys(c.v.fields, 0)| &&
              forall j :: 0 <= j < |r.value| ==>
                Lookup(c.v.fields, DictKeys(c.v.fields, 0)[j]).Some? &&
                r.value[j] == Val(Lookup(c.v.fields, DictKeys(c.v.fields, 0)[j]).value)
    ensures c == NaN || (c.Val? && !c.v.JNull? && !c.v.JObj?) ==> r == Err(AttributeError)
  {
    match c
    case Val(JNull) => Ok(seq(7, _ => NaN))
    case Val(JObj(fields)) =>
      var vals := DictValues(fields);
      DictValuesSpec(fields);
      Ok(seq(|vals|, j requires 0 <= j < |vals| => Val(vals[j])))
    case _ => Err(AttributeError)
  }

  /** `.str[0].str['bucketed_dwell_times']` */
  function BucketCell(row: Row): Cell
  {
    PatternField(row, "bucketed_dwell_times")
  }

  /** The j-th cell of the bucket block's row for `row`: the j-th value `getValues` gives, and
      NaN past the end of a dict with fewer than seven entries. */
  function BucketValue(row: Row, j: nat): Cell
  {
    match GetValues(BucketCell(row))
    case Ok(vals) => if j < |vals| then vals[j] else NaN
    case Err(_) => NaN
  }

  /** `...apply(getValues).values.tolist()`: the first row whose value raises stops it. */
  function BucketLists(frame: Frame): (r: Result<seq<seq<Cell>>>)
    ensures r.Ok? <==> forall i :: 0 <= i < |frame| ==> GetValues(BucketCell(frame[i])).Ok?
    ensures r.Err? ==> r.error == AttributeError
    ensures r.Ok? ==>
              |r.value| == |frame| &&
              forall i :: 0 <= i < |frame| ==> r.value[i] == GetValues(BucketCell(frame[i])).value
  {
    if forall i :: 0 <= i < |frame| ==> GetValues(BucketCell(frame[i])).Ok? then
      Ok(seq(|frame|, i requires 0 <= i < |frame| => GetValues(BucketCell(frame[i])).value))
    else Err(AttributeError)
  }

  /** The length of the longest list. */
  function MaxWidth(lists: seq<seq<Cell>>): (w: nat)
    ensures forall i :: 0 <= i < |lists| ==> |lists[i]| <= w
    ensures lists != [] ==> exists i :: 0 <= i < |lists| && |lists[i]| == w
    ensures lists == [] ==> w == 0
    decreases |lists|
  {
    if lists == [] then 0
    else
      var m := MaxWidth(lists[1..]);
      assert forall i :: 1 <= i < |lists| ==> lists[i] == lists[1..][i - 1];
      if |lists[0]| >= m then |lists[0]| else m
  }

  /** `pd.DataFrame(v, sub_df.index, buckets)`: the lists become rows of a seven-column block.
      pandas makes the block as wide as the longest list, padding the shorter ones with NaN,
      and raises ValueError when that width is not the seven names given. */
  function BucketBlock(lists: seq<seq<Cell>>): (r: Result<seq<seq<Cell>>>)
    ensures r.Ok? <==> lists == [] || MaxWidth(lists) == 7
    ensures r.Err? ==> r.error == ValueError
    ensures r.Ok? ==>
              |r.value| == |lists| &&
              forall i :: 0 <= i < |lists| ==>
                |r.value[i]| == 7 &&
                forall j :: 0 <= j < 7 ==> r.value[i][j] == (if j < |lists[i]| then lists[i][j] else NaN)
  {
    if lists == [] || MaxWidth(lists) == 7 then
      Ok(seq(|lists|, i requires 0 <= i < |lists| => lists[i] + seq(7 - |lists[i]|, _ => NaN)))
    else Err(ValueError)
  }

  /** What `parse_dwell` does to one row, given the row of the bucket block. */
  function DwellRow(row: Row, vals: seq<Cell>): Row
    requires |vals| == 7
  {
    Assign(row[MedianDwell := PatternField(row, "median_dwell")], BucketColumns, vals, 7)
  }

  predicate IsDwellColumn(k: string)
  {
    k == MedianDwell || k in BucketColumns
  }

  /** `parse_dwell(sub_df)`: adds `median_dwell` and the seven bucket columns, in the fixed
      order `<5` ... `>240`, taking the bucket values positionally from `getValues`. It raises
      AttributeError when some row's bucket value is neither None nor a dict, and ValueError
      when the longest value list is not seven long. */
  function ParseDwell(frame: Frame): (r: Result<Frame>)
    ensures r.Ok? <==> BucketLists(frame).Ok? && (frame == [] || MaxWidth(BucketLists(frame).value) == 7)
    ensures BucketLists(frame).Err? ==> r == Err(AttributeError)
    ensures BucketLists(frame).Ok? && frame != [] && MaxWidth(BucketLists(frame).value) != 7 ==>
              r == Err(ValueError)
    ensures r.Ok? ==>
              |r.value| == |frame| &&
              forall i :: 0 <= i < |frame| ==>
                (forall k :: k in r.value[i] <==> k in frame[i] || IsDwellColumn(k)) &&
                MedianDwell in r.value[i] &&
                r.value[i][MedianDwell] == PatternField(frame[i], "median_dwell") &&
                (forall j :: 0 <= j < 7 ==>
                   BucketColumns[j] in r.value[i] &&
                   r.value[i][BucketColumns[j]] ==
                     (var vals := GetValues(BucketCell(frame[i])).value;
                      if j < |vals| then vals[j] else NaN)) &&
                (forall k :: k in frame[i] && !IsDwellColumn(k) ==> r.value[i][k] == frame[i][k])
  {
    match BucketLists(frame)
    case Err(e) => Err(e)
    case Ok(lists) =>
      match BucketBlock(lists)
      case Err(e) => Err(e)
      case Ok(block) =>
        var out := seq(|frame|, i requires 0 <= i < |frame| => DwellRow(frame[i], block[i]));
        DwellFrameSpec(frame, lists, block, out);
        Ok(out)
  }

  lemma DwellFrameSpec(frame: Frame, lists: seq<seq<Cell>>, block: seq<seq<Cell>>, out: Frame)
    requires BucketLists(frame) == Ok(lists)
    requires BucketBlock(lists) == Ok(block)
    requires |out| == |frame| && forall i :: 0 <= i < |frame| ==> out[i] == DwellRow(frame[i], block[i])
    ensures forall i :: 0 <= i < |frame| ==>
                (forall k :: k in out[i] <==> k in frame[i] || IsDwellColumn(k)) &&
                MedianDwell in out[i] &&
                out[i][MedianDwell] == PatternField(frame[i], "median_dwell") &&
                (forall j :: 0 <= j < 7 ==>
                   BucketColumns[j] in out[i] &&
                   out[i][BucketColumns[j]] ==
                     (var vals := GetValues(BucketCell(frame[i])).value;
                      if j < |vals| then vals[j] else NaN)) &&
                (forall k :: k in frame[i] && !IsDwellColumn(k) ==> out[i][k] == frame[i][k])
  {
    forall i | 0 <= i < |frame|
      ensures (forall k :: k in out[i] <==> k in frame[i] || IsDwellColumn(k)) &&
              MedianDwell in out[i] &&
              out[i][MedianDwell] == PatternField(frame[i], "median_dwell") &&
              (forall j :: 0 <= j < 7 ==>
                 BucketColumns[j] in out[i] &&
                 out[i][BucketColumns[j]] ==
                   (var vals := GetValues(BucketCell(frame[i])).value;
                    if j < |vals| then vals[j] else NaN)) &&
              (forall k :: k in frame[i] && !IsDwellColumn(k) ==> out[i][k] == frame[i][k])
    {
      DwellRowSpec(frame[i], block[i]);
    }
  }

  /** One row of `parse_dwell`: `median_dwell` and the seven buckets are set, in that order,
      and every other column is kept. */
  lemma DwellRowSpec(row: Row, vals: seq<Cell>)
    requires |vals| == 7
    ensures forall k :: k in DwellRow(row, vals) <==> k in row || IsDwellColumn(k)
    ensures MedianDwell in DwellRow(row, vals) && DwellRow(row, vals)[MedianDwell] == PatternField(row, "median_dwell")
    ensures forall j :: 0 <= j < 7 ==> BucketColumns[j] in DwellRow(row, vals) && DwellRow(row, vals)[BucketColumns[j]] == vals[j]
    ensures forall k :: k in row && !IsDwellColumn(k) ==> DwellRow(row, vals)[k] == row[k]
  {
    var base := row[MedianDwell := PatternField(row, "median_dwell")];
    BucketColumnsDistinct();
    assert BucketColumns[..7] == BucketColumns;
    forall k
      ensures k in DwellRow(row, vals) <==> k in row || IsDwellColumn(k)
    {
      AssignKeys(base, BucketColumns, vals, 7, k);
    }
    AssignOther(base, BucketColumns, vals, 7, MedianDwell);
    forall j | 0 <= j < 7
      ensures BucketColumns[j] in DwellRow(row, vals) && DwellRow(row, vals)[BucketColumns[j]] == vals[j]
    {
      AssignAt(base, BucketColumns, vals, 7, j);
    }
    forall k | k in row && !IsDwellColumn(k)
      ensures DwellRow(row, vals)[k] == row[k]
    {
      AssignOther(base, BucketColumns, vals, 7, k);
    }
  }

  // ---------------------------------------------------------------- the whole extraction

  /** `sub_df.drop(columns=[k], inplace=True)` */
  function DropColumn(frame: Frame, k: string): (r: Frame)
    ensures |r| == |frame|
    ensures forall i :: 0 <= i < |r| ==> k !in r[i] && forall c :: c in r[i] <==> c in frame[i] && c != k
    ensures forall i, c :: 0 <= i < |r| && c in r[i] ==> r[i][c] == frame[i][c]
  {
    seq(|frame|, i requires 0 <= i < |frame| => frame[i] - {k})
  }

  /** The extraction both unpackers run on a loaded DataFrame: select the wanted columns, add
      the visit columns, add the dwell columns, drop `node.weekly_patterns`. */
  function ExtractRows(df: Frame, cols: seq<string>): Result<Frame>
  {
    match SelectColumns(df, cols)
    case Err(e) => Err(e)
    case Ok(sel) =>
      match ParseDwell(VisitsFrame(sel))
      case Err(e) => Err(e)
      case Ok(dwell) => Ok(DropColumn(dwell, WeeklyPatterns))
  }

  /** The columns of an extracted row: the selected ones except the weekly patterns, plus the
      seven day columns, the two raw counts, the median dwell and the seven buckets. */
  predicate IsOutputColumn(cols: seq<string>, k: string)
  {
    (k in cols && k != WeeklyPatterns) || IsVisitsColumn(k) || IsDwellColumn(k)
  }

  /** A successful extraction neither adds nor loses rows, and row i of the result is what
      `ExtractedRow` says the extraction makes of row i of the loaded frame. */
  lemma ExtractRowsSpec(df: Frame, cols: seq<string>)
    requires WeeklyPatterns in cols
    ensures ExtractRows(df, cols).Ok? ==>
              var rows := ExtractRows(df, cols).value;
              |rows| == |df| &&
              forall i :: 0 <= i < |rows| ==> ExtractedRow(df[i], rows[i], cols)
  {
    if ExtractRows(df, cols).Ok? {
      var rows := ExtractRows(df, cols).value;
      forall i | 0 <= i < |rows|
        ensures ExtractedRow(df[i], rows[i], cols)
      {
        ExtractRowStages(df, cols, i);
        var sel := SelectColumns(df, cols).value;
        var dwell := ParseDwell(VisitsFrame(sel)).value;
        ExtractedRowSpec(df[i], sel[i], dwell[i], rows[i], cols);
      }
    }
  }

  /** What the extraction makes of one loaded row: exactly the output columns, never
      `node.weekly_patterns`; the seven day columns hold
      `weekly_patterns[0].visits_by_day[i].visits`; the identifying columns hold the loaded
      values; the raw counts and the median dwell hold the first weekly pattern's fields; the
      buckets hold the `getValues` values by position, NaN-padded. */
  ghost predicate ExtractedRow(dfRow: Row, outRow: Row, cols: seq<string>)
  {
    WeeklyPatterns !in outRow &&
    (forall k :: k in outRow <==> IsOutputColumn(cols, k)) &&
    (forall j :: 0 <= j < 7 ==> DayColumns[j] in outRow && outRow[DayColumns[j]] == DayVisits(dfRow, j)) &&
    (forall c :: c in cols && c != WeeklyPatterns && !IsVisitsColumn(c) && !IsDwellColumn(c) ==>
       c in outRow && outRow[c] == Get(dfRow, c)) &&
    RawVisitorCounts in outRow && outRow[RawVisitorCounts] == PatternField(dfRow, "raw_visitor_counts") &&
    RawVisitCounts in outRow && outRow[RawVisitCounts] == PatternField(dfRow, "raw_visit_counts") &&
    MedianDwell in outRow && outRow[MedianDwell] == PatternField(dfRow, "median_dwell") &&
    (forall j :: 0 <= j < 7 ==> BucketColumns[j] in outRow && outRow[BucketColumns[j]] == BucketValue(dfRow, j))
  }

  /** A successful extraction keeps the row count, and row i passes through every stage. */
  lemma ExtractRowStages(df: Frame, cols: seq<string>, i: nat)
    requires ExtractRows(df, cols).Ok? && i < |df|
    ensures SelectColumns(df, cols).Ok? && ParseDwell(VisitsFrame(SelectColumns(df, cols).value)).Ok?
    ensures var sel := SelectColumns(df, cols).value;
            var dwell := ParseDwell(VisitsFrame(sel)).value;
            var rows := ExtractRows(df, cols).value;
            |sel| == |df| && |dwell| == |df| && |rows| == |df| &&
            Stages(df[i], sel[i], dwell[i], rows[i], cols)
  {
    var sel := SelectColumns(df, cols).value;
    var visits := VisitsFrame(sel);
    var dwell := ParseDwell(visits).value;
    var rows := ExtractRows(df, cols).value;
    assert rows == DropColumn(dwell, WeeklyPatterns);
    assert visits[i] == VisitsRow(sel[i]);
    DwellStage(visits, i);
  }

  /** Row i of `parse_dwell`'s result, stated through `BucketValue`. */
  lemma DwellStage(frame: Frame, i: nat)
    requires ParseDwell(frame).Ok? && i < |frame|
    ensures |ParseDwell(frame).value| == |frame|
    ensures var row := ParseDwell(frame).value[i];
            (forall k :: k in row <==> k in frame[i] || IsDwellColumn(k)) &&
            (forall k :: k in frame[i] && !IsDwellColumn(k) ==> row[k] == frame[i][k]) &&
            MedianDwell in row && row[MedianDwell] == PatternField(frame[i], "median_dwell") &&
            (forall j :: 0 <= j < 7 ==> BucketColumns[j] in row && row[BucketColumns[j]] == BucketValue(frame[i], j))
  {
    assert GetValues(BucketCell(frame[i])).Ok?;
  }

  /** The stages of one row give everything `ExtractedRow` states. */
  lemma ExtractedRowSpec(dfRow: Row, selRow: Row, dwellRow: Row, outRow: Row, cols: seq<string>)
    requires WeeklyPatterns in cols
    requires Stages(dfRow, selRow, dwellRow, outRow, cols)
    ensures ExtractedRow(dfRow, outRow, cols)
  {
    ExtractedColumns(dfRow, selRow, dwellRow, outRow, cols);
    ExtractedDays(dfRow, selRow, dwellRow, outRow, cols);
    ExtractedKept(dfRow, selRow, dwellRow, outRow, cols);
    ExtractedPatterns(dfRow, selRow, dwellRow, outRow, cols);
  }

  /** One row through the extraction: loaded, selected, visit and dwell columns added,
      weekly patterns dropped. */
  ghost predicate Stages(dfRow: Row, selRow: Row, dwellRow: Row, outRow: Row, cols: seq<string>)
  {
    (forall c :: c in selRow <==> c in cols) &&
    (forall c :: c in cols ==> selRow[c] == Get(dfRow, c)) &&
    (forall k :: k in dwellRow <==> k in VisitsRow(selRow) || IsDwellColumn(k)) &&
    (forall k :: k in VisitsRow(selRow) && !IsDwellColumn(k) ==> dwellRow[k] == VisitsRow(selRow)[k]) &&
    MedianDwell in dwellRow && dwellRow[MedianDwell] == PatternField(VisitsRow(selRow), "median_dwell") &&
    (forall j :: 0 <= j < 7 ==> BucketColumns[j] in dwellRow && dwellRow[BucketColumns[j]] == BucketValue(VisitsRow(selRow), j)) &&
    WeeklyPatterns !in outRow &&
    (forall c :: c in outRow <==> c in dwellRow && c != WeeklyPatterns) &&
    (forall c :: c in outRow ==> outRow[c] == dwellRow[c])
  }

  lemma ExtractedColumns(dfRow: Row, selRow: Row, dwellRow: Row, outRow: Row, cols: seq<string>)
    requires Stages(dfRow, selRow, dwellRow, outRow, cols)
    ensures forall k :: k in outRow <==> IsOutputColumn(cols, k)
  {
    VisitsRowSpec(selRow);
    DayColumnsDistinct();
    BucketColumnsDistinct();
    forall k
      ensures k in outRow <==> IsOutputColumn(cols, k)
    {
      assert k in outRow <==> (k in cols || IsVisitsColumn(k) || IsDwellColumn(k)) && k != WeeklyPatterns;
    }
  }

  lemma ExtractedDays(dfRow: Row, selRow: Row, dwellRow: Row, outRow: Row, cols: seq<string>)
    requires WeeklyPatterns in cols
    requires Stages(dfRow, selRow, dwellRow, outRow, cols)
    ensures forall j :: 0 <= j < 7 ==> DayColumns[j] in outRow && outRow[DayColumns[j]] == DayVisits(dfRow, j)
  {
    VisitsRowSpec(selRow);
    DayColumnsDistinct();
    BucketColumnsDistinct();
    assert Get(selRow, WeeklyPatterns) == Get(dfRow, WeeklyPatterns);
    forall j | 0 <= j < 7
      ensures DayColumns[j] in outRow && outRow[DayColumns[j]] == DayVisits(dfRow, j)
    {
      assert DayVisits(selRow, j) == DayVisits(dfRow, j);
      assert !IsDwellColumn(DayColumns[j]);
    }
  }

  lemma ExtractedKept(dfRow: Row, selRow: Row, dwellRow: Row, outRow: Row, cols: seq<string>)
    requires Stages(dfRow, selRow, dwellRow, outRow, cols)
    ensures forall c :: c in cols && c != WeeklyPatterns && !IsVisitsColumn(c) && !IsDwellColumn(c) ==>
              c in outRow && outRow[c] == Get(dfRow, c)
  {
    VisitsRowSpec(selRow);
  }

  /** The visit columns keep the loaded row's weekly patterns, which the later steps read. */
  lemma VisitsKeepPatterns(dfRow: Row, selRow: Row, cols: seq<string>)
    requires WeeklyPatterns in cols
    requires forall c :: c in selRow <==> c in cols
    requires forall c :: c in cols ==> selRow[c] == Get(dfRow, c)
    ensures Get(VisitsRow(selRow), WeeklyPatterns) == Get(dfRow, WeeklyPatterns)
    ensures forall f :: PatternField(VisitsRow(selRow), f) == PatternField(dfRow, f)
    ensures BucketCell(VisitsRow(selRow)) == BucketCell(dfRow)
  {
    VisitsRowSpec(selRow);
    DayColumnsDistinct();
  }

  /** One extracted row's raw counts, median dwell and buckets are read from the loaded row's
      first weekly pattern. */
  lemma ExtractedPatterns(dfRow: Row, selRow: Row, dwellRow: Row, outRow: Row, cols: seq<string>)
    requires WeeklyPatterns in cols
    requires Stages(dfRow, selRow, dwellRow, outRow, cols)
    ensures RawVisitorCounts in outRow && outRow[RawVisitorCounts] == PatternField(dfRow, "raw_visitor_counts")
    ensures RawVisitCounts in outRow && outRow[RawVisitCounts] == PatternField(dfRow, "raw_visit_counts")
    ensures MedianDwell in outRow && outRow[MedianDwell] == PatternField(dfRow, "median_dwell")
    ensures forall j :: 0 <= j < 7 ==> BucketColumns[j] in outRow && outRow[BucketColumns[j]] == BucketValue(dfRow, j)
  {
    VisitsRowSpec(selRow);
    VisitsKeepPatterns(dfRow, selRow, cols);
    BucketColumnsDistinct();
    assert !IsDwellColumn(RawVisitorCounts) && !IsDwellColumn(RawVisitCounts);
    forall j | 0 <= j < 7
      ensures BucketColumns[j] in outRow && outRow[BucketColumns[j]] == BucketValue(dfRow, j)
    {
      assert BucketValue(VisitsRow(selRow), j) == BucketValue(dfRow, j);
    }
  }

  /** The extraction succeeds exactly when every wanted column occurs, every row's bucket
      value is None or a dict, and there are no rows or the longest bucket list has seven
      entries; each failure raises the error of the step that fails. */
  lemma ExtractRowsOk(df: Frame, cols: seq<string>)
    requires WeeklyPatterns in cols
    ensures ExtractRows(df, cols).Ok? <==>
              (forall c :: c in cols ==> HasColumn(df, c)) &&
              (forall i :: 0 <= i < |df| ==> GetValues(BucketCell(df[i])).Ok?) &&
              (df == [] || MaxWidth(BucketLists(df).value) == 7)
    ensures !(forall c :: c in cols ==> HasColumn(df, c)) ==> ExtractRows(df, cols) == Err(KeyError)
    ensures (forall c :: c in cols ==> HasColumn(df, c)) && BucketLists(df).Err? ==>
              ExtractRows(df, cols) == Err(AttributeError)
    ensures (forall c :: c in cols ==> HasColumn(df, c)) && BucketLists(df).Ok? && df != [] &&
            MaxWidth(BucketLists(df).value) != 7 ==>
              ExtractRows(df, cols) == Err(ValueError)
  {
    if SelectColumns(df, cols).Ok? {
      SelectedBucketLists(df, cols);
    }
  }

  /** Places whose `weekly_patterns` is None still extract: every such row gets None in its
      day columns, its raw counts and its median dwell, and NaN in all seven buckets. */
  lemma NullPatternsExtract(df: Frame, cols: seq<string>)
    requires WeeklyPatterns in cols && forall c :: c in cols ==> HasColumn(df, c)
    requires forall i :: 0 <= i < |df| ==> Get(df[i], WeeklyPatterns) == Val(JNull)
    ensures ExtractRows(df, cols).Ok?
    ensures var rows := ExtractRows(df, cols).value;
            |rows| == |df| &&
            forall i :: 0 <= i < |rows| ==>
              MedianDwell in rows[i] && rows[i][MedianDwell] == Val(JNull) &&
              forall j :: 0 <= j < 7 ==>
                DayColumns[j] in rows[i] && rows[i][DayColumns[j]] == Val(JNull) &&
                BucketColumns[j] in rows[i] && rows[i][BucketColumns[j]] == NaN
  {
    NullPatternsOk(df, cols);
    ExtractRowsSpec(df, cols);
    var rows := ExtractRows(df, cols).value;
    forall i | 0 <= i < |rows|
      ensures MedianDwell in rows[i] && rows[i][MedianDwell] == Val(JNull)
      ensures forall j :: 0 <= j < 7 ==>
                DayColumns[j] in rows[i] && rows[i][DayColumns[j]] == Val(JNull) &&
                BucketColumns[j] in rows[i] && rows[i][BucketColumns[j]] == NaN
    {
      NullRowCells(df[i], rows[i], cols);
    }
  }

  lemma NullPatternsOk(df: Frame, cols: seq<string>)
    requires WeeklyPatterns in cols && forall c :: c in cols ==> HasColumn(df, c)
    requires forall i :: 0 <= i < |df| ==> Get(df[i], WeeklyPatterns) == Val(JNull)
    ensures ExtractRows(df, cols).Ok?
  {
    NullBucketLists(df);
    ExtractRowsOk(df, cols);
  }

  /** With None patterns in every row, every bucket list is seven NaN long. */
  lemma NullBucketLists(df: Frame)
    requires forall i :: 0 <= i < |df| ==> Get(df[i], WeeklyPatterns) == Val(JNull)
    ensures forall i :: 0 <= i < |df| ==> GetValues(BucketCell(df[i])).Ok?
    ensures df == [] || MaxWidth(BucketLists(df).value) == 7
  {
    forall i | 0 <= i < |df|
      ensures GetValues(BucketCell(df[i])) == Ok(seq(7, _ => NaN))
    {
      NullPatterns(df[i], 0, "median_dwell");
    }
    if df != [] {
      var w := MaxWidth(BucketLists(df).value);
      var i :| 0 <= i < |df| && |BucketLists(df).value[i]| == w;
    }
  }

  /** The cells one extracted row gets from None patterns. */
  lemma NullRowCells(dfRow: Row, outRow: Row, cols: seq<string>)
    requires Get(dfRow, WeeklyPatterns) == Val(JNull) && ExtractedRow(dfRow, outRow, cols)
    ensures MedianDwell in outRow && outRow[MedianDwell] == Val(JNull)
    ensures forall j :: 0 <= j < 7 ==>
              DayColumns[j] in outRow && outRow[DayColumns[j]] == Val(JNull) &&
              BucketColumns[j] in outRow && outRow[BucketColumns[j]] == NaN
  {
    NullPatterns(dfRow, 0, "median_dwell");
    forall j | 0 <= j < 7
      ensures outRow[DayColumns[j]] == Val(JNull)
    {
      NullPatterns(dfRow, j, "median_dwell");
    }
  }

  /** Selecting the columns and adding the visit columns leaves every row's bucket value as
      it was loaded. */
  lemma SelectedBucketLists(df: Frame, cols: seq<string>)
    requires WeeklyPatterns in cols && SelectColumns(df, cols).Ok?
    ensures BucketLists(VisitsFrame(SelectColumns(df, cols).value)) == BucketLists(df)
  {
    var sel := SelectColumns(df, cols).value;
    var visits := VisitsFrame(sel);
    forall i | 0 <= i < |df|
      ensures BucketCell(visits[i]) == BucketCell(df[i])
    {
      VisitsKeepPatterns(df[i], sel[i], cols);
    }
    SameBucketLists(visits, df);
  }

  lemma SameBucketLists(a: Frame, b: Frame)
    requires |a| == |b| && forall i :: 0 <= i < |a| ==> BucketCell(a[i]) == BucketCell(b[i])
    ensures BucketLists(a) == BucketLists(b)
  {
    if BucketLists(b).Ok? {
      assert BucketLists(a).value == BucketLists(b).value;
    }
  }

  // ---------------------------------------------------------------- the batch files

  /** What one run of an unpacker writes: the table file, the pickled bad-file list, and
      their contents. */
  datatype BatchOutput = BatchOutput(csvPath: string, badFilesPath: string, rows: Frame, badFiles: seq<string>)

  /** `filename_pre = f"{dirs[0]}_{dirs[-1]}"` and the two paths built from it; an empty batch
      has no `dirs[0]` and raises IndexError. */
  function WriteBatch(dirs: seq<string>, outDir: string, rows: Frame, badFiles: seq<string>): (r: Result<BatchOutput>)
    ensures r.Err? <==> dirs == []
    ensures r.Err? ==> r.error == IndexError
    ensures r.Ok? ==>
              r.value.rows == rows && r.value.badFiles == badFiles &&
              r.value.csvPath == outDir + "/" + dirs[0] + "_" + dirs[|dirs| - 1] + ".csv" &&
              r.value.badFilesPath == outDir + "/" + dirs[0] + "_" + dirs[|dirs| - 1] + "_bad_files.pickle"
  {
    if dirs == [] then Err(IndexError)
    else
      var prefix := dirs[0] + "_" + dirs[|dirs| - 1];
      Ok(BatchOutput(outDir + "/" + prefix + ".csv", outDir + "/" + prefix + "_bad_files.pickle", rows, badFiles))
  }

  /** The extraction block, statement by statement. */
  method Extract(df: Frame, cols: seq<string>) returns (r: Result<Frame>)
    ensures r == ExtractRows(df, cols)
  {
    var sel := SelectColumns(df, cols);
    if sel.Err? {
      return Err(sel.error);
    }
    var subDf := ParseVisits(sel.value);
    var dwell := ParseDwell(subDf);
    if dwell.Err? {
      return Err(dwell.error);
    }
    subDf := DropColumn(dwell.value, WeeklyPatterns);
    return Ok(subDf);
  }
}
