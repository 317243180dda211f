/** The shape decision of TableRenderer (web/src/components/TableRenderer.tsx): which of
    its tables an arbitrary JSON value is shown as, with the header and cell values each
    table is given. The markup itself and the text conversion of each cell are left out. */
module TableRenderer {
  import opened Wrappers
  import opened Seqs
  import opened JsValue

  /** How a value is shown. Cells hold the values before their conversion to text. */
  datatype Shape =
    | Nothing                                              // nothing is rendered
    | HeadersRows(titles: seq<Value>, rows: seq<seq<Value>>)  // an object with a `rows` array
    | Grid(rows: seq<seq<Value>>)                           // an array of arrays
    | Records(keys: seq<string>, cells: seq<seq<Value>>)     // an array of plain objects
    | KeyValue(entries: seq<Entry>)                         // any other object or array
    | Atom(value: Value)                                    // a truthy primitive
    | Crash                                                 // rendering throws a TypeError

  /** typeof v === 'object' */
  predicate TypeofObject(v: Value) { v.Null? || v.Arr? || v.Obj? }

  /** is2DArray: an array whose every element is an array. */
  predicate Is2DArray(v: Value) {
    v.Arr? && forall i :: 0 <= i < |v.items| ==> v.items[i].Arr?
  }

  /** isRowObjectArray: an array whose every element is truthy, of type 'object' and not
      an array. */
  predicate IsRowObjectArray(v: Value) {
    v.Arr? && forall i :: 0 <= i < |v.items| ==>
      Truthy(v.items[i]) && TypeofObject(v.items[i]) && !v.items[i].Arr?
  }

  /** The elements of an array of arrays. */
  function Lists(xs: seq<Value>): (r: seq<seq<Value>>)
    requires forall i :: 0 <= i < |xs| ==> xs[i].Arr?
    ensures |r| == |xs| && forall i :: 0 <= i < |xs| ==> r[i] == xs[i].items
  {
    seq(|xs|, i requires 0 <= i < |xs| => xs[i].items)
  }

  /** Object.keys(row) */
  function RowKeys(row: Value): seq<string> { Keys(Entries(row)) }

  /** Every key of every row, row by row. */
  function AllKeys(rows: seq<Value>): seq<string>
    decreases |rows|
  {
    if rows == [] then [] else AllKeys(rows[..|rows| - 1]) + RowKeys(rows[|rows| - 1])
  }

  lemma {:induction false} AllKeysSnoc(rows: seq<Value>, i: nat)
    requires i < |rows|
    ensures AllKeys(rows[..i + 1]) == AllKeys(rows[..i]) + RowKeys(rows[i])
  {
    assert rows[..i + 1][..i] == rows[..i];
  }

  lemma {:induction false} AllKeysMember(rows: seq<Value>, k: string)
    ensures k in AllKeys(rows) <==> exists i :: 0 <= i < |rows| && k in RowKeys(rows[i])
    decreases |rows|
  {
    if rows != [] {
      var last := |rows| - 1;
      var p := rows[..last];
      AllKeysMember(p, k);
      assert AllKeys(rows) == AllKeys(p) + RowKeys(rows[last]);
      if k in RowKeys(rows[last]) {
        assert k in AllKeys(rows);
      } else if k in AllKeys(p) {
        var i :| 0 <= i < |p| && k in RowKeys(p[i]);
        assert p[i] == rows[i];
      } else {
        forall i | 0 <= i < |rows|
          ensures k !in RowKeys(rows[i])
        {
          if i < last {
            assert p[i] == rows[i];
          }
        }
      }
    }
  }

  /** `Object.keys(r).forEach((k) => set.add(k))`: adds the keys `ks` of one row to the
      Set holding Dedup(before). */
  method AddKeys(keys: seq<string>, ks: seq<string>, ghost before: seq<string>) returns (keys': seq<string>)
    requires keys == Dedup(before)
    ensures keys' == Dedup(before + ks)
  {
    keys' := keys;
    var j := 0;
    assert before + ks[..0] == before;
    while j < |ks|
      invariant j <= |ks|
      invariant keys' == Dedup(before + ks[..j])
    {
      ghost var p := before + ks[..j];
      assert p + [ks[j]] == before + ks[..j + 1];
      DedupSnoc(p, ks[j]);
      DedupMember(p, ks[j]);
      if ks[j] !in keys' {
        keys' := keys' + [ks[j]];
      }
      j := j + 1;
    }
    assert ks[..j] == ks;
  }

  /** uniqueKeys: the keys of the rows gathered into a Set, then listed in the Set's
      insertion order. */
  method UniqueKeys(rows: seq<Value>) returns (keys: seq<string>)
    ensures keys == Dedup(AllKeys(rows))
  {
    keys := [];
    var i := 0;
    while i < |rows|
      invariant i <= |rows|
      invariant keys == Dedup(AllKeys(rows[..i]))
    {
      keys := AddKeys(keys, RowKeys(rows[i]), AllKeys(rows[..i]));
      AllKeysSnoc(rows, i);
      i := i + 1;
    }
    assert rows[..i] == rows;
  }

  /** The header list is Dedup(AllKeys(rows)): no key twice, exactly the keys of the
      rows, in order of first occurrence scanning the rows left to right. */
  lemma {:induction false} UniqueKeysSpec(rows: seq<Value>)
    ensures NoDuplicates(Dedup(AllKeys(rows)))
    ensures forall k :: k in Dedup(AllKeys(rows)) <==> exists i :: 0 <= i < |rows| && k in RowKeys(rows[i])
    ensures var ks := Dedup(AllKeys(rows));
            forall i, j :: 0 <= i < j < |ks| ==> IndexOf(AllKeys(rows), ks[i]) < IndexOf(AllKeys(rows), ks[j])
  {
    DedupNoDuplicates(AllKeys(rows));
    DedupFirstOccurrence(AllKeys(rows));
    forall k
      ensures k in Dedup(AllKeys(rows)) <==> exists i :: 0 <= i < |rows| && k in RowKeys(rows[i])
    {
      DedupMember(AllKeys(rows), k);
      AllKeysMember(rows, k);
    }
  }

  /** The cell of `row` under header `h`: `row[h] ?? ''`. */
  function Cell(row: Value, h: string): Value { Coalesce(Get(row, h), Str("")) }

  /** One cell per header for each row. */
  function Project(rows: seq<Value>, headers: seq<string>): (r: seq<seq<Value>>)
    ensures |r| == |rows|
    ensures forall i :: 0 <= i < |rows| ==> |r[i]| == |headers|
  {
    seq(|rows|, i requires 0 <= i < |rows| => seq(|headers|, j requires 0 <= j < |headers| => Cell(rows[i], headers[j])))
  }

  /** `data.headers || []`, shown only when it has a positive length: None where
      `headers.map` throws, on a non-empty string. Other non-array values have no
      length and show no header row. */
  function HeaderCells(h: Value): Option<seq<Value>> {
    if h.Arr? then Some(h.items)
    else if h.Str? && |h.s| > 0 then None
    else Some([])
  }

  /** TableRenderer's dispatch, tried in the source's order. */
  function Classify(data: Value): Shape {
    if !Truthy(data) then Nothing
    else if TypeofObject(data) && Get(data, "rows").Arr? then
      var rows := Get(data, "rows").items;
      match HeaderCells(Or(Get(data, "headers"), Arr([])))
      case None => Crash
      case Some(headers) =>
        // `row.map` throws on a row that is not an array
        if forall i :: 0 <= i < |rows| ==> rows[i].Arr? then HeadersRows(headers, Lists(rows)) else Crash
    else if Is2DArray(data) then Grid(Lists(data.items))
    else if IsRowObjectArray(data) then
      var headers := Dedup(AllKeys(data.items));
      Records(headers, Project(data.items, headers))
    else if TypeofObject(data) then KeyValue(Entries(data))
    else Atom(data)
  }

  /** An array all of whose elements are non-null, non-array objects. */
  lemma {:induction false} RowObjectArrayIsObjects(v: Value)
    ensures IsRowObjectArray(v) <==> v.Arr? && forall i :: 0 <= i < |v.items| ==> v.items[i].Obj?
  {
  }

  /** Which shape a value takes, by what the value is: falsy values render nothing; an
      object with a `rows` array is a headers/rows table (or throws); an array of arrays,
      the empty array included, is a grid; a non-empty array of objects is a record table;
      any other object, and an array mixing kinds, is a key/value table; a truthy
      primitive is shown as it is. */
  lemma {:induction false} ClassifyShapes(data: Value)
    ensures Classify(data).Nothing? <==> !Truthy(data)
    ensures Classify(data).HeadersRows? || Classify(data).Crash? <==> data.Obj? && Get(data, "rows").Arr?
    ensures Classify(data).Grid? <==> data.Arr? && forall i :: 0 <= i < |data.items| ==> data.items[i].Arr?
    ensures Classify(data).Records? <==>
              data.Arr? && |data.items| > 0 && forall i :: 0 <= i < |data.items| ==> data.items[i].Obj?
    ensures Classify(data).KeyValue? <==>
              (data.Obj? && !Get(data, "rows").Arr?) ||
              (data.Arr? && (exists i :: 0 <= i < |data.items| && !data.items[i].Arr?)
                         && (exists i :: 0 <= i < |data.items| && !data.items[i].Obj?))
    ensures Classify(data).Atom? <==> Truthy(data) && !data.Arr? && !data.Obj?
    ensures Classify(data).Grid? ==>
              |Classify(data).rows| == |data.items| &&
              forall i :: 0 <= i < |data.items| ==> Arr(Classify(data).rows[i]) == data.items[i]
    ensures Classify(data).KeyValue? ==> Classify(data).entries == Entries(data)
    ensures Classify(data).Atom? ==> Classify(data).value == data
  {
    RowObjectArrayIsObjects(data);
    if data.Arr? && |data.items| > 0 && forall i :: 0 <= i < |data.items| ==> data.items[i].Obj? {
      assert !data.items[0].Arr?;
    }
  }

  /** The headers/rows table: headers default to none, and every row and every cell keeps
      its position. A non-empty string for headers, or a row that is not an array,
      throws. */
  lemma {:induction false} HeadersRowsTable(data: Value)
    requires data.Obj? && Get(data, "rows").Arr?
    ensures var rows := Get(data, "rows").items;
            var h := Get(data, "headers");
            match Classify(data)
            case HeadersRows(headers, cells) =>
              && (h.Arr? ==> headers == h.items)
              && (!h.Arr? ==> headers == [])
              && |cells| == |rows| && forall i :: 0 <= i < |rows| ==> rows[i] == Arr(cells[i])
            case Crash =>
              (Truthy(h) && h.Str?) || exists i :: 0 <= i < |rows| && !rows[i].Arr?
            case _ => false
    ensures var rows, h := Get(data, "rows").items, Get(data, "headers");
            Classify(data).Crash? <==> (Truthy(h) && h.Str?) || exists i :: 0 <= i < |rows| && !rows[i].Arr?
  {
  }

  /** The record table: one row per element and, in each, one cell per header in header
      order, holding the row's value for that key or '' where it has none (or a nullish
      one). */
  lemma {:induction false} RecordsTable(data: Value)
    requires Classify(data).Records?
    ensures var t := Classify(data);
            && t.keys == Dedup(AllKeys(data.items))
            && |t.cells| == |data.items|
            && (forall i :: 0 <= i < |data.items| ==> |t.cells[i]| == |t.keys|)
            && forall i, j :: 0 <= i < |data.items| && 0 <= j < |t.keys| ==>
                 t.cells[i][j] == (if Nullish(Get(data.items[i], t.keys[j])) then Str("")
                                   else Get(data.items[i], t.keys[j]))
  {
    ClassifyShapes(data);
  }

  /** The empty array shows as an empty grid. */
  lemma EmptyArrayIsGrid()
    ensures Classify(Arr([])) == Grid([])
  {
    assert Lists([]) == [];
  }

  /** An array that is neither all arrays nor all objects shows as a key/value table with
      one entry per element, keyed by its index. */
  lemma {:induction false} MixedArrayIsKeyValue(data: Value)
    requires data.Arr?
    requires exists i :: 0 <= i < |data.items| && !data.items[i].Arr?
    requires exists i :: 0 <= i < |data.items| && !data.items[i].Obj?
    ensures Classify(data).KeyValue?
    ensures var es := Classify(data).entries;
            |es| == |data.items| && forall i :: 0 <= i < |es| ==> es[i] == (Decimal.FromNat(i), data.items[i])
  {
    ClassifyShapes(data);
  }
}
