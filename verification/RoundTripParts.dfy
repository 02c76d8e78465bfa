/** Decoding what was encoded: folds, metadata, cells, parameters and data sets. */
module RoundTripParts {
  import opened Base
  import opened Wire
  import opened Model
  import opened Arrays
  import opened Alias
  import opened Scalars
  import opened Encode
  import opened Decode
  import D = DataTypes

  // ---- Folds over concatenated fields ----

  /** A fold that goes on from the outcome `r`. */
  function Onward(types: Option<Registry>, depth: nat, r: Result<Acc>, fs: seq<Field>): Result<Acc>
    requires depth <= MAX_DEPTH
  {
    if r.Ok? then Fold(types, depth, r.value, fs) else r
  }

  lemma {:induction false} FoldAppend(types: Option<Registry>, depth: nat, acc: Acc, a: seq<Field>, b: seq<Field>)
    requires depth <= MAX_DEPTH
    ensures Fold(types, depth, acc, a + b) == Onward(types, depth, Fold(types, depth, acc, a), b)
    decreases |a|
  {
    if a == [] {
      Units(b);
    } else {
      assert (a + b)[1..] == a[1..] + b;
      var next := Step(types, depth, acc, a[0]);
      if next.Ok? { FoldAppend(types, depth, next.value, a[1..], b); }
    }
  }

  /** A fold that has reached `mid` goes on to `next` with nothing or with one more field. */
  lemma Extend(types: Option<Registry>, depth: nat, acc: Acc, a: seq<Field>, b: seq<Field>, mid: Acc, next: Acc)
    requires depth <= MAX_DEPTH
    requires Fold(types, depth, acc, a) == Ok(mid)
    requires if b == [] then next == mid else |b| == 1 && Step(types, depth, mid, b[0]) == Ok(next)
    ensures Fold(types, depth, acc, a + b) == Ok(next)
  {
    FoldAppend(types, depth, acc, a, b);
    if b != [] {
      assert Fold(types, depth, next, b[1..]) == Ok(next);
    }
  }

  /** The buffer of a field list is decoded by folding over the list. */
  lemma RunOfSer(types: Option<Registry>, depth: nat, acc: Acc, fs: seq<Field>)
    requires depth <= MAX_DEPTH && |Ser(fs)| < TWO64
    ensures Run(types, depth, acc, Ser(fs)) == Fold(types, depth, acc, fs)
  {
    AllFit(fs);
    TokensOfSer(fs, []);
    Units(Ser(fs));
    Units(fs);
  }

  // ---- Metadata ----

  lemma MetaHalf(md: MetaData, half: MetaData)
    requires half ==
      NO_METADATA.(isMultiPart := md.isMultiPart, contentType := md.contentType, size := md.size, seqNo := md.seqNo)
    ensures Fold(None, MAX_DEPTH, MetaAcc(NO_METADATA),
              OptBool(1, md.isMultiPart) + OptBytes(2, md.contentType) + OptNum(3, md.size) + OptNum(4, md.seqNo))
            == Ok(MetaAcc(half))
  {
    var N, X, d := None, MAX_DEPTH, MetaAcc(NO_METADATA);
    var a1 := OptBool(1, md.isMultiPart);
    var m1 := NO_METADATA.(isMultiPart := md.isMultiPart);
    Units(a1);
    Extend(N, X, d, [], a1, d, MetaAcc(m1));
    var m2 := m1.(contentType := md.contentType);
    var a2 := a1 + OptBytes(2, md.contentType);
    Extend(N, X, d, a1, OptBytes(2, md.contentType), MetaAcc(m1), MetaAcc(m2));
    var m3 := m2.(size := md.size);
    Extend(N, X, d, a2, OptNum(3, md.size), MetaAcc(m2), MetaAcc(m3));
    Extend(N, X, d, a2 + OptNum(3, md.size), OptNum(4, md.seqNo), MetaAcc(m3), MetaAcc(half));
  }

  lemma MetaRest(md: MetaData, half: MetaData, a: seq<Field>)
    requires half ==
      NO_METADATA.(isMultiPart := md.isMultiPart, contentType := md.contentType, size := md.size, seqNo := md.seqNo)
    requires Fold(None, MAX_DEPTH, MetaAcc(NO_METADATA), a) == Ok(MetaAcc(half))
    ensures Fold(None, MAX_DEPTH, MetaAcc(NO_METADATA),
              a + OptBytes(5, md.fileName) + OptBytes(6, md.fileType) + OptBytes(7, md.md5)
                + OptBytes(8, md.description))
            == Ok(MetaAcc(md))
  {
    var N, X, d := None, MAX_DEPTH, MetaAcc(NO_METADATA);
    var m5 := half.(fileName := md.fileName);
    Extend(N, X, d, a, OptBytes(5, md.fileName), MetaAcc(half), MetaAcc(m5));
    var a5 := a + OptBytes(5, md.fileName);
    var m6 := m5.(fileType := md.fileType);
    Extend(N, X, d, a5, OptBytes(6, md.fileType), MetaAcc(m5), MetaAcc(m6));
    var a6 := a5 + OptBytes(6, md.fileType);
    var m7 := m6.(md5 := md.md5);
    Extend(N, X, d, a6, OptBytes(7, md.md5), MetaAcc(m6), MetaAcc(m7));
    Extend(N, X, d, a6 + OptBytes(7, md.md5), OptBytes(8, md.description), MetaAcc(m7), MetaAcc(md));
  }

  lemma MetaDataBack(md: MetaData)
    requires |Ser(MetaDataFields(md))| < TWO64
    ensures DecodeMetaData(Ser(MetaDataFields(md))) == Ok(md)
  {
    var half := NO_METADATA.(isMultiPart := md.isMultiPart, contentType := md.contentType, size := md.size,
                             seqNo := md.seqNo);
    MetaHalf(md, half);
    MetaRest(md, half,
             OptBool(1, md.isMultiPart) + OptBytes(2, md.contentType) + OptNum(3, md.size) + OptNum(4, md.seqNo));
    RunOfSer(None, MAX_DEPTH, MetaAcc(NO_METADATA), MetaDataFields(md));
  }

  // ---- Scalars, cells and parameters ----

  lemma CellBack(c: Cell, dt: DataType)
    requires c.Filled? ==> c.scalar.Type() == dt
    requires |Ser(CellFields(c))| < TWO64
    ensures DecodeCell(Ser(CellFields(c)), dt) == Ok(c)
  {
    RunOfSer(None, MAX_DEPTH, CellAcc(NO_SLOTS), CellFields(c));
    if c.Filled? {
      ScalarSlots(1, c.scalar);
      ScalarBuilt(c.scalar);
      Units(CellFields(c));
      Extend(None, MAX_DEPTH, CellAcc(NO_SLOTS), [], CellFields(c), CellAcc(NO_SLOTS), CellAcc(SlotsOf(c.scalar)));
    }
  }

  function ParameterRaw(p: Parameter): RawParameter {
    RawParameter(Some(p.name), Some(p.datatype_.Code()), if p.value.Some? then SlotsOf(p.value.value) else NO_SLOTS)
  }

  lemma ParameterFold(p: Parameter)
    ensures Fold(None, MAX_DEPTH, ParameterAcc(RawParameter(None, None, NO_SLOTS)), ParameterFields(p))
            == Ok(ParameterAcc(ParameterRaw(p)))
  {
    var N, X := None, MAX_DEPTH;
    var r0 := RawParameter(None, None, NO_SLOTS);
    var d := ParameterAcc(r0);
    var a1, r1 := [LenF(1, p.name)], r0.(name := Some(p.name));
    Units(a1);
    Extend(N, X, d, [], a1, d, ParameterAcc(r1));
    var a2, r2 := [VarintF(2, p.datatype_.Code())], r1.(typeCode := Some(p.datatype_.Code()));
    Extend(N, X, d, a1, a2, ParameterAcc(r1), ParameterAcc(r2));
    if p.value.Some? {
      ScalarSlots(3, p.value.value);
      Extend(N, X, d, a1 + a2, [ScalarF(3, p.value.value)], ParameterAcc(r2),
             ParameterAcc(r2.(slots := SlotsOf(p.value.value))));
    } else {
      Units(a1 + a2);
    }
  }

  lemma ParameterBack(p: Parameter)
    requires p.WellFormed() && |Ser(ParameterFields(p))| < TWO64
    ensures DecodeParameter(Ser(ParameterFields(p))) == Ok(p)
  {
    RunOfSer(None, MAX_DEPTH, ParameterAcc(RawParameter(None, None, NO_SLOTS)), ParameterFields(p));
    ParameterFold(p);
    D.CodeRoundTrip(p.datatype_);
    if p.value.Some? { ScalarBuilt(p.value.value); }
  }

  // ---- Data sets ----

  lemma SerOfCons(f: Field, fs: seq<Field>)
    ensures Ser([f] + fs) == SerField(f) + Ser(fs)
    ensures |Ser(fs)| < |Ser([f] + fs)|
    ensures f.LenF? ==> |f.body| < |Ser([f] + fs)|
  {
    assert ([f] + fs)[1..] == fs;
  }

  /** The first field of a list, then the rest. */
  lemma FoldCons(types: Option<Registry>, depth: nat, acc: Acc, f: Field, fs: seq<Field>)
    requires depth <= MAX_DEPTH
    ensures Fold(types, depth, acc, [f] + fs) == Onward(types, depth, Step(types, depth, acc, f), fs)
  {
    assert ([f] + fs)[1..] == fs;
  }

  lemma CellStep(dts: seq<DataType>, cells: seq<Cell>, c: Cell)
    requires |cells| < |dts| && (c.Filled? ==> c.scalar.Type() == dts[|cells|])
    requires |Ser(CellFields(c))| < TWO64
    ensures Step(None, MAX_DEPTH, RowAcc(dts, cells), LenF(1, Ser(CellFields(c)))) == Ok(RowAcc(dts, cells + [c]))
  {
    CellBack(c, dts[|cells|]);
  }

  /** The cells of `row` fit the columns after the first `n`. */
  predicate FitFrom(row: seq<Cell>, n: nat, dts: seq<DataType>) {
    && n + |row| <= |dts|
    && forall i :: 0 <= i < |row| ==> row[i].Filled? ==> row[i].scalar.Type() == dts[n + i]
  }

  lemma FitNext(row: seq<Cell>, n: nat, dts: seq<DataType>)
    requires row != [] && FitFrom(row, n, dts)
    ensures n < |dts| && (row[0].Filled? ==> row[0].scalar.Type() == dts[n]) && FitFrom(row[1..], n + 1, dts)
  {
    forall i | 0 <= i < |row| - 1 && row[1..][i].Filled? ensures row[1..][i].scalar.Type() == dts[n + 1 + i] {
      assert row[1..][i] == row[i + 1];
    }
  }

  lemma {:induction false} CellsFold(dts: seq<DataType>, cells: seq<Cell>, row: seq<Cell>)
    requires FitFrom(row, |cells|, dts) && |Ser(CellList(row))| < TWO64
    ensures Fold(None, MAX_DEPTH, RowAcc(dts, cells), CellList(row)) == Ok(RowAcc(dts, cells + row))
    decreases |row|
  {
    if row == [] {
      Units(cells);
    } else {
      var f := LenF(1, Ser(CellFields(row[0])));
      SerOfCons(f, CellList(row[1..]));
      FitNext(row, |cells|, dts);
      CellStep(dts, cells, row[0]);
      FoldCons(None, MAX_DEPTH, RowAcc(dts, cells), f, CellList(row[1..]));
      CellsFold(dts, cells + [row[0]], row[1..]);
      Assoc(cells, [row[0]], row[1..]);
      HeadTail(row);
    }
  }

  lemma RowBack(row: seq<Cell>, dts: seq<DataType>)
    requires RowFits(row, dts) && |Ser(CellList(row))| < TWO64
    ensures DecodeRow(Ser(CellList(row)), dts) == Ok(row)
  {
    CellsFold(dts, [], row);
    RunOfSer(None, MAX_DEPTH, RowAcc(dts, []), CellList(row));
    Units(row);
  }

  function RowSlices(rows: seq<seq<Cell>>): (s: seq<bytes>)
    ensures |s| == |rows|
  {
    if rows == [] then [] else [Ser(CellList(rows[0]))] + RowSlices(rows[1..])
  }

  function Codes(dts: seq<DataType>): (cs: seq<u32>)
    ensures |cs| == |dts|
  {
    if dts == [] then [] else [dts[0].Code()] + Codes(dts[1..])
  }

  lemma {:induction false} TypesOfCodes(dts: seq<DataType>)
    ensures Types(Codes(dts)) == Ok(dts)
  {
    if dts != [] {
      D.CodeRoundTrip(dts[0]);
      TypesOfCodes(dts[1..]);
      assert Codes(dts)[1..] == Codes(dts[1..]);
      HeadTail(dts);
    }
  }

  lemma {:induction false} RowsBack(rows: seq<seq<Cell>>, dts: seq<DataType>)
    requires forall row <- rows :: RowFits(row, dts)
    requires |Ser(RowList(rows))| < TWO64
    ensures DecodeRows(RowSlices(rows), dts) == Ok(rows)
  {
    if rows != [] {
      SerOfCons(LenF(4, Ser(CellList(rows[0]))), RowList(rows[1..]));
      RowBack(rows[0], dts);
      RowsBack(rows[1..], dts);
      assert RowSlices(rows)[1..] == RowSlices(rows[1..]);
      HeadTail(rows);
    }
  }

  lemma {:induction false} ColumnsFold(columns: seq<Str>, codes: seq<u32>, slices: seq<bytes>, cs: seq<Str>)
    ensures Fold(None, MAX_DEPTH, DataSetAcc(columns, codes, slices), ColumnList(cs)) ==
      Ok(DataSetAcc(columns + cs, codes, slices))
    decreases |cs|
  {
    if cs == [] {
      Units(columns);
    } else {
      FoldCons(None, MAX_DEPTH, DataSetAcc(columns, codes, slices), LenF(2, cs[0]), ColumnList(cs[1..]));
      ColumnsFold(columns + [cs[0]], codes, slices, cs[1..]);
      assert columns + [cs[0]] + cs[1..] == columns + cs;
    }
  }

  lemma {:induction false} TypesFold(columns: seq<Str>, codes: seq<u32>, slices: seq<bytes>, dts: seq<DataType>)
    ensures Fold(None, MAX_DEPTH, DataSetAcc(columns, codes, slices), TypeList(dts)) ==
      Ok(DataSetAcc(columns, codes + Codes(dts), slices))
    decreases |dts|
  {
    if dts == [] {
      Units(codes);
    } else {
      FoldCons(None, MAX_DEPTH, DataSetAcc(columns, codes, slices), VarintF(3, dts[0].Code()), TypeList(dts[1..]));
      TypesFold(columns, codes + [dts[0].Code()], slices, dts[1..]);
      assert codes + [dts[0].Code()] + Codes(dts[1..]) == codes + Codes(dts);
    }
  }

  lemma {:induction false} RowsFold(columns: seq<Str>, codes: seq<u32>, slices: seq<bytes>, rows: seq<seq<Cell>>)
    ensures Fold(None, MAX_DEPTH, DataSetAcc(columns, codes, slices), RowList(rows)) ==
      Ok(DataSetAcc(columns, codes, slices + RowSlices(rows)))
    decreases |rows|
  {
    if rows == [] {
      Units(slices);
    } else {
      var body := Ser(CellList(rows[0]));
      FoldCons(None, MAX_DEPTH, DataSetAcc(columns, codes, slices), LenF(4, body), RowList(rows[1..]));
      RowsFold(columns, codes, slices + [body], rows[1..]);
      assert slices + [body] + RowSlices(rows[1..]) == slices + RowSlices(rows);
    }
  }

  lemma DataSetFold(d: DataSet)
    ensures Fold(None, MAX_DEPTH, DataSetAcc([], [], []), DataSetFields(d))
            == Ok(DataSetAcc(d.columns, Codes(d.types), RowSlices(d.rows)))
  {
    var N, X, s := None, MAX_DEPTH, DataSetAcc([], [], []);
    var a1 := [VarintF(1, |d.columns| % TWO64)];
    Units(a1);
    Extend(N, X, s, [], a1, s, s);
    FoldAppend(N, X, s, a1, ColumnList(d.columns));
    ColumnsFold([], [], [], d.columns);
    FoldAppend(N, X, s, a1 + ColumnList(d.columns), TypeList(d.types));
    TypesFold(d.columns, [], [], d.types);
    FoldAppend(N, X, s, a1 + ColumnList(d.columns) + TypeList(d.types), RowList(d.rows));
    RowsFold(d.columns, Codes(d.types), [], d.rows);
    Units(d.columns);
    Units(Codes(d.types));
    Units(RowSlices(d.rows));
  }

  lemma DataSetBack(d: DataSet)
    requires d.WellFormed() && |Ser(DataSetFields(d))| < TWO64
    ensures DecodeDataSet(Ser(DataSetFields(d))) == Ok(d)
  {
    DataSetFold(d);
    RunOfSer(None, MAX_DEPTH, DataSetAcc([], [], []), DataSetFields(d));
    TypesOfCodes(d.types);
    SerAppend([VarintF(1, |d.columns| % TWO64)] + ColumnList(d.columns) + TypeList(d.types), RowList(d.rows));
    RowsBack(d.rows, d.types);
  }
}
