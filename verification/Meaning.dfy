/**
 What each decoder returns on arbitrary bytes, by its fields alone: the result is a value exactly when no field is
 unreadable, the buffer ends with a field, and the value is the one its last and repeated fields spell
 (src/codec/decode.rs).
 */
module Meaning {
  import opened Base
  import opened Wire
  import opened Fields
  import opened Model
  import opened Alias
  import opened Scalars
  import opened Decode
  import opened RoundTripParts
  import opened RoundTrip
  import opened Reading
  import Arrays
  import Sound
  import D = DataTypes

  /** A loop over all the fields is the loop over all but the last, then one turn. */
  lemma FoldFinal(types: Option<Registry>, depth: nat, acc: Acc, fs: seq<Field>)
    requires depth <= MAX_DEPTH && fs != [] && Fold(types, depth, acc, fs).Ok?
    ensures Fold(types, depth, acc, Init(fs)).Ok?
    ensures Step(types, depth, Fold(types, depth, acc, Init(fs)).value, Final(fs)) == Fold(types, depth, acc, fs)
  {
    hide Decode.Step, Decode.Fold;
    Cut(fs, |fs| - 1);
    assert fs[|fs| - 1..] == [Final(fs)];
    FoldAppend(types, depth, acc, Init(fs), [Final(fs)]);
    var mid := Fold(types, depth, acc, Init(fs));
    if mid.Ok? {
      FoldCons(types, depth, mid.value, Final(fs), []);
      Units([Final(fs)]);
      FoldNothing(types, depth, mid.value, Final(fs));
    }
  }

  lemma FoldNothing(types: Option<Registry>, depth: nat, acc: Acc, f: Field)
    requires depth <= MAX_DEPTH
    ensures Onward(types, depth, Step(types, depth, acc, f), []) == Step(types, depth, acc, f)
  {
    hide Decode.Step;
  }

  // ---- Data set cells ----

  lemma {:induction false} CellFolds(fs: seq<Field>)
    requires Fold(None, MAX_DEPTH, CellAcc(NO_SLOTS), fs).Ok?
    ensures SlotsAre(1, Fold(None, MAX_DEPTH, CellAcc(NO_SLOTS), fs).value.slots, fs)
    decreases |fs|
  {
    hide Decode.Fold, Scalars.SlotsStep;
    if fs == [] {
      FoldEmpty(None, MAX_DEPTH, CellAcc(NO_SLOTS));
    } else {
      FoldFinal(None, MAX_DEPTH, CellAcc(NO_SLOTS), fs);
      CellFolds(Init(fs));
      SlotsNext(1, Fold(None, MAX_DEPTH, CellAcc(NO_SLOTS), Init(fs)).value.slots, fs);
    }
  }

  lemma FoldEmpty(types: Option<Registry>, depth: nat, acc: Acc)
    requires depth <= MAX_DEPTH
    ensures Fold(types, depth, acc, []) == Ok(acc)
  {
  }

  /** An empty cell holds no scalar field; any other the scalar its column's type asks for. */
  predicate ReadsCell(fs: seq<Field>, dt: DataType, c: Cell) {
    match c
    case Empty => NoScalar(fs, 1)
    case Filled(s) => ReadsScalar(fs, 1, s) && s.Type() == dt
  }

  lemma CellFinishes(dt: DataType, slots: Slots, fs: seq<Field>, c: Cell)
    requires SlotsAre(1, slots, fs)
    ensures FinishCell(dt, slots) == Ok(c) <==> ReadsCell(fs, dt, c)
  {
    hide Scalars.BuildScalar, ReadsScalar, NoScalar, SlotsAre;
    BasicMeans(1, dt, slots, fs, if c.Filled? then c.scalar else Boolean(true));
  }

  lemma CellMeans(b: bytes, dt: DataType, c: Cell)
    ensures var broken := Broken(None, MAX_DEPTH, CellAcc(NO_SLOTS), b);
      if broken.Some? then DecodeCell(b, dt) == Err(broken.value)
      else DecodeCell(b, dt) == Ok(c) <==> ReadsCell(Tokens(b).fields, dt, c)
  {
    hide Decode.Run, Decode.Fold, Wire.Tokens, Broken, Decode.FinishCell, ReadsCell, SlotsAre;
    RunFails(None, MAX_DEPTH, CellAcc(NO_SLOTS), b);
    var run := Run(None, MAX_DEPTH, CellAcc(NO_SLOTS), b);
    if run.Ok? {
      CellFolds(Tokens(b).fields);
      CellFinishes(dt, run.value.slots, Tokens(b).fields, c);
    }
  }

  // ---- Data sets ----

  /** Each body is read as a cell of its column. */
  predicate ReadsRow(bs: seq<bytes>, dts: seq<DataType>, cells: seq<Cell>) {
    hide Decode.DecodeCell;
    |bs| == |cells| <= |dts| && forall i :: 0 <= i < |bs| ==> DecodeCell(bs[i], dts[i]) == Ok(cells[i])
  }

  lemma RowTurn(dts: seq<DataType>, cells: seq<Cell>, f: Field, next: seq<Cell>)
    ensures Step(None, MAX_DEPTH, RowAcc(dts, cells), f) == Ok(RowAcc(dts, next)) <==>
      if f.LenF? && f.num == 1 then
        |cells| < |dts| && |next| == |cells| + 1 && next[..|cells|] == cells
        && DecodeCell(f.body, dts[|cells|]) == Ok(next[|cells|])
      else next == cells
  {
    hide Decode.DecodeCell;
    if |next| == |cells| + 1 { assert next == next[..|cells|] + [next[|cells|]]; }
    if f.LenF? && f.num == 1 && |cells| < |dts| && DecodeCell(f.body, dts[|cells|]).Ok? {
      var one := [DecodeCell(f.body, dts[|cells|]).value];
      assert (cells + one)[..|cells|] == cells;
    }
  }

  lemma {:induction false} RowFolds(dts: seq<DataType>, fs: seq<Field>, cells: seq<Cell>)
    ensures Fold(None, MAX_DEPTH, RowAcc(dts, []), fs) == Ok(RowAcc(dts, cells)) <==>
      ReadsRow(Bodies(fs, 1), dts, cells)
    decreases |fs|
  {
    hide Decode.Fold, Decode.Step, Decode.DecodeCell;
    if fs == [] {
      FoldEmpty(None, MAX_DEPTH, RowAcc(dts, []));
    } else {
      var f, fold := Final(fs), Fold(None, MAX_DEPTH, RowAcc(dts, []), fs);
      var mid := if f.LenF? && f.num == 1 && cells != [] then cells[..|cells| - 1] else cells;
      RowFolds(dts, Init(fs), mid);
      RowTurn(dts, mid, f, cells);
      if fold == Ok(RowAcc(dts, cells)) {
        FoldFinal(None, MAX_DEPTH, RowAcc(dts, []), fs);
        RowKind(dts, Init(fs));
        var before := Fold(None, MAX_DEPTH, RowAcc(dts, []), Init(fs)).value.cells;
        RowFolds(dts, Init(fs), before);
        RowTurn(dts, before, f, cells);
      }
      if ReadsRow(Bodies(fs, 1), dts, cells) {
        FoldOnward(None, MAX_DEPTH, RowAcc(dts, []), fs, RowAcc(dts, mid), RowAcc(dts, cells));
      }
    }
  }

  lemma {:induction false} RowKind(dts: seq<DataType>, fs: seq<Field>)
    requires Fold(None, MAX_DEPTH, RowAcc(dts, []), fs).Ok?
    ensures Fold(None, MAX_DEPTH, RowAcc(dts, []), fs).value.RowAcc?
    ensures Fold(None, MAX_DEPTH, RowAcc(dts, []), fs).value.types == dts
    decreases |fs|
  {
    hide Decode.Fold, Decode.DecodeCell;
    if fs == [] {
      FoldEmpty(None, MAX_DEPTH, RowAcc(dts, []));
    } else {
      FoldFinal(None, MAX_DEPTH, RowAcc(dts, []), fs);
      RowKind(dts, Init(fs));
    }
  }

  lemma FoldOnward(types: Option<Registry>, depth: nat, acc: Acc, fs: seq<Field>, mid: Acc, next: Acc)
    requires depth <= MAX_DEPTH && fs != []
    requires Fold(types, depth, acc, Init(fs)) == Ok(mid) && Step(types, depth, mid, Final(fs)) == Ok(next)
    ensures Fold(types, depth, acc, fs) == Ok(next)
  {
    hide Decode.Fold, Decode.Step;
    Cut(fs, |fs| - 1);
    assert fs[|fs| - 1..] == [Final(fs)];
    Extend(types, depth, acc, Init(fs), [Final(fs)], mid, next);
  }

  lemma RowMeans(b: bytes, dts: seq<DataType>, cells: seq<Cell>)
    ensures DecodeRow(b, dts) == Ok(cells) <==>
      Tokens(b).error.None? && ReadsRow(Bodies(Tokens(b).fields, 1), dts, cells)
  {
    hide Decode.Fold, Wire.Tokens, ReadsRow, Bodies;
    RowFolds(dts, Tokens(b).fields, cells);
    if Fold(None, MAX_DEPTH, RowAcc(dts, []), Tokens(b).fields).Ok? { RowKind(dts, Tokens(b).fields); }
  }

  /** The type codes in order, single or packed. */
  function CodesIn(fs: seq<Field>): seq<nat>
    decreases |fs|
  {
    hide Decode.TypeCodes;
    if fs == [] then []
    else if Final(fs).VarintF? && Final(fs).num == 3 then CodesIn(Init(fs)) + [Final(fs).v]
    else if Final(fs).LenF? && Final(fs).num == 3 && TypeCodes(Final(fs).body).Ok? then
      CodesIn(Init(fs)) + TypeCodes(Final(fs).body).value
    else CodesIn(Init(fs))
  }

  lemma {:induction false} DataSetFolds(fs: seq<Field>)
    requires Fold(None, MAX_DEPTH, DataSetAcc([], [], []), fs).Ok?
    ensures var r := Fold(None, MAX_DEPTH, DataSetAcc([], [], []), fs).value;
      r.DataSetAcc? && r.columns == Bodies(fs, 2) && r.typeCodes == CodesIn(fs) && r.rowSlices == Bodies(fs, 4)
    decreases |fs|
  {
    hide Decode.Fold, Decode.TypeCodes, Base.ValidUtf8;
    if fs == [] {
      FoldEmpty(None, MAX_DEPTH, DataSetAcc([], [], []));
    } else {
      FoldFinal(None, MAX_DEPTH, DataSetAcc([], [], []), fs);
      DataSetFolds(Init(fs));
    }
  }

  lemma {:induction false} TypesMean(codes: seq<u32>, dts: seq<DataType>)
    ensures Types(codes) == Ok(dts) <==> |codes| == |dts| && forall i :: 0 <= i < |codes| ==> dts[i].Code() == codes[i]
  {
    if codes != [] {
      D.CodeOf(codes[0]);
      if dts != [] {
        HeadTail(dts);
        D.CodeRoundTrip(dts[0]);
        TypesMean(codes[1..], dts[1..]);
        assert forall i :: 0 <= i < |codes[1..]| ==> codes[1..][i] == codes[i + 1];
        assert forall i :: 0 <= i < |dts[1..]| ==> dts[1..][i] == dts[i + 1];
        assert forall i :: 0 < i < |codes| && i < |dts| ==> dts[i] == dts[1..][i - 1] && codes[i] == codes[1..][i - 1];
      }
    }
  }

  predicate ReadsRows(bs: seq<bytes>, dts: seq<DataType>, rows: seq<seq<Cell>>) {
    hide Decode.DecodeRow;
    |bs| == |rows| && forall i :: 0 <= i < |bs| ==> DecodeRow(bs[i], dts) == Ok(rows[i])
  }

  lemma {:induction false} RowsMean(bs: seq<bytes>, dts: seq<DataType>, rows: seq<seq<Cell>>)
    ensures DecodeRows(bs, dts) == Ok(rows) <==> ReadsRows(bs, dts, rows)
    decreases |bs|
  {
    hide Decode.DecodeRow;
    if bs != [] && rows != [] {
      HeadTail(rows);
      RowsMean(bs[1..], dts, rows[1..]);
      assert forall i :: 0 < i < |bs| && i < |rows| ==> rows[i] == rows[1..][i - 1] && bs[i] == bs[1..][i - 1];
      assert forall i :: 0 <= i < |bs| - 1 ==> bs[1..][i] == bs[i + 1];
    }
  }

  /** Columns, type codes and rows as the fields list them, in a shape the constructor accepts. */
  predicate ReadsDataSet(fs: seq<Field>, d: DataSet) {
    && d.columns == Bodies(fs, 2)
    && |d.types| == |CodesIn(fs)| && (forall i :: 0 <= i < |d.types| ==> d.types[i].Code() == CodesIn(fs)[i])
    && ReadsRows(Bodies(fs, 4), d.types, d.rows) && d.WellFormed()
  }

  lemma DataSetFinishes(columns: seq<Str>, codes: seq<u32>, slices: seq<bytes>, d: DataSet)
    ensures FinishDataSet(columns, codes, slices) == Ok(d) <==>
      && d.columns == columns
      && |d.types| == |codes| && (forall i :: 0 <= i < |d.types| ==> d.types[i].Code() == codes[i])
      && ReadsRows(slices, d.types, d.rows) && d.WellFormed()
  {
    hide Decode.Types, Decode.DecodeRows, ReadsRows, DataSet.WellFormed, D.DataType.Code;
    TypesMean(codes, d.types);
    RowsMean(slices, d.types, d.rows);
    if Types(codes).Ok? {
      TypesMean(codes, Types(codes).value);
      var rows := DecodeRows(slices, Types(codes).value);
      if rows.Ok? { RowsMean(slices, Types(codes).value, rows.value); }
    }
  }

  lemma DataSetMeans(b: bytes, d: DataSet)
    ensures var broken := Broken(None, MAX_DEPTH, DataSetAcc([], [], []), b);
      if broken.Some? then DecodeDataSet(b) == Err(broken.value)
      else DecodeDataSet(b) == Ok(d) <==> ReadsDataSet(Tokens(b).fields, d)
  {
    hide Decode.Run, Decode.Fold, Wire.Tokens, Broken, Decode.FinishDataSet, ReadsRows, DataSet.WellFormed;
    hide D.DataType.Code, Bodies, CodesIn;
    RunFails(None, MAX_DEPTH, DataSetAcc([], [], []), b);
    var run := Run(None, MAX_DEPTH, DataSetAcc([], [], []), b);
    if run.Ok? {
      DataSetFolds(Tokens(b).fields);
      DataSetFinishes(run.value.columns, run.value.typeCodes, run.value.rowSlices, d);
    }
  }

  // ---- Parameters and metadata ----

  lemma {:induction false} ParameterFolds(fs: seq<Field>)
    requires Fold(None, MAX_DEPTH, ParameterAcc(RawParameter(None, None, NO_SLOTS)), fs).Ok?
    ensures var r := Fold(None, MAX_DEPTH, ParameterAcc(RawParameter(None, None, NO_SLOTS)), fs).value;
      && r.ParameterAcc? && r.parameter.name == LastLen(fs, 1) && r.parameter.typeCode == LastVarint(fs, 2)
      && SlotsAre(3, r.parameter.slots, fs)
    decreases |fs|
  {
    hide Decode.Fold, Scalars.SlotsStep, Base.ValidUtf8;
    var start := ParameterAcc(RawParameter(None, None, NO_SLOTS));
    if fs == [] {
      FoldEmpty(None, MAX_DEPTH, start);
    } else {
      FoldFinal(None, MAX_DEPTH, start, fs);
      ParameterFolds(Init(fs));
      var before := Fold(None, MAX_DEPTH, start, Init(fs)).value.parameter.slots;
      var f := Final(fs);
      if (f.LenF? && f.num == 1) || (f.VarintF? && f.num == 2) {
        SlotsStay(3, before, fs);
      } else {
        SlotsNext(3, before, fs);
      }
    }
  }

  lemma SlotsStay(base: nat, s: Slots, fs: seq<Field>)
    requires fs != [] && SlotsAre(base, s, Init(fs)) && !(base <= Final(fs).num <= base + 5)
    ensures SlotsAre(base, s, fs)
  {
  }

  /** Name and type are required; without a scalar field there is no value. */
  predicate ReadsParameter(fs: seq<Field>, p: Parameter) {
    && LastLen(fs, 1) == Some(p.name) && LastVarint(fs, 2) == Some(p.datatype_.Code())
    && match p.value {
         case None => NoScalar(fs, 3)
         case Some(s) => ReadsScalar(fs, 3, s) && s.Type() == p.datatype_
       }
  }

  lemma ParameterFinishes(raw: RawParameter, fs: seq<Field>, p: Parameter)
    requires raw.name == LastLen(fs, 1) && raw.typeCode == LastVarint(fs, 2) && SlotsAre(3, raw.slots, fs)
    ensures FinishParameter(raw) == Ok(p) <==> ReadsParameter(fs, p)
  {
    hide Scalars.BuildScalar, ReadsScalar, NoScalar, SlotsAre, D.DataType.Code, D.FromCode, LastLen, LastVarint;
    BasicMeans(3, p.datatype_, raw.slots, fs, if p.value.Some? then p.value.value else Boolean(true));
    D.CodeRoundTrip(p.datatype_);
    if raw.typeCode.Some? { D.CodeOf(raw.typeCode.value); }
  }

  lemma ParameterMeans(b: bytes, p: Parameter)
    ensures var broken := Broken(None, MAX_DEPTH, ParameterAcc(RawParameter(None, None, NO_SLOTS)), b);
      if broken.Some? then DecodeParameter(b) == Err(broken.value)
      else DecodeParameter(b) == Ok(p) <==> ReadsParameter(Tokens(b).fields, p)
  {
    hide Decode.Run, Decode.Fold, Wire.Tokens, Broken, Decode.FinishParameter, ReadsParameter, SlotsAre;
    RunFails(None, MAX_DEPTH, ParameterAcc(RawParameter(None, None, NO_SLOTS)), b);
    var run := Run(None, MAX_DEPTH, ParameterAcc(RawParameter(None, None, NO_SLOTS)), b);
    if run.Ok? {
      ParameterFolds(Tokens(b).fields);
      ParameterFinishes(run.value.parameter, Tokens(b).fields, p);
    }
  }

  predicate ReadsMetaData(fs: seq<Field>, md: MetaData) {
    && md.isMultiPart == Flag(LastVarint(fs, 1)) && md.contentType == LastLen(fs, 2)
    && md.size == LastVarint(fs, 3) && md.seqNo == LastVarint(fs, 4)
    && md.fileName == LastLen(fs, 5) && md.fileType == LastLen(fs, 6)
    && md.md5 == LastLen(fs, 7) && md.description == LastLen(fs, 8)
  }

  lemma {:induction false} MetaFolds(fs: seq<Field>)
    requires Fold(None, MAX_DEPTH, MetaAcc(NO_METADATA), fs).Ok?
    ensures var r := Fold(None, MAX_DEPTH, MetaAcc(NO_METADATA), fs).value;
      r.MetaAcc? && ReadsMetaData(fs, r.metadata)
    decreases |fs|
  {
    hide Decode.Fold, Base.ValidUtf8;
    if fs == [] {
      FoldEmpty(None, MAX_DEPTH, MetaAcc(NO_METADATA));
    } else {
      FoldFinal(None, MAX_DEPTH, MetaAcc(NO_METADATA), fs);
      MetaFolds(Init(fs));
    }
  }

  lemma MetaDataMeans(b: bytes, md: MetaData)
    ensures var broken := Broken(None, MAX_DEPTH, MetaAcc(NO_METADATA), b);
      if broken.Some? then DecodeMetaData(b) == Err(broken.value)
      else DecodeMetaData(b) == Ok(md) <==> ReadsMetaData(Tokens(b).fields, md)
  {
    hide Decode.Run, Decode.Fold, Wire.Tokens, Broken, LastLen, LastVarint, Flag;
    RunFails(None, MAX_DEPTH, MetaAcc(NO_METADATA), b);
    if Run(None, MAX_DEPTH, MetaAcc(NO_METADATA), b).Ok? { MetaFolds(Tokens(b).fields); }
  }

  // ---- Properties ----

  lemma {:induction false} PropertyFolds(depth: nat, fs: seq<Field>)
    requires depth <= MAX_DEPTH && Fold(None, depth, PropertyAcc(NO_PROPERTY), fs).Ok?
    ensures var r := Fold(None, depth, PropertyAcc(NO_PROPERTY), fs).value;
      && r.PropertyAcc? && PropertyIs(r.property, fs)
    decreases |fs|
  {
    hide Decode.Fold, Scalars.SlotsStep, SlotsAre;
    if fs == [] {
      FoldEmpty(None, depth, PropertyAcc(NO_PROPERTY));
      NoSlots(3);
    } else {
      FoldFinal(None, depth, PropertyAcc(NO_PROPERTY), fs);
      PropertyFolds(depth, Init(fs));
      var before := Fold(None, depth, PropertyAcc(NO_PROPERTY), Init(fs)).value.property.slots;
      var f := Final(fs);
      if f.num in {1, 2, 9, 10} { SlotsStay(3, before, fs); }
      if SlotsStep(3, before, f).Ok? { SlotsNext(3, before, fs); }
    }
  }

  predicate PropertyIs(raw: RawProperty, fs: seq<Field>) {
    && raw.typeCode == LastVarint(fs, 1) && (raw.isNull <==> Flag(LastVarint(fs, 2)) == Some(true))
    && raw.setV == LastLen(fs, 9) && raw.listV == LastLen(fs, 10) && SlotsAre(3, raw.slots, fs)
  }

  lemma NoSlots(base: nat)
    ensures SlotsAre(base, NO_SLOTS, [])
  {
  }

  /** The type is required; a raised null flag hides any value. */
  predicate ReadsProperty(fs: seq<Field>, depth: nat, v: PropertyValue) {
    hide Decode.DecodeSet, Decode.DecodeList;
    && LastVarint(fs, 1) == Some(v.Type().Code())
    && (v.NullV? <==> Flag(LastVarint(fs, 2)) == Some(true))
    && match v {
         case Plain(s) => ReadsScalar(fs, 3, s)
         case SetV(ps) => LastLen(fs, 9).Some? && DecodeSet(LastLen(fs, 9).value, depth + 1) == Ok(ps)
         case ListV(l) => LastLen(fs, 10).Some? && DecodeList(LastLen(fs, 10).value, depth + 1) == Ok(l)
         case NullV(_) => true
       }
  }

  lemma PropertyFinishes(depth: nat, raw: RawProperty, fs: seq<Field>, v: PropertyValue)
    requires depth <= MAX_DEPTH && PropertyIs(raw, fs)
    ensures FinishProperty(depth, raw) == Ok(v) <==> ReadsProperty(fs, depth, v)
  {
    hide Scalars.BuildScalar, ReadsScalar, SlotsAre, D.DataType.Code, D.FromCode, LastLen, LastVarint;
    hide Decode.DecodeSet, Decode.DecodeList;
    BasicMeans(3, v.Type(), raw.slots, fs, if v.Plain? then v.scalar else Boolean(true));
    NotNested();
    D.CodeRoundTrip(v.Type());
    if raw.typeCode.Some? { D.CodeOf(raw.typeCode.value); }
    if raw.typeCode.Some? && D.FromCode(raw.typeCode.value).Ok? {
      var dt := D.FromCode(raw.typeCode.value).value;
      if BuildScalar(dt, raw.slots).Ok? { Sound.BuildType(dt, raw.slots); }
    }
  }

  lemma NotNested()
    ensures !D.DataType.PropertySet.IsBasic() && !D.DataType.PropertySetList.IsBasic()
  {
  }

  lemma PropertyMeans(b: bytes, depth: nat, v: PropertyValue)
    ensures var broken := Broken(None, depth, PropertyAcc(NO_PROPERTY), b);
      if depth > MAX_DEPTH then DecodeProperty(b, depth) == Err(RecursionLimit)
      else if broken.Some? then DecodeProperty(b, depth) == Err(broken.value)
      else DecodeProperty(b, depth) == Ok(v) <==> ReadsProperty(Tokens(b).fields, depth, v)
  {
    hide Decode.Run, Decode.Fold, Wire.Tokens, Broken, Decode.FinishProperty, ReadsProperty, PropertyIs;
    if depth <= MAX_DEPTH {
      RunFails(None, depth, PropertyAcc(NO_PROPERTY), b);
      var run := Run(None, depth, PropertyAcc(NO_PROPERTY), b);
      if run.Ok? {
        PropertyFolds(depth, Tokens(b).fields);
        PropertyFinishes(depth, run.value.property, Tokens(b).fields, v);
      }
    }
  }

  /** Each body is read as a property value, one level deeper. */
  predicate ReadsValues(bs: seq<bytes>, depth: nat, vs: seq<PropertyValue>) {
    hide Decode.DecodeProperty;
    |bs| == |vs| && forall i :: 0 <= i < |bs| ==> DecodeProperty(bs[i], depth + 1) == Ok(vs[i])
  }

  lemma {:induction false} SetFolds(depth: nat, fs: seq<Field>)
    requires depth <= MAX_DEPTH && Fold(None, depth, SetAcc([], []), fs).Ok?
    ensures var r := Fold(None, depth, SetAcc([], []), fs).value;
      r.SetAcc? && r.keys == Bodies(fs, 1) && ReadsValues(Bodies(fs, 2), depth, r.values)
    decreases |fs|
  {
    hide Decode.Fold, Decode.DecodeProperty, Base.ValidUtf8;
    if fs == [] {
      FoldEmpty(None, depth, SetAcc([], []));
    } else {
      FoldFinal(None, depth, SetAcc([], []), fs);
      SetFolds(depth, Init(fs));
    }
  }

  /** As many keys as values, paired in order. */
  predicate ReadsSet(fs: seq<Field>, depth: nat, ps: PropertySet) {
    hide ReadsValues;
    && Keys(ps.entries) == Bodies(fs, 1) && ReadsValues(Bodies(fs, 2), depth, Values(ps.entries))
  }

  lemma {:induction false} ZipParts(keys: seq<Str>, values: seq<PropertyValue>)
    requires |keys| == |values|
    ensures Keys(Zip(keys, values)) == keys && Values(Zip(keys, values)) == values
  {
    if keys != [] {
      ZipParts(keys[1..], values[1..]);
      HeadTail(keys);
      HeadTail(values);
      assert ([Entry(keys[0], values[0])] + Zip(keys[1..], values[1..]))[1..] == Zip(keys[1..], values[1..]);
    }
  }

  lemma SetFinishes(fs: seq<Field>, depth: nat, keys: seq<Str>, values: seq<PropertyValue>, ps: PropertySet)
    requires keys == Bodies(fs, 1) && ReadsValues(Bodies(fs, 2), depth, values)
    ensures (|keys| == |values| && PropertySet(Zip(keys, values)) == ps) <==> ReadsSet(fs, depth, ps)
  {
    hide Decode.DecodeProperty, Decode.Zip, Keys, Values, Bodies;
    if |keys| == |values| { ZipParts(keys, values); }
    if ReadsSet(fs, depth, ps) {
      assert values == Values(ps.entries);
      ZipOfParts(ps.entries);
    }
  }

  lemma SetMeans(b: bytes, depth: nat, ps: PropertySet)
    ensures var broken := Broken(None, depth, SetAcc([], []), b);
      if depth > MAX_DEPTH then DecodeSet(b, depth) == Err(RecursionLimit)
      else if broken.Some? then DecodeSet(b, depth) == Err(broken.value)
      else DecodeSet(b, depth) == Ok(ps) <==> ReadsSet(Tokens(b).fields, depth, ps)
  {
    hide Decode.Run, Decode.Fold, Wire.Tokens, Broken, ReadsSet, ReadsValues, Bodies, Decode.Zip;
    if depth <= MAX_DEPTH {
      RunFails(None, depth, SetAcc([], []), b);
      var run := Run(None, depth, SetAcc([], []), b);
      if run.Ok? {
        SetFolds(depth, Tokens(b).fields);
        SetFinishes(Tokens(b).fields, depth, run.value.keys, run.value.values, ps);
      }
    }
  }

  predicate ReadsSets(bs: seq<bytes>, depth: nat, sets: seq<PropertySet>) {
    hide Decode.DecodeSet;
    |bs| == |sets| && forall i :: 0 <= i < |bs| ==> DecodeSet(bs[i], depth + 1) == Ok(sets[i])
  }

  lemma {:induction false} ListFolds(depth: nat, fs: seq<Field>)
    requires depth <= MAX_DEPTH && Fold(None, depth, ListAcc([]), fs).Ok?
    ensures var r := Fold(None, depth, ListAcc([]), fs).value;
      r.ListAcc? && ReadsSets(Bodies(fs, 1), depth, r.sets)
    decreases |fs|
  {
    hide Decode.Fold, Decode.DecodeSet;
    if fs == [] {
      FoldEmpty(None, depth, ListAcc([]));
    } else {
      FoldFinal(None, depth, ListAcc([]), fs);
      ListFolds(depth, Init(fs));
    }
  }

  lemma SetsUnique(bs: seq<bytes>, depth: nat, a: seq<PropertySet>, b: seq<PropertySet>)
    requires ReadsSets(bs, depth, a) && ReadsSets(bs, depth, b)
    ensures a == b
  {
    hide Decode.DecodeSet;
  }

  lemma ListMeans(b: bytes, depth: nat, l: PropertySetList)
    ensures var broken := Broken(None, depth, ListAcc([]), b);
      if depth > MAX_DEPTH then DecodeList(b, depth) == Err(RecursionLimit)
      else if broken.Some? then DecodeList(b, depth) == Err(broken.value)
      else DecodeList(b, depth) == Ok(l) <==> ReadsSets(Bodies(Tokens(b).fields, 1), depth, l.sets)
  {
    hide Decode.Run, Decode.Fold, Wire.Tokens, Broken, ReadsSets, Bodies;
    if depth <= MAX_DEPTH {
      RunFails(None, depth, ListAcc([]), b);
      var run := Run(None, depth, ListAcc([]), b);
      if run.Ok? {
        ListFolds(depth, Tokens(b).fields);
        if ReadsSets(Bodies(Tokens(b).fields, 1), depth, l.sets) {
          SetsUnique(Bodies(Tokens(b).fields, 1), depth, l.sets, run.value.sets);
        }
      }
    }
  }

  // ---- Metrics ----

  function MetaDataAt(b: Option<bytes>): Option<MetaData> {
    hide Decode.DecodeMetaData;
    if b.Some? && DecodeMetaData(b.value).Ok? then Some(DecodeMetaData(b.value).value) else None
  }

  function SetAt(b: Option<bytes>, depth: nat): Option<PropertySet> {
    hide Decode.DecodeSet;
    if b.Some? && DecodeSet(b.value, depth).Ok? then Some(DecodeSet(b.value, depth).value) else None
  }

  /** The fields of a metric but for its value. */
  predicate HeadIs(depth: nat, raw: RawMetric, fs: seq<Field>) {
    hide MetaDataAt, SetAt;
    && FlatIs(raw, fs)
    && raw.metadata == MetaDataAt(LastLen(fs, 8)) && raw.properties == SetAt(LastLen(fs, 9), depth + 1)
  }

  predicate FlatIs(raw: RawMetric, fs: seq<Field>) {
    NamesAre(raw, fs) && FlagsAre(raw, fs)
  }

  predicate NamesAre(raw: RawMetric, fs: seq<Field>) {
    && raw.name == LastLen(fs, 1) && raw.alias == LastVarint(fs, 2) && raw.timestamp == LastVarint(fs, 3)
    && raw.typeCode == LastVarint(fs, 4)
  }

  predicate FlagsAre(raw: RawMetric, fs: seq<Field>) {
    && raw.isHistorical == Flag(LastVarint(fs, 5)) && raw.isTransient == Flag(LastVarint(fs, 6))
    && (raw.isNull <==> Flag(LastVarint(fs, 7)) == Some(true))
  }

  predicate BodyIs(raw: RawMetric, fs: seq<Field>) {
    hide SlotsAre;
    && SlotsAre(10, raw.slots, fs)
    && raw.bytesV == LastLen(fs, 16) && raw.datasetV == LastLen(fs, 17) && raw.templateV == LastLen(fs, 18)
  }

  lemma NamesTurn(depth: nat, raw: RawMetric, fs: seq<Field>, next: RawMetric)
    requires depth <= MAX_DEPTH && fs != [] && NamesAre(raw, Init(fs))
    requires MetricStep(depth, raw, Final(fs)) == Ok(MetricAcc(next))
    ensures NamesAre(next, fs)
  {
    hide Scalars.SlotsStep, Base.ValidUtf8, Decode.DecodeMetaData, Decode.DecodeSet;
  }

  lemma FlagsTurn(depth: nat, raw: RawMetric, fs: seq<Field>, next: RawMetric)
    requires depth <= MAX_DEPTH && fs != [] && FlagsAre(raw, Init(fs))
    requires MetricStep(depth, raw, Final(fs)) == Ok(MetricAcc(next))
    ensures FlagsAre(next, fs)
  {
    hide Scalars.SlotsStep, Base.ValidUtf8, Decode.DecodeMetaData, Decode.DecodeSet;
  }

  lemma HeadTurn(depth: nat, raw: RawMetric, fs: seq<Field>, next: RawMetric)
    requires depth <= MAX_DEPTH && fs != [] && HeadIs(depth, raw, Init(fs))
    requires MetricStep(depth, raw, Final(fs)) == Ok(MetricAcc(next))
    ensures HeadIs(depth, next, fs)
  {
    hide Scalars.SlotsStep, Base.ValidUtf8, Decode.DecodeMetaData, Decode.DecodeSet, NamesAre, FlagsAre;
    NamesTurn(depth, raw, fs, next);
    FlagsTurn(depth, raw, fs, next);
  }

  lemma BodyTurn(depth: nat, raw: RawMetric, fs: seq<Field>, next: RawMetric)
    requires depth <= MAX_DEPTH && fs != [] && BodyIs(raw, Init(fs))
    requires MetricStep(depth, raw, Final(fs)) == Ok(MetricAcc(next))
    ensures BodyIs(next, fs)
  {
    hide Scalars.SlotsStep, Base.ValidUtf8, Decode.DecodeMetaData, Decode.DecodeSet, SlotsAre;
    var f := Final(fs);
    if f.num < 10 || f.num > 15 { SlotsStay(10, raw.slots, fs); }
    if SlotsStep(10, raw.slots, f).Ok? { SlotsNext(10, raw.slots, fs); }
  }

  lemma {:induction false} MetricFolds(types: Option<Registry>, depth: nat, fs: seq<Field>)
    requires depth <= MAX_DEPTH && Fold(types, depth, MetricAcc(RAW_METRIC), fs).Ok?
    ensures var r := Fold(types, depth, MetricAcc(RAW_METRIC), fs).value;
      r.MetricAcc? && HeadIs(depth, r.metric, fs) && BodyIs(r.metric, fs)
    decreases |fs|
  {
    hide Decode.Fold, Decode.MetricStep;
    if fs == [] {
      FoldEmpty(types, depth, MetricAcc(RAW_METRIC));
      NoSlots(10);
    } else {
      hide HeadIs, BodyIs;
      FoldFinal(types, depth, MetricAcc(RAW_METRIC), fs);
      MetricFolds(types, depth, Init(fs));
      var raw := Fold(types, depth, MetricAcc(RAW_METRIC), Init(fs)).value.metric;
      var next := Fold(types, depth, MetricAcc(RAW_METRIC), fs).value.metric;
      HeadTurn(depth, raw, fs, next);
      BodyTurn(depth, raw, fs, next);
    }
  }

  /** The declared type code counts; without one, the registry answers for the name, or else for the alias. */
  predicate ReadsType(fs: seq<Field>, types: Option<Registry>, dt: DataType) {
    if LastVarint(fs, 4).Some? then dt.Code() == LastVarint(fs, 4).value
    else
      && types.Some?
      && if LastLen(fs, 1).Some? then
           ValidUtf8(LastLen(fs, 1).value) && types.value.TypeForName(LastLen(fs, 1).value) == Some(dt)
         else LastVarint(fs, 2).Some? && types.value.TypeForAlias(LastVarint(fs, 2).value) == Some(dt)
  }

  /** The value stands in the field its datatype calls for. */
  predicate ReadsBody(fs: seq<Field>, types: Option<Registry>, depth: nat, v: MetricValue) {
    hide Decode.DecodeDataSet, Decode.DecodeTemplate, Arrays.Unpack;
    match v
    case Basic(s) => ReadsScalar(fs, 10, s)
    case Uuid(s) => LastLen(fs, 15) == Some(s)
    case Bytes(b) => LastLen(fs, 16) == Some(b)
    case File(b) => LastLen(fs, 16) == Some(b)
    case Array(a) => LastLen(fs, 16).Some? && Arrays.Unpack(a.Type(), LastLen(fs, 16).value) == Ok(a)
    case DataSetV(d) => LastLen(fs, 17).Some? && DecodeDataSet(LastLen(fs, 17).value) == Ok(d)
    case TemplateV(t) => LastLen(fs, 18).Some? && DecodeTemplate(LastLen(fs, 18).value, types, depth + 1) == Ok(t)
    case Null(_) => true
  }

  /** Everything about a metric, from its fields: null exactly when the last null flag is raised. */
  predicate ReadsMetric(fs: seq<Field>, types: Option<Registry>, depth: nat, m: Metric) {
    hide ReadsType, ReadsBody, MetaDataAt, SetAt;
    && m.name == LastLen(fs, 1) && m.alias == LastVarint(fs, 2) && m.timestamp == LastVarint(fs, 3)
    && m.isHistorical == Flag(LastVarint(fs, 5)) && m.isTransient == Flag(LastVarint(fs, 6))
    && m.metadata == MetaDataAt(LastLen(fs, 8)) && m.properties == SetAt(LastLen(fs, 9), depth + 1)
    && ReadsType(fs, types, m.value.Type())
    && (m.value.Null? <==> Flag(LastVarint(fs, 7)) == Some(true))
    && ReadsBody(fs, types, depth, m.value)
  }

  lemma TypeMeans(types: Option<Registry>, depth: nat, raw: RawMetric, fs: seq<Field>, dt: DataType)
    requires HeadIs(depth, raw, fs)
    ensures MetricType(types, raw) == Ok(dt) <==> ReadsType(fs, types, dt)
  {
    hide D.DataType.Code, D.FromCode, LastLen, LastVarint, Flag, Base.ValidUtf8;
    D.CodeRoundTrip(dt);
    if raw.typeCode.Some? { D.CodeOf(raw.typeCode.value); }
  }

  lemma UnpackType(dt: DataType, d: bytes)
    requires Arrays.Unpack(dt, d).Ok?
    ensures Arrays.Unpack(dt, d).value.Type() == dt && dt.IsArray()
  {
    hide Arrays.UnpackNumeric, Arrays.UnpackBits, Arrays.ToStrs, Arrays.Segments, Base.FromLe;
    if !dt.BooleanArray? && !dt.StringArray? { NumericType(dt, d); }
  }

  lemma NumericType(dt: DataType, d: bytes)
    requires Arrays.UnpackNumeric(dt, d).Ok?
    ensures Arrays.UnpackNumeric(dt, d).value.Type() == dt && dt.IsArray()
  {
    hide Arrays.UnpackNumbers, Arrays.I8s, Arrays.I16s, Arrays.I32s, Arrays.I64s;
    hide Arrays.U8s, Arrays.U16s, Arrays.U32s, Arrays.U64s;
  }

  lemma ArrayTyped(v: MetricValue)
    ensures v.Type().IsArray() ==> v.Array? || v.Null?
    ensures v.Array? ==> v.Type().IsArray() && !v.Type().IsBasic()
  {
  }

  predicate Holds(fs: seq<Field>, types: Option<Registry>, depth: nat, raw: RawMetric, dt: DataType, v: MetricValue) {
    hide ReadsBody;
    v.Type() == dt && (v.Null? <==> raw.isNull) && ReadsBody(fs, types, depth, v)
  }

  lemma NullHeld(types: Option<Registry>, depth: nat, raw: RawMetric, fs: seq<Field>, dt: DataType, v: MetricValue)
    requires depth <= MAX_DEPTH && raw.isNull
    ensures MetricValueOf(types, depth, dt, raw) == Ok(v) <==> Holds(fs, types, depth, raw, dt, v)
  {
    hide Arrays.Unpack, Scalars.BuildScalar, ReadsScalar, LastLen, LastVarint, Decode.DecodeTemplate;
    hide Decode.DecodeDataSet;
  }

  lemma BasicTyped(v: MetricValue)
    ensures v.Type().IsBasic() ==> v.Basic? || v.Null?
  {
  }

  lemma BasicHeld(types: Option<Registry>, depth: nat, raw: RawMetric, fs: seq<Field>, dt: DataType, v: MetricValue)
    requires depth <= MAX_DEPTH && BodyIs(raw, fs) && !raw.isNull && dt.IsBasic()
    ensures MetricValueOf(types, depth, dt, raw) == Ok(v) <==> Holds(fs, types, depth, raw, dt, v)
  {
    hide Arrays.Unpack, Scalars.BuildScalar, ReadsScalar, SlotsAre, LastLen, LastVarint, Decode.DecodeTemplate;
    hide Decode.DecodeDataSet, Model.Scalar.Type, D.DataType.IsBasic;
    BasicTyped(v);
    BasicMeans(10, dt, raw.slots, fs, if v.Basic? then v.scalar else Boolean(true));
  }

  lemma ArrayBuilt(types: Option<Registry>, depth: nat, raw: RawMetric, dt: DataType)
    requires depth <= MAX_DEPTH && !raw.isNull && dt.IsArray()
    ensures var r := MetricValueOf(types, depth, dt, raw);
      if raw.bytesV.None? then r == Err(ValueTypeMismatch)
      else if Arrays.Unpack(dt, raw.bytesV.value).Ok? then r == Ok(Array(Arrays.Unpack(dt, raw.bytesV.value).value))
      else r.Err?
  {
    hide Arrays.Unpack, Scalars.BuildScalar, Decode.DecodeTemplate, Decode.DecodeDataSet;
    hide D.DataType.IsArray, D.DataType.IsBasic;
    NotBoth(dt);
  }

  lemma ArrayHeld(types: Option<Registry>, depth: nat, raw: RawMetric, fs: seq<Field>, dt: DataType, v: MetricValue)
    requires depth <= MAX_DEPTH && BodyIs(raw, fs) && !raw.isNull && dt.IsArray()
    ensures MetricValueOf(types, depth, dt, raw) == Ok(v) <==> Holds(fs, types, depth, raw, dt, v)
  {
    hide Arrays.Unpack, ReadsScalar, SlotsAre, LastLen, LastVarint, Decode.MetricValueOf, Decode.DecodeDataSet;
    hide Decode.DecodeTemplate, Decode.Run, Decode.Fold, Decode.Step;
    hide D.DataType.IsArray, D.DataType.IsBasic, ArrayValue.Type, Model.Scalar.Type;
    ArrayBuilt(types, depth, raw, dt);
    ArrayTyped(v);
    if raw.bytesV.Some? && Arrays.Unpack(dt, raw.bytesV.value).Ok? { UnpackType(dt, raw.bytesV.value); }
  }

  lemma NotBoth(dt: DataType)
    ensures !(dt.IsArray() && dt.IsBasic())
  {
  }

  lemma OtherHeld(types: Option<Registry>, depth: nat, raw: RawMetric, fs: seq<Field>, dt: DataType, v: MetricValue)
    requires depth <= MAX_DEPTH && BodyIs(raw, fs) && !raw.isNull && !dt.IsBasic() && !dt.IsArray()
    ensures MetricValueOf(types, depth, dt, raw) == Ok(v) <==> Holds(fs, types, depth, raw, dt, v)
  {
    hide Arrays.Unpack, Scalars.BuildScalar, ReadsScalar, LastLen, LastVarint, Decode.DecodeTemplate;
    hide Decode.DecodeDataSet, D.DataType.IsArray, D.DataType.IsBasic, ArrayValue.Type, Model.Scalar.Type;
    ArrayTyped(v);
    if v.Basic? { ScalarTyped(v.scalar); }
  }

  lemma ScalarTyped(s: Scalar)
    ensures s.Type().IsBasic()
  {
  }

  lemma ValueMeans(types: Option<Registry>, depth: nat, raw: RawMetric, fs: seq<Field>, dt: DataType, v: MetricValue)
    requires depth <= MAX_DEPTH && BodyIs(raw, fs)
    ensures MetricValueOf(types, depth, dt, raw) == Ok(v) <==> Holds(fs, types, depth, raw, dt, v)
  {
    hide Decode.MetricValueOf, Holds, BodyIs;
    if raw.isNull {
      NullHeld(types, depth, raw, fs, dt, v);
    } else if dt.IsBasic() {
      BasicHeld(types, depth, raw, fs, dt, v);
    } else if dt.IsArray() {
      ArrayHeld(types, depth, raw, fs, dt, v);
    } else {
      OtherHeld(types, depth, raw, fs, dt, v);
    }
  }

  lemma MetricFinishes(types: Option<Registry>, depth: nat, raw: RawMetric, fs: seq<Field>, m: Metric)
    requires depth <= MAX_DEPTH && HeadIs(depth, raw, fs) && BodyIs(raw, fs)
    ensures FinishMetric(types, depth, raw) == Ok(m) <==> ReadsMetric(fs, types, depth, m)
  {
    hide Decode.MetricType, Decode.MetricValueOf, ReadsType, ReadsBody, BodyIs, LastLen, LastVarint;
    TypeMeans(types, depth, raw, fs, m.value.Type());
    ValueMeans(types, depth, raw, fs, m.value.Type(), m.value);
    if MetricType(types, raw).Ok? {
      var dt := MetricType(types, raw).value;
      var v := MetricValueOf(types, depth, dt, raw);
      if v.Ok? { ValueMeans(types, depth, raw, fs, dt, v.value); }
    }
  }

  lemma MetricMeans(b: bytes, types: Option<Registry>, depth: nat, m: Metric)
    ensures var broken := Broken(types, depth, MetricAcc(RAW_METRIC), b);
      if depth > MAX_DEPTH then DecodeMetric(b, types, depth) == Err(RecursionLimit)
      else if broken.Some? then DecodeMetric(b, types, depth) == Err(broken.value)
      else DecodeMetric(b, types, depth) == Ok(m) <==> ReadsMetric(Tokens(b).fields, types, depth, m)
  {
    hide Decode.Run, Decode.Fold, Wire.Tokens, Broken, Decode.FinishMetric, ReadsMetric, HeadIs, BodyIs;
    if depth <= MAX_DEPTH {
      RunFails(types, depth, MetricAcc(RAW_METRIC), b);
      var run := Run(types, depth, MetricAcc(RAW_METRIC), b);
      if run.Ok? {
        MetricFolds(types, depth, Tokens(b).fields);
        MetricFinishes(types, depth, run.value.metric, Tokens(b).fields, m);
      }
    }
  }

  // ---- Templates and payloads ----

  predicate ReadsMetrics(bs: seq<bytes>, types: Option<Registry>, depth: nat, ms: seq<Metric>) {
    hide Decode.DecodeMetric;
    |bs| == |ms| && forall i :: 0 <= i < |bs| ==> DecodeMetric(bs[i], types, depth) == Ok(ms[i])
  }

  predicate ReadsParameters(bs: seq<bytes>, ps: seq<Parameter>) {
    hide Decode.DecodeParameter;
    |bs| == |ps| && forall i :: 0 <= i < |bs| ==> DecodeParameter(bs[i]) == Ok(ps[i])
  }

  /** Members one level deeper; the definition flag is down unless raised. */
  predicate ReadsTemplate(fs: seq<Field>, types: Option<Registry>, depth: nat, t: Template) {
    hide ReadsMetrics, ReadsParameters;
    && t.version == LastLen(fs, 1) && t.templateRef == LastLen(fs, 4)
    && (t.isDefinition <==> Flag(LastVarint(fs, 5)) == Some(true))
    && ReadsMetrics(Bodies(fs, 2), types, depth + 1, t.metrics) && ReadsParameters(Bodies(fs, 3), t.parameters)
  }

  lemma {:induction false} TemplateFolds(types: Option<Registry>, depth: nat, fs: seq<Field>)
    requires depth <= MAX_DEPTH && Fold(types, depth, TemplateAcc(NO_TEMPLATE), fs).Ok?
    ensures var r := Fold(types, depth, TemplateAcc(NO_TEMPLATE), fs).value;
      r.TemplateAcc? && ReadsTemplate(fs, types, depth, r.template)
    decreases |fs|
  {
    hide Decode.Fold, Decode.DecodeMetric, Decode.DecodeParameter, Base.ValidUtf8;
    if fs == [] {
      FoldEmpty(types, depth, TemplateAcc(NO_TEMPLATE));
    } else {
      FoldFinal(types, depth, TemplateAcc(NO_TEMPLATE), fs);
      TemplateFolds(types, depth, Init(fs));
    }
  }

  lemma PartsUnique(bs: seq<bytes>, types: Option<Registry>, depth: nat, a: seq<Metric>, b: seq<Metric>,
                    cs: seq<bytes>, p: seq<Parameter>, q: seq<Parameter>)
    ensures ReadsMetrics(bs, types, depth, a) && ReadsMetrics(bs, types, depth, b) ==> a == b
    ensures ReadsParameters(cs, p) && ReadsParameters(cs, q) ==> p == q
  {
    hide Decode.DecodeMetric, Decode.DecodeParameter;
  }

  lemma TemplateMeans(b: bytes, types: Option<Registry>, depth: nat, t: Template)
    ensures var broken := Broken(types, depth, TemplateAcc(NO_TEMPLATE), b);
      if depth > MAX_DEPTH then DecodeTemplate(b, types, depth) == Err(RecursionLimit)
      else if broken.Some? then DecodeTemplate(b, types, depth) == Err(broken.value)
      else DecodeTemplate(b, types, depth) == Ok(t) <==> ReadsTemplate(Tokens(b).fields, types, depth, t)
  {
    hide Decode.Run, Decode.Fold, Wire.Tokens, Broken, ReadsMetrics, ReadsParameters, Bodies, LastLen, LastVarint;
    if depth <= MAX_DEPTH {
      RunFails(types, depth, TemplateAcc(NO_TEMPLATE), b);
      var run := Run(types, depth, TemplateAcc(NO_TEMPLATE), b);
      if run.Ok? {
        var fs, r := Tokens(b).fields, run.value.template;
        TemplateFolds(types, depth, fs);
        PartsUnique(Bodies(fs, 2), types, depth + 1, t.metrics, r.metrics, Bodies(fs, 3), t.parameters, r.parameters);
      }
    }
  }

  /** The sequence number is cut to eight bits. */
  predicate ReadsPayload(fs: seq<Field>, types: Option<Registry>, p: Payload) {
    hide ReadsMetrics;
    && p.timestamp == LastVarint(fs, 1) && p.uuid == LastLen(fs, 4) && p.body == LastLen(fs, 5)
    && (if LastVarint(fs, 3).Some? then p.seqNo == Some(LastVarint(fs, 3).value % 0x100) else p.seqNo == None)
    && ReadsMetrics(Bodies(fs, 2), types, 0, p.metrics)
  }

  lemma {:induction false} PayloadFolds(types: Option<Registry>, fs: seq<Field>)
    requires Fold(types, 0, PayloadAcc(NO_PAYLOAD), fs).Ok?
    ensures var r := Fold(types, 0, PayloadAcc(NO_PAYLOAD), fs).value;
      r.PayloadAcc? && ReadsPayload(fs, types, r.payload)
    decreases |fs|
  {
    hide Decode.Fold, Decode.DecodeMetric, Base.ValidUtf8;
    if fs == [] {
      FoldEmpty(types, 0, PayloadAcc(NO_PAYLOAD));
    } else {
      FoldFinal(types, 0, PayloadAcc(NO_PAYLOAD), fs);
      PayloadFolds(types, Init(fs));
    }
  }

  lemma PayloadMeans(b: bytes, types: Option<Registry>, p: Payload)
    ensures var broken := Broken(types, 0, PayloadAcc(NO_PAYLOAD), b);
      if broken.Some? then DecodePayload(b, types) == Err(broken.value)
      else DecodePayload(b, types) == Ok(p) <==> ReadsPayload(Tokens(b).fields, types, p)
  {
    hide Decode.Run, Decode.Fold, Wire.Tokens, Broken, ReadsMetrics, Bodies, LastLen, LastVarint;
    RunFails(types, 0, PayloadAcc(NO_PAYLOAD), b);
    var run := Run(types, 0, PayloadAcc(NO_PAYLOAD), b);
    if run.Ok? {
      var fs, r := Tokens(b).fields, run.value.payload;
      PayloadFolds(types, fs);
      PartsUnique(Bodies(fs, 2), types, 0, p.metrics, r.metrics, [], [], []);
    }
  }
}
