/**
 * The normaliser: turns the decoded frame section (an abstract input standing for
 * what the DWARF library hands over) into the simplified `SimpleDwarf` model.
 * Register rules and columns follow DWARF 4, section 6.4.1 (register rules).
 */
module DwarfReader {
  import opened Wrappers
  import opened SimpleDwarf

  /** The column under which the decoded rows carry the CFA rule. */
  const CfaCol3: int := 1436

  /**
   * x86-64 DWARF register numbers (System V AMD64 psABI, section 3.6.2):
   * 16 is the return address (rip), 7 is rsp, 6 is rbp.
   */
  const X86Rip: int := 16
  const X86Rsp: int := 7
  const X86Rbp: int := 6

  /** The return-address register used when `from_dwarfpp_reg` is called with one argument. */
  const DefaultRaReg: int := -1

  /** A decoded register rule, as the DWARF library distinguishes them. */
  datatype RegisterDef =
    | Indeterminate
    | UndefinedRule
    | SameValue
    | SavedAtOffsetFromCfa(offset: int)
    | SavedAtExpr
    | RegisterPlusOffset(regnum: int, offset: int)
    | ValIsOffsetFromCfa(offset: int)
    | ValOfExpr

  /** One (column, rule) pair of a decoded row. */
  datatype Cell = Cell(column: int, rule: RegisterDef)

  /** A decoded row: the lower bound of its address interval and its cells in order. */
  datatype DecodedRow = DecodedRow(lower: nat, cells: seq<Cell>)

  /** A decoded FDE, with the return-address register its CIE declares. */
  datatype DecodedFde = DecodedFde(lowPc: nat, funcLength: nat, raReg: int, rows: seq<DecodedRow>)

  datatype ReadError = InvalidDwarf | UnsupportedRegister

  /** The raw id that names role `m` when `raReg` is the return-address column. */
  function IdOf(m: MachineRegister, raReg: int): int {
    match m
    case RegRA => raReg
    case RegRIP => X86Rip
    case RegRSP => X86Rsp
    case RegRBP => X86Rbp
  }

  /**
   * `from_dwarfpp_reg`: the return-address column wins over the fixed x86-64 table;
   * an id in neither is unsupported.
   */
  function FromDwarfppReg(regId: int, raReg: int): (r: Result<MachineRegister, ReadError>)
    ensures r.Ok? ==> IdOf(r.value, raReg) == regId
    ensures r.Ok? && r.value != RegRA ==> regId != raReg
    ensures r.Err? <==> regId != raReg && regId != X86Rip && regId != X86Rsp && regId != X86Rbp
    ensures r.Err? ==> r.error == UnsupportedRegister
  {
    if regId == raReg then Ok(RegRA)
    else if regId == X86Rip then Ok(RegRIP)
    else if regId == X86Rsp then Ok(RegRSP)
    else if regId == X86Rbp then Ok(RegRBP)
    else Err(UnsupportedRegister)
  }

  /** Every role is recovered from its own id, the return-address column first. */
  lemma ClassifyRoundTrip(m: MachineRegister, raReg: int)
    requires m == RegRA || IdOf(m, raReg) != raReg
    ensures FromDwarfppReg(IdOf(m, raReg), raReg) == Ok(m)
  {
  }

  /**
   * `read_register`: translates a decoded rule into one of the four kinds. The base
   * register of a register-plus-offset rule is classified with the default
   * return-address register, and an unsupported base propagates as an error.
   */
  function ReadRegister(def: RegisterDef): (r: Result<DwRegister, ReadError>)
    ensures r.Err? <==> def.RegisterPlusOffset? && FromDwarfppReg(def.regnum, DefaultRaReg).Err?
    ensures r.Err? ==> r.error == UnsupportedRegister
    ensures r.Ok? && r.value.Undefined? <==> def.Indeterminate? || def.UndefinedRule?
    ensures r.Ok? && r.value.Register? ==>
      def == RegisterPlusOffset(IdOf(r.value.reg, DefaultRaReg), r.value.offset)
    ensures r.Ok? && r.value.CfaOffset? <==> def.SavedAtOffsetFromCfa?
    ensures r.Ok? && r.value.CfaOffset? ==> r.value.offset == def.offset
    ensures r.Ok? && r.value.NotImplemented? <==>
      def.SameValue? || def.SavedAtExpr? || def.ValIsOffsetFromCfa? || def.ValOfExpr?
  {
    match def
    case RegisterPlusOffset(regnum, offset) =>
      var base :- FromDwarfppReg(regnum, DefaultRaReg);
      Ok(Register(base, offset))
    case SavedAtOffsetFromCfa(offset) => Ok(CfaOffset(offset))
    case Indeterminate => Ok(Undefined)
    case UndefinedRule => Ok(Undefined)
    case _ => Ok(NotImplemented)
  }

  /** A non-CFA cell whose column is neither rbp nor the return address: it is ignored. */
  predicate Dropped(cell: Cell, raReg: int) {
    cell.column != CfaCol3 &&
    FromDwarfppReg(cell.column, raReg) != Ok(RegRBP) &&
    FromDwarfppReg(cell.column, raReg) != Ok(RegRA)
  }

  /**
   * The effect of one cell on the row being built (the body of the cell loop of
   * `read_fde`). Only a CFA cell can fail; the unsupported-register exception of
   * any other cell is caught and leaves the row as it was.
   */
  function ApplyCell(row: DwRow, cell: Cell, raReg: int): (r: Result<DwRow, ReadError>)
    ensures r.Err? <==> cell.column == CfaCol3 && ReadRegister(cell.rule).Err?
    ensures r.Ok? ==> r.value.ip == row.ip
    ensures r.Ok? && r.value.cfa != row.cfa ==> cell.column == CfaCol3
    ensures r.Ok? && r.value.rbp != row.rbp ==>
      cell.column != CfaCol3 && FromDwarfppReg(cell.column, raReg) == Ok(RegRBP)
    ensures r.Ok? && r.value.ra != row.ra ==>
      cell.column != CfaCol3 && FromDwarfppReg(cell.column, raReg) == Ok(RegRA)
    ensures Dropped(cell, raReg) ==> r == Ok(row)
    ensures r.Ok? && cell.column == CfaCol3 ==> Ok(r.value.cfa) == ReadRegister(cell.rule)
    ensures r.Ok? && cell.column != CfaCol3 && FromDwarfppReg(cell.column, raReg) == Ok(RegRBP) ==>
      r.value.rbp == (if ReadRegister(cell.rule).Ok? then ReadRegister(cell.rule).value else row.rbp)
    ensures r.Ok? && cell.column != CfaCol3 && FromDwarfppReg(cell.column, raReg) == Ok(RegRA) ==>
      r.value.ra == (if ReadRegister(cell.rule).Ok? then ReadRegister(cell.rule).value else row.ra)
  {
    if cell.column == CfaCol3 then
      var v :- ReadRegister(cell.rule);
      Ok(row.(cfa := v))
    else
      match FromDwarfppReg(cell.column, raReg)
      case Ok(RegRBP) =>
        (match ReadRegister(cell.rule)
         case Ok(v) => Ok(row.(rbp := v))
         case Err(_) => Ok(row))
      case Ok(RegRA) =>
        (match ReadRegister(cell.rule)
         case Ok(v) => Ok(row.(ra := v))
         case Err(_) => Ok(row))
      case _ => Ok(row)
  }

  /** The cells of a row applied in order; the first error aborts. */
  function ApplyCells(row: DwRow, cells: seq<Cell>, raReg: int): (r: Result<DwRow, ReadError>)
    ensures r.Ok? ==> r.value.ip == row.ip
    decreases |cells|
  {
    if |cells| == 0 then Ok(row)
    else
      var prev :- ApplyCells(row, cells[..|cells| - 1], raReg);
      ApplyCell(prev, cells[|cells| - 1], raReg)
  }

  /** One decoded row becomes one simplified row, unless its CFA rule is still undefined. */
  function ReadRow(d: DecodedRow, raReg: int): (r: Result<DwRow, ReadError>)
    ensures r.Ok? ==> r.value.ip == d.lower && !r.value.cfa.Undefined?
  {
    var row :- ApplyCells(EmptyRow(d.lower), d.cells, raReg);
    if row.cfa.Undefined? then Err(InvalidDwarf) else Ok(row)
  }

  /** The rows of an FDE read in order; the first failing row decides the error. */
  function ReadRows(ds: seq<DecodedRow>, raReg: int): (r: Result<seq<DwRow>, ReadError>)
    ensures r.Ok? ==> |r.value| == |ds|
    decreases |ds|
  {
    if |ds| == 0 then Ok([])
    else
      var prev :- ReadRows(ds[..|ds| - 1], raReg);
      var row :- ReadRow(ds[|ds| - 1], raReg);
      Ok(prev + [row])
  }

  /** `read_fde` as a function of the decoded FDE. */
  function ReadFdeSpec(fde: DecodedFde): Result<Fde, ReadError> {
    var rows :- ReadRows(fde.rows, fde.raReg);
    Ok(Fde(fde.lowPc, fde.lowPc + fde.funcLength, rows))
  }

  /** The FDEs of the frame section read in order; the first failing FDE decides the error. */
  function ReadFdes(fs: seq<DecodedFde>): (r: Result<seq<Fde>, ReadError>)
    ensures r.Ok? ==> |r.value| == |fs|
    decreases |fs|
  {
    if |fs| == 0 then Ok([])
    else
      var prev :- ReadFdes(fs[..|fs| - 1]);
      var fde :- ReadFdeSpec(fs[|fs| - 1]);
      Ok(prev + [fde])
  }

  /** Row `i` of a successful read is the reading of decoded row `i`. */
  lemma {:induction false} ReadRowsElements(ds: seq<DecodedRow>, raReg: int)
    requires ReadRows(ds, raReg).Ok?
    ensures forall i :: 0 <= i < |ds| ==> ReadRow(ds[i], raReg) == Ok(ReadRows(ds, raReg).value[i])
    decreases |ds|
  {
    if |ds| > 0 {
      var init := ds[..|ds| - 1];
      ReadRowsElements(init, raReg);
      assert forall i :: 0 <= i < |init| ==> ds[i] == init[i];
    }
  }

  /** FDE `k` of a successful read is the reading of decoded FDE `k`. */
  lemma {:induction false} ReadFdesElements(fs: seq<DecodedFde>)
    requires ReadFdes(fs).Ok?
    ensures forall k :: 0 <= k < |fs| ==> ReadFdeSpec(fs[k]) == Ok(ReadFdes(fs).value[k])
    decreases |fs|
  {
    if |fs| > 0 {
      var init := fs[..|fs| - 1];
      ReadFdesElements(init);
      assert forall k :: 0 <= k < |init| ==> fs[k] == init[k];
    }
  }

  /** `read` as a function of the decoded frame section. */
  function ReadSpec(fs: seq<DecodedFde>): Result<SimpleDwarf, ReadError> {
    var list :- ReadFdes(fs);
    Ok(SimpleDwarf(list))
  }

  // ---------------------------------------------------------------------------
  // The imperative reader

  /**
   * `read_fde`: builds each row cell by cell, updating the CFA, rbp and return-address
   * rules of the current row, and appends it once its CFA is known to be set.
   */
  method ReadFde(fde: DecodedFde) returns (r: Result<Fde, ReadError>)
    ensures r == ReadFdeSpec(fde)
  {
    var output := Fde(fde.lowPc, fde.lowPc + fde.funcLength, []);
    var raReg := fde.raReg;
    var i := 0;
    while i < |fde.rows|
      invariant 0 <= i <= |fde.rows|
      invariant output.begIp == fde.lowPc && output.endIp == fde.lowPc + fde.funcLength
      invariant ReadRows(fde.rows[..i], raReg) == Ok(output.rows)
    {
      var rowPair := fde.rows[i];
      var curRow := EmptyRow(rowPair.lower);
      var j := 0;
      while j < |rowPair.cells|
        invariant 0 <= j <= |rowPair.cells|
        invariant ApplyCells(EmptyRow(rowPair.lower), rowPair.cells[..j], raReg) == Ok(curRow)
      {
        var cell := rowPair.cells[j];
        CellStep(EmptyRow(rowPair.lower), rowPair.cells, j, raReg, curRow);
        if cell.column == CfaCol3 {
          var v := ReadRegister(cell.rule);
          if v.Err? {
            CellErrorAborts(EmptyRow(rowPair.lower), rowPair.cells, j + 1, raReg);
            RowErrorAborts(fde.rows, i + 1, raReg);
            assert fde.rows[..i + 1][..i] == fde.rows[..i];
            return Err(v.error);
          }
          curRow := curRow.(cfa := v.value);
        } else {
          var regType := FromDwarfppReg(cell.column, raReg);
          if regType.Ok? {
            match regType.value {
              case RegRBP =>
                var v := ReadRegister(cell.rule);
                if v.Ok? { curRow := curRow.(rbp := v.value); }
              case RegRA =>
                var v := ReadRegister(cell.rule);
                if v.Ok? { curRow := curRow.(ra := v.value); }
              case _ =>
            }
          }
        }
        j := j + 1;
      }
      assert rowPair.cells[..j] == rowPair.cells;
      assert fde.rows[..i + 1][..i] == fde.rows[..i];
      if curRow.cfa.Undefined? {
        RowErrorAborts(fde.rows, i + 1, raReg);
        return Err(InvalidDwarf);
      }
      output := output.(rows := output.rows + [curRow]);
      i := i + 1;
    }
    assert fde.rows[..i] == fde.rows;
    r := Ok(output);
  }

  /** `read`: reads every FDE of the frame section in order; any failure aborts the whole read. */
  method Read(fs: seq<DecodedFde>) returns (r: Result<SimpleDwarf, ReadError>)
    ensures r == ReadSpec(fs)
  {
    var output := SimpleDwarf([]);
    var k := 0;
    while k < |fs|
      invariant 0 <= k <= |fs|
      invariant ReadFdes(fs[..k]) == Ok(output.fdeList)
    {
      var parsed := ReadFde(fs[k]);
      assert fs[..k + 1][..k] == fs[..k];
      if parsed.Err? {
        FdeErrorAborts(fs, k + 1);
        return Err(parsed.error);
      }
      output := output.(fdeList := output.fdeList + [parsed.value]);
      k := k + 1;
    }
    assert fs[..k] == fs;
    r := Ok(output);
  }

  // ---------------------------------------------------------------------------
  // Error propagation through the folds

  /** One more cell of a row. */
  lemma CellStep(row: DwRow, cells: seq<Cell>, j: nat, raReg: int, cur: DwRow)
    requires j < |cells| && ApplyCells(row, cells[..j], raReg) == Ok(cur)
    ensures ApplyCells(row, cells[..j + 1], raReg) == ApplyCell(cur, cells[j], raReg)
  {
    assert cells[..j + 1][..j] == cells[..j];
  }

  /** An error on a prefix of the cells is the error of the whole row. */
  lemma {:induction false} CellErrorAborts(row: DwRow, cells: seq<Cell>, n: nat, raReg: int)
    requires n <= |cells|
    requires ApplyCells(row, cells[..n], raReg).Err?
    ensures ApplyCells(row, cells, raReg) == ApplyCells(row, cells[..n], raReg)
    decreases |cells| - n
  {
    if n < |cells| {
      assert cells[..n + 1][..n] == cells[..n];
      CellErrorAborts(row, cells, n + 1, raReg);
    } else {
      assert cells[..n] == cells;
    }
  }

  /** An error on a prefix of the rows is the error of the whole FDE. */
  lemma {:induction false} RowErrorAborts(ds: seq<DecodedRow>, n: nat, raReg: int)
    requires n <= |ds|
    requires ReadRows(ds[..n], raReg).Err?
    ensures ReadRows(ds, raReg) == ReadRows(ds[..n], raReg)
    decreases |ds| - n
  {
    if n < |ds| {
      assert ds[..n + 1][..n] == ds[..n];
      RowErrorAborts(ds, n + 1, raReg);
    } else {
      assert ds[..n] == ds;
    }
  }

  /** An error on a prefix of the FDEs is the error of the whole read. */
  lemma {:induction false} FdeErrorAborts(fs: seq<DecodedFde>, n: nat)
    requires n <= |fs|
    requires ReadFdes(fs[..n]).Err?
    ensures ReadFdes(fs) == ReadFdes(fs[..n])
    decreases |fs| - n
  {
    if n < |fs| {
      assert fs[..n + 1][..n] == fs[..n];
      FdeErrorAborts(fs, n + 1);
    } else {
      assert fs[..n] == fs;
    }
  }

  // ---------------------------------------------------------------------------
  // Properties of the reader

  /** A CFA cell whose rule cannot be translated (an unsupported base register). */
  predicate BadCfaCell(cell: Cell) {
    cell.column == CfaCol3 && ReadRegister(cell.rule).Err?
  }

  /** Reference: the rule of the last CFA cell, if any. */
  function LastCfaRule(cells: seq<Cell>): Option<RegisterDef>
    decreases |cells|
  {
    if |cells| == 0 then None
    else if cells[|cells| - 1].column == CfaCol3 then Some(cells[|cells| - 1].rule)
    else LastCfaRule(cells[..|cells| - 1])
  }

  /** Reference: the translated rule of the last non-CFA cell classified as `role` whose rule translates. */
  function LastRoleValue(cells: seq<Cell>, raReg: int, role: MachineRegister): Option<DwRegister>
    decreases |cells|
  {
    if |cells| == 0 then None
    else
      var c := cells[|cells| - 1];
      if c.column != CfaCol3 && FromDwarfppReg(c.column, raReg) == Ok(role) && ReadRegister(c.rule).Ok?
      then Some(ReadRegister(c.rule).value)
      else LastRoleValue(cells[..|cells| - 1], raReg, role)
  }

  function OrElse(o: Option<DwRegister>, d: DwRegister): DwRegister {
    if o.Some? then o.value else d
  }

  /**
   * What the cell loop computes: it fails exactly when some CFA cell has an untranslatable
   * rule, and otherwise the last CFA cell sets the CFA and the last translatable rbp and
   * return-address cells set rbp and ra; nothing else is kept.
   */
  lemma {:induction false} ApplyCellsMeaning(row: DwRow, cells: seq<Cell>, raReg: int)
    ensures ApplyCells(row, cells, raReg).Err? <==> exists k :: 0 <= k < |cells| && BadCfaCell(cells[k])
    ensures ApplyCells(row, cells, raReg).Err? ==> ApplyCells(row, cells, raReg).error == UnsupportedRegister
    ensures ApplyCells(row, cells, raReg).Ok? ==>
      var out := ApplyCells(row, cells, raReg).value;
      && out.ip == row.ip
      && (LastCfaRule(cells).Some? ==> Ok(out.cfa) == ReadRegister(LastCfaRule(cells).value))
      && (LastCfaRule(cells).None? ==> out.cfa == row.cfa)
      && out.rbp == OrElse(LastRoleValue(cells, raReg, RegRBP), row.rbp)
      && out.ra == OrElse(LastRoleValue(cells, raReg, RegRA), row.ra)
    decreases |cells|
  {
    if |cells| > 0 {
      var init := cells[..|cells| - 1];
      var last := cells[|cells| - 1];
      ApplyCellsMeaning(row, init, raReg);
      if ApplyCells(row, init, raReg).Err? {
        var k :| 0 <= k < |init| && BadCfaCell(init[k]);
        assert cells[k] == init[k];
      } else {
        if BadCfaCell(last) {
          assert BadCfaCell(cells[|cells| - 1]);
        } else {
          forall k | 0 <= k < |cells| ensures !BadCfaCell(cells[k]) {
            if k < |init| { assert cells[k] == init[k]; }
          }
        }
      }
    }
  }

  /**
   * A row is rejected as invalid DWARF exactly when its cells translate but its CFA is
   * missing, undefined or indeterminate; a CFA cell with an unsupported base register
   * makes the row fail with that error instead.
   */
  lemma ReadRowMeaning(d: DecodedRow, raReg: int)
    ensures ReadRow(d, raReg) == Err(InvalidDwarf) <==>
      (forall k :: 0 <= k < |d.cells| ==> !BadCfaCell(d.cells[k])) &&
      (LastCfaRule(d.cells).None? ||
       LastCfaRule(d.cells).value.Indeterminate? || LastCfaRule(d.cells).value.UndefinedRule?)
    ensures ReadRow(d, raReg) == Err(UnsupportedRegister) <==>
      exists k :: 0 <= k < |d.cells| && BadCfaCell(d.cells[k])
    ensures ReadRow(d, raReg).Ok? ==>
      var row := ReadRow(d, raReg).value;
      && row.ip == d.lower
      && LastCfaRule(d.cells).Some?
      && Ok(row.cfa) == ReadRegister(LastCfaRule(d.cells).value)
      && !row.cfa.Undefined?
      && row.rbp == OrElse(LastRoleValue(d.cells, raReg, RegRBP), Undefined)
      && row.ra == OrElse(LastRoleValue(d.cells, raReg, RegRA), Undefined)
  {
    ApplyCellsMeaning(EmptyRow(d.lower), d.cells, raReg);
  }

  /** Keeps the cells that can affect the row: CFA, rbp and return-address cells. */
  function Kept(cells: seq<Cell>, raReg: int): (r: seq<Cell>)
    ensures forall c :: c in r ==> c in cells && !Dropped(c, raReg)
    decreases |cells|
  {
    if |cells| == 0 then []
    else
      var last := cells[|cells| - 1];
      Kept(cells[..|cells| - 1], raReg) + (if Dropped(last, raReg) then [] else [last])
  }

  /** rsp, rip and unsupported columns have no effect: removing them changes nothing. */
  lemma {:induction false} DroppedCellsIgnored(row: DwRow, cells: seq<Cell>, raReg: int)
    ensures ApplyCells(row, Kept(cells, raReg), raReg) == ApplyCells(row, cells, raReg)
    decreases |cells|
  {
    if |cells| > 0 {
      var init := cells[..|cells| - 1];
      var last := cells[|cells| - 1];
      DroppedCellsIgnored(row, init, raReg);
      var kept := Kept(cells, raReg);
      if !Dropped(last, raReg) {
        assert kept == Kept(init, raReg) + [last];
        assert kept[..|kept| - 1] == Kept(init, raReg);
        assert kept[|kept| - 1] == last;
      } else {
        assert kept == Kept(init, raReg);
      }
    }
  }

  /** `read_fde` keeps the FDE's bounds and produces one row per decoded row, in order. */
  lemma {:induction false} ReadFdeShape(fde: DecodedFde)
    requires ReadFdeSpec(fde).Ok?
    ensures var out := ReadFdeSpec(fde).value;
      && out.begIp == fde.lowPc
      && out.endIp == fde.lowPc + fde.funcLength
      && |out.rows| == |fde.rows|
      && forall i :: 0 <= i < |out.rows| ==> out.rows[i].ip == fde.rows[i].lower && !out.rows[i].cfa.Undefined?
  {
    var out := ReadFdeSpec(fde).value;
    ReadRowsElements(fde.rows, fde.raReg);
    forall i | 0 <= i < |out.rows|
      ensures out.rows[i].ip == fde.rows[i].lower && !out.rows[i].cfa.Undefined?
    {
      assert ReadRow(fde.rows[i], fde.raReg) == Ok(out.rows[i]);
    }
  }

  /**
   * The rows succeed together or not at all: the result is the first failing row's
   * error, and no partial row list is produced.
   */
  lemma {:induction false} ReadRowsFirstFailure(ds: seq<DecodedRow>, raReg: int)
    ensures ReadRows(ds, raReg).Ok? <==> forall i :: 0 <= i < |ds| ==> ReadRow(ds[i], raReg).Ok?
    ensures ReadRows(ds, raReg).Err? ==>
      exists i :: 0 <= i < |ds| && ReadRow(ds[i], raReg) == Err(ReadRows(ds, raReg).error) &&
        forall j :: 0 <= j < i ==> ReadRow(ds[j], raReg).Ok?
    decreases |ds|
  {
    if |ds| > 0 {
      var init := ds[..|ds| - 1];
      ReadRowsFirstFailure(init, raReg);
      if ReadRows(init, raReg).Err? {
        var i :| 0 <= i < |init| && ReadRow(init[i], raReg) == Err(ReadRows(init, raReg).error) &&
          forall j :: 0 <= j < i ==> ReadRow(init[j], raReg).Ok?;
        assert ds[i] == init[i];
        assert forall j :: 0 <= j < i ==> ds[j] == init[j];
      } else {
        assert forall j :: 0 <= j < |init| ==> ds[j] == init[j];
      }
    }
  }

  /**
   * The whole read succeeds exactly when every FDE does; otherwise it yields the first
   * failing FDE's error and no `SimpleDwarf` at all.
   */
  lemma {:induction false} ReadFdesFirstFailure(fs: seq<DecodedFde>)
    ensures ReadFdes(fs).Ok? <==> forall k :: 0 <= k < |fs| ==> ReadFdeSpec(fs[k]).Ok?
    ensures ReadFdes(fs).Err? ==>
      exists k :: 0 <= k < |fs| && ReadFdeSpec(fs[k]) == Err(ReadFdes(fs).error) &&
        forall j :: 0 <= j < k ==> ReadFdeSpec(fs[j]).Ok?
    decreases |fs|
  {
    if |fs| > 0 {
      var init := fs[..|fs| - 1];
      ReadFdesFirstFailure(init);
      if ReadFdes(init).Err? {
        var k :| 0 <= k < |init| && ReadFdeSpec(init[k]) == Err(ReadFdes(init).error) &&
          forall j :: 0 <= j < k ==> ReadFdeSpec(init[j]).Ok?;
        assert fs[k] == init[k];
        assert forall j :: 0 <= j < k ==> fs[j] == init[j];
      } else {
        assert forall j :: 0 <= j < |init| ==> fs[j] == init[j];
      }
    }
  }

  /** Every row of a successfully read model has a CFA rule that is set. */
  lemma ReadModelHasCfa(fs: seq<DecodedFde>)
    requires ReadSpec(fs).Ok?
    ensures forall k, i :: 0 <= k < |ReadSpec(fs).value.fdeList| && 0 <= i < |ReadSpec(fs).value.fdeList[k].rows| ==>
      !ReadSpec(fs).value.fdeList[k].rows[i].cfa.Undefined?
  {
    var list := ReadSpec(fs).value.fdeList;
    ReadFdesElements(fs);
    forall k | 0 <= k < |list| ensures forall i :: 0 <= i < |list[k].rows| ==> !list[k].rows[i].cfa.Undefined? {
      ReadFdeShape(fs[k]);
    }
  }
}
