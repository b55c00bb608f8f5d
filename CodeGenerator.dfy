/**
 * The code generator: walks a `SimpleDwarf` model and emits C unwinding routines.
 * The output stream is modelled as a sequence of structured items (case labels,
 * assignments, returns, function and lookup markers) rather than as text.
 */
module CodeGenerator {
  import opened Wrappers
  import opened SimpleDwarf

  /** The two switch-generation policies. */
  datatype Policy = SwitchPerFunc | GlobalSwitch

  datatype GenError = InvalidPcList | NotImplementedCase

  /** Registers of the input context `ctx` that an expression may read. */
  datatype CtxReg = CtxRsp | CtxRbp

  /** Registers of the output context `out_ctx` that a row assigns. */
  datatype OutReg = OutRsp | OutRbp | OutRip

  /** A rendered register-recovery expression. */
  datatype Expr =
    | UintptrMax                         // the largest uintptr_t value
    | CtxPlus(base: CtxReg, offset: int) // ctx.<base> + (offset)
    | LoadAtCfa(offset: int)             // *((uintptr_t*)(out_ctx.rsp + (offset)))
    | ZeroAndTrap                        // 0; assert(0)

  /** One emitted piece of output. */
  datatype Item =
    | ContextStruct                      // the shared context-structure definition
    | Prelude                            // the #include prelude
    | FuncHeader(name: string)           // unwind_context_t name(ctx, pc) { ... switch(pc) {
    | FuncFooter                         // default: assert(0); } }
    | CaseRange(lo: nat, hi: nat)        // case lo ... hi:
    | CaseLit(pc: nat)                   // case pc:
    | Assign(dst: OutReg, e: Expr)       // out_ctx.<dst> = e;
    | Return                             // return out_ctx;
    | LookupHeader                       // _fde_func_t _fde_lookup(uintptr_t pc) { switch(pc) {
    | LookupArm(lo: nat, hi: nat, name: string) // case lo ... hi: return &name;
    | LookupFooter                       // default: assert(0); } }

  /** A recorded (name, [beg, end)) pair of the per-function policy. */
  datatype LookupEntry = LookupEntry(name: string, beg: nat, end: nat)

  /** The name of the single routine of the global-switch policy. */
  const EhElfName: string := "_eh_elf"

  /** A label item, which is all that `gen_case` emits. */
  predicate IsLabel(it: Item) {
    it.CaseRange? || it.CaseLit?
  }

  predicate Sorted(s: seq<nat>) {
    forall i, j :: 0 <= i < j < |s| ==> s[i] <= s[j]
  }

  // ---------------------------------------------------------------------------
  // Expressions

  /** `ctx_of_dw_name`: only rsp and rbp can be read from the input context. */
  function CtxOfDwName(reg: MachineRegister): (r: Result<CtxReg, GenError>)
    ensures r.Err? <==> reg == RegRIP || reg == RegRA
    ensures r.Err? ==> r.error == NotImplementedCase
    ensures r == Ok(CtxRsp) <==> reg == RegRSP
    ensures r == Ok(CtxRbp) <==> reg == RegRBP
  {
    match reg
    case RegRIP => Err(NotImplementedCase)
    case RegRSP => Ok(CtxRsp)
    case RegRBP => Ok(CtxRbp)
    case RegRA => Err(NotImplementedCase)
  }

  /** `gen_of_reg`: the expression that recovers a register under rule `reg`. */
  function RegExpr(reg: DwRegister): (r: Result<Expr, GenError>)
    ensures r.Err? <==> reg.Register? && (reg.reg == RegRIP || reg.reg == RegRA)
  {
    match reg
    case Undefined => Ok(UintptrMax)
    case Register(base, offset) =>
      var c :- CtxOfDwName(base);
      Ok(CtxPlus(c, offset))
    case CfaOffset(offset) => Ok(LoadAtCfa(offset))
    case NotImplemented => Ok(ZeroAndTrap)
  }

  // ---------------------------------------------------------------------------
  // Case labels

  /** `std::lower_bound`: the first index whose element is at least `v`. */
  function LowerBound(s: seq<nat>, v: nat): (i: nat)
    ensures i <= |s|
  {
    if |s| == 0 || s[0] >= v then 0 else 1 + LowerBound(s[1..], v)
  }

  /** `LowerBound` is the first index whose element is at least `v`. */
  lemma {:induction false} LowerBoundIsFirst(s: seq<nat>, v: nat)
    ensures forall k :: 0 <= k < LowerBound(s, v) ==> s[k] < v
    ensures LowerBound(s, v) < |s| ==> s[LowerBound(s, v)] >= v
  {
    if |s| > 0 && s[0] < v {
      LowerBoundIsFirst(s[1..], v);
    }
  }

  /** `std::upper_bound`: the first index whose element is greater than `v`. */
  function UpperBound(s: seq<nat>, v: nat): (i: nat)
    ensures i <= |s|
  {
    if |s| == 0 || s[0] > v then 0 else 1 + UpperBound(s[1..], v)
  }

  /** `UpperBound` is the first index whose element is greater than `v`. */
  lemma {:induction false} UpperBoundIsFirst(s: seq<nat>, v: nat)
    ensures forall k :: 0 <= k < UpperBound(s, v) ==> s[k] <= v
    ensures UpperBound(s, v) < |s| ==> s[UpperBound(s, v)] > v
  {
    if |s| > 0 && s[0] <= v {
      UpperBoundIsFirst(s[1..], v);
    }
  }

  /** On a sorted list the range [low, high] with low <= high + 1 yields first <= last. */
  lemma {:induction false} BoundsOrdered(s: seq<nat>, low: nat, high: nat)
    requires Sorted(s) && low <= high + 1
    ensures LowerBound(s, low) <= UpperBound(s, high)
  {
    if |s| > 0 && s[0] < low {
      assert Sorted(s[1..]);
      BoundsOrdered(s[1..], low, high);
    }
  }

  /** One literal label per address. */
  function Literals(s: seq<nat>): (r: seq<Item>)
    ensures |r| == |s|
  {
    seq(|s|, k requires 0 <= k < |s| => CaseLit(s[k]))
  }

  /** With a PC list, `gen_case` needs it sorted and a range that is not inverted. */
  predicate CaseArgsOk(pcList: Option<seq<nat>>, low: nat, high: nat) {
    pcList.Some? ==> Sorted(pcList.value) && low <= high + 1
  }

  /**
   * `gen_case`: one range label without a PC list; with one, a literal label for each
   * listed address from the first at or above `low` up to the last at or below `high`.
   */
  function CaseItems(pcList: Option<seq<nat>>, low: nat, high: nat): (r: Result<seq<Item>, GenError>)
    requires CaseArgsOk(pcList, low, high)
    ensures r.Err? ==> r.error == InvalidPcList
  {
    match pcList
    case None => Ok([CaseRange(low, high)])
    case Some(s) =>
      var first := LowerBound(s, low);
      var last := UpperBound(s, high);
      BoundsOrdered(s, low, high);
      if first == |s| then Err(InvalidPcList)
      else Ok(Literals(s[first..last]))
  }

  // ---------------------------------------------------------------------------
  // Rows, switch parts and whole outputs

  /** The three assignments and the return that follow a row's labels. */
  function RowTail(cfaE: Expr, rbpE: Expr, raE: Expr): seq<Item> {
    [Assign(OutRsp, cfaE), Assign(OutRbp, rbpE), Assign(OutRip, raE), Return]
  }

  /** `gen_of_row`: the row's labels, then rsp, rbp and rip are assigned, then a return. */
  function RowItems(pcList: Option<seq<nat>>, row: DwRow, high: nat): (r: Result<seq<Item>, GenError>)
    requires CaseArgsOk(pcList, row.ip, high)
  {
    var labels :- CaseItems(pcList, row.ip, high);
    var cfaE :- RegExpr(row.cfa);
    var rbpE :- RegExpr(row.rbp);
    var raE :- RegExpr(row.ra);
    Ok(labels + RowTail(cfaE, rbpE, raE))
  }

  /**
   * A row's code exists exactly when its labels and all three rules can be rendered,
   * and is then the labels followed by the assignments and the return.
   */
  lemma RowItemsMeaning(pcList: Option<seq<nat>>, row: DwRow, high: nat)
    requires CaseArgsOk(pcList, row.ip, high)
    ensures RowItems(pcList, row, high).Ok? <==>
      (CaseItems(pcList, row.ip, high).Ok? && RegExpr(row.cfa).Ok? && RegExpr(row.rbp).Ok? && RegExpr(row.ra).Ok?)
    ensures RowItems(pcList, row, high).Ok? ==>
      RowItems(pcList, row, high).value == CaseItems(pcList, row.ip, high).value +
        RowTail(RegExpr(row.cfa).value, RegExpr(row.rbp).value, RegExpr(row.ra).value)
    ensures RowItems(pcList, row, high).Err? ==>
      RowItems(pcList, row, high).error ==
        if CaseItems(pcList, row.ip, high).Err? then InvalidPcList else NotImplementedCase
  {
  }

  /** The last address governed by row `i`: one below the next row's start or the FDE's end. */
  function UpBound(fde: Fde, i: nat): int
    requires i < |fde.rows|
  {
    if i == |fde.rows| - 1 then fde.endIp - 1 else fde.rows[i + 1].ip - 1
  }

  /** No `uintptr_t` wrap-around at 0 in the upper bounds. */
  predicate NoWrap(fde: Fde) {
    fde.endIp >= 1 && forall i :: 1 <= i < |fde.rows| ==> fde.rows[i].ip >= 1
  }

  /** Row starts do not decrease and the last one is at most the FDE's end. */
  predicate Ordered(fde: Fde) {
    (forall i, j :: 0 <= i < j < |fde.rows| ==> fde.rows[i].ip <= fde.rows[j].ip) &&
    (|fde.rows| > 0 ==> fde.rows[|fde.rows| - 1].ip <= fde.endIp)
  }

  /** What generating an FDE needs: no wrap-around, and with a PC list sorted input. */
  predicate FdeArgsOk(pcList: Option<seq<nat>>, fde: Fde) {
    NoWrap(fde) && (pcList.Some? ==> Sorted(pcList.value) && Ordered(fde))
  }

  lemma RowArgsOk(pcList: Option<seq<nat>>, fde: Fde, i: nat)
    requires FdeArgsOk(pcList, fde) && i < |fde.rows|
    ensures UpBound(fde, i) >= 0 && CaseArgsOk(pcList, fde.rows[i].ip, UpBound(fde, i) as nat)
  {
  }

  /** The items of the first `n` rows of an FDE; the first failing row aborts. */
  function SwitchRows(pcList: Option<seq<nat>>, fde: Fde, n: nat): (r: Result<seq<Item>, GenError>)
    requires FdeArgsOk(pcList, fde) && n <= |fde.rows|
    decreases n
  {
    if n == 0 then Ok([])
    else
      var prev :- SwitchRows(pcList, fde, n - 1);
      RowArgsOk(pcList, fde, n - 1);
      var row :- RowItems(pcList, fde.rows[n - 1], UpBound(fde, n - 1) as nat);
      Ok(prev + row)
  }

  /** `gen_switchpart_of_fde`: the rows of the FDE, each with its governing range. */
  function SwitchPart(pcList: Option<seq<nat>>, fde: Fde): (r: Result<seq<Item>, GenError>)
    requires FdeArgsOk(pcList, fde)
  {
    SwitchRows(pcList, fde, |fde.rows|)
  }

  /** `gen_function_of_fde`: a routine named by the naming scheme around the switch part. */
  function FunctionItems(pcList: Option<seq<nat>>, naming: Fde -> string, fde: Fde): (r: Result<seq<Item>, GenError>)
    requires FdeArgsOk(pcList, fde)
  {
    var body :- SwitchPart(pcList, fde);
    Ok([FuncHeader(naming(fde))] + body + [FuncFooter])
  }

  predicate ListArgsOk(pcList: Option<seq<nat>>, fdes: seq<Fde>) {
    forall k :: 0 <= k < |fdes| ==> FdeArgsOk(pcList, fdes[k])
  }

  /** The routines of the first `n` FDEs under the per-function policy. */
  function PerFuncItems(pcList: Option<seq<nat>>, naming: Fde -> string, fdes: seq<Fde>, n: nat): (r: Result<seq<Item>, GenError>)
    requires ListArgsOk(pcList, fdes) && n <= |fdes|
    decreases n
  {
    if n == 0 then Ok([])
    else
      var prev :- PerFuncItems(pcList, naming, fdes, n - 1);
      var f :- FunctionItems(pcList, naming, fdes[n - 1]);
      Ok(prev + f)
  }

  /** The switch parts of the first `n` FDEs under the global-switch policy. */
  function GlobalItems(pcList: Option<seq<nat>>, fdes: seq<Fde>, n: nat): (r: Result<seq<Item>, GenError>)
    requires ListArgsOk(pcList, fdes) && n <= |fdes|
    decreases n
  {
    if n == 0 then Ok([])
    else
      var prev :- GlobalItems(pcList, fdes, n - 1);
      var part :- SwitchPart(pcList, fdes[n - 1]);
      Ok(prev + part)
  }

  /** The lookup entries recorded under the per-function policy, one per FDE in order. */
  function Entries(naming: Fde -> string, fdes: seq<Fde>): (r: seq<LookupEntry>)
    ensures |r| == |fdes|
    decreases |fdes|
  {
    if |fdes| == 0 then []
    else
      var last := fdes[|fdes| - 1];
      Entries(naming, fdes[..|fdes| - 1]) + [LookupEntry(naming(last), last.begIp, last.endIp)]
  }

  /** Entry `k` records FDE `k`'s name and bounds. */
  lemma {:induction false} EntriesAre(naming: Fde -> string, fdes: seq<Fde>)
    ensures forall k :: 0 <= k < |fdes| ==>
      Entries(naming, fdes)[k] == LookupEntry(naming(fdes[k]), fdes[k].begIp, fdes[k].endIp)
    decreases |fdes|
  {
    if |fdes| > 0 {
      var init := fdes[..|fdes| - 1];
      EntriesAre(naming, init);
      assert forall k :: 0 <= k < |init| ==> fdes[k] == init[k];
    }
  }

  predicate EntriesOk(entries: seq<LookupEntry>) {
    forall k :: 0 <= k < |entries| ==> entries[k].end >= 1
  }

  /** The arms of the first `n` entries of the lookup switch. */
  function LookupArms(entries: seq<LookupEntry>, n: nat): (r: seq<Item>)
    requires EntriesOk(entries) && n <= |entries|
    decreases n
  {
    if n == 0 then []
    else
      var e := entries[n - 1];
      LookupArms(entries, n - 1) + [LookupArm(e.beg, e.end - 1, e.name)]
  }

  /** `gen_lookup`: one arm per entry in order, then the trapping default. */
  function LookupItems(entries: seq<LookupEntry>): (r: seq<Item>)
    requires EntriesOk(entries)
  {
    [LookupHeader] + LookupArms(entries, |entries|) + [LookupFooter]
  }

  lemma ListEntriesOk(pcList: Option<seq<nat>>, naming: Fde -> string, fdes: seq<Fde>)
    requires ListArgsOk(pcList, fdes)
    ensures EntriesOk(Entries(naming, fdes))
  {
    EntriesAre(naming, fdes);
    forall k | 0 <= k < |fdes| ensures Entries(naming, fdes)[k].end >= 1 {
      assert FdeArgsOk(pcList, fdes[k]);
    }
  }

  /** `gen_of_dwarf`: the context structure and prelude, then the output of the chosen policy. */
  function Generate(policy: Policy, pcList: Option<seq<nat>>, naming: Fde -> string, dwarf: SimpleDwarf): (r: Result<seq<Item>, GenError>)
    requires ListArgsOk(pcList, dwarf.fdeList)
  {
    var fdes := dwarf.fdeList;
    match policy
    case SwitchPerFunc =>
      var funcs :- PerFuncItems(pcList, naming, fdes, |fdes|);
      ListEntriesOk(pcList, naming, fdes);
      Ok([ContextStruct, Prelude] + funcs + LookupItems(Entries(naming, fdes)))
    case GlobalSwitch =>
      var body :- GlobalItems(pcList, fdes, |fdes|);
      Ok([ContextStruct, Prelude, FuncHeader(EhElfName)] + body + [FuncFooter])
  }

  // ---------------------------------------------------------------------------
  // The imperative generator

  /**
   * The generator object: the model it reads, the optional PC list, the naming
   * scheme, and the output stream it appends to.
   */
  class Generator {
    const dwarf: SimpleDwarf
    const pcList: Option<seq<nat>>
    const naming: Fde -> string
    var os: seq<Item>

    constructor (dwarf: SimpleDwarf, pcList: Option<seq<nat>>, naming: Fde -> string)
      ensures this.dwarf == dwarf && this.pcList == pcList && this.naming == naming
      ensures os == []
    {
      this.dwarf := dwarf;
      this.pcList := pcList;
      this.naming := naming;
      os := [];
    }

    /** `gen_of_dwarf`. On an error the stream has only been appended to. */
    method GenOfDwarf(policy: Policy) returns (err: Option<GenError>)
      requires ListArgsOk(pcList, dwarf.fdeList)
      modifies this
      ensures err.None? ==>
        (Generate(policy, pcList, naming, dwarf).Ok? && os == old(os) + Generate(policy, pcList, naming, dwarf).value)
      ensures err.Some? ==> Generate(policy, pcList, naming, dwarf) == Err(err.value) && old(os) <= os
    {
      os := os + [ContextStruct, Prelude];
      ghost var start := os;
      ghost var fdes := dwarf.fdeList;
      match policy {
        case SwitchPerFunc =>
          GeneratePerFuncUnfold(pcList, naming, dwarf);
          err := GenPerFuncPolicy();
          if err.None? {
            Concat4(old(os), [ContextStruct, Prelude], PerFuncItems(pcList, naming, fdes, |fdes|).value,
              LookupItems(Entries(naming, fdes)));
          }
        case GlobalSwitch =>
          GenerateGlobalUnfold(pcList, naming, dwarf);
          err := GenGlobalPolicy();
          if err.None? {
            Concat4(old(os), [ContextStruct, Prelude], [FuncHeader(EhElfName)] + GlobalItems(pcList, fdes, |fdes|).value,
              [FuncFooter]);
          }
      }
      if err.Some? {
        PrefixTrans(old(os), start, os);
      }
    }

    /** The per-function arm of `gen_of_dwarf`: a routine per FDE, then the lookup routine. */
    method GenPerFuncPolicy() returns (err: Option<GenError>)
      requires ListArgsOk(pcList, dwarf.fdeList)
      modifies this
      ensures err.None? ==>
        var fdes := dwarf.fdeList;
        && PerFuncItems(pcList, naming, fdes, |fdes|).Ok?
        && EntriesOk(Entries(naming, fdes))
        && os == old(os) + PerFuncItems(pcList, naming, fdes, |fdes|).value + LookupItems(Entries(naming, fdes))
      ensures err.Some? ==>
        PerFuncItems(pcList, naming, dwarf.fdeList, |dwarf.fdeList|) == Err(err.value) && old(os) <= os
    {
      var lookupEntries;
      err, lookupEntries := GenFunctions();
      if err.None? {
        ListEntriesOk(pcList, naming, dwarf.fdeList);
        GenLookup(lookupEntries);
      }
    }

    /** The loop of the per-function arm: one routine per FDE, collecting the lookup entries. */
    method GenFunctions() returns (err: Option<GenError>, lookupEntries: seq<LookupEntry>)
      requires ListArgsOk(pcList, dwarf.fdeList)
      modifies this
      ensures err.None? ==>
        var fdes := dwarf.fdeList;
        && PerFuncItems(pcList, naming, fdes, |fdes|).Ok?
        && lookupEntries == Entries(naming, fdes)
        && os == old(os) + PerFuncItems(pcList, naming, fdes, |fdes|).value
      ensures err.Some? ==>
        PerFuncItems(pcList, naming, dwarf.fdeList, |dwarf.fdeList|) == Err(err.value) && old(os) <= os
    {
      var fdes := dwarf.fdeList;
      lookupEntries := [];
      ghost var done: seq<Item> := [];
      var k := 0;
      while k < |fdes|
        invariant 0 <= k <= |fdes|
        invariant lookupEntries == Entries(naming, fdes[..k])
        invariant PerFuncItems(pcList, naming, fdes, k) == Ok(done)
        invariant os == old(os) + done
      {
        var fde := fdes[k];
        lookupEntries := lookupEntries + [LookupEntry(naming(fde), fde.begIp, fde.endIp)];
        EntriesStep(naming, fdes, k);
        PerFuncStep(pcList, naming, fdes, k);
        ghost var before := os;
        err := GenFunctionOfFde(fde);
        if err.Some? {
          PerFuncErrorAborts(pcList, naming, fdes, k + 1);
          PrefixTrans(old(os), before, os);
          return;
        }
        ConcatAssoc(old(os), done, FunctionItems(pcList, naming, fde).value);
        done := done + FunctionItems(pcList, naming, fde).value;
        k := k + 1;
      }
      assert fdes[..k] == fdes;
      err := None;
    }

    /** The global-switch arm of `gen_of_dwarf`: every FDE's switch part inside one `_eh_elf` routine. */
    method GenGlobalPolicy() returns (err: Option<GenError>)
      requires ListArgsOk(pcList, dwarf.fdeList)
      modifies this
      ensures err.None? ==>
        GlobalItems(pcList, dwarf.fdeList, |dwarf.fdeList|).Ok? &&
        os == old(os) + [FuncHeader(EhElfName)] + GlobalItems(pcList, dwarf.fdeList, |dwarf.fdeList|).value + [FuncFooter]
      ensures err.Some? ==>
        GlobalItems(pcList, dwarf.fdeList, |dwarf.fdeList|) == Err(err.value) && old(os) <= os
    {
      var fdes := dwarf.fdeList;
      GenUnwindFuncHeader(EhElfName);
      ghost var start := os;
      ghost var done: seq<Item> := [];
      var k := 0;
      while k < |fdes|
        invariant 0 <= k <= |fdes|
        invariant GlobalItems(pcList, fdes, k) == Ok(done)
        invariant os == start + done
      {
        GlobalStep(pcList, fdes, k);
        ghost var before := os;
        err := GenSwitchpartOfFde(fdes[k]);
        if err.Some? {
          GlobalErrorAborts(pcList, fdes, k + 1);
          PrefixTrans(old(os), start, before);
          PrefixTrans(old(os), before, os);
          return;
        }
        ConcatAssoc(start, done, SwitchPart(pcList, fdes[k]).value);
        done := done + SwitchPart(pcList, fdes[k]).value;
        k := k + 1;
      }
      GenUnwindFuncFooter();
      err := None;
    }

    /** `gen_unwind_func_header`. */
    method GenUnwindFuncHeader(name: string)
      modifies this
      ensures os == old(os) + [FuncHeader(name)]
    {
      os := os + [FuncHeader(name)];
    }

    /** `gen_unwind_func_footer`. */
    method GenUnwindFuncFooter()
      modifies this
      ensures os == old(os) + [FuncFooter]
    {
      os := os + [FuncFooter];
    }

    /** `gen_function_of_fde`. */
    method GenFunctionOfFde(fde: Fde) returns (err: Option<GenError>)
      requires FdeArgsOk(pcList, fde)
      modifies this
      ensures err.None? ==>
        (FunctionItems(pcList, naming, fde).Ok? && os == old(os) + FunctionItems(pcList, naming, fde).value)
      ensures err.Some? ==> FunctionItems(pcList, naming, fde) == Err(err.value) && old(os) <= os
    {
      GenUnwindFuncHeader(naming(fde));
      err := GenSwitchpartOfFde(fde);
      if err.Some? { return; }
      GenUnwindFuncFooter();
    }

    /** `gen_switchpart_of_fde`: each row with the upper bound of its governing range. */
    method GenSwitchpartOfFde(fde: Fde) returns (err: Option<GenError>)
      requires FdeArgsOk(pcList, fde)
      modifies this
      ensures err.None? ==> SwitchPart(pcList, fde).Ok? && os == old(os) + SwitchPart(pcList, fde).value
      ensures err.Some? ==> SwitchPart(pcList, fde) == Err(err.value) && old(os) <= os
    {
      var i := 0;
      ghost var done: seq<Item> := [];
      while i < |fde.rows|
        invariant 0 <= i <= |fde.rows|
        invariant SwitchRows(pcList, fde, i) == Ok(done)
        invariant os == old(os) + done
      {
        var upBound := fde.endIp - 1;
        if i != |fde.rows| - 1 {
          upBound := fde.rows[i + 1].ip - 1;
        }
        RowArgsOk(pcList, fde, i);
        ghost var before := os;
        err := GenOfRow(fde.rows[i], upBound);
        if err.Some? {
          SwitchRowFails(pcList, fde, i);
          PrefixTrans(old(os), before, os);
          return;
        }
        SwitchRowOk(pcList, fde, i, done);
        ConcatAssoc(old(os), done, RowItems(pcList, fde.rows[i], upBound).value);
        done := done + RowItems(pcList, fde.rows[i], upBound).value;
        i := i + 1;
      }
      err := None;
    }

    /** `gen_of_row`. */
    method GenOfRow(row: DwRow, rowEnd: nat) returns (err: Option<GenError>)
      requires CaseArgsOk(pcList, row.ip, rowEnd)
      modifies this
      ensures err.None? ==> RowItems(pcList, row, rowEnd).Ok? && os == old(os) + RowItems(pcList, row, rowEnd).value
      ensures err.Some? ==> RowItems(pcList, row, rowEnd) == Err(err.value) && old(os) <= os
    {
      RowItemsMeaning(pcList, row, rowEnd);
      err := GenCase(row.ip, rowEnd);
      if err.Some? { return; }
      err := GenOfReg(OutRsp, row.cfa);
      if err.Some? { return; }
      err := GenOfReg(OutRbp, row.rbp);
      if err.Some? { return; }
      err := GenOfReg(OutRip, row.ra);
      if err.Some? { return; }
      os := os + [Return];
    }

    /** `gen_case`: walks the PC list from the lower-bound to the upper-bound position. */
    method GenCase(low: nat, high: nat) returns (err: Option<GenError>)
      requires CaseArgsOk(pcList, low, high)
      modifies this
      ensures err.None? ==> CaseItems(pcList, low, high).Ok? && os == old(os) + CaseItems(pcList, low, high).value
      ensures err.Some? ==> CaseItems(pcList, low, high) == Err(err.value) && os == old(os)
    {
      if pcList.None? {
        os := os + [CaseRange(low, high)];
        return None;
      }
      var list := pcList.value;
      var firstIt := LowerBound(list, low);
      var lastIt := UpperBound(list, high);
      BoundsOrdered(list, low, high);
      if firstIt == |list| {
        return Some(InvalidPcList);
      }
      var it := firstIt;
      while it != lastIt
        invariant firstIt <= it <= lastIt
        invariant os == old(os) + Literals(list[firstIt..it])
        decreases lastIt - it
      {
        assert list[firstIt..it + 1] == list[firstIt..it] + [list[it]];
        os := os + [CaseLit(list[it])];
        it := it + 1;
      }
      err := None;
    }

    /** `gen_of_reg`, together with the `out_ctx.<dst> = ...;` around it. */
    method GenOfReg(dst: OutReg, reg: DwRegister) returns (err: Option<GenError>)
      modifies this
      ensures err.None? ==> RegExpr(reg).Ok? && os == old(os) + [Assign(dst, RegExpr(reg).value)]
      ensures err.Some? ==> RegExpr(reg) == Err(err.value) && os == old(os)
    {
      var e: Expr;
      match reg {
        case Undefined => e := UintptrMax;
        case Register(base, offset) =>
          var c := CtxOfDwName(base);
          if c.Err? { return Some(c.error); }
          e := CtxPlus(c.value, offset);
        case CfaOffset(offset) => e := LoadAtCfa(offset);
        case NotImplemented => e := ZeroAndTrap;
      }
      os := os + [Assign(dst, e)];
      err := None;
    }

    /** `gen_lookup`: one arm per recorded entry, then the trapping default. */
    method GenLookup(entries: seq<LookupEntry>)
      requires EntriesOk(entries)
      modifies this
      ensures os == old(os) + LookupItems(entries)
    {
      os := os + [LookupHeader];
      var k := 0;
      while k < |entries|
        invariant 0 <= k <= |entries|
        invariant os == old(os) + [LookupHeader] + LookupArms(entries, k)
      {
        var entry := entries[k];
        os := os + [LookupArm(entry.beg, entry.end - 1, entry.name)];
        k := k + 1;
      }
      os := os + [LookupFooter];
    }
  }

  // ---------------------------------------------------------------------------
  // Error propagation through the folds

  lemma GeneratePerFuncUnfold(pcList: Option<seq<nat>>, naming: Fde -> string, dwarf: SimpleDwarf)
    requires ListArgsOk(pcList, dwarf.fdeList)
    ensures EntriesOk(Entries(naming, dwarf.fdeList))
    ensures var funcs := PerFuncItems(pcList, naming, dwarf.fdeList, |dwarf.fdeList|);
      Generate(SwitchPerFunc, pcList, naming, dwarf) ==
        if funcs.Err? then Err(funcs.error)
        else Ok([ContextStruct, Prelude] + funcs.value + LookupItems(Entries(naming, dwarf.fdeList)))
  {
    ListEntriesOk(pcList, naming, dwarf.fdeList);
  }

  lemma GenerateGlobalUnfold(pcList: Option<seq<nat>>, naming: Fde -> string, dwarf: SimpleDwarf)
    requires ListArgsOk(pcList, dwarf.fdeList)
    ensures var body := GlobalItems(pcList, dwarf.fdeList, |dwarf.fdeList|);
      Generate(GlobalSwitch, pcList, naming, dwarf) ==
        if body.Err? then Err(body.error)
        else Ok([ContextStruct, Prelude] + ([FuncHeader(EhElfName)] + body.value) + [FuncFooter])
  {
    var body := GlobalItems(pcList, dwarf.fdeList, |dwarf.fdeList|);
    if body.Ok? {
      assert [ContextStruct, Prelude, FuncHeader(EhElfName)] + body.value ==
        [ContextStruct, Prelude] + ([FuncHeader(EhElfName)] + body.value);
    }
  }

  lemma Concat4(a: seq<Item>, b: seq<Item>, c: seq<Item>, d: seq<Item>)
    ensures a + b + c + d == a + (b + c + d)
  {
  }

  lemma ConcatAssoc(a: seq<Item>, b: seq<Item>, c: seq<Item>)
    ensures a + b + c == a + (b + c)
  {
  }

  lemma PrefixTrans(a: seq<Item>, b: seq<Item>, c: seq<Item>)
    requires a <= b && b <= c
    ensures a <= c
  {
    assert c[..|a|] == b[..|a|];
  }

  lemma SwitchStep(pcList: Option<seq<nat>>, fde: Fde, i: nat)
    requires FdeArgsOk(pcList, fde) && i < |fde.rows|
    requires SwitchRows(pcList, fde, i).Ok?
    ensures UpBound(fde, i) >= 0
    ensures UpBound(fde, i) == if i != |fde.rows| - 1 then fde.rows[i + 1].ip - 1 else fde.endIp - 1
    ensures CaseArgsOk(pcList, fde.rows[i].ip, UpBound(fde, i) as nat)
    ensures RowItems(pcList, fde.rows[i], UpBound(fde, i) as nat).Err? ==>
      SwitchRows(pcList, fde, i + 1) == Err(RowItems(pcList, fde.rows[i], UpBound(fde, i) as nat).error)
    ensures RowItems(pcList, fde.rows[i], UpBound(fde, i) as nat).Ok? ==>
      SwitchRows(pcList, fde, i + 1) ==
        Ok(SwitchRows(pcList, fde, i).value + RowItems(pcList, fde.rows[i], UpBound(fde, i) as nat).value)
  {
    RowArgsOk(pcList, fde, i);
  }

  /** A failing row is the error of the whole switch part. */
  lemma SwitchRowFails(pcList: Option<seq<nat>>, fde: Fde, i: nat)
    requires FdeArgsOk(pcList, fde) && i < |fde.rows|
    requires SwitchRows(pcList, fde, i).Ok?
    requires UpBound(fde, i) >= 0 && CaseArgsOk(pcList, fde.rows[i].ip, UpBound(fde, i) as nat)
    requires RowItems(pcList, fde.rows[i], UpBound(fde, i) as nat).Err?
    ensures SwitchPart(pcList, fde) == RowItems(pcList, fde.rows[i], UpBound(fde, i) as nat)
  {
    SwitchStep(pcList, fde, i);
    SwitchErrorAborts(pcList, fde, i + 1);
  }

  /** A row that succeeds extends the switch part by its items. */
  lemma SwitchRowOk(pcList: Option<seq<nat>>, fde: Fde, i: nat, done: seq<Item>)
    requires FdeArgsOk(pcList, fde) && i < |fde.rows|
    requires SwitchRows(pcList, fde, i) == Ok(done)
    requires UpBound(fde, i) >= 0 && CaseArgsOk(pcList, fde.rows[i].ip, UpBound(fde, i) as nat)
    requires RowItems(pcList, fde.rows[i], UpBound(fde, i) as nat).Ok?
    ensures SwitchRows(pcList, fde, i + 1) == Ok(done + RowItems(pcList, fde.rows[i], UpBound(fde, i) as nat).value)
  {
    SwitchStep(pcList, fde, i);
  }

  lemma GlobalStep(pcList: Option<seq<nat>>, fdes: seq<Fde>, k: nat)
    requires ListArgsOk(pcList, fdes) && k < |fdes|
    requires GlobalItems(pcList, fdes, k).Ok?
    ensures FdeArgsOk(pcList, fdes[k])
    ensures SwitchPart(pcList, fdes[k]).Err? ==>
      GlobalItems(pcList, fdes, k + 1) == Err(SwitchPart(pcList, fdes[k]).error)
    ensures SwitchPart(pcList, fdes[k]).Ok? ==>
      GlobalItems(pcList, fdes, k + 1) == Ok(GlobalItems(pcList, fdes, k).value + SwitchPart(pcList, fdes[k]).value)
  {
  }

  lemma {:induction false} SwitchErrorAborts(pcList: Option<seq<nat>>, fde: Fde, n: nat)
    requires FdeArgsOk(pcList, fde) && n <= |fde.rows|
    requires SwitchRows(pcList, fde, n).Err?
    ensures SwitchPart(pcList, fde) == SwitchRows(pcList, fde, n)
    decreases |fde.rows| - n
  {
    if n < |fde.rows| {
      assert SwitchRows(pcList, fde, n + 1) == SwitchRows(pcList, fde, n);
      SwitchErrorAborts(pcList, fde, n + 1);
    }
  }

  lemma EntriesStep(naming: Fde -> string, fdes: seq<Fde>, k: nat)
    requires k < |fdes|
    ensures Entries(naming, fdes[..k + 1]) ==
      Entries(naming, fdes[..k]) + [LookupEntry(naming(fdes[k]), fdes[k].begIp, fdes[k].endIp)]
  {
    assert fdes[..k + 1][..k] == fdes[..k];
  }

  lemma PerFuncStep(pcList: Option<seq<nat>>, naming: Fde -> string, fdes: seq<Fde>, k: nat)
    requires ListArgsOk(pcList, fdes) && k < |fdes|
    requires PerFuncItems(pcList, naming, fdes, k).Ok?
    ensures FdeArgsOk(pcList, fdes[k])
    ensures FunctionItems(pcList, naming, fdes[k]).Err? ==>
      PerFuncItems(pcList, naming, fdes, k + 1) == Err(FunctionItems(pcList, naming, fdes[k]).error)
    ensures FunctionItems(pcList, naming, fdes[k]).Ok? ==>
      PerFuncItems(pcList, naming, fdes, k + 1) ==
        Ok(PerFuncItems(pcList, naming, fdes, k).value + FunctionItems(pcList, naming, fdes[k]).value)
  {
  }

  lemma {:induction false} PerFuncErrorAborts(pcList: Option<seq<nat>>, naming: Fde -> string, fdes: seq<Fde>, n: nat)
    requires ListArgsOk(pcList, fdes) && n <= |fdes|
    requires PerFuncItems(pcList, naming, fdes, n).Err?
    ensures PerFuncItems(pcList, naming, fdes, |fdes|) == PerFuncItems(pcList, naming, fdes, n)
    decreases |fdes| - n
  {
    if n < |fdes| {
      PerFuncErrorAborts(pcList, naming, fdes, n + 1);
    }
  }

  lemma {:induction false} GlobalErrorAborts(pcList: Option<seq<nat>>, fdes: seq<Fde>, n: nat)
    requires ListArgsOk(pcList, fdes) && n <= |fdes|
    requires GlobalItems(pcList, fdes, n).Err?
    ensures GlobalItems(pcList, fdes, |fdes|) == GlobalItems(pcList, fdes, n)
    decreases |fdes| - n
  {
    if n < |fdes| {
      GlobalErrorAborts(pcList, fdes, n + 1);
    }
  }
}
