/**
 * Properties of the generated output: the dispatch ranges of an FDE, the narrowing to
 * a PC list, what a row's assignments compute when run, and how the two policies
 * relate.
 */
module GeneratorProperties {
  import opened Wrappers
  import opened SimpleDwarf
  import opened CodeGenerator

  // ---------------------------------------------------------------------------
  // Selecting items of one kind from the output

  /** The kinds of item selected below: case labels, routine headers, lookup arms. */
  datatype Kind = LabelKind | HeaderKind | ArmKind

  predicate Keeps(keep: Kind, it: Item) {
    match keep
    case LabelKind => IsLabel(it)
    case HeaderKind => it.FuncHeader?
    case ArmKind => it.LookupArm?
  }

  /** The items of `items` of kind `keep`, in order. */
  function Select(items: seq<Item>, keep: Kind): (r: seq<Item>)
    decreases |items|
  {
    if |items| == 0 then []
    else (if Keeps(keep, items[0]) then [items[0]] else []) + Select(items[1..], keep)
  }

  lemma {:induction false} SelectConcat(a: seq<Item>, b: seq<Item>, keep: Kind)
    ensures Select(a + b, keep) == Select(a, keep) + Select(b, keep)
    decreases |a|
  {
    if |a| > 0 {
      assert (a + b)[0] == a[0];
      assert (a + b)[1..] == a[1..] + b;
      SelectConcat(a[1..], b, keep);
    } else {
      assert a + b == b;
    }
  }

  lemma {:induction false} SelectAll(items: seq<Item>, keep: Kind)
    requires forall k :: 0 <= k < |items| ==> Keeps(keep, items[k])
    ensures Select(items, keep) == items
    decreases |items|
  {
    if |items| > 0 {
      SelectAll(items[1..], keep);
    }
  }

  lemma {:induction false} SelectNone(items: seq<Item>, keep: Kind)
    requires forall k :: 0 <= k < |items| ==> !Keeps(keep, items[k])
    ensures Select(items, keep) == []
    decreases |items|
  {
    if |items| > 0 {
      SelectNone(items[1..], keep);
    }
  }

  lemma SelectOne(x: Item, keep: Kind)
    ensures Select([x], keep) == if Keeps(keep, x) then [x] else []
  {
    assert [x][1..] == [];
  }

  /** The case labels of an output. */
  function Labels(items: seq<Item>): seq<Item> {
    Select(items, LabelKind)
  }

  /** The routine headers of an output. */
  function Headers(items: seq<Item>): seq<Item> {
    Select(items, HeaderKind)
  }

  /** The arms of the lookup routine of an output. */
  function Arms(items: seq<Item>): seq<Item> {
    Select(items, ArmKind)
  }

  // ---------------------------------------------------------------------------
  // Labels of one row: `gen_case`

  /** Reference: the listed addresses inside [low, high], in list order. */
  function InRange(s: seq<nat>, low: nat, high: nat): (r: seq<nat>)
    ensures forall k :: 0 <= k < |r| ==> low <= r[k] <= high
    decreases |s|
  {
    if |s| == 0 then []
    else (if low <= s[0] <= high then [s[0]] else []) + InRange(s[1..], low, high)
  }

  /** Strictly ascending: sorted and free of duplicates. */
  predicate StrictlySorted(s: seq<nat>) {
    forall i, j :: 0 <= i < j < |s| ==> s[i] < s[j]
  }

  lemma {:induction false} InRangeOfLarger(s: seq<nat>, low: nat, high: nat)
    requires forall k :: 0 <= k < |s| ==> s[k] > high
    ensures InRange(s, low, high) == []
    decreases |s|
  {
    if |s| > 0 {
      InRangeOfLarger(s[1..], low, high);
    }
  }

  /**
   * With a sorted PC list, the literal labels are exactly the listed addresses inside
   * [low, high], in list order.
   */
  lemma {:induction false} BoundsSelectInRange(s: seq<nat>, low: nat, high: nat)
    requires Sorted(s) && low <= high + 1
    ensures LowerBound(s, low) <= UpperBound(s, high)
    ensures s[LowerBound(s, low)..UpperBound(s, high)] == InRange(s, low, high)
    decreases |s|
  {
    if |s| > 0 {
      assert Sorted(s[1..]);
      if s[0] < low {
        BoundsSelectInRange(s[1..], low, high);
        BoundsSkipHead(s, low, high);
      } else if s[0] > high {
        InRangeOfLarger(s, low, high);
      } else {
        BoundsSelectInRange(s[1..], low, high);
        BoundsKeepHead(s, low, high);
      }
    }
  }

  /** The step of `BoundsSelectInRange` for a head below the range. */
  lemma BoundsSkipHead(s: seq<nat>, low: nat, high: nat)
    requires |s| > 0 && s[0] < low <= high + 1
    requires LowerBound(s[1..], low) <= UpperBound(s[1..], high)
    requires s[1..][LowerBound(s[1..], low)..UpperBound(s[1..], high)] == InRange(s[1..], low, high)
    ensures LowerBound(s, low) <= UpperBound(s, high)
    ensures s[LowerBound(s, low)..UpperBound(s, high)] == InRange(s, low, high)
  {
    var a, b := LowerBound(s[1..], low), UpperBound(s[1..], high);
    assert LowerBound(s, low) == a + 1 && UpperBound(s, high) == b + 1;
    assert InRange(s, low, high) == InRange(s[1..], low, high);
    SliceOfTail(s, a, b);
  }

  /** The step of `BoundsSelectInRange` for a head inside the range. */
  lemma BoundsKeepHead(s: seq<nat>, low: nat, high: nat)
    requires |s| > 0 && low <= s[0] <= high && Sorted(s)
    requires LowerBound(s[1..], low) <= UpperBound(s[1..], high)
    requires s[1..][LowerBound(s[1..], low)..UpperBound(s[1..], high)] == InRange(s[1..], low, high)
    ensures LowerBound(s, low) <= UpperBound(s, high)
    ensures s[LowerBound(s, low)..UpperBound(s, high)] == InRange(s, low, high)
  {
    var t := s[1..];
    var b := UpperBound(t, high);
    assert LowerBound(t, low) == 0;
    assert LowerBound(s, low) == 0 && UpperBound(s, high) == b + 1;
    SliceOfTail(s, 0, b);
  }

  /** A slice of the tail of a sequence, shifted back by one. */
  lemma SliceOfTail(s: seq<nat>, a: nat, b: nat)
    requires a <= b < |s|
    ensures s[a + 1..b + 1] == s[1..][a..b]
    ensures a == 0 ==> s[0..b + 1] == [s[0]] + s[1..][0..b]
  {
    assert forall k :: 0 <= k < b - a ==> s[a + 1..b + 1][k] == s[a + 1 + k] == s[1..][a..b][k];
    if a == 0 {
      assert s[0..b + 1] == [s[0]] + s[1..b + 1];
    }
  }

  /** Without a PC list a row gets exactly one range label [low, high]. */
  lemma CaseWithoutList(low: nat, high: nat)
    ensures CaseItems(None, low, high) == Ok([CaseRange(low, high)])
  {
  }

  /**
   * With a sorted PC list: the list is rejected exactly when no listed address is at or
   * above `low`; otherwise the labels are the listed addresses inside [low, high], which
   * may be none at all.
   */
  lemma CaseWithList(s: seq<nat>, low: nat, high: nat)
    requires Sorted(s) && low <= high + 1
    ensures CaseItems(Some(s), low, high).Err? <==> forall k :: 0 <= k < |s| ==> s[k] < low
    ensures CaseItems(Some(s), low, high).Ok? ==>
      CaseItems(Some(s), low, high).value == Literals(InRange(s, low, high))
  {
    BoundsSelectInRange(s, low, high);
    if forall k :: 0 <= k < |s| ==> s[k] < low {
      assert LowerBound(s, low) == |s|;
    }
  }

  /** The members of `InRange` are exactly the listed addresses inside [low, high]. */
  lemma {:induction false} InRangeMembers(s: seq<nat>, low: nat, high: nat, x: nat)
    ensures x in InRange(s, low, high) <==> x in s && low <= x <= high
    decreases |s|
  {
    if |s| > 0 {
      InRangeMembers(s[1..], low, high, x);
      assert s == [s[0]] + s[1..];
    }
  }

  /** `InRange` of a strictly ascending list is strictly ascending. */
  lemma {:induction false} InRangeStrictlySorted(s: seq<nat>, low: nat, high: nat)
    requires StrictlySorted(s)
    ensures StrictlySorted(InRange(s, low, high))
    decreases |s|
  {
    if |s| > 0 {
      var t := s[1..];
      assert StrictlySorted(t);
      InRangeStrictlySorted(t, low, high);
      var rest := InRange(t, low, high);
      forall k | 0 <= k < |rest| ensures s[0] < rest[k] {
        InRangeMembers(t, low, high, rest[k]);
        assert rest[k] in t;
      }
    }
  }

  /**
   * With a sorted, duplicate-free PC list, the literal labels of a row are exactly the
   * listed addresses v with low <= v <= high, each once, in ascending order.
   */
  lemma CaseNarrowed(s: seq<nat>, low: nat, high: nat)
    requires StrictlySorted(s) && low <= high + 1
    requires CaseItems(Some(s), low, high).Ok?
    ensures var labels := CaseItems(Some(s), low, high).value;
      && (forall k :: 0 <= k < |labels| ==> labels[k].CaseLit?)
      && (forall v: nat :: (exists k :: 0 <= k < |labels| && labels[k] == CaseLit(v)) <==> v in s && low <= v <= high)
      && (forall i, j :: 0 <= i < j < |labels| ==> labels[i].pc < labels[j].pc)
  {
    CaseWithList(s, low, high);
    var r := InRange(s, low, high);
    InRangeStrictlySorted(s, low, high);
    forall v: nat ensures (exists k :: 0 <= k < |r| && Literals(r)[k] == CaseLit(v)) <==> v in s && low <= v <= high {
      InRangeMembers(s, low, high, v);
      if v in r {
        var k :| 0 <= k < |r| && r[k] == v;
        assert Literals(r)[k] == CaseLit(v);
      }
    }
  }

  // ---------------------------------------------------------------------------
  // What a row's code computes

  /** The registers of an unwinding context. */
  datatype Ctx = Ctx(rsp: int, rbp: int, rip: int)

  const UintptrMaxValue: int := 0xFFFF_FFFF_FFFF_FFFF

  /** The value of a rendered expression; `None` when it traps. `out.rsp` is read for loads. */
  function EvalExpr(e: Expr, input: Ctx, out: Ctx, mem: int -> int): Option<int> {
    match e
    case UintptrMax => Some(UintptrMaxValue)
    case CtxPlus(CtxRsp, off) => Some(input.rsp + off)
    case CtxPlus(CtxRbp, off) => Some(input.rbp + off)
    case LoadAtCfa(off) => Some(mem(out.rsp + off))
    case ZeroAndTrap => None
  }

  /**
   * The value the generated code assigns for a rule, given the caller's CFA: register
   * plus offset, a load at CFA plus offset, the generator's all-ones convention for an
   * undefined rule, and no value at all where the context has nothing to offer or the
   * rule is not modelled.
   */
  function RuleValue(r: DwRegister, input: Ctx, cfa: int, mem: int -> int): Option<int> {
    match r
    case Undefined => Some(UintptrMaxValue)
    case Register(RegRSP, off) => Some(input.rsp + off)
    case Register(RegRBP, off) => Some(input.rbp + off)
    case Register(RegRIP, off) => Some(input.rip + off)
    case Register(RegRA, _) => None
    case CfaOffset(off) => Some(mem(cfa + off))
    case NotImplemented => None
  }

  /** A rendered expression computes `RuleValue` of its rule, with `out.rsp` as the CFA. */
  lemma RegExprMeaning(r: DwRegister, input: Ctx, out: Ctx, mem: int -> int)
    requires RegExpr(r).Ok?
    ensures EvalExpr(RegExpr(r).value, input, out, mem) == RuleValue(r, input, out.rsp, mem)
  {
  }

  /** Runs the assignments of a row body in order; labels are skipped, a trap stops with `None`. */
  function ExecBody(items: seq<Item>, input: Ctx, out: Ctx, mem: int -> int): Option<Ctx>
    decreases |items|
  {
    if |items| == 0 then Some(out)
    else match items[0]
      case Assign(dst, e) =>
        (match EvalExpr(e, input, out, mem)
         case None => None
         case Some(v) =>
           var next := match dst
             case OutRsp => out.(rsp := v)
             case OutRbp => out.(rbp := v)
             case OutRip => out.(rip := v);
           ExecBody(items[1..], input, next, mem))
      case Return => Some(out)
      case _ => ExecBody(items[1..], input, out, mem)
  }

  lemma {:induction false} ExecSkipsLabels(labels: seq<Item>, rest: seq<Item>, input: Ctx, out: Ctx, mem: int -> int)
    requires forall k :: 0 <= k < |labels| ==> IsLabel(labels[k])
    ensures ExecBody(labels + rest, input, out, mem) == ExecBody(rest, input, out, mem)
    decreases |labels|
  {
    if |labels| > 0 {
      var all := labels + rest;
      assert all[0] == labels[0] && IsLabel(all[0]);
      assert all[1..] == labels[1..] + rest;
      assert ExecBody(all, input, out, mem) == ExecBody(all[1..], input, out, mem);
      ExecSkipsLabels(labels[1..], rest, input, out, mem);
    } else {
      assert labels + rest == rest;
    }
  }

  lemma {:induction false} CaseItemsAreLabels(pcList: Option<seq<nat>>, low: nat, high: nat)
    requires CaseArgsOk(pcList, low, high)
    requires CaseItems(pcList, low, high).Ok?
    ensures forall k :: 0 <= k < |CaseItems(pcList, low, high).value| ==> IsLabel(CaseItems(pcList, low, high).value[k])
  {
  }

  /**
   * Running a row's code: rsp gets the CFA, and rbp and rip are then recovered with
   * that CFA, so a rule saved at CFA + offset reads the caller's frame. A rule that
   * traps makes the whole row trap.
   */
  lemma RowComputesRules(pcList: Option<seq<nat>>, row: DwRow, high: nat, input: Ctx, out: Ctx, mem: int -> int)
    requires CaseArgsOk(pcList, row.ip, high)
    requires RowItems(pcList, row, high).Ok?
    ensures var cfa := RuleValue(row.cfa, input, out.rsp, mem);
      ExecBody(RowItems(pcList, row, high).value, input, out, mem) ==
        if cfa.None? then None
        else
          var rbp := RuleValue(row.rbp, input, cfa.value, mem);
          var ra := RuleValue(row.ra, input, cfa.value, mem);
          if rbp.None? || ra.None? then None
          else Some(Ctx(cfa.value, rbp.value, ra.value))
  {
    RowItemsMeaning(pcList, row, high);
    var cfaE, rbpE, raE := RegExpr(row.cfa).value, RegExpr(row.rbp).value, RegExpr(row.ra).value;
    CaseItemsAreLabels(pcList, row.ip, high);
    ExecSkipsLabels(CaseItems(pcList, row.ip, high).value, RowTail(cfaE, rbpE, raE), input, out, mem);
    ExecTail(cfaE, rbpE, raE, input, out, mem);
    RegExprMeaning(row.cfa, input, out, mem);
    var cfa := RuleValue(row.cfa, input, out.rsp, mem);
    if cfa.Some? {
      var o1 := out.(rsp := cfa.value);
      RegExprMeaning(row.rbp, input, o1, mem);
      var rbp := RuleValue(row.rbp, input, cfa.value, mem);
      if rbp.Some? {
        RegExprMeaning(row.ra, input, o1.(rbp := rbp.value), mem);
      }
    }
  }

  /** The assignments of a row run in order, each later one seeing the earlier results. */
  lemma ExecTail(cfaE: Expr, rbpE: Expr, raE: Expr, input: Ctx, out: Ctx, mem: int -> int)
    ensures ExecBody(RowTail(cfaE, rbpE, raE), input, out, mem) ==
      match EvalExpr(cfaE, input, out, mem)
      case None => None
      case Some(v1) =>
        var o1 := out.(rsp := v1);
        match EvalExpr(rbpE, input, o1, mem)
        case None => None
        case Some(v2) =>
          var o2 := o1.(rbp := v2);
          match EvalExpr(raE, input, o2, mem)
          case None => None
          case Some(v3) => Some(o2.(rip := v3))
  {
    var t0 := RowTail(cfaE, rbpE, raE);
    var t1 := [Assign(OutRbp, rbpE), Assign(OutRip, raE), Return];
    var t2 := [Assign(OutRip, raE), Return];
    assert t0[0] == Assign(OutRsp, cfaE) && t0[1..] == t1;
    assert t1[0] == Assign(OutRbp, rbpE) && t1[1..] == t2;
    assert t2[0] == Assign(OutRip, raE) && t2[1..] == [Return];
    var v1 := EvalExpr(cfaE, input, out, mem);
    if v1.Some? {
      var o1 := out.(rsp := v1.value);
      assert ExecBody(t0, input, out, mem) == ExecBody(t1, input, o1, mem);
      var v2 := EvalExpr(rbpE, input, o1, mem);
      if v2.Some? {
        var o2 := o1.(rbp := v2.value);
        assert ExecBody(t1, input, o1, mem) == ExecBody(t2, input, o2, mem);
        var v3 := EvalExpr(raE, input, o2, mem);
        if v3.Some? {
          assert ExecBody(t2, input, o2, mem) == ExecBody([Return], input, o2.(rip := v3.value), mem);
        }
      }
    }
  }

  // ---------------------------------------------------------------------------
  // Ranges of one FDE: `gen_switchpart_of_fde`

  lemma RowLabels(pcList: Option<seq<nat>>, row: DwRow, high: nat)
    requires CaseArgsOk(pcList, row.ip, high)
    requires RowItems(pcList, row, high).Ok?
    ensures Labels(RowItems(pcList, row, high).value) == CaseItems(pcList, row.ip, high).value
  {
    RowItemsMeaning(pcList, row, high);
    var labels := CaseItems(pcList, row.ip, high).value;
    var tail := RowTail(RegExpr(row.cfa).value, RegExpr(row.rbp).value, RegExpr(row.ra).value);
    CaseItemsAreLabels(pcList, row.ip, high);
    SelectConcat(labels, tail, LabelKind);
    SelectAll(labels, LabelKind);
    SelectNone(tail, LabelKind);
  }

  /**
   * Without a PC list, the labels of an FDE's switch part are its rows' ranges, one per
   * row in row order: row i covers [rows[i].ip, UpBound(fde, i)], that is up to the next
   * row's start minus one, or endIp - 1 for the last row.
   */
  lemma {:induction false} SwitchLabelsAreRanges(fde: Fde, n: nat)
    requires NoWrap(fde) && n <= |fde.rows|
    requires SwitchRows(None, fde, n).Ok?
    ensures |Labels(SwitchRows(None, fde, n).value)| == n
    ensures forall k :: 0 <= k < n ==>
      Labels(SwitchRows(None, fde, n).value)[k] == CaseRange(fde.rows[k].ip, UpBound(fde, k) as nat)
    decreases n
  {
    if n > 0 {
      SwitchLabelsAreRanges(fde, n - 1);
      RowArgsOk(None, fde, n - 1);
      var high := UpBound(fde, n - 1) as nat;
      var prev := SwitchRows(None, fde, n - 1).value;
      var row := RowItems(None, fde.rows[n - 1], high).value;
      assert SwitchRows(None, fde, n).value == prev + row;
      SelectConcat(prev, row, LabelKind);
      RowLabels(None, fde.rows[n - 1], high);
      assert Labels(row) == [CaseRange(fde.rows[n - 1].ip, high)];
    }
  }

  /**
   * With a PC list, every literal label of an FDE's switch part lies inside the range of
   * the row that emitted it; the labels are the rows' in-range addresses in row order.
   */
  function ListLabels(s: seq<nat>, fde: Fde, n: nat): (r: seq<Item>)
    requires NoWrap(fde) && n <= |fde.rows|
    decreases n
  {
    if n == 0 then []
    else ListLabels(s, fde, n - 1) + Literals(InRange(s, fde.rows[n - 1].ip, UpBound(fde, n - 1) as nat))
  }

  lemma {:induction false} SwitchLabelsWithList(s: seq<nat>, fde: Fde, n: nat)
    requires FdeArgsOk(Some(s), fde) && n <= |fde.rows|
    requires SwitchRows(Some(s), fde, n).Ok?
    ensures Labels(SwitchRows(Some(s), fde, n).value) == ListLabels(s, fde, n)
    decreases n
  {
    if n > 0 {
      SwitchLabelsWithList(s, fde, n - 1);
      RowArgsOk(Some(s), fde, n - 1);
      var high := UpBound(fde, n - 1) as nat;
      var prev := SwitchRows(Some(s), fde, n - 1).value;
      var row := RowItems(Some(s), fde.rows[n - 1], high).value;
      SelectConcat(prev, row, LabelKind);
      RowLabels(Some(s), fde.rows[n - 1], high);
      CaseWithList(s, fde.rows[n - 1].ip, high);
    }
  }

  /** Every literal emitted for an FDE lies inside the range of some row of that FDE. */
  lemma {:induction false} ListLabelsInRows(s: seq<nat>, fde: Fde, n: nat)
    requires NoWrap(fde) && n <= |fde.rows|
    ensures forall k :: 0 <= k < |ListLabels(s, fde, n)| ==>
      ListLabels(s, fde, n)[k].CaseLit? &&
      exists i :: 0 <= i < n && fde.rows[i].ip <= ListLabels(s, fde, n)[k].pc <= UpBound(fde, i)
    decreases n
  {
    if n > 0 {
      ListLabelsInRows(s, fde, n - 1);
      var prev: seq<Item> := ListLabels(s, fde, n - 1);
      var lits: seq<Item> := Literals(InRange(s, fde.rows[n - 1].ip, UpBound(fde, n - 1) as nat));
      forall k | 0 <= k < |prev| + |lits|
        ensures (prev + lits)[k].CaseLit? &&
          exists i :: 0 <= i < n && fde.rows[i].ip <= (prev + lits)[k].pc <= UpBound(fde, i)
      {
        if k >= |prev| {
          assert (prev + lits)[k] == lits[k - |prev|];
        } else {
          assert (prev + lits)[k] == prev[k];
        }
      }
    }
  }

  /** Row starts strictly ascending, the first at the FDE's start, the last before its end. */
  predicate Covers(fde: Fde) {
    && |fde.rows| > 0
    && fde.rows[0].ip == fde.begIp
    && fde.rows[|fde.rows| - 1].ip < fde.endIp
    && forall i, j :: 0 <= i < j < |fde.rows| ==> fde.rows[i].ip < fde.rows[j].ip
  }

  /** Consecutive ranges are contiguous and the last one ends at endIp - 1. */
  lemma RangesContiguous(fde: Fde)
    requires NoWrap(fde) && Covers(fde)
    ensures forall i :: 0 <= i < |fde.rows| - 1 ==> UpBound(fde, i) + 1 == fde.rows[i + 1].ip
    ensures UpBound(fde, |fde.rows| - 1) == fde.endIp - 1
    ensures forall i :: 0 <= i < |fde.rows| ==> fde.rows[i].ip <= UpBound(fde, i)
  {
  }

  /** For strictly ascending rows, ranges of different rows do not overlap. */
  lemma RangesDisjoint(fde: Fde, i: nat, j: nat, pc: nat)
    requires NoWrap(fde) && Covers(fde)
    requires i < |fde.rows| && j < |fde.rows|
    requires fde.rows[i].ip <= pc <= UpBound(fde, i) && fde.rows[j].ip <= pc <= UpBound(fde, j)
    ensures i == j
  {
  }

  /** Every address in [begIp, endIp) falls in the range of some row, searching backwards from row n-1. */
  lemma {:induction false} RangesCoverFrom(fde: Fde, n: nat, pc: nat)
    requires NoWrap(fde) && Covers(fde)
    requires 0 < n <= |fde.rows|
    requires fde.begIp <= pc && (n == |fde.rows| ==> pc < fde.endIp)
    requires n < |fde.rows| ==> pc < fde.rows[n].ip
    ensures exists i :: 0 <= i < n && fde.rows[i].ip <= pc <= UpBound(fde, i)
    decreases n
  {
    if fde.rows[n - 1].ip <= pc {
      assert fde.rows[n - 1].ip <= pc <= UpBound(fde, n - 1);
    } else {
      RangesCoverFrom(fde, n - 1, pc);
    }
  }

  /**
   * Without a PC list, the ranges partition the FDE: every address in [begIp, endIp)
   * lies in exactly one row's range, and no range reaches outside [begIp, endIp).
   */
  lemma RangesPartition(fde: Fde, pc: nat)
    requires NoWrap(fde) && Covers(fde)
    ensures fde.begIp <= pc < fde.endIp ==>
      exists i :: 0 <= i < |fde.rows| && fde.rows[i].ip <= pc <= UpBound(fde, i) &&
        forall j :: 0 <= j < |fde.rows| && fde.rows[j].ip <= pc <= UpBound(fde, j) ==> j == i
    ensures (exists i :: 0 <= i < |fde.rows| && fde.rows[i].ip <= pc <= UpBound(fde, i)) ==>
      fde.begIp <= pc < fde.endIp
  {
    if fde.begIp <= pc < fde.endIp {
      RangesCoverFrom(fde, |fde.rows|, pc);
      var i :| 0 <= i < |fde.rows| && fde.rows[i].ip <= pc <= UpBound(fde, i);
      forall j | 0 <= j < |fde.rows| && fde.rows[j].ip <= pc <= UpBound(fde, j) ensures j == i {
        RangesDisjoint(fde, i, j, pc);
      }
    }
    if exists i :: 0 <= i < |fde.rows| && fde.rows[i].ip <= pc <= UpBound(fde, i) {
      var i :| 0 <= i < |fde.rows| && fde.rows[i].ip <= pc <= UpBound(fde, i);
      if i > 0 {
        assert fde.rows[0].ip < fde.rows[i].ip;
      }
      if i < |fde.rows| - 1 {
        assert fde.rows[i + 1].ip < fde.rows[|fde.rows| - 1].ip || i + 1 == |fde.rows| - 1;
      }
    }
  }

  // ---------------------------------------------------------------------------
  // Whole outputs: `gen_of_dwarf` and `gen_lookup`

  /** Both policies fail on exactly the same models, with the same (first) error. */
  lemma {:induction false} PoliciesFailAlike(pcList: Option<seq<nat>>, naming: Fde -> string, fdes: seq<Fde>, n: nat)
    requires ListArgsOk(pcList, fdes) && n <= |fdes|
    ensures PerFuncItems(pcList, naming, fdes, n).Ok? <==> GlobalItems(pcList, fdes, n).Ok?
    ensures PerFuncItems(pcList, naming, fdes, n).Err? ==>
      PerFuncItems(pcList, naming, fdes, n).error == GlobalItems(pcList, fdes, n).error
    decreases n
  {
    if n > 0 {
      PoliciesFailAlike(pcList, naming, fdes, n - 1);
    }
  }

  lemma GenerateFailsAlike(pcList: Option<seq<nat>>, naming: Fde -> string, dwarf: SimpleDwarf)
    requires ListArgsOk(pcList, dwarf.fdeList)
    ensures Generate(SwitchPerFunc, pcList, naming, dwarf).Ok? <==> Generate(GlobalSwitch, pcList, naming, dwarf).Ok?
    ensures Generate(SwitchPerFunc, pcList, naming, dwarf).Err? ==>
      Generate(SwitchPerFunc, pcList, naming, dwarf).error == Generate(GlobalSwitch, pcList, naming, dwarf).error
  {
    PoliciesFailAlike(pcList, naming, dwarf.fdeList, |dwarf.fdeList|);
    GeneratePerFuncUnfold(pcList, naming, dwarf);
    GenerateGlobalUnfold(pcList, naming, dwarf);
  }

  /** A row's code holds neither routine headers nor lookup arms. */
  lemma RowNoMarkers(pcList: Option<seq<nat>>, row: DwRow, high: nat, keep: Kind)
    requires CaseArgsOk(pcList, row.ip, high)
    requires RowItems(pcList, row, high).Ok?
    requires keep != LabelKind
    ensures Select(RowItems(pcList, row, high).value, keep) == []
  {
    RowItemsMeaning(pcList, row, high);
    var labels := CaseItems(pcList, row.ip, high).value;
    var tail := RowTail(RegExpr(row.cfa).value, RegExpr(row.rbp).value, RegExpr(row.ra).value);
    CaseItemsAreLabels(pcList, row.ip, high);
    SelectConcat(labels, tail, keep);
    SelectNone(labels, keep);
    SelectNone(tail, keep);
  }

  lemma {:induction false} SwitchRowsNoMarkers(pcList: Option<seq<nat>>, fde: Fde, n: nat, keep: Kind)
    requires FdeArgsOk(pcList, fde) && n <= |fde.rows|
    requires SwitchRows(pcList, fde, n).Ok?
    requires keep != LabelKind
    ensures Select(SwitchRows(pcList, fde, n).value, keep) == []
    decreases n
  {
    if n > 0 {
      SwitchRowsNoMarkers(pcList, fde, n - 1, keep);
      RowArgsOk(pcList, fde, n - 1);
      var high := UpBound(fde, n - 1) as nat;
      RowNoMarkers(pcList, fde.rows[n - 1], high, keep);
      SelectConcat(SwitchRows(pcList, fde, n - 1).value, RowItems(pcList, fde.rows[n - 1], high).value, keep);
    }
  }

  lemma SwitchPartNoMarkers(pcList: Option<seq<nat>>, fde: Fde)
    requires FdeArgsOk(pcList, fde) && SwitchPart(pcList, fde).Ok?
    ensures Headers(SwitchPart(pcList, fde).value) == []
    ensures Arms(SwitchPart(pcList, fde).value) == []
  {
    SwitchRowsNoMarkers(pcList, fde, |fde.rows|, HeaderKind);
    SwitchRowsNoMarkers(pcList, fde, |fde.rows|, ArmKind);
  }

  /** The routine names of the first n FDEs under the per-function policy. */
  function FuncNames(naming: Fde -> string, fdes: seq<Fde>, n: nat): (r: seq<Item>)
    requires n <= |fdes|
    ensures |r| == n
    ensures forall k :: 0 <= k < n ==> r[k] == FuncHeader(naming(fdes[k]))
    decreases n
  {
    if n == 0 then [] else FuncNames(naming, fdes, n - 1) + [FuncHeader(naming(fdes[n - 1]))]
  }

  /** A routine holds one header, its own, and no lookup arm. */
  lemma FunctionSelected(pcList: Option<seq<nat>>, naming: Fde -> string, fde: Fde)
    requires FdeArgsOk(pcList, fde) && FunctionItems(pcList, naming, fde).Ok?
    ensures Headers(FunctionItems(pcList, naming, fde).value) == [FuncHeader(naming(fde))]
    ensures Arms(FunctionItems(pcList, naming, fde).value) == []
  {
    var body := SwitchPart(pcList, fde).value;
    var h := FuncHeader(naming(fde));
    SwitchPartNoMarkers(pcList, fde);
    SelectOne(FuncFooter, HeaderKind);
    SelectOne(FuncFooter, ArmKind);
    SelectOne(h, HeaderKind);
    SelectOne(h, ArmKind);
    SelectWrapped(h, body, FuncFooter, HeaderKind);
    SelectWrapped(h, body, FuncFooter, ArmKind);
  }

  /** Wrapping items that select nothing between a header and a trailer that selects nothing keeps only the header's selection. */
  lemma SelectWrapped(h: Item, body: seq<Item>, f: Item, keep: Kind)
    requires Select(body, keep) == [] && Select([f], keep) == []
    ensures Select([h] + body + [f], keep) == Select([h], keep)
  {
    SelectConcat([h], body, keep);
    SelectConcat([h] + body, [f], keep);
  }

  lemma {:induction false} PerFuncHeaders(pcList: Option<seq<nat>>, naming: Fde -> string, fdes: seq<Fde>, n: nat)
    requires ListArgsOk(pcList, fdes) && n <= |fdes|
    requires PerFuncItems(pcList, naming, fdes, n).Ok?
    ensures Headers(PerFuncItems(pcList, naming, fdes, n).value) == FuncNames(naming, fdes, n)
    ensures Arms(PerFuncItems(pcList, naming, fdes, n).value) == []
    decreases n
  {
    if n > 0 {
      PerFuncHeaders(pcList, naming, fdes, n - 1);
      var fde := fdes[n - 1];
      assert FdeArgsOk(pcList, fde);
      FunctionSelected(pcList, naming, fde);
      var prev := PerFuncItems(pcList, naming, fdes, n - 1).value;
      var f := FunctionItems(pcList, naming, fde).value;
      SelectConcat(prev, f, HeaderKind);
      SelectConcat(prev, f, ArmKind);
    }
  }

  lemma {:induction false} LookupArmsAre(entries: seq<LookupEntry>, n: nat)
    requires EntriesOk(entries) && n <= |entries|
    ensures |LookupArms(entries, n)| == n
    ensures forall k :: 0 <= k < n ==>
      LookupArms(entries, n)[k] == LookupArm(entries[k].beg, entries[k].end - 1, entries[k].name)
    decreases n
  {
    if n > 0 {
      LookupArmsAre(entries, n - 1);
    }
  }

  lemma {:induction false} LookupArmsSelect(entries: seq<LookupEntry>, n: nat)
    requires EntriesOk(entries) && n <= |entries|
    ensures Arms(LookupArms(entries, n)) == LookupArms(entries, n)
    ensures Headers(LookupArms(entries, n)) == []
    decreases n
  {
    if n > 0 {
      LookupArmsSelect(entries, n - 1);
      var e := entries[n - 1];
      var prev := LookupArms(entries, n - 1);
      SelectConcat(prev, [LookupArm(e.beg, e.end - 1, e.name)], ArmKind);
      SelectConcat(prev, [LookupArm(e.beg, e.end - 1, e.name)], HeaderKind);
    }
  }

  /**
   * Per-function policy: the output defines one routine per FDE, named by the naming
   * scheme, in FDE order; its lookup has one arm [begIp, endIp - 1] -> name per FDE, in
   * the same order.
   */
  lemma PerFuncOutput(pcList: Option<seq<nat>>, naming: Fde -> string, dwarf: SimpleDwarf)
    requires ListArgsOk(pcList, dwarf.fdeList)
    requires Generate(SwitchPerFunc, pcList, naming, dwarf).Ok?
    ensures var out := Generate(SwitchPerFunc, pcList, naming, dwarf).value;
      var fdes := dwarf.fdeList;
      && |Headers(out)| == |fdes| && |Arms(out)| == |fdes|
      && (forall k :: 0 <= k < |fdes| ==> Headers(out)[k] == FuncHeader(naming(fdes[k])))
      && (forall k :: 0 <= k < |fdes| ==>
            Arms(out)[k] == LookupArm(fdes[k].begIp, fdes[k].endIp - 1, naming(fdes[k])))
  {
    PerFuncSelected(pcList, naming, dwarf);
    SelectedByIndex(Generate(SwitchPerFunc, pcList, naming, dwarf).value, naming, dwarf.fdeList);
  }

  lemma SelectedByIndex(out: seq<Item>, naming: Fde -> string, fdes: seq<Fde>)
    requires forall k :: 0 <= k < |fdes| ==> fdes[k].endIp >= 1
    requires EntriesOk(Entries(naming, fdes))
    requires Headers(out) == FuncNames(naming, fdes, |fdes|)
    requires Arms(out) == LookupArms(Entries(naming, fdes), |fdes|)
    ensures |Headers(out)| == |fdes| && |Arms(out)| == |fdes|
    ensures forall k :: 0 <= k < |fdes| ==> Headers(out)[k] == FuncHeader(naming(fdes[k]))
    ensures forall k :: 0 <= k < |fdes| ==>
      Arms(out)[k] == LookupArm(fdes[k].begIp, fdes[k].endIp - 1, naming(fdes[k]))
  {
    EntriesAre(naming, fdes);
    LookupArmsAre(Entries(naming, fdes), |fdes|);
  }

  /** The headers and arms of a per-function output, as sequences. */
  lemma PerFuncSelected(pcList: Option<seq<nat>>, naming: Fde -> string, dwarf: SimpleDwarf)
    requires ListArgsOk(pcList, dwarf.fdeList)
    requires Generate(SwitchPerFunc, pcList, naming, dwarf).Ok?
    ensures EntriesOk(Entries(naming, dwarf.fdeList))
    ensures Headers(Generate(SwitchPerFunc, pcList, naming, dwarf).value) ==
      FuncNames(naming, dwarf.fdeList, |dwarf.fdeList|)
    ensures Arms(Generate(SwitchPerFunc, pcList, naming, dwarf).value) ==
      LookupArms(Entries(naming, dwarf.fdeList), |dwarf.fdeList|)
  {
    var fdes := dwarf.fdeList;
    GeneratePerFuncUnfold(pcList, naming, dwarf);
    var funcs := PerFuncItems(pcList, naming, fdes, |fdes|).value;
    var entries := Entries(naming, fdes);
    var arms := LookupArms(entries, |entries|);
    PerFuncHeaders(pcList, naming, fdes, |fdes|);
    LookupArmsSelect(entries, |entries|);
    FixedPiecesEmpty(HeaderKind);
    FixedPiecesEmpty(ArmKind);
    SelectSandwich([ContextStruct, Prelude], funcs, [LookupHeader], arms, [LookupFooter], HeaderKind);
    SelectSandwich([ContextStruct, Prelude], funcs, [LookupHeader], arms, [LookupFooter], ArmKind);
  }

  lemma FixedPiecesEmpty(keep: Kind)
    requires keep != LabelKind
    ensures Select([ContextStruct, Prelude], keep) == []
    ensures Select([LookupHeader], keep) == [] && Select([LookupFooter], keep) == []
    ensures Select([FuncFooter], keep) == []
  {
    SelectNone([ContextStruct, Prelude], keep);
    SelectNone([LookupHeader], keep);
    SelectNone([LookupFooter], keep);
    SelectNone([FuncFooter], keep);
  }

  /** Selecting from an output whose fixed pieces hold nothing of the kind. */
  lemma SelectSandwich(head: seq<Item>, funcs: seq<Item>, l: seq<Item>, arms: seq<Item>, r: seq<Item>, keep: Kind)
    requires Select(head, keep) == [] && Select(l, keep) == [] && Select(r, keep) == []
    ensures Select(head + funcs + (l + arms + r), keep) == Select(funcs, keep) + Select(arms, keep)
  {
    SelectConcat(head + funcs, l + arms + r, keep);
    SelectConcat(head, funcs, keep);
    SelectConcat(l + arms, r, keep);
    SelectConcat(l, arms, keep);
  }

  /** Naming is injective over the FDE list. */
  predicate InjectiveNaming(naming: Fde -> string, fdes: seq<Fde>) {
    forall i, j :: 0 <= i < |fdes| && 0 <= j < |fdes| && naming(fdes[i]) == naming(fdes[j]) ==> i == j
  }

  /**
   * With an injective naming scheme, each FDE's routine name appears in exactly one
   * lookup arm, and that arm dispatches that FDE's range.
   */
  lemma LookupRoundTrip(pcList: Option<seq<nat>>, naming: Fde -> string, dwarf: SimpleDwarf, k: nat)
    requires ListArgsOk(pcList, dwarf.fdeList) && InjectiveNaming(naming, dwarf.fdeList)
    requires Generate(SwitchPerFunc, pcList, naming, dwarf).Ok?
    requires k < |dwarf.fdeList|
    ensures var arms := Arms(Generate(SwitchPerFunc, pcList, naming, dwarf).value);
      var fde := dwarf.fdeList[k];
      && (forall j :: 0 <= j < |arms| && arms[j].LookupArm? && arms[j].name == naming(fde) ==> j == k)
      && k < |arms| && arms[k] == LookupArm(fde.begIp, fde.endIp - 1, naming(fde))
  {
    PerFuncOutput(pcList, naming, dwarf);
  }

  /** Global policy: a single routine, `_eh_elf`, and no lookup arms. */
  lemma {:induction false} GlobalOutput(pcList: Option<seq<nat>>, naming: Fde -> string, dwarf: SimpleDwarf)
    requires ListArgsOk(pcList, dwarf.fdeList)
    requires Generate(GlobalSwitch, pcList, naming, dwarf).Ok?
    ensures Headers(Generate(GlobalSwitch, pcList, naming, dwarf).value) == [FuncHeader(EhElfName)]
    ensures Arms(Generate(GlobalSwitch, pcList, naming, dwarf).value) == []
  {
    var fdes := dwarf.fdeList;
    GenerateGlobalUnfold(pcList, naming, dwarf);
    GlobalNoMarkers(pcList, fdes, |fdes|);
    var body := GlobalItems(pcList, fdes, |fdes|).value;
    var h := FuncHeader(EhElfName);
    FixedPiecesEmpty(HeaderKind);
    FixedPiecesEmpty(ArmKind);
    SelectOne(h, HeaderKind);
    SelectOne(h, ArmKind);
    SelectFramed([ContextStruct, Prelude], h, body, FuncFooter, HeaderKind);
    SelectFramed([ContextStruct, Prelude], h, body, FuncFooter, ArmKind);
  }

  /** Selecting from a routine framed by fixed pieces that select nothing. */
  lemma SelectFramed(head: seq<Item>, h: Item, body: seq<Item>, f: Item, keep: Kind)
    requires Select(head, keep) == [] && Select(body, keep) == [] && Select([f], keep) == []
    ensures Select(head + ([h] + body) + [f], keep) == Select([h], keep)
  {
    SelectConcat(head + ([h] + body), [f], keep);
    SelectConcat(head, [h] + body, keep);
    SelectConcat([h], body, keep);
  }

  lemma {:induction false} GlobalNoMarkers(pcList: Option<seq<nat>>, fdes: seq<Fde>, n: nat)
    requires ListArgsOk(pcList, fdes) && n <= |fdes|
    requires GlobalItems(pcList, fdes, n).Ok?
    ensures Headers(GlobalItems(pcList, fdes, n).value) == []
    ensures Arms(GlobalItems(pcList, fdes, n).value) == []
    decreases n
  {
    if n > 0 {
      GlobalNoMarkers(pcList, fdes, n - 1);
      assert FdeArgsOk(pcList, fdes[n - 1]);
      SwitchPartNoMarkers(pcList, fdes[n - 1]);
      SelectConcat(GlobalItems(pcList, fdes, n - 1).value, SwitchPart(pcList, fdes[n - 1]).value, HeaderKind);
      SelectConcat(GlobalItems(pcList, fdes, n - 1).value, SwitchPart(pcList, fdes[n - 1]).value, ArmKind);
    }
  }
}
