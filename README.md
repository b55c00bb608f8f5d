# dwarf-assembly core in Dafny

dwarf-assembly compiles the DWARF call-frame information of an ELF binary
(DWARF 4, section 6.4, with the register rules of section 6.4.1) into C routines.
Each routine unwinds one stack frame on x86-64. The pipeline has two passes, and this
project models both:

- **The reader** (`DwarfReader`, in `DwarfReader.dfy`). It walks the decoded FDEs
  (frame description entries) and their rows. It keeps only the CFA, rbp and
  return-address columns of each row and produces the simplified `SimpleDwarf` model
  (`SimpleDwarf.dfy`). A raw register id is classified as the return address when it
  equals the CIE's return-address column. Otherwise it is classified by the x86-64
  numbering of section 3.6.2 of the System V AMD64 psABI (rip 16, rsp 7, rbp 6).
- **The generator** (`CodeGenerator`, in `CodeGenerator.dfy`). It walks the model and
  emits a `switch (pc)`:
  - each row governs the address range from its own `ip` up to the next row's `ip`
    minus one, or up to `end_ip - 1` for the last row;
  - for each row it emits a case label for that range, narrowed to the addresses of an
    optional sorted PC list;
  - then it emits the assignments `rsp <- cfa`, `rbp <- rbp` and `rip <- ra`, then a
    return.

  There are two policies. One emits a routine per FDE plus a `_fde_lookup` dispatch
  table. The other emits one global `_eh_elf` routine.

C++ exceptions become `Result` values (`Wrappers.dfy`):

| exception | raised by |
|---|---|
| `InvalidDwarf` | the reader |
| `UnsupportedRegister` | the reader |
| `InvalidPcList` | the generator |
| `NotImplementedCase` | the generator |

The output stream is modelled as an append-only sequence of structured items, not as
text. The items are case labels, assignments of rendered expressions, returns, routine
headers and footers, and lookup arms.

The code is modelled in the form it has:

- `read`, `read_fde` and the `gen_*` members become methods with loops. The generator
  methods belong to a `Generator` class whose `os` field is the stream.
- `from_dwarfpp_reg`, `read_register` and `ctx_of_dw_name` become functions.
- Each method is proved equal to a specification function. For the generator methods,
  that covers both the output and, on error, the exception raised.
- `GeneratorProperties.dfy` proves what the output means:
  - the dispatch ranges of an FDE partition it;
  - the PC-list narrowing yields exactly the listed addresses inside each range;
  - running a row's code computes each register rule from the CFA the row sets first;
  - the lookup table dispatches each FDE's range to its own routine;
  - the policies fail on exactly the same inputs.

The generated code has no runtime outcome flags, no memory-dereference callback and no
error flag for an unknown PC. The model follows the code, which:

- emits plain assignments and a return for each row;
- reads memory directly with `*((uintptr_t*)(out_ctx.rsp + offset))`;
- ends every switch with `default: assert(0)`;
- raises `NotImplementedCase` from generation on a register rule with an rip or
  return-address base. Such a rule is not turned into a runtime flag.

## Model

| member | source | states |
|---|---|---|
| DwarfReader.FromDwarfppReg | src/DwarfReader.cpp:113-130 | The return-address column wins over the fixed table. Otherwise 16, 7 and 6 are rip, rsp and rbp. Every other id is `UnsupportedRegister`, in both directions. |
| DwarfReader.ClassifyRoundTrip | src/DwarfReader.cpp:118-126 | Every role is recovered from its own id, as long as that id is not also the return-address column. |
| DwarfReader.ReadRegister | src/DwarfReader.cpp:81-111 | Mapping of rule kinds: register-plus-offset becomes `Register`, carrying the offset and the base classified with the default return-address register; saved-at-CFA-offset becomes `CfaOffset` with its offset; indeterminate and undefined become `Undefined`; every other kind becomes `NotImplemented`. The undefined, CFA-offset and not-implemented cases hold in both directions. An unsupported base register is the only error. |
| DwarfReader.ApplyCell | src/DwarfReader.cpp:45-66 | One cell fails only if it is a CFA cell with an untranslatable rule. A CFA cell stores its translated rule as `cfa`. An rbp-classified cell stores its translated rule as `rbp`, and a return-address-classified cell stores its rule as `ra`; when that rule does not translate, the exception is caught and the rule is left as it was. Only these cells change their field, every other cell leaves the row unchanged, and the `ip` is never changed. |
| DwarfReader.ApplyCells | src/DwarfReader.cpp:45-66 | The cells applied in order keep the row's `ip`. |
| DwarfReader.ReadRow | src/DwarfReader.cpp:39-74 | A row read successfully starts at its interval's lower bound and has a CFA rule that is set. |
| DwarfReader.ReadRows | src/DwarfReader.cpp:38-75 | A successful read has one row per decoded row. |
| DwarfReader.ReadRowsElements | src/DwarfReader.cpp:38-75 | Row `i` of a successful read is the reading of decoded row `i`, in order. |
| DwarfReader.ReadFdes | src/DwarfReader.cpp:21-24 | A successful read has one FDE per decoded FDE. |
| DwarfReader.ReadFdesElements | src/DwarfReader.cpp:21-24 | FDE `k` of a successful read is the reading of decoded FDE `k`. |
| DwarfReader.ReadFde | src/DwarfReader.cpp:29-78 | The loops over rows and cells compute the specification of the FDE, including which error is raised first. |
| DwarfReader.Read | src/DwarfReader.cpp:17-27 | The loop over FDEs computes the specification of the whole read. |
| DwarfReader.CellErrorAborts | src/DwarfReader.cpp:46-48 | An error on a prefix of a row's cells is the error of the whole row. |
| DwarfReader.RowErrorAborts | src/DwarfReader.cpp:68-72 | An error on a prefix of the rows is the error of the whole FDE. |
| DwarfReader.FdeErrorAborts | src/DwarfReader.cpp:21-24 | An error on a prefix of the FDEs is the error of the whole read. |
| DwarfReader.ApplyCellsMeaning | src/DwarfReader.cpp:45-66 | A row's cells fail, with `UnsupportedRegister`, if and only if some CFA cell has an untranslatable rule. Otherwise the last CFA cell decides `cfa`, the last translatable rbp cell decides `rbp` and the last translatable return-address cell decides `ra`. |
| DwarfReader.ReadRowMeaning | src/DwarfReader.cpp:46-72 | A row fails with `InvalidDwarf` if and only if its cells translate and its CFA rule is missing, undefined or indeterminate. It fails with `UnsupportedRegister` if and only if a CFA cell has an unsupported base. On success its rules are the last ones set, with `Undefined` where none is. |
| DwarfReader.Kept | src/DwarfReader.cpp:49-64 | Every kept cell is a cell of the row that is not dropped. A dropped cell is neither a CFA, an rbp nor a return-address cell. |
| DwarfReader.DroppedCellsIgnored | src/DwarfReader.cpp:49-64 | Removing rsp, rip and unsupported cells does not change the result. |
| DwarfReader.ReadFdeShape | src/DwarfReader.cpp:31-74 | A successful read has `begIp == lowPc` and `endIp == lowPc + funcLength`, and one row per decoded row, in order. Each row's `ip` is its interval's lower bound, and its CFA rule is set. |
| DwarfReader.ReadRowsFirstFailure | src/DwarfReader.cpp:68-72 | An FDE reads if and only if all its rows read. Otherwise its error is the first failing row's, and no partial FDE exists. |
| DwarfReader.ReadFdesFirstFailure | src/DwarfReader.cpp:21-26 | `read` succeeds if and only if every FDE reads. Otherwise it yields the first failing FDE's error and no `SimpleDwarf`. |
| DwarfReader.ReadModelHasCfa | src/DwarfReader.cpp:68-74 | Every row of a successfully read model has a CFA rule that is set. |
| CodeGenerator.CtxOfDwName | src/CodeGenerator.cpp:148-160 | rsp maps to `ctx.rsp` and rbp maps to `ctx.rbp`. rip and the return address raise `NotImplementedCase`, in both directions. |
| CodeGenerator.RegExpr | src/CodeGenerator.cpp:162-180 | Rendering fails exactly for a register rule based on rip or on the return address. |
| CodeGenerator.LowerBound | src/CodeGenerator.cpp:129-132 | `std::lower_bound` gives a position inside the list or at its end. |
| CodeGenerator.LowerBoundIsFirst | src/CodeGenerator.cpp:129-132 | It is the first position whose element is at least the bound. |
| CodeGenerator.UpperBound | src/CodeGenerator.cpp:133-136 | `std::upper_bound` gives a position inside the list or at its end. |
| CodeGenerator.UpperBoundIsFirst | src/CodeGenerator.cpp:133-136 | It is the first position whose element is greater than the bound. |
| CodeGenerator.BoundsOrdered | src/CodeGenerator.cpp:129-142 | On a sorted list and a range that is not inverted, `first_it` does not pass `last_it`, so the label loop terminates. |
| CodeGenerator.Literals | src/CodeGenerator.cpp:142-143 | One literal label per address. |
| CodeGenerator.CaseItems | src/CodeGenerator.cpp:123-146 | The only error of `gen_case` is `InvalidPcList`. |
| CodeGenerator.RowArgsOk | src/CodeGenerator.cpp:94-96 | Under the no-wrap preconditions, a row's upper bound is an address and satisfies what `gen_case` needs. |
| CodeGenerator.Entries | src/CodeGenerator.cpp:38-50 | One lookup entry is recorded per FDE. |
| CodeGenerator.EntriesAre | src/CodeGenerator.cpp:42-46 | Entry `k` is `(naming(fde), begIp, endIp)` of FDE `k`, in FDE order. |
| CodeGenerator.ListEntriesOk | src/CodeGenerator.cpp:41-46 | Every recorded entry ends at an address of at least 1, so `entry.end - 1` does not wrap. |
| CodeGenerator.Generator.constructor | src/CodeGenerator.cpp:15-25 | The generator holds the model, the PC list and the naming scheme, and its stream is empty. |
| CodeGenerator.Generator.GenOfDwarf | src/CodeGenerator.cpp:31-65 | The stream grows by exactly the output of the chosen policy, after the context structure and the prelude. On error, the exception is the specification's error and the stream has only grown. |
| CodeGenerator.Generator.GenPerFuncPolicy | src/CodeGenerator.cpp:36-54 | It appends one routine per FDE, then the lookup routine over the recorded entries. On error it returns the first failing routine's error. |
| CodeGenerator.Generator.GenFunctions | src/CodeGenerator.cpp:38-51 | The loop appends each FDE's routine in order and returns exactly the recorded entries `Entries(naming, fdes)`. |
| CodeGenerator.Generator.GenGlobalPolicy | src/CodeGenerator.cpp:55-63 | It appends the `_eh_elf` header, every FDE's switch part in order, then the footer. |
| CodeGenerator.Generator.GenUnwindFuncHeader | src/CodeGenerator.cpp:67-73 | It appends one routine-header marker with the given name. |
| CodeGenerator.Generator.GenUnwindFuncFooter | src/CodeGenerator.cpp:75-79 | It appends one trapping-default footer marker. |
| CodeGenerator.Generator.GenFunctionOfFde | src/CodeGenerator.cpp:81-87 | It appends a header named by the naming scheme, the switch part and the footer. |
| CodeGenerator.Generator.GenSwitchpartOfFde | src/CodeGenerator.cpp:89-100 | It appends each row's code with its upper bound, which is the next row's `ip` minus one, or `endIp - 1` for the last row. The first failing row's error is returned. |
| CodeGenerator.Generator.GenOfRow | src/CodeGenerator.cpp:102-121 | It appends the labels, then `out_ctx.rsp`, `out_ctx.rbp` and `out_ctx.rip` in that order, then a return, or it fails as `RowItems` does. |
| CodeGenerator.Generator.GenCase | src/CodeGenerator.cpp:123-146 | The iterator loop appends a literal for each position from `first_it` up to `last_it`, and one range label without a list. When nothing is at or above the low bound it raises `InvalidPcList` and appends nothing. |
| CodeGenerator.Generator.GenOfReg | src/CodeGenerator.cpp:162-180 | It appends one assignment of the rendered expression, or appends nothing and raises `NotImplementedCase`. |
| CodeGenerator.Generator.GenLookup | src/CodeGenerator.cpp:182-193 | It appends the lookup header, one arm `[beg, end - 1] -> name` per entry in order, and the trapping default. |
| CodeGenerator.SwitchRowFails | src/CodeGenerator.cpp:92-99 | A failing row's error is the error of the whole switch part. |
| CodeGenerator.SwitchErrorAborts | src/CodeGenerator.cpp:92-99 | An error on a prefix of the rows is the switch part's error. |
| CodeGenerator.GlobalErrorAborts | src/CodeGenerator.cpp:58-60 | An error on a prefix of the FDEs is the global routine's error. |
| CodeGenerator.PerFuncErrorAborts | src/CodeGenerator.cpp:41-50 | An error on a prefix of the FDEs is the per-function policy's error. |
| GeneratorProperties.InRange | src/CodeGenerator.cpp:129-143 | Reference list: the listed addresses `v` with `low <= v <= high`, in list order. |
| GeneratorProperties.BoundsSelectInRange | src/CodeGenerator.cpp:129-143 | On a sorted list, the positions from `lower_bound(low)` to `upper_bound(high)` hold exactly those addresses. |
| GeneratorProperties.CaseWithoutList | src/CodeGenerator.cpp:124-127 | With no PC list, `gen_case` emits exactly the range label `[low, high]`. |
| GeneratorProperties.CaseWithList | src/CodeGenerator.cpp:129-143 | `InvalidPcList` is raised if and only if no listed address is at or above `low`. Otherwise the labels are the literals of the listed addresses in `[low, high]`, which may be none. |
| GeneratorProperties.InRangeMembers | src/CodeGenerator.cpp:129-143 | An address is in the reference list if and only if it is listed and lies in `[low, high]`. |
| GeneratorProperties.InRangeStrictlySorted | src/CodeGenerator.cpp:129-143 | A strictly ascending list yields a strictly ascending reference list. |
| GeneratorProperties.CaseNarrowed | src/CodeGenerator.cpp:129-143 | With a sorted, duplicate-free list, every label is a literal. A literal `v` is emitted if and only if `v` is listed and `low <= v <= high`, and the labels strictly ascend. |
| GeneratorProperties.RegExprMeaning | src/CodeGenerator.cpp:162-180 | Each rendered expression evaluates to the value the generated code assigns for its rule (`RuleValue`), with `out_ctx.rsp` as the CFA: base plus offset; a load at CFA plus offset; the all-ones `uintptr_t` for undefined; a trap for not implemented. |
| GeneratorProperties.CaseItemsAreLabels | src/CodeGenerator.cpp:123-146 | `gen_case` emits only labels. |
| GeneratorProperties.ExecTail | src/CodeGenerator.cpp:108-120 | The three assignments and the return run in order, each seeing the earlier results, and a trap stops them. |
| GeneratorProperties.RowComputesRules | src/CodeGenerator.cpp:106-120 | Running a row's code sets rsp to the CFA rule's value. rbp and rip are then computed with that CFA, so a rule saved at CFA plus offset reads the caller's frame. Any trapping rule makes the row trap. |
| GeneratorProperties.RowLabels | src/CodeGenerator.cpp:106 | The labels of a row's code are exactly what `gen_case` emitted. |
| GeneratorProperties.SwitchLabelsAreRanges | src/CodeGenerator.cpp:92-99 | With no PC list, an FDE's switch part has one range label per row, in row order. Row `i`'s label is `[rows[i].ip, rows[i+1].ip - 1]`, or ends at `endIp - 1` for the last row. |
| GeneratorProperties.SwitchLabelsWithList | src/CodeGenerator.cpp:92-99 | With a PC list, the switch part's labels are each row's in-range listed addresses, in row order. |
| GeneratorProperties.ListLabelsInRows | src/CodeGenerator.cpp:92-99 | Every literal emitted for an FDE lies inside the range of one of its rows. |
| GeneratorProperties.RangesContiguous | src/CodeGenerator.cpp:92-99 | For strictly ascending rows, each range is non-empty and ends just before the next one starts, and the last ends at `endIp - 1`. |
| GeneratorProperties.RangesDisjoint | src/CodeGenerator.cpp:92-99 | The ranges of two different rows never share an address. |
| GeneratorProperties.RangesCoverFrom | src/CodeGenerator.cpp:92-99 | Every address from `begIp` up to the start of row `n`, or up to `endIp` when `n` is the last row, lies in the range of one of rows `0..n-1`. |
| GeneratorProperties.RangesPartition | src/CodeGenerator.cpp:92-99 | Each address in `[begIp, endIp)` lies in exactly one row's range, and no range reaches outside `[begIp, endIp)`. |
| GeneratorProperties.PoliciesFailAlike | src/CodeGenerator.cpp:35-63 | The loops of the two policies fail on exactly the same FDE lists, with the same first error. |
| GeneratorProperties.GenerateFailsAlike | src/CodeGenerator.cpp:35-63 | The whole output of both policies fails on exactly the same models, with the same error. |
| GeneratorProperties.RowNoMarkers | src/CodeGenerator.cpp:102-121 | A row's code holds no routine header and no lookup arm. |
| GeneratorProperties.SwitchRowsNoMarkers | src/CodeGenerator.cpp:92-99 | The code of any number of rows holds none either. |
| GeneratorProperties.SwitchPartNoMarkers | src/CodeGenerator.cpp:89-100 | A switch part holds no routine header and no lookup arm. |
| GeneratorProperties.FuncNames | src/CodeGenerator.cpp:41-48 | Reference list: one routine header `naming(fde)` per FDE, in order. |
| GeneratorProperties.FunctionSelected | src/CodeGenerator.cpp:81-87 | A routine per FDE holds exactly one header, with its own name, and no lookup arm. |
| GeneratorProperties.PerFuncHeaders | src/CodeGenerator.cpp:41-50 | The routines of the first `n` FDEs have the headers `FuncNames` and no lookup arm. |
| GeneratorProperties.LookupArmsAre | src/CodeGenerator.cpp:185-189 | The lookup has one arm per entry, in order, each `[beg, end - 1] -> name`. |
| GeneratorProperties.LookupArmsSelect | src/CodeGenerator.cpp:185-189 | The lookup arms contain no routine header. |
| GeneratorProperties.PerFuncSelected | src/CodeGenerator.cpp:36-54 | The per-function output's headers are `FuncNames`, and its arms are the lookup arms of the recorded entries. |
| GeneratorProperties.PerFuncOutput | src/CodeGenerator.cpp:41-52 | The per-function output defines one routine per FDE, named by the naming scheme, in FDE order. Its lookup has one arm `[begIp, endIp - 1] -> naming(fde)` per FDE, in the same order. |
| GeneratorProperties.LookupRoundTrip | src/CodeGenerator.cpp:185-188 | With an injective naming scheme, each FDE's name appears in exactly one lookup arm, and that arm dispatches that FDE's range. |
| GeneratorProperties.GlobalOutput | src/CodeGenerator.cpp:55-63 | The global policy defines a single routine, `_eh_elf`, and no lookup arm. |
| GeneratorProperties.GlobalNoMarkers | src/CodeGenerator.cpp:58-60 | The concatenated switch parts hold no routine header and no lookup arm. |

## Left out

- The `DwarfReader` constructor, the file it opens, and the DWARF library calls (`get_frame_section`, `decode`, `find_cie`) are not modelled, because they are file I/O and a foreign library. Their results are the input: a sequence of `DecodedFde` values, each carrying `lowPc`, `funcLength`, the CIE's return-address register and its decoded rows.
- The decoded cells of a row are a sequence. The source iterates a `std::set` ordered by column, so where more than one cell has the same role, the model's "last cell wins" is the set's order.
- The PC list is not read from `settings::pc_list` with `PcListReader`, because that is file I/O. It is an explicit `Option<seq<nat>>` given to the generator. The switch-generation policy is a parameter, not a global setting.
- The naming scheme is an abstract function `Fde -> string`. `LookupRoundTrip` assumes it is injective over the FDE list.
- The exact text is not modelled: `CONTEXT_STRUCT_STR`, `PRELUDE`, hexadecimal formatting, `endl`, and the FDE comment of `gen_switchpart_of_fde`. Output is a sequence of structured items. `gen_unwind_func_header` and `gen_unwind_func_footer` are single marker items.
- `DW_FRAME_CFA_COL3` is taken as 1436, as libdwarf defines it. The x86-64 ids are the psABI numbers. The proofs depend only on these four constants being distinct.
- The header that declares `from_dwarfpp_reg` is not part of this model, so the default return-address argument used by `read_register`'s one-argument call is not shown. The model takes it to be -1, which matches no real column. A register-plus-offset base of 16 is therefore classified as rip, not as the return address.
- `DwRegister`'s default is also in an unshown header. The model takes it to be `Undefined`, as the "not set" check of `read_fde` implies.
- `uintptr_t` wrap-around is not modelled. Addresses are unbounded naturals, and the generator's callers must meet `NoWrap` (`end_ip >= 1`, and every row after the first has `ip >= 1`), so `end_ip - 1` and `ip - 1` never wrap. `low_pc + func_length` is not reduced modulo 2^64.
- CodeGenerator.Generator.GenCase: requires, when a PC list is given, that the list be sorted and the range not inverted (`low <= high + 1`). `std::lower_bound` and `upper_bound` are only defined on sorted input. Without this, the loop from `first_it` to `last_it` need not terminate. For the same reason, with a PC list the FDE's rows must be ordered (`Ordered`).
- On error, the generator methods promise only that the stream has grown, not what it has grown by. The source has already written part of the output to the caller's stream when it throws; the model does not say what that part is.
- CodeGenerator.Generator.GenOfReg: also appends the `out_ctx.<reg> = ` prefix and the `;` that `gen_of_row` writes around each `gen_of_reg` call. The row-level contract of `GenOfRow` is unaffected.
- CodeGenerator.Generator.GenOfDwarf: the two policy arms of the source's `switch` are the methods `GenPerFuncPolicy` and `GenGlobalPolicy`. The per-function loop is `GenFunctions`. The structure is otherwise the same.
- GeneratorProperties.RowComputesRules: the execution semantics of the emitted C (`EvalExpr`, `ExecBody`) is a small reference model:
  - integers are unbounded;
  - memory is a total function;
  - `assert(0)` is a trap.

  It does not model C's wrap-around of `uintptr_t` arithmetic.
- `generate` only calls `gen_of_dwarf` and is not modelled separately.
