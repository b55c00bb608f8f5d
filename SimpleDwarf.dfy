/**
 * The simplified call-frame model (`SimpleDwarf`) that the reader builds and the
 * generator consumes: per FDE, rows that say how to recover the CFA, the frame
 * pointer (rbp) and the return address.
 */
module SimpleDwarf {

  /** The register roles the model knows about. */
  datatype MachineRegister = RegRIP | RegRSP | RegRBP | RegRA

  /**
   * A register-recovery rule, one of four kinds. A default-constructed rule of the
   * source is `Undefined`.
   */
  datatype DwRegister =
    | Undefined
    | Register(reg: MachineRegister, offset: int)   // value is reg + offset
    | CfaOffset(offset: int)                        // saved in memory at CFA + offset
    | NotImplemented

  /** One row: from address `ip` on, how to compute the CFA, rbp and the return address. */
  datatype DwRow = DwRow(ip: nat, cfa: DwRegister, rbp: DwRegister, ra: DwRegister)

  /** One FDE: the half-open address range [begIp, endIp) and its rows in order. */
  datatype Fde = Fde(begIp: nat, endIp: nat, rows: seq<DwRow>)

  datatype SimpleDwarf = SimpleDwarf(fdeList: seq<Fde>)

  /** The empty row every decoded row starts from: all three rules unset. */
  function EmptyRow(ip: nat): DwRow {
    DwRow(ip, Undefined, Undefined, Undefined)
  }
}
