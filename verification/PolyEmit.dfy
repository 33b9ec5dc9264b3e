/** The Poly1305 code generator: what its loops emit is the code whose meaning
    the other Poly modules establish. */
module PolyEmit {
  import opened Mips
  import opened PolyBlocks
  import opened PolyUpdate

  /** The routine before and after the block loop, and the loop body. */
  method WritePolyBlocks(macc: bool) returns (entry: seq<Instr>, body: seq<Instr>, exit: seq<Instr>)
    ensures entry == Arguments() + LoadState() && body == BlockBody(macc) && exit == StoreState()
  {
    hide LoadChain, Rows, Columns, AddChain, ShiftChain, Loads, Stores;
    var h := WriteLoads(0, 3, 5);
    var r := WriteLoads(24, 16, 4);
    entry := Arguments() + (h + r);
    var chain := WriteLoadChain();
    var absorb := [Move(0, 24)] + chain + [Addu(24, 7), Addiu(1, 7)];
    var product := [];
    if macc {
      product := WriteMacc();
    } else {
      product := WriteRows();
    }
    var fold := WriteFold();
    var shift := WriteShift();
    body := absorb + (product + ((TakeLow + fold + (shift + fold)) + Advance()));
    var stores := WriteStores();
    exit := [Larg(0, 20)] + (stores + [Sw(0, 20, 20)]);
  }

  method WriteLoads(off: nat, dst: nat, n: nat) returns (out: seq<Instr>)
    requires off + 4 * n <= 40 && dst + n <= 20 && dst > 0
    ensures out == Loads(off, dst, n)
  {
    out := [];
    for i := 0 to n
      invariant out == Loads(off, dst, i)
    {
      out := out + [Lw(off + i * 4, 20, dst + i)];
    }
  }

  method WriteStores() returns (out: seq<Instr>)
    ensures out == Stores(5)
  {
    out := [];
    for i := 0 to 5
      invariant out == Stores(i)
    {
      out := out + [Sw(3 + i, i * 4, 20)];
    }
  }

  method WriteLoadChain() returns (out: seq<Instr>)
    ensures out == LoadChain(4)
  {
    out := [];
    for i := 0 to 4
      invariant out == LoadChain(i)
    {
      out := out + ([Lwl(i * 4 + 3, 1, 20), Lwr(i * 4, 1, 20)] + AddCarry(3 + i, 20));
    }
  }

  method WriteFold() returns (out: seq<Instr>)
    ensures out == FoldIn()
  {
    var chain := [];
    for i := 0 to 4
      invariant chain == AddChain(i)
    {
      chain := chain + AddCarry(3 + i, 12 + i);
    }
    out := [Move(0, 24)] + chain + [Addu(24, 7)];
  }

  method WriteShift() returns (out: seq<Instr>)
    ensures out == ShiftChain(4)
  {
    out := [];
    for i := 0 to 4
      invariant out == ShiftChain(i)
    {
      var step := [Srl(2, 12 + i)];
      if i < 3 {
        step := step + [Sll(30, 13 + i, 20), Or(20, 12 + i, 12 + i)];
      }
      out := out + step;
    }
  }

  method WriteRows() returns (out: seq<Instr>)
    ensures out == Rows(4)
  {
    out := [];
    for j := 0 to 4
      invariant out == Rows(j)
    {
      var row := [];
      for i := 0 to 4
        invariant row == RowSteps(j, i)
      {
        var step := [Multu(16 + j, 3 + i), Mflo(20), Mfhi(21)];
        if j != 0 {
          step := step + [Addu(8 + i + j, 20), Sgtu(8 + i + j, 20, 25), Addu(25, 21)];
        }
        if i != 0 {
          step := step + [Addu(24, 20), Sgtu(24, 20, 25), Addu(25, 21)];
        }
        step := step + [Move(20, 8 + i + j), Move(21, 24)];
        assert step == RowStep(j, i);
        row := row + step;
      }
      out := out + (row + [Multu(16 + j, 7), Mflo(20), Addu(24, 20), Move(20, 12 + j)]);
    }
  }

  method WriteColumn(c: nat) returns (out: seq<Instr>)
    requires c < 8
    ensures out == Column(c)
  {
    var terms := [];
    for h := 0 to 5
      invariant terms == ColumnTerms(c, h)
    {
      var r := c - h;
      if 0 <= r < 4 {
        terms := terms + [Maddu(3 + h, 16 + r)];
      }
    }
    out := [Mtlo(24), Mthi(0)] + terms + [Mflo(8 + c), Mfhi(24)];
  }

  method WriteMacc() returns (out: seq<Instr>)
    ensures out == Columns(8)
  {
    hide Column;
    out := [Move(0, 24)];
    for c := 0 to 8
      invariant out == Columns(c)
    {
      var column := WriteColumn(c);
      out := out + column;
    }
  }
}
