/** The ChaCha20 code generator: its loops over groups, steps and quarters emit
    the code whose meaning the other ChaCha modules establish. */
module ChaChaEmit {
  import opened Mips
  import opened ChaCha20
  import opened ChaChaBlocks
  import opened ChaChaStream

  /** The batch routine between its labels and branches: arguments, counter,
      state load, round count, one double round, the alignment test, both outputs,
      and the step to the next block. */
  method WriteBlockAssembly() returns (
      entry: seq<Instr>, counter: seq<Instr>, load: seq<Instr>, rounds: seq<Instr>, round: seq<Instr>,
      align: seq<Instr>, aligned: seq<Instr>, unaligned: seq<Instr>, next: seq<Instr>)
    ensures entry == EntryCode() && counter == [Lw(48, 17, 25)] && load == LoadCode(16)
    ensures rounds == [Li(10, 20)] && round == RoundCode() && align == AlignCode()
    ensures aligned == OutputCode(16, true) && unaligned == OutputCode(16, false) && next == NextCode()
  {
    hide LoadCode, GroupCode, OutputCode;
    entry := [Larg(0, 17), Larg(1, 18), Larg(2, 19)];
    entry := entry + [Larg(3, 24)];
    counter := [Lw(48, 17, 25)];
    rounds := [Li(10, 20)];
    align := [Or(18, 19, 21), Andi(3, 21, 21)];
    next := [Addiu(64, 18), Addiu(64, 19), Addiu(1, 25), Subiu(1, 24)];
    load := WriteLoad();
    round := [];
    RoundCodeUnfold();
    var columns := WriteGroup(COLUMNS);
    var diagonals := WriteGroup(DIAGONALS);
    round := columns + diagonals + [Subiu(1, 20)];
    aligned := WriteOutput(true);
    unaligned := WriteOutput(false);
  }

  method WriteLoad() returns (out: seq<Instr>)
    ensures out == LoadCode(16)
  {
    out := [];
    for i := 0 to 16
      invariant out == LoadCode(i)
    {
      if i == 12 {
        out := out + [Move(25, 13)];
      } else {
        out := out + [Lw(i * 4, 17, i + 1)];
      }
    }
  }

  method WriteGroup(g: Group) returns (out: seq<Instr>)
    requires ProperGroup(g)
    ensures out == GroupCode(g, 12)
  {
    out := [];
    for n := 0 to 12
      invariant out == GroupCode(g, n)
    {
      var step := WriteStep(STEPS[n], g);
      out := out + step;
    }
  }

  method WriteStep(s: StepOp, g: Group) returns (out: seq<Instr>)
    requires ProperGroup(g)
    ensures out == StepCode(s, g)
  {
    var quarters := [g.w, g.x, g.y, g.z];
    out := [];
    for i := 0 to 4
      invariant i <= 4
      invariant i == 0 ==> out == []
      invariant i == 1 ==> out == [StepInstr(s, g.w)]
      invariant i == 2 ==> out == [StepInstr(s, g.w)] + [StepInstr(s, g.x)]
      invariant i == 3 ==> out == [StepInstr(s, g.w)] + [StepInstr(s, g.x)] + [StepInstr(s, g.y)]
      invariant i == 4 ==> out == StepCode(s, g)
    {
      out := out + [StepInstr(s, quarters[i])];
    }
  }

  method WriteOutput(aligned: bool) returns (out: seq<Instr>)
    ensures out == OutputCode(16, aligned)
  {
    hide WordCode;
    out := [];
    for i := 0 to 16
      invariant out == OutputCode(i, aligned)
    {
      var word := WriteWord(i, aligned);
      out := out + word;
    }
  }

  method WriteWord(i: nat, aligned: bool) returns (out: seq<Instr>)
    requires i < 16
    ensures out == WordCode(i, aligned)
  {
    var off := i * 4;
    if aligned {
      out := if i == 12 then [Move(25, 20)] else [Lw(off, 17, 20)];
      out := out + [Lw(off, 19, 21)] + [Addu(20, i + 1), Xor(i + 1, 21)] + [Sw(21, off, 18)];
    } else {
      out := if i == 12 then [Move(25, 21)] else [Lw(off, 17, 21)];
      out := out + [Addu(21, i + 1)] + [Lwl(off + 3, 19, 21), Lwr(off, 19, 21)] + [Xor(i + 1, 21)]
             + [Swl(21, off + 3, 18), Swr(21, off, 18)];
    }
  }
}
