/** The T-states each opcode is charged, as one table over opcode bytes. */
module CpuTiming {
  import opened CpuArith
  import opened CpuModel
  import opened CpuLaws

  /** The states of an opcode, given the flags it starts with. */
  function StatesOf(op: byte, cc: Flags): nat {
    if op in RETURNS then (if Met(op, cc) then 12 else 6)
    else if op in JUMPS then (if Met(op, cc) then 10 else 7)
    else if op in CALLS then (if Met(op, cc) && op != 0xC4 then 18 else 9)
    else if op in {0x02, 0x0A, 0x10, 0x12, 0x1A, 0x46, 0x4E, 0x56, 0x5E, 0x66, 0x6E, 0x70, 0x71, 0x72, 0x73, 0x74, 0x75,
              0x77, 0x7E, 0x86, 0x8E, 0x96, 0x9E, 0xA6, 0xAE, 0xB6, 0xBE, 0xC6, 0xCE, 0xD6, 0xDE, 0xE6, 0xEE, 0xF6, 0xFE} then 7
    else if op in {0x03, 0x0B, 0x13, 0x1B, 0x23, 0x2B, 0x33, 0x3B, 0xE9, 0xF9} then 6
    else if op in {0x06, 0x08, 0x09, 0x0E, 0x16, 0x18, 0x19, 0x1E, 0x26, 0x28, 0x29, 0x2E, 0x31, 0x34, 0x35, 0x36, 0x38,
                   0x39, 0x3E, 0xC1, 0xC3, 0xC9, 0xD1, 0xD3, 0xD9, 0xDB, 0xE1, 0xED, 0xF1} then 10
    else if op in {0x22, 0x2A, 0xE3} then 16
    else if op in {0x32, 0x3A, 0xC5, 0xD5, 0xE5, 0xF5} then 13
    else if op == 0x76 then 5
    else if op in {0xC7, 0xCF, 0xD7, 0xDF, 0xE7, 0xEF, 0xF7, 0xFF} then 12
    else if op == 0xCD then 18
    else if op == 0xCB then (if cc.v then 12 else 6)
    else if op == 0xDD then (if cc.x5 then 7 else 10)
    else if op == 0xFD then (if cc.x5 then 10 else 7)
    else 4
  }

  lemma LowStates(env: Env, c: Cpu, row: nat, column: nat, imm1: byte, imm2: byte)
    requires row < 8 && column < 8
    ensures ExecLow(env, c, row, column, imm1, imm2).states == StatesOf(8 * row + column, c.cc)
  {
    hide ExecLow, StatesOf;
    if column < 3 {
      LeftStates(env, c, row, column, imm1, imm2);
    } else {
      RightStates(env, c, row, column, imm1, imm2);
    }
  }

  lemma LeftStates(env: Env, c: Cpu, row: nat, column: nat, imm1: byte, imm2: byte)
    requires row < 8 && column < 3
    ensures ExecLow(env, c, row, column, imm1, imm2).states == StatesOf(8 * row + column, c.cc)
  {
    hide SetPair, Store, Load, Word, Wrap, Dsub, Arhl, Rdel, Rim, Sim, Met, Skip, ExecInxDcx, ExecIncDecMove, ExecAccumulator;
  }

  lemma RightStates(env: Env, c: Cpu, row: nat, column: nat, imm1: byte, imm2: byte)
    requires row < 8 && 3 <= column < 8
    ensures ExecLow(env, c, row, column, imm1, imm2).states == StatesOf(8 * row + column, c.cc)
  {
    hide SetReg, SetPair, Wrap, Increment, Decrement, Rotate, DecimalAdjust, Met, Skip, SetAlu, ExecMisc, ExecLxiDad, ExecDirect;
  }

  lemma MiddleStates(env: Env, c: Cpu, op: byte, imm1: byte, imm2: byte)
    requires 0x40 <= op < 0xC0
    ensures Exec(env, c, op, imm1, imm2).states == StatesOf(op, c.cc)
  {
    hide ExecLow, ExecHigh, SetReg, AluOp, Reg, Met;
  }

  lemma HighStates(env: Env, c: Cpu, row: nat, column: nat, imm1: byte, imm2: byte)
    requires row < 8 && column in {1, 3, 5, 6, 7}
    ensures ExecHigh(env, c, row, column, imm1, imm2).states == StatesOf(0xC0 + 8 * row + column, c.cc)
  {
    hide SetPair, Store, Load, Word, Wrap, PushWord, TopWord, FlagsOf, AluOp, Met, Skip, PushPair, ExecConditional;
  }

  /** Main result: all 256 opcodes, conditional ones taken or not. */
  lemma StatesCharged(env: Env, c: Cpu, op: byte, imm1: byte, imm2: byte)
    ensures Exec(env, c, op, imm1, imm2).states == StatesOf(op, c.cc)
  {
    hide ExecLow, ExecHigh, ExecMove, AluOp, StatesOf, Met, Exec;
    var row, column := op / 8 % 8, op % 8;
    if op < 0x40 {
      LowDispatch(env, c, op, imm1, imm2);
      LowStates(env, c, row, column, imm1, imm2);
    } else if op < 0xC0 {
      MiddleStates(env, c, op, imm1, imm2);
    } else if column in {0, 2, 4} {
      ConditionalCode(op);
      if op in RETURNS {
        ReturnsConditionally(env, c, op, imm1, imm2);
      } else if op in JUMPS {
        JumpsConditionally(env, c, op, imm1, imm2);
      } else {
        CallsConditionally(env, c, op, imm1, imm2);
      }
      ConditionalStates(op, c.cc);
    } else {
      HighDispatch(env, c, op, imm1, imm2);
      HighStates(env, c, row, column, imm1, imm2);
    }
  }

  lemma LowDispatch(env: Env, c: Cpu, op: byte, imm1: byte, imm2: byte)
    requires op < 0x40
    ensures Exec(env, c, op, imm1, imm2) == ExecLow(env, c, op / 8 % 8, op % 8, imm1, imm2)
    ensures 8 * (op / 8 % 8) + op % 8 == op
  {
    hide ExecLow;
  }

  lemma HighDispatch(env: Env, c: Cpu, op: byte, imm1: byte, imm2: byte)
    requires op >= 0xC0
    ensures Exec(env, c, op, imm1, imm2) == ExecHigh(env, c, op / 8 % 8, op % 8, imm1, imm2)
    ensures 0xC0 + 8 * (op / 8 % 8) + op % 8 == op
  {
    hide ExecHigh;
  }

  lemma ConditionalCode(op: byte)
    requires op >= 0xC0 && op % 8 in {0, 2, 4}
    ensures op in RETURNS || op in JUMPS || op in CALLS
  {
  }

  lemma ConditionalStates(op: byte, cc: Flags)
    ensures op in RETURNS ==> StatesOf(op, cc) == if Met(op, cc) then 12 else 6
    ensures op in JUMPS ==> StatesOf(op, cc) == if Met(op, cc) then 10 else 7
    ensures op in CALLS ==> StatesOf(op, cc) == if Met(op, cc) && op != 0xC4 then 18 else 9
  {
    hide Met;
  }
}
