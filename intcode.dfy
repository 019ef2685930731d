/** The Intcode processor of src/intcode.rs: a fetch/decode/execute machine
    over a fixed-length memory of 64-bit words, with Position and Immediate
    parameter modes, one input slot that is read but never consumed, and one
    output slot that every Out overwrites.

    The meaning of each operation is given by pure functions over a snapshot
    of the processor (`Machine`); the class `IntCodeCpu` holds the same state
    in fields and its methods are proved to change it exactly as those
    functions say. A Rust panic (an index out of range, `unwrap` of `None`,
    an arithmetic overflow, a bad opcode) is an `Err(Fault)`. */
module IntCode {
  import opened Wrappers
  import opened RustInt
  import Text

  datatype ParameterMode = Position | Immediate

  datatype Instruction =
    | Add(src1: i64, src2: i64, dst: i64)
    | Mul(src1: i64, src2: i64, dst: i64)
    | In(dst: i64)
    | Out(src: i64)
    | JumpNotZero(cond: i64, target: i64)
    | JumpZero(cond: i64, target: i64)
    | LessThan(src1: i64, src2: i64, dst: i64)
    | Equals(src1: i64, src2: i64, dst: i64)
    | Halt

  /** The ways the Rust code panics. */
  datatype Fault =
    | BadNumber          // a program token that is not an i64
    | OutOfBounds        // a memory index outside the vector
    | BadOpcode(opcode: int)
    | NoInput            // `self.input.unwrap()` on `None`
    | Overflow           // i64 overflow in Add or Mul

  /** All state of one processor. */
  datatype Machine = Machine(
    ip: nat,
    running: bool,
    input: Option<i64>,
    output: Option<i64>,
    memory: seq<i64>)

  /** The numeric opcode an instruction is decoded from. */
  function Opcode(inst: Instruction): int {
    match inst
    case Add(_, _, _) => 1
    case Mul(_, _, _) => 2
    case In(_) => 3
    case Out(_) => 4
    case JumpNotZero(_, _) => 5
    case JumpZero(_, _) => 6
    case LessThan(_, _, _) => 7
    case Equals(_, _, _) => 8
    case Halt => 99
  }

  predicate WritesMemory(inst: Instruction) {
    inst.Add? || inst.Mul? || inst.In? || inst.LessThan? || inst.Equals?
  }

  /** Offset, from the instruction word, of the destination operand. */
  function DestinationOffset(inst: Instruction): nat
    requires WritesMemory(inst)
  {
    if inst.In? then 1 else 3
  }

  // ----------------------------------------------------------------- loading

  /** One program token: trimmed, then parsed as an i64. */
  function ParseToken(token: string): Option<i64> {
    var v := Text.ParseI64(Text.Trim(token));
    if v.Some? then Some(v.value as i64) else None
  }

  /** `collect` into a vector of the `unwrap`-ed words: all of them, or
      `BadNumber` for the first that did not parse. */
  function Collect(parsed: seq<Option<i64>>): (r: Result<seq<i64>, Fault>)
    ensures r.Ok? <==> forall k | 0 <= k < |parsed| :: parsed[k].Some?
    ensures r.Ok? ==> |r.value| == |parsed| && forall k | 0 <= k < |parsed| :: parsed[k] == Some(r.value[k])
    ensures r.Err? ==> r.error == BadNumber
  {
    if parsed == [] then Ok([])
    else
      var rest := Collect(parsed[1..]);
      assert forall k | 1 <= k < |parsed| :: parsed[k] == parsed[1..][k - 1];
      if parsed[0].None? then Err(BadNumber)
      else if rest.Err? then rest
      else Ok([parsed[0].value] + rest.value)
  }

  /** The program text cut at every comma. */
  function Tokens(code: string): (tokens: seq<string>)
    ensures |tokens| >= 1 && Text.Join(tokens, ",") == code
  {
    Text.JoinSplit(code, ",");
    Text.Split(code, ",")
  }

  /** The memory image of `from_code`: the comma-separated, trimmed integers. */
  function ParseCode(code: string): (r: Result<seq<i64>, Fault>)
    ensures r.Ok? <==> forall k | 0 <= k < |Tokens(code)| :: ParseToken(Tokens(code)[k]).Some?
    ensures r.Ok? ==> |r.value| == |Tokens(code)|
    ensures r.Ok? ==> forall k | 0 <= k < |r.value| :: Some(r.value[k]) == ParseToken(Tokens(code)[k])
  {
    Collect(ParseEach(Tokens(code)))
  }

  /** `map` of the token parser over the tokens. */
  function ParseEach(tokens: seq<string>): (parsed: seq<Option<i64>>)
    ensures |parsed| == |tokens| && forall k | 0 <= k < |tokens| :: parsed[k] == ParseToken(tokens[k])
  {
    seq(|tokens|, k requires 0 <= k < |tokens| => ParseToken(tokens[k]))
  }

  /** The processor `from_code` builds around a memory image. */
  function Load(memory: seq<i64>): (m: Machine)
    ensures m.ip == 0 && m.running && m.input.None? && m.output.None?
    ensures m.memory == memory
  {
    Machine(0, true, None, None, memory)
  }

  // ---------------------------------------------------------------- decoding

  function Word(memory: seq<i64>, index: nat): (r: Result<i64, Fault>)
    ensures index < |memory| ==> r == Ok(memory[index])
    ensures index >= |memory| ==> r == Err(OutOfBounds)
  {
    if index < |memory| then Ok(memory[index]) else Err(OutOfBounds)
  }

  /** The mode of the parameter whose digit is `digit`: only 1 means Immediate. */
  function ModeOf(digit: int): (mode: ParameterMode)
    ensures mode == Immediate <==> digit == 1
  {
    if digit == 1 then Immediate else Position
  }

  /** `fetch_operand`: a Position operand is the word at address `raw` (the
      address is `raw as usize`, so a negative one is out of range), an
      Immediate operand is `raw` itself. */
  function FetchOperand(memory: seq<i64>, mode: ParameterMode, raw: i64): (r: Result<i64, Fault>)
    ensures mode == Immediate ==> r == Ok(raw)
    ensures mode == Position && 0 <= raw < |memory| ==> r == Ok(memory[raw])
    ensures mode == Position && raw >= |memory| ==> r == Err(OutOfBounds)
    ensures mode == Position && raw < 0 && |memory| <= I64_MAX ==> r == Err(OutOfBounds)
  {
    match mode
    case Position => Word(memory, AsUsize(raw))
    case Immediate => Ok(raw)
  }

  /** Operand `k` (1 or 2) of the instruction at `ip`, resolved by its mode digit. */
  function Source(memory: seq<i64>, ip: nat, k: nat): Result<i64, Fault>
    requires ip < |memory| && 1 <= k <= 2
  {
    var inst := memory[ip];
    var mode := ModeOf(if k == 1 then Rem(Quot(inst, 100), 10) else Rem(Quot(inst, 1_000), 10));
    var raw :- Word(memory, ip + k);
    FetchOperand(memory, mode, raw)
  }

  /** `fetch_and_decode`: opcode `word % 100`, parameter modes from the
      hundreds and thousands digits (Rust's truncating `/` and `%`), raw words
      for destinations. Reads memory and changes nothing. */
  function Decode(memory: seq<i64>, ip: nat): (r: Result<Instruction, Fault>)
    ensures ip >= |memory| ==> r == Err(OutOfBounds)
    ensures r.Ok? ==> ip < |memory| && Opcode(r.value) == Rem(memory[ip], 100)
    ensures ip < |memory| && Rem(memory[ip], 100) !in {1, 2, 3, 4, 5, 6, 7, 8, 99} ==>
      r == Err(BadOpcode(Rem(memory[ip], 100)))
    ensures r.Ok? && WritesMemory(r.value) ==>
      ip + DestinationOffset(r.value) < |memory| &&
      r.value.dst == memory[ip + DestinationOffset(r.value)]
  {
    if ip >= |memory| then Err(OutOfBounds)
    else
      var opcode := Rem(memory[ip], 100);
      if opcode == 1 || opcode == 2 || opcode == 7 || opcode == 8 then
        var src1 :- Source(memory, ip, 1);
        var src2 :- Source(memory, ip, 2);
        var dst :- Word(memory, ip + 3);
        Ok(if opcode == 1 then Add(src1, src2, dst)
           else if opcode == 2 then Mul(src1, src2, dst)
           else if opcode == 7 then LessThan(src1, src2, dst)
           else Equals(src1, src2, dst))
      else if opcode == 3 then
        var dst :- Word(memory, ip + 1);
        Ok(In(dst))
      else if opcode == 4 then
        var src :- Source(memory, ip, 1);
        Ok(Out(src))
      else if opcode == 5 || opcode == 6 then
        var cond :- Source(memory, ip, 1);
        var target :- Source(memory, ip, 2);
        Ok(if opcode == 5 then JumpNotZero(cond, target) else JumpZero(cond, target))
      else if opcode == 99 then Ok(Halt)
      else Err(BadOpcode(opcode))
  }

  /** The source operands of a decoded instruction are the words its mode
      digits select. */
  lemma DecodeOperands(memory: seq<i64>, ip: nat)
    requires Decode(memory, ip).Ok?
    ensures var inst := Decode(memory, ip).value;
      && ((inst.Add? || inst.Mul? || inst.LessThan? || inst.Equals?) ==>
            Ok(inst.src1) == Source(memory, ip, 1) && Ok(inst.src2) == Source(memory, ip, 2))
      && ((inst.JumpNotZero? || inst.JumpZero?) ==>
            Ok(inst.cond) == Source(memory, ip, 1) && Ok(inst.target) == Source(memory, ip, 2))
      && (inst.Out? ==> Ok(inst.src) == Source(memory, ip, 1))
  {
  }

  /** An instruction written with Immediate mode for every source operand. */
  function Assemble(inst: Instruction): (code: seq<i64>)
    ensures |code| > 0 && Rem(code[0], 100) == Opcode(inst)
  {
    match inst
    case Add(a, b, d) => [1101, a, b, d]
    case Mul(a, b, d) => [1102, a, b, d]
    case In(d) => [3, d]
    case Out(s) => [104, s]
    case JumpNotZero(c, t) => [1105, c, t]
    case JumpZero(c, t) => [1106, c, t]
    case LessThan(a, b, d) => [1107, a, b, d]
    case Equals(a, b, d) => [1108, a, b, d]
    case Halt => [99]
  }

  /** Decoding inverts assembling, wherever the instruction sits in memory. */
  lemma DecodeAssemble(prefix: seq<i64>, inst: Instruction, suffix: seq<i64>)
    ensures Decode(prefix + Assemble(inst) + suffix, |prefix|) == Ok(inst)
  {
    var memory := prefix + Assemble(inst) + suffix;
    var code := Assemble(inst);
    assert forall k | 0 <= k < |code| :: memory[|prefix| + k] == code[k];
    DecodeAssembled(memory, |prefix|, inst);
  }

  lemma DecodeAssembled(memory: seq<i64>, ip: nat, inst: Instruction)
    requires ip + |Assemble(inst)| <= |memory|
    requires forall k | 0 <= k < |Assemble(inst)| :: memory[ip + k] == Assemble(inst)[k]
    ensures Decode(memory, ip) == Ok(inst)
  {
    var code := Assemble(inst);
    assert memory[ip] == code[0];
    match inst
    case Add(a, b, d) =>
      ImmediateDigits(1101, 1);
      assert memory[ip + 1] == code[1] && memory[ip + 2] == code[2] && memory[ip + 3] == code[3];
    case Mul(a, b, d) =>
      ImmediateDigits(1102, 2);
      assert memory[ip + 1] == code[1] && memory[ip + 2] == code[2] && memory[ip + 3] == code[3];
    case LessThan(a, b, d) =>
      ImmediateDigits(1107, 7);
      assert memory[ip + 1] == code[1] && memory[ip + 2] == code[2] && memory[ip + 3] == code[3];
    case Equals(a, b, d) =>
      ImmediateDigits(1108, 8);
      assert memory[ip + 1] == code[1] && memory[ip + 2] == code[2] && memory[ip + 3] == code[3];
    case JumpNotZero(c, t) =>
      ImmediateDigits(1105, 5);
      assert memory[ip + 1] == code[1] && memory[ip + 2] == code[2];
    case JumpZero(c, t) =>
      ImmediateDigits(1106, 6);
      assert memory[ip + 1] == code[1] && memory[ip + 2] == code[2];
    case In(d) =>
      assert Rem(3, 100) == 3;
      assert memory[ip + 1] == code[1];
    case Out(src) =>
      assert Rem(104, 100) == 4 && Rem(Quot(104, 100), 10) == 1;
      assert memory[ip + 1] == code[1];
    case Halt =>
      assert Rem(99, 100) == 99;
  }

  /** The opcode and the two Immediate mode digits of an assembled word. */
  lemma ImmediateDigits(word: int, opcode: int)
    requires word == 1100 + opcode && 0 < opcode < 10
    ensures Rem(word, 100) == opcode && Rem(Quot(word, 100), 10) == 1 && Rem(Quot(word, 1_000), 10) == 1
  {
  }

  // --------------------------------------------------------------- execution

  /** Writes `value` to `memory[dst as usize]` and moves ip on by `width`. */
  function Store(m: Machine, dst: i64, value: int, width: nat): (r: Result<Machine, Fault>)
  {
    if !InI64(value) then Err(Overflow)
    else if AsUsize(dst) >= |m.memory| then Err(OutOfBounds)
    else Ok(m.(memory := m.memory[AsUsize(dst) := value], ip := m.ip + width))
  }

  /** `execute`: the effect of one decoded instruction. */
  function Perform(m: Machine, inst: Instruction): (r: Result<Machine, Fault>)
  {
    match inst
    case Add(a, b, dst) => Store(m, dst, a + b, 4)
    case Mul(a, b, dst) => Store(m, dst, a * b, 4)
    case In(dst) => if m.input.None? then Err(NoInput) else Store(m, dst, m.input.value, 2)
    case Out(src) => Ok(m.(output := Some(src), ip := m.ip + 2))
    case JumpNotZero(cond, target) => Ok(m.(ip := if cond != 0 then AsUsize(target) else m.ip + 3))
    case JumpZero(cond, target) => Ok(m.(ip := if cond == 0 then AsUsize(target) else m.ip + 3))
    case LessThan(a, b, dst) => Store(m, dst, if a < b then 1 else 0, 4)
    case Equals(a, b, dst) => Store(m, dst, if a == b then 1 else 0, 4)
    case Halt => Ok(m.(running := false))
  }

  /** The value an instruction that writes memory stores. */
  function StoredValue(m: Machine, inst: Instruction): int
    requires WritesMemory(inst) && (inst.In? ==> m.input.Some?)
  {
    match inst
    case Add(a, b, _) => a + b
    case Mul(a, b, _) => a * b
    case In(_) => m.input.value
    case LessThan(a, b, _) => if a < b then 1 else 0
    case Equals(a, b, _) => if a == b then 1 else 0
  }

  /** Add, Mul, In, LessThan and Equals write exactly the cell `dst` and no
      other, advance ip by their width and leave the rest of the state alone;
      they fail exactly on overflow, a missing input or a bad address. */
  lemma PerformWritesOnlyDestination(m: Machine, inst: Instruction)
    requires WritesMemory(inst)
    ensures var r := Perform(m, inst);
      && (inst.In? && m.input.None? ==> r == Err(NoInput))
      && ((inst.In? ==> m.input.Some?) && !InI64(StoredValue(m, inst)) ==> r == Err(Overflow))
      && ((inst.In? ==> m.input.Some?) && InI64(StoredValue(m, inst)) ==>
            (r.Ok? <==> 0 <= inst.dst < |m.memory| || (inst.dst < 0 && AsUsize(inst.dst) < |m.memory|)))
      && (r.Ok? ==>
            && AsUsize(inst.dst) < |m.memory|
            && |r.value.memory| == |m.memory|
            && r.value.memory[AsUsize(inst.dst)] == StoredValue(m, inst)
            && (forall i | 0 <= i < |m.memory| && i != AsUsize(inst.dst) :: r.value.memory[i] == m.memory[i])
            && r.value.ip == m.ip + DestinationOffset(inst) + 1
            && r.value.running == m.running
            && r.value.input == m.input
            && r.value.output == m.output)
  {
  }

  /** LessThan and Equals store 1 when their comparison holds and 0 otherwise. */
  lemma PerformComparisons(m: Machine, a: i64, b: i64, dst: i64)
    requires 0 <= dst < |m.memory|
    ensures Perform(m, LessThan(a, b, dst)).Ok?
    ensures Perform(m, LessThan(a, b, dst)).value.memory[dst] == 1 <==> a < b
    ensures Perform(m, LessThan(a, b, dst)).value.memory[dst] == 0 <==> !(a < b)
    ensures Perform(m, Equals(a, b, dst)).Ok?
    ensures Perform(m, Equals(a, b, dst)).value.memory[dst] == 1 <==> a == b
    ensures Perform(m, Equals(a, b, dst)).value.memory[dst] == 0 <==> a != b
  {
  }

  /** In reads the input slot without clearing it; Out overwrites the output
      slot and leaves memory alone; both advance ip by 2. */
  lemma PerformInputOutput(m: Machine, dst: i64, src: i64)
    ensures m.input.Some? && 0 <= dst < |m.memory| ==>
      Perform(m, In(dst)) == Ok(m.(memory := m.memory[dst := m.input.value], ip := m.ip + 2))
    ensures m.input.None? ==> Perform(m, In(dst)) == Err(NoInput)
    ensures Perform(m, Out(src)).Ok?
    ensures var r := Perform(m, Out(src)).value;
      r.output == Some(src) && r.memory == m.memory && r.input == m.input && r.ip == m.ip + 2
  {
  }

  /** JumpNotZero jumps iff its condition is non-zero, JumpZero iff it is zero;
      otherwise ip moves on by 3. Neither touches memory or the I/O slots. */
  lemma PerformJumps(m: Machine, cond: i64, target: i64)
    ensures Perform(m, JumpNotZero(cond, target)).Ok? && Perform(m, JumpZero(cond, target)).Ok?
    ensures var r := Perform(m, JumpNotZero(cond, target)).value;
      && (cond != 0 ==> r.ip == AsUsize(target))
      && (target >= 0 ==> (r.ip == target <==> (cond != 0 || m.ip + 3 == target)))
      && (cond == 0 ==> r.ip == m.ip + 3)
      && r.memory == m.memory && r.input == m.input && r.output == m.output && r.running == m.running
    ensures var r := Perform(m, JumpZero(cond, target)).value;
      && (cond == 0 ==> r.ip == AsUsize(target))
      && (target >= 0 ==> (r.ip == target <==> (cond == 0 || m.ip + 3 == target)))
      && (cond != 0 ==> r.ip == m.ip + 3)
      && r.memory == m.memory && r.input == m.input && r.output == m.output && r.running == m.running
  {
  }

  /** Halt clears `running` and changes nothing else; it is the only
      instruction that changes `running` at all. */
  lemma PerformHalt(m: Machine, inst: Instruction)
    ensures Perform(m, Halt) == Ok(m.(running := false))
    ensures Perform(m, inst).Ok? && !inst.Halt? ==> Perform(m, inst).value.running == m.running
  {
  }

  /** `step`: decode the instruction at ip, then execute it. */
  function Advance(m: Machine): (r: Result<Machine, Fault>)
    ensures r.Ok? ==> |r.value.memory| == |m.memory|
  {
    var inst :- Decode(m.memory, m.ip);
    Perform(m, inst)
  }

  datatype Stop = Halted | Faulted(fault: Fault) | OutOfFuel

  datatype Outcome = Outcome(stop: Stop, machine: Machine)

  /** `run` with at most `fuel` steps: steps while `running` holds. */
  function RunFor(m: Machine, fuel: nat): (r: Outcome)
    ensures r.stop == Halted ==> !r.machine.running
    ensures r.stop == OutOfFuel ==> r.machine.running
    ensures |r.machine.memory| == |m.memory|
  {
    RunWithFacts(Advance, m, fuel);
    RunWith(Advance, m, fuel)
  }

  /** The loop stops only on a halted machine or, out of fuel, on a running
      one, and keeps the memory's length when every step does. */
  lemma {:induction false} RunWithFacts(step: Machine -> Result<Machine, Fault>, m: Machine, fuel: nat)
    requires forall m0: Machine :: step(m0).Ok? ==> |step(m0).value.memory| == |m0.memory|
    ensures var r := RunWith(step, m, fuel);
      (r.stop == Halted ==> !r.machine.running) && (r.stop == OutOfFuel ==> r.machine.running) &&
      |r.machine.memory| == |m.memory|
    decreases fuel
  {
    if m.running && fuel > 0 && step(m).Ok? {
      RunWithFacts(step, step(m).value, fuel - 1);
    }
  }

  /** A run that stops (halts or faults) within `fuel` steps stops the same
      way with any larger budget: `run` is deterministic and the budget only
      cuts it short. */
  lemma {:induction false} RunForMoreFuel(m: Machine, fuel: nat, more: nat)
    requires RunFor(m, fuel).stop != OutOfFuel
    ensures RunFor(m, fuel + more) == RunFor(m, fuel)
  {
    RunWithMoreFuel(Advance, m, fuel, more);
  }

  /** The loop of `run` over any step function; `RunFor` is its instance
      for `Advance`. */
  function RunWith(step: Machine -> Result<Machine, Fault>, m: Machine, fuel: nat): Outcome
    decreases fuel
  {
    if !m.running then Outcome(Halted, m)
    else if fuel == 0 then Outcome(OutOfFuel, m)
    else
      match step(m)
      case Err(f) => Outcome(Faulted(f), m)
      case Ok(next) => RunWith(step, next, fuel - 1)
  }

  lemma {:induction false} RunWithMoreFuel(step: Machine -> Result<Machine, Fault>, m: Machine, fuel: nat, more: nat)
    requires RunWith(step, m, fuel).stop != OutOfFuel
    ensures RunWith(step, m, fuel + more) == RunWith(step, m, fuel)
    decreases fuel
  {
    if m.running && fuel > 0 {
      match step(m)
      case Err(_) =>
      case Ok(next) => RunWithMoreFuel(step, next, fuel - 1, more);
    }
  }

  /** One step of `run`, with the step's result given. */
  lemma RunForUnroll(m: Machine, fuel: nat, a: Result<Machine, Fault>)
    requires m.running && fuel > 0 && a == Advance(m)
    ensures RunFor(m, fuel) == if a.Err? then Outcome(Faulted(a.error), m) else RunFor(a.value, fuel - 1)
  {
  }

  /** A run halts only by executing a Halt instruction: when a running
      machine halts, the instruction at its final ip decodes to Halt. */
  lemma RunHaltsOnHalt(m: Machine, fuel: nat)
    requires m.running && RunFor(m, fuel).stop == Halted
    ensures Decode(RunFor(m, fuel).machine.memory, RunFor(m, fuel).machine.ip) == Ok(Halt)
  {
    forall m0: Machine | m0.running && Advance(m0).Ok? && !Advance(m0).value.running
      ensures Decode(Advance(m0).value.memory, Advance(m0).value.ip) == Ok(Halt)
    {
      HaltingStep(m0, Advance(m0).value);
    }
    RunWithHaltsOnHalt(Advance, m, fuel);
  }

  /** The loop over a step function that stops a machine only where `Halt`
      decodes ends where `Halt` decodes. */
  lemma {:induction false} RunWithHaltsOnHalt(step: Machine -> Result<Machine, Fault>, m: Machine, fuel: nat)
    requires forall m0: Machine | m0.running && step(m0).Ok? && !step(m0).value.running ::
      Decode(step(m0).value.memory, step(m0).value.ip) == Ok(Halt)
    requires m.running && RunWith(step, m, fuel).stop == Halted
    ensures Decode(RunWith(step, m, fuel).machine.memory, RunWith(step, m, fuel).machine.ip) == Ok(Halt)
    decreases fuel
  {
    var next := step(m).value;
    if next.running {
      RunWithHaltsOnHalt(step, next, fuel - 1);
    }
  }

  /** A step that stops the machine executed a Halt and changed nothing else. */
  lemma HaltingStep(m: Machine, next: Machine)
    requires Advance(m) == Ok(next) && m.running && !next.running
    ensures Decode(m.memory, m.ip) == Ok(Halt) && next == m.(running := false)
  {
    var d := Decode(m.memory, m.ip);
    assert d.Ok? && Perform(m, d.value) == Ok(next);
    PerformHalt(m, d.value);
  }


  // ------------------------------------------------------------ test vectors

  lemma StepAddMulExample()
    ensures Advance(Load([1, 4, 5, 6, 10, 20, 0])) ==
      Ok(Machine(4, true, None, None, [1, 4, 5, 6, 10, 20, 30]))
    ensures Advance(Load([2, 4, 5, 6, 10, 20, 30])) ==
      Ok(Machine(4, true, None, None, [2, 4, 5, 6, 10, 20, 200]))
  {
    StepAddExample(Load([1, 4, 5, 6, 10, 20, 0]), Machine(4, true, None, None, [1, 4, 5, 6, 10, 20, 30]));
    StepMulExample(Load([2, 4, 5, 6, 10, 20, 30]), Machine(4, true, None, None, [2, 4, 5, 6, 10, 20, 200]));
  }

  lemma StepAddExample(m: Machine, next: Machine)
    requires m == Load([1, 4, 5, 6, 10, 20, 0])
    requires next == Machine(4, true, None, None, [1, 4, 5, 6, 10, 20, 30])
    ensures Advance(m) == Ok(next)
  {
    assert m.memory[6 := 30] == next.memory;
  }

  lemma StepMulExample(m: Machine, next: Machine)
    requires m == Load([2, 4, 5, 6, 10, 20, 30])
    requires next == Machine(4, true, None, None, [2, 4, 5, 6, 10, 20, 200])
    ensures Advance(m) == Ok(next)
  {
    assert m.memory[6 := 200] == next.memory;
  }

  /** The day 2 example program: 30 + 40 is stored at 3, then 70 * 50 at 0. */
  lemma RunExample()
    ensures RunFor(Load([1, 9, 10, 3, 2, 3, 11, 0, 99, 30, 40, 50]), 3) ==
      Outcome(Halted, Machine(8, false, None, None, [3500, 9, 10, 70, 2, 3, 11, 0, 99, 30, 40, 50]))
  {
    var m0 := Load([1, 9, 10, 3, 2, 3, 11, 0, 99, 30, 40, 50]);
    var m1 := Machine(4, true, None, None, [1, 9, 10, 70, 2, 3, 11, 0, 99, 30, 40, 50]);
    var m2 := Machine(8, true, None, None, [3500, 9, 10, 70, 2, 3, 11, 0, 99, 30, 40, 50]);
    RunExampleAdd(m0, m1);
    RunExampleMul(m1, m2);
    RunExampleHalt(m2);
    assert RunFor(m2, 1) == RunFor(m2.(running := false), 0);
    assert RunFor(m1, 2) == RunFor(m2, 1);
    assert RunFor(m0, 3) == RunFor(m1, 2);
  }

  lemma RunExampleAdd(m0: Machine, m1: Machine)
    requires m0 == Load([1, 9, 10, 3, 2, 3, 11, 0, 99, 30, 40, 50])
    requires m1 == Machine(4, true, None, None, [1, 9, 10, 70, 2, 3, 11, 0, 99, 30, 40, 50])
    ensures Advance(m0) == Ok(m1)
  {
    assert m0.memory[3 := 70] == m1.memory;
  }

  lemma RunExampleMul(m1: Machine, m2: Machine)
    requires m1 == Machine(4, true, None, None, [1, 9, 10, 70, 2, 3, 11, 0, 99, 30, 40, 50])
    requires m2 == Machine(8, true, None, None, [3500, 9, 10, 70, 2, 3, 11, 0, 99, 30, 40, 50])
    ensures Advance(m1) == Ok(m2)
  {
    assert m1.memory[0 := 3500] == m2.memory;
  }

  lemma RunExampleHalt(m2: Machine)
    requires m2 == Machine(8, true, None, None, [3500, 9, 10, 70, 2, 3, 11, 0, 99, 30, 40, 50])
    ensures Advance(m2) == Ok(m2.(running := false))
  {
  }

  /** Parameter modes: `1002,4,3,4,33` multiplies the word at 4 by the
      immediate 3, storing 99 over it. */
  lemma ModesExample()
    ensures RunFor(Load([1002, 4, 3, 4, 33]), 2) ==
      Outcome(Halted, Machine(4, false, None, None, [1002, 4, 3, 4, 99]))
  {
    var m0 := Load([1002, 4, 3, 4, 33]);
    var m1 := Machine(4, true, None, None, [1002, 4, 3, 4, 99]);
    ModesExampleStep(m0, m1);
    assert RunFor(m1, 1) == RunFor(m1.(running := false), 0);
  }

  lemma ModesExampleStep(m0: Machine, m1: Machine)
    requires m0 == Load([1002, 4, 3, 4, 33])
    requires m1 == Machine(4, true, None, None, [1002, 4, 3, 4, 99])
    ensures Advance(m0) == Ok(m1) && Advance(m1) == Ok(m1.(running := false))
  {
    assert m0.memory[4 := 99] == m1.memory;
    assert Rem(1002, 100) == 2 && Rem(Quot(1002, 100), 10) == 0 && Rem(Quot(1002, 1_000), 10) == 1;
    assert Decode(m0.memory, 0) == Ok(Mul(33, 3, 4));
  }

  /** Immediate operands: `1101,100,-1,4,0` adds 100 and -1, storing 99
      over the last word, which then halts. */
  lemma ImmediateModesExample()
    ensures RunFor(Load([1101, 100, -1, 4, 0]), 2) ==
      Outcome(Halted, Machine(4, false, None, None, [1101, 100, -1, 4, 99]))
  {
    var m0 := Load([1101, 100, -1, 4, 0]);
    var m1 := Machine(4, true, None, None, [1101, 100, -1, 4, 99]);
    ImmediateModesExampleStep(m0, m1);
    assert RunFor(m1, 1) == RunFor(m1.(running := false), 0);
  }

  lemma ImmediateModesExampleStep(m0: Machine, m1: Machine)
    requires m0 == Load([1101, 100, -1, 4, 0])
    requires m1 == Machine(4, true, None, None, [1101, 100, -1, 4, 99])
    ensures Advance(m0) == Ok(m1) && Advance(m1) == Ok(m1.(running := false))
  {
    assert m0.memory[4 := 99] == m1.memory;
    ImmediateDigits(1101, 1);
    assert Decode(m0.memory, 0) == Ok(Add(100, -1, 4));
  }

  /** Input and output: `3,0,4,0,99` echoes its input to its output. */
  lemma EchoExample(x: i64)
    ensures var m := Load([3, 0, 4, 0, 99]).(input := Some(x));
      RunFor(m, 3) == Outcome(Halted, Machine(4, false, Some(x), Some(x), [x, 0, 4, 0, 99]))
  {
    var m0 := Load([3, 0, 4, 0, 99]).(input := Some(x));
    var m1 := Machine(2, true, Some(x), None, [x, 0, 4, 0, 99]);
    var m2 := Machine(4, true, Some(x), Some(x), [x, 0, 4, 0, 99]);
    assert m0.memory[0 := x] == m1.memory;
    assert Advance(m0) == Ok(m1);
    assert Advance(m1) == Ok(m2);
    assert Advance(m2) == Ok(m2.(running := false));
  }

  /** One step of machine `m0` gives `m1`, then one more gives `m2`. */
  predicate TwoSteps(m0: Machine, m1: Machine, m2: Machine) {
    Advance(m0) == Ok(m1) && Advance(m1) == Ok(m2)
  }

  /** Two steps of a run. */
  lemma RunTwo(m0: Machine, m1: Machine, m2: Machine, fuel: nat)
    requires fuel >= 2 && m0.running && m1.running && TwoSteps(m0, m1, m2)
    ensures RunFor(m0, fuel) == RunFor(m2, fuel - 2)
  {
    RunForUnroll(m0, fuel, Ok(m1));
    RunForUnroll(m1, fuel - 1, Ok(m2));
  }

  /** The comparison test programs store 1 when `x` compares true with 8:
      opcode 8 tests equality and opcode 7 tests "less than". */
  function Compared(op: i64, x: i64): i64 {
    if (if op == 8 then x == 8 else x < 8) then 1 else 0
  }

  /** Comparison in Position mode: `3,9,8,9,10,9,4,9,99,-1,8` outputs 1
      exactly when its input equals 8, and `3,9,7,9,10,9,4,9,99,-1,8`
      exactly when it is less than 8. */
  lemma PositionCompareExample(op: i64, x: i64)
    requires op == 7 || op == 8
    ensures var m := Load([3, 9, op, 9, 10, 9, 4, 9, 99, -1, 8]).(input := Some(x));
      RunFor(m, 5).stop == Halted &&
      RunFor(m, 5).machine.output == Some(Compared(op, x))
  {
    var m2 := PositionCompareFirstSteps(op, x);
    PositionCompareLastSteps(op, x, m2);
  }

  /** Its In and comparison steps. */
  lemma PositionCompareFirstSteps(op: i64, x: i64) returns (m2: Machine)
    requires op == 7 || op == 8
    ensures m2 == Machine(6, true, Some(x), None, [3, 9, op, 9, 10, 9, 4, 9, 99, Compared(op, x), 8])
    ensures RunFor(Load([3, 9, op, 9, 10, 9, 4, 9, 99, -1, 8]).(input := Some(x)), 5) == RunFor(m2, 3)
  {
    var m0 := Load([3, 9, op, 9, 10, 9, 4, 9, 99, -1, 8]).(input := Some(x));
    var m1 := Machine(2, true, Some(x), None, [3, 9, op, 9, 10, 9, 4, 9, 99, x, 8]);
    m2 := Machine(6, true, Some(x), None, [3, 9, op, 9, 10, 9, 4, 9, 99, Compared(op, x), 8]);
    PositionCompareInput(op, x, m0, m1);
    PositionCompareTest(op, x, m1, m2);
    RunTwo(m0, m1, m2, 5);
  }

  lemma PositionCompareInput(op: i64, x: i64, m0: Machine, m1: Machine)
    requires op == 7 || op == 8
    requires m0 == Load([3, 9, op, 9, 10, 9, 4, 9, 99, -1, 8]).(input := Some(x))
    requires m1 == Machine(2, true, Some(x), None, [3, 9, op, 9, 10, 9, 4, 9, 99, x, 8])
    ensures Advance(m0) == Ok(m1)
  {
    assert m0.memory[9 := x] == m1.memory;
  }

  lemma PositionCompareTest(op: i64, x: i64, m1: Machine, m2: Machine)
    requires op == 7 || op == 8
    requires m1 == Machine(2, true, Some(x), None, [3, 9, op, 9, 10, 9, 4, 9, 99, x, 8])
    requires m2 == Machine(6, true, Some(x), None, [3, 9, op, 9, 10, 9, 4, 9, 99, Compared(op, x), 8])
    ensures Advance(m1) == Ok(m2)
  {
    assert Decode(m1.memory, 2) == Ok(if op == 8 then Equals(x, 8, 9) else LessThan(x, 8, 9));
    assert m1.memory[9 := Compared(op, x)] == m2.memory;
  }

  /** Its Out and Halt steps. */
  lemma PositionCompareLastSteps(op: i64, x: i64, m2: Machine)
    requires m2 == Machine(6, true, Some(x), None, [3, 9, op, 9, 10, 9, 4, 9, 99, Compared(op, x), 8])
    ensures RunFor(m2, 3).stop == Halted && RunFor(m2, 3).machine.output == Some(Compared(op, x))
  {
    var m3 := m2.(ip := 8, output := Some(Compared(op, x)));
    assert TwoSteps(m2, m3, m3.(running := false));
    RunTwo(m2, m3, m3.(running := false), 3);
  }

  /** Comparison in Immediate mode: `3,3,1108,-1,8,3,4,3,99` outputs 1
      exactly when its input equals 8, and `3,3,1107,-1,8,3,4,3,99` exactly
      when it is less than 8. The input overwrites the first operand. */
  lemma ImmediateCompareExample(op: i64, x: i64)
    requires op == 7 || op == 8
    ensures var m := Load([3, 3, 1100 + op, -1, 8, 3, 4, 3, 99]).(input := Some(x));
      RunFor(m, 5).stop == Halted &&
      RunFor(m, 5).machine.output == Some(Compared(op, x))
  {
    var m2 := ImmediateCompareFirstSteps(op, x);
    ImmediateCompareLastSteps(op, x, m2);
  }

  /** Its In and comparison steps. */
  lemma ImmediateCompareFirstSteps(op: i64, x: i64) returns (m2: Machine)
    requires op == 7 || op == 8
    ensures m2 == Machine(6, true, Some(x), None, [3, 3, 1100 + op, Compared(op, x), 8, 3, 4, 3, 99])
    ensures RunFor(Load([3, 3, 1100 + op, -1, 8, 3, 4, 3, 99]).(input := Some(x)), 5) == RunFor(m2, 3)
  {
    var m0 := Load([3, 3, 1100 + op, -1, 8, 3, 4, 3, 99]).(input := Some(x));
    var m1 := Machine(2, true, Some(x), None, [3, 3, 1100 + op, x, 8, 3, 4, 3, 99]);
    m2 := Machine(6, true, Some(x), None, [3, 3, 1100 + op, Compared(op, x), 8, 3, 4, 3, 99]);
    ImmediateCompareInput(op, x, m0, m1);
    ImmediateCompareTest(op, x, m1, m2);
    RunTwo(m0, m1, m2, 5);
  }

  lemma ImmediateCompareInput(op: i64, x: i64, m0: Machine, m1: Machine)
    requires op == 7 || op == 8
    requires m0 == Load([3, 3, 1100 + op, -1, 8, 3, 4, 3, 99]).(input := Some(x))
    requires m1 == Machine(2, true, Some(x), None, [3, 3, 1100 + op, x, 8, 3, 4, 3, 99])
    ensures Advance(m0) == Ok(m1)
  {
    assert m0.memory[3 := x] == m1.memory;
  }

  lemma ImmediateCompareTest(op: i64, x: i64, m1: Machine, m2: Machine)
    requires op == 7 || op == 8
    requires m1 == Machine(2, true, Some(x), None, [3, 3, 1100 + op, x, 8, 3, 4, 3, 99])
    requires m2 == Machine(6, true, Some(x), None, [3, 3, 1100 + op, Compared(op, x), 8, 3, 4, 3, 99])
    ensures Advance(m1) == Ok(m2)
  {
    ImmediateDigits(1100 + op, op);
    assert Decode(m1.memory, 2) == Ok(if op == 8 then Equals(x, 8, 3) else LessThan(x, 8, 3));
    assert m1.memory[3 := Compared(op, x)] == m2.memory;
  }

  /** Its Out and Halt steps. */
  lemma ImmediateCompareLastSteps(op: i64, x: i64, m2: Machine)
    requires op == 7 || op == 8
    requires m2 == Machine(6, true, Some(x), None, [3, 3, 1100 + op, Compared(op, x), 8, 3, 4, 3, 99])
    ensures RunFor(m2, 3).stop == Halted && RunFor(m2, 3).machine.output == Some(Compared(op, x))
  {
    var m3 := m2.(ip := 8, output := Some(Compared(op, x)));
    assert TwoSteps(m2, m3, m3.(running := false));
    RunTwo(m2, m3, m3.(running := false), 3);
  }

  // --------------------------------------------------------------- processor

  /** The processor object: the same state as `Machine`, held in fields. */
  class IntCodeCpu {
    var ip: nat
    var running: bool
    var input: Option<i64>
    var output: Option<i64>
    var memory: seq<i64>

    function State(): Machine
      reads this
    {
      Machine(ip, running, input, output, memory)
    }

    constructor (memory: seq<i64>)
      ensures State() == Load(memory)
    {
      ip := 0;
      running := true;
      input := None;
      output := None;
      this.memory := memory;
    }

    /** `from_code`: fails exactly when some token is not an i64. */
    static method FromCode(code: string) returns (r: Result<IntCodeCpu, Fault>)
      ensures r.Err? <==> ParseCode(code).Err?
      ensures r.Ok? ==> fresh(r.value) && r.value.State() == Load(ParseCode(code).value)
    {
      var memory :- ParseCode(code);
      var cpu := new IntCodeCpu(memory);
      r := Ok(cpu);
    }

    /** Writes `value` to `memory[dst as usize]` and moves ip on by `width`. */
    method StoreAt(dst: i64, value: int, width: nat) returns (r: Result<(), Fault>)
      modifies this
      ensures r.Ok? <==> Store(old(State()), dst, value, width).Ok?
      ensures r.Ok? ==> State() == Store(old(State()), dst, value, width).value
      ensures r.Err? ==> r.error == Store(old(State()), dst, value, width).error && State() == old(State())
    {
      if !InI64(value) {
        return Err(Overflow);
      }
      var index := AsUsize(dst);
      if index >= |memory| {
        return Err(OutOfBounds);
      }
      memory := memory[index := value];
      ip := ip + width;
      r := Ok(());
    }

    /** `execute`: applies one decoded instruction to the fields. */
    method Execute(inst: Instruction) returns (r: Result<(), Fault>)
      modifies this
      ensures r.Ok? <==> Perform(old(State()), inst).Ok?
      ensures r.Ok? ==> State() == Perform(old(State()), inst).value
      ensures r.Err? ==> r.error == Perform(old(State()), inst).error && State() == old(State())
    {
      match inst
      case Add(a, b, dst) => r := StoreAt(dst, a + b, 4);
      case Mul(a, b, dst) => r := StoreAt(dst, a * b, 4);
      case In(dst) =>
        if input.None? {
          return Err(NoInput);
        }
        r := StoreAt(dst, input.value, 2);
      case Out(src) =>
        output := Some(src);
        ip := ip + 2;
        r := Ok(());
      case JumpNotZero(cond, target) =>
        if cond != 0 {
          ip := AsUsize(target);
        } else {
          ip := ip + 3;
        }
        r := Ok(());
      case JumpZero(cond, target) =>
        if cond == 0 {
          ip := AsUsize(target);
        } else {
          ip := ip + 3;
        }
        r := Ok(());
      case LessThan(a, b, dst) => r := StoreAt(dst, if a < b then 1 else 0, 4);
      case Equals(a, b, dst) => r := StoreAt(dst, if a == b then 1 else 0, 4);
      case Halt =>
        running := false;
        r := Ok(());
    }

    /** `step`: decodes the instruction at ip and executes it. */
    method Step() returns (r: Result<(), Fault>)
      modifies this
      ensures r.Ok? <==> Advance(old(State())).Ok?
      ensures r.Ok? ==> State() == Advance(old(State())).value
      ensures r.Err? ==> r.error == Advance(old(State())).error && State() == old(State())
    {
      var inst :- Decode(memory, ip);
      r := Execute(inst);
    }

    /** `run`: steps while the processor is running, here for at most `fuel`
        steps; the final state and the way it stopped are those of `RunFor`. */
    method Run(fuel: nat) returns (stop: Stop)
      modifies this
      ensures Outcome(stop, State()) == RunFor(old(State()), fuel)
    {
      var left := fuel;
      while running && left > 0
        invariant RunFor(State(), left) == RunFor(old(State()), fuel)
        decreases left
      {
        var r := Step();
        if r.Err? {
          return Faulted(r.error);
        }
        left := left - 1;
      }
      stop := if !running then Halted else OutOfFuel;
    }
  }
}
