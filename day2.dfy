/** The stand-alone add/mul/halt machine of src/bin/day2.rs. It works on a
    borrowed memory vector (here an array) and `ip`, the index of the next instruction; every
    step reads the three words after ip before it looks at the opcode. */
module Day2 {
  import opened Wrappers
  import opened RustInt
  import IntCode

  /** The ways `step` panics. */
  datatype Failure = OutOfBounds | BadOpcode | Overflow

  /** A snapshot of the machine. */
  datatype Config = Config(ip: nat, memory: seq<i64>)

  /** What one step does: `Ok((true, next))` after Add or Mul, `Ok((false, c))`
      on Halt. */
  function StepSpec(c: Config): (r: Result<(bool, Config), Failure>)
    ensures r.Ok? ==> |r.value.1.memory| == |c.memory|
  {
    var mem := c.memory;
    if c.ip + 3 >= |mem| then Err(OutOfBounds)
    else
      var opcode := mem[c.ip];
      var imm1, imm2, imm3 := mem[c.ip + 1], mem[c.ip + 2], mem[c.ip + 3];
      if opcode == 1 || opcode == 2 then
        if AsUsize(imm1) >= |mem| || AsUsize(imm2) >= |mem| then Err(OutOfBounds)
        else
          var a: int, b: int := mem[AsUsize(imm1)], mem[AsUsize(imm2)];
          var value: int := if opcode == 1 then a + b else a * b;
          if !InI64(value) then Err(Overflow)
          else if AsUsize(imm3) >= |mem| then Err(OutOfBounds)
          else Ok((true, Config(c.ip + 4, mem[AsUsize(imm3) := value])))
      else if opcode == 99 then Ok((false, c))
      else Err(BadOpcode)
  }

  /** Halt answers false and changes nothing; Add and Mul answer true, write
      only the cell `memory[ip + 3]` names, and advance ip by 4. */
  lemma StepEffects(c: Config)
    requires StepSpec(c).Ok?
    ensures var (more, next) := StepSpec(c).value;
      && c.ip + 3 < |c.memory|
      && (c.memory[c.ip] == 99 <==> !more)
      && (!more ==> next == c)
      && (more ==>
            && c.memory[c.ip] in {1, 2}
            && next.ip == c.ip + 4
            && var dst := AsUsize(c.memory[c.ip + 3]);
            && dst < |c.memory|
            && next.memory[dst] == (if c.memory[c.ip] == 1 then c.memory[AsUsize(c.memory[c.ip + 1])] + c.memory[AsUsize(c.memory[c.ip + 2])]
                                    else c.memory[AsUsize(c.memory[c.ip + 1])] * c.memory[AsUsize(c.memory[c.ip + 2])])
            && forall i | 0 <= i < |c.memory| && i != dst :: next.memory[i] == c.memory[i])
  {
  }

  /** Even Halt needs the three words after it; any opcode other than 1, 2
      and 99 is a failure. */
  lemma StepFailures(c: Config)
    ensures c.ip + 3 >= |c.memory| ==> StepSpec(c) == Err(OutOfBounds)
    ensures c.ip + 3 < |c.memory| && c.memory[c.ip] !in {1, 2, 99} ==> StepSpec(c) == Err(BadOpcode)
  {
  }

  /** The Intcode machine this one grew into, started at the same ip. */
  function AsIntCode(c: Config): IntCode.Machine {
    IntCode.Machine(c.ip, true, None, None, c.memory)
  }

  /** Wherever this machine steps successfully, the Intcode machine of
      src/intcode.rs does the same thing: opcodes 1 and 2 with mode digits 0
      read their sources by position, and 99 halts. */
  lemma StepAgreesWithIntCode(c: Config)
    requires StepSpec(c).Ok?
    ensures var (more, next) := StepSpec(c).value;
      IntCode.Advance(AsIntCode(c)) ==
        Ok(if more then AsIntCode(next) else AsIntCode(c).(running := false))
  {
    var op := c.memory[c.ip];
    assert op in {1, 2, 99} && c.ip + 3 < |c.memory|;
    assert Rem(op, 100) == op && Rem(Quot(op, 100), 10) == 0 && Rem(Quot(op, 1_000), 10) == 0 by {
      QuotRemNonNegative(op, 100);
      QuotRemNonNegative(Quot(op, 100), 10);
      QuotRemNonNegative(op, 1_000);
      QuotRemNonNegative(Quot(op, 1_000), 10);
    }
    if op == 99 {
      assert IntCode.Decode(c.memory, c.ip) == Ok(IntCode.Halt);
    } else {
      var src1 := c.memory[AsUsize(c.memory[c.ip + 1])];
      var src2 := c.memory[AsUsize(c.memory[c.ip + 2])];
      var dst := c.memory[c.ip + 3];
      assert IntCode.Decode(c.memory, c.ip) ==
        Ok(if op == 1 then IntCode.Add(src1, src2, dst) else IntCode.Mul(src1, src2, dst));
    }
  }

  datatype Outcome = Finished(final: Config) | Failed(failure: Failure) | OutOfFuel(current: Config)

  /** `run` (`while self.step() {}`) with at most `fuel` steps. */
  function RunSpec(c: Config, fuel: nat): (r: Outcome)
    ensures r.Finished? ==> StepSpec(r.final) == Ok((false, r.final))
    decreases fuel
  {
    if fuel == 0 then OutOfFuel(c)
    else
      match StepSpec(c)
      case Err(f) => Failed(f)
      case Ok((more, next)) => if more then RunSpec(next, fuel - 1) else Finished(c)
  }

  /** One step of the run, with the rest of the budget. */
  lemma RunSpecUnroll(c: Config, fuel: nat)
    requires fuel > 0
    ensures StepSpec(c).Err? ==> RunSpec(c, fuel) == Failed(StepSpec(c).error)
    ensures StepSpec(c).Ok? && !StepSpec(c).value.0 ==> RunSpec(c, fuel) == Finished(c)
    ensures StepSpec(c).Ok? && StepSpec(c).value.0 ==> RunSpec(c, fuel) == RunSpec(StepSpec(c).value.1, fuel - 1)
  {
  }

  /** The run stops at the first step that answers false: once it finishes
      within some budget, every larger budget finishes the same way. */
  lemma {:induction false} RunSpecMoreFuel(c: Config, fuel: nat, more: nat)
    requires !RunSpec(c, fuel).OutOfFuel?
    ensures RunSpec(c, fuel + more) == RunSpec(c, fuel)
    decreases fuel
  {
    match StepSpec(c)
    case Err(_) =>
    case Ok((again, next)) =>
      if again {
        RunSpecMoreFuel(next, fuel - 1, more);
      }
  }

  /** The machine of `IntCodeState`: ip and the memory it borrows. */
  class IntCodeState {
    var ip: nat
    const memory: array<i64>

    constructor (memory: array<i64>)
      ensures this.memory == memory && ip == 0
    {
      ip := 0;
      this.memory := memory;
    }

    function Current(): Config
      reads this, memory
    {
      Config(ip, memory[..])
    }

    /** `step`: fails on the panics of the source, and otherwise answers and
        updates ip and memory as `StepSpec` says. */
    method Step() returns (r: Result<bool, Failure>)
      modifies this, memory
      ensures r.Ok? <==> StepSpec(old(Current())).Ok?
      ensures r.Ok? ==> r.value == StepSpec(old(Current())).value.0 &&
                        Current() == StepSpec(old(Current())).value.1
      ensures r.Err? ==> r.error == StepSpec(old(Current())).error && Current() == old(Current())
    {
      if ip + 3 >= memory.Length {
        return Err(OutOfBounds);
      }
      var opcode := memory[ip];
      var imm1, imm2, imm3 := memory[ip + 1], memory[ip + 2], memory[ip + 3];
      if opcode == 1 || opcode == 2 {
        var i1, i2, i3 := AsUsize(imm1), AsUsize(imm2), AsUsize(imm3);
        if i1 >= memory.Length || i2 >= memory.Length {
          return Err(OutOfBounds);
        }
        var a: int, b: int := memory[i1], memory[i2];
        var value := if opcode == 1 then a + b else a * b;
        if !InI64(value) {
          return Err(Overflow);
        }
        if i3 >= memory.Length {
          return Err(OutOfBounds);
        }
        memory[i3] := value;
        ip := ip + 4;
        r := Ok(true);
      } else if opcode == 99 {
        r := Ok(false);
      } else {
        r := Err(BadOpcode);
      }
    }

    /** `run`, for at most `fuel` steps. */
    method Run(fuel: nat) returns (r: Outcome)
      modifies this, memory
      ensures r == RunSpec(old(Current()), fuel)
      ensures r.Finished? || r.OutOfFuel? ==> Current() == (if r.Finished? then r.final else r.current)
    {
      var left: nat := fuel;
      while true
        invariant left <= fuel
        invariant RunSpec(Current(), left) == RunSpec(old(Current()), fuel)
        decreases left
      {
        if left == 0 {
          return OutOfFuel(Current());
        }
        ghost var before := Current();
        RunSpecUnroll(before, left);
        var more := Step();
        if more.Err? {
          return Failed(more.error);
        }
        if !more.value {
          return Finished(Current());
        }
        left := left - 1;
      }
    }
  }

  // ------------------------------------------------------------ test vectors

  lemma StepExample()
    ensures StepSpec(Config(0, [1, 4, 5, 6, 10, 20, 0])) == Ok((true, Config(4, [1, 4, 5, 6, 10, 20, 30])))
    ensures StepSpec(Config(0, [2, 4, 5, 6, 10, 20, 30])) == Ok((true, Config(4, [2, 4, 5, 6, 10, 20, 200])))
  {
    assert [1, 4, 5, 6, 10, 20, 0][6 := 30] == [1, 4, 5, 6, 10, 20, 30];
    assert [2, 4, 5, 6, 10, 20, 30][6 := 200] == [2, 4, 5, 6, 10, 20, 200];
  }

  lemma RunExample()
    ensures RunSpec(Config(0, [1, 9, 10, 3, 2, 3, 11, 0, 99, 30, 40, 50]), 3) ==
      Finished(Config(8, [3500, 9, 10, 70, 2, 3, 11, 0, 99, 30, 40, 50]))
  {
    var c0 := Config(0, [1, 9, 10, 3, 2, 3, 11, 0, 99, 30, 40, 50]);
    var c1 := Config(4, [1, 9, 10, 70, 2, 3, 11, 0, 99, 30, 40, 50]);
    var c2 := Config(8, [3500, 9, 10, 70, 2, 3, 11, 0, 99, 30, 40, 50]);
    RunExampleSteps(c0, c1, c2);
    assert RunSpec(c2, 1) == Finished(c2);
    assert RunSpec(c1, 2) == RunSpec(c2, 1);
    assert RunSpec(c0, 3) == RunSpec(c1, 2);
  }

  lemma RunExampleSteps(c0: Config, c1: Config, c2: Config)
    requires c0 == Config(0, [1, 9, 10, 3, 2, 3, 11, 0, 99, 30, 40, 50])
    requires c1 == Config(4, [1, 9, 10, 70, 2, 3, 11, 0, 99, 30, 40, 50])
    requires c2 == Config(8, [3500, 9, 10, 70, 2, 3, 11, 0, 99, 30, 40, 50])
    ensures StepSpec(c0) == Ok((true, c1)) && StepSpec(c1) == Ok((true, c2)) && StepSpec(c2) == Ok((false, c2))
  {
    assert c0.memory[3 := 70] == c1.memory;
    assert c1.memory[0 := 3500] == c2.memory;
  }
}
